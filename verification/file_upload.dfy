/** The reusable upload hook of ai-tool/hooks/useFileUpload.ts: file
    validation against the limits of its kind, and the state the hook keeps
    (`file`, `preview`, `isDragging`) as select, drag and clear events change
    it. Each handler is a function from the state before the event to the
    state after it and the callbacks it fires, in order. */
module FileUpload {
  import opened Wrappers
  import opened Strings
  import opened ErrorMessages
  import opened FileConstants

  /** What the hook reads of a browser `File`. */
  datatype FileInfo = FileInfo(name: string, mimeType: string, size: nat)

  datatype Validation = Valid | Invalid(error: string)

  /** `getAllowedExtensionsString`: the extensions joined by ", " and
      upper-cased: the same text up to case, with no lower-case letter
      left. */
  function AllowedExtensionsString(l: FileLimits): (s: string)
    ensures |s| == |Join(l.allowedExtensions, ", ")|
    ensures ToLower(s) == ToLower(Join(l.allowedExtensions, ", "))
    ensures forall i :: 0 <= i < |s| ==> !('a' <= s[i] <= 'z')
  {
    var joined := Join(l.allowedExtensions, ", ");
    var s := ToUpper(joined);
    assert forall i :: 0 <= i < |s| ==> ToLower(s)[i] == ToLower(joined)[i];
    s
  }

  /** `Join` of a list of at least two parts, one step unrolled. */
  lemma JoinStep(a: string, rest: seq<string>, sep: string)
    requires rest != []
    ensures Join([a] + rest, sep) == a + sep + Join(rest, sep)
  {
    assert ([a] + rest)[1..] == rest;
  }

  lemma JoinLastThreeImageExtensions()
    ensures Join(["png", "gif", "webp"], ", ") == "png, gif, webp"
  {
    JoinStep("gif", ["webp"], ", ");
    JoinStep("png", ["gif", "webp"], ", ");
  }

  lemma JoinLastFourImageExtensions()
    ensures Join(["jpeg", "png", "gif", "webp"], ", ") == "jpeg, png, gif, webp"
  {
    JoinLastThreeImageExtensions();
    JoinStep("jpeg", ["png", "gif", "webp"], ", ");
  }

  lemma JoinImageExtensions()
    ensures Join(ImageLimits.allowedExtensions, ", ") == "jpg, jpeg, png, gif, webp"
  {
    JoinLastFourImageExtensions();
    JoinStep("jpg", ["jpeg", "png", "gif", "webp"], ", ");
  }

  lemma JoinDocumentExtensions()
    ensures Join(DocumentLimits.allowedExtensions, ", ") == "pdf, doc, docx, txt"
  {
    JoinStep("docx", ["txt"], ", ");
    JoinStep("doc", ["docx", "txt"], ", ");
    JoinStep("pdf", ["doc", "docx", "txt"], ", ");
  }

  /** Upper-casing, character by character. */
  lemma UpperOfList(lower: string, upper: string)
    requires |lower| == |upper|
    requires forall i :: 0 <= i < |lower| ==> UpperChar(lower[i]) == upper[i]
    ensures ToUpper(lower) == upper
  {
  }

  /** The list shown to the user for images. */
  lemma ImageExtensionsString()
    ensures AllowedExtensionsString(ImageLimits) == "JPG, JPEG, PNG, GIF, WEBP"
  {
    JoinImageExtensions();
    UpperImageList();
  }

  lemma UpperImageList()
    ensures ToUpper("jpg, jpeg, png, gif, webp") == "JPG, JPEG, PNG, GIF, WEBP"
  {
    UpperOfList("jpg, jpeg, png, gif, webp", "JPG, JPEG, PNG, GIF, WEBP");
  }

  /** The list shown to the user for documents. */
  lemma DocumentExtensionsString()
    ensures AllowedExtensionsString(DocumentLimits) == "PDF, DOC, DOCX, TXT"
  {
    JoinDocumentExtensions();
    UpperDocumentList();
  }

  lemma UpperDocumentList()
    ensures ToUpper("pdf, doc, docx, txt") == "PDF, DOC, DOCX, TXT"
  {
    UpperOfList("pdf, doc, docx, txt", "PDF, DOC, DOCX, TXT");
  }

  /** `getMaxSizeString`: the size in megabytes followed by "MB". */
  function MaxSizeString(l: FileLimits): (s: string)
    ensures |s| >= 3 && s[|s| - 2..] == "MB"
    ensures AllDigits(s[..|s| - 2]) && DigitsValue(s[..|s| - 2]) == l.maxSizeMb
  {
    DigitsValueOfNatToString(l.maxSizeMb);
    var s := NatToString(l.maxSizeMb) + "MB";
    assert s[..|s| - 2] == NatToString(l.maxSizeMb);
    s
  }

  /** `validateFileType`: only the exact MIME types of the kind pass. */
  function ValidateFileType(f: FileInfo, k: FileKind, l: FileLimits): (v: Validation)
    ensures v.Valid? <==> f.mimeType in l.allowedTypes
    ensures v.Invalid? ==> v.error == InvalidType(KindName(k), AllowedExtensionsString(l))
  {
    if f.mimeType !in l.allowedTypes then Invalid(InvalidType(KindName(k), AllowedExtensionsString(l)))
    else Valid
  }

  /** `validateFileSize`: a file of exactly the maximum size still passes. */
  function ValidateFileSize(f: FileInfo, k: FileKind, l: FileLimits): (v: Validation)
    ensures v.Valid? <==> f.size <= l.maxSize
    ensures v.Invalid? ==> v.error == TooLarge(KindName(k), MaxSizeString(l))
  {
    if f.size > l.maxSize then Invalid(TooLarge(KindName(k), MaxSizeString(l)))
    else Valid
  }

  /** `validateFile`: the type check runs first, so a file that is both of
      the wrong type and too large reports the type. */
  function ValidateFile(f: FileInfo, k: FileKind): (v: Validation)
    ensures v.Valid? <==> f.mimeType in LimitsFor(k).allowedTypes && f.size <= LimitsFor(k).maxSize
    ensures f.mimeType !in LimitsFor(k).allowedTypes ==>
              v == Invalid(InvalidType(KindName(k), AllowedExtensionsString(LimitsFor(k))))
    ensures f.mimeType in LimitsFor(k).allowedTypes && f.size > LimitsFor(k).maxSize ==>
              v == Invalid(TooLarge(KindName(k), MaxSizeString(LimitsFor(k))))
  {
    var l := LimitsFor(k);
    var typeValidation := ValidateFileType(f, k, l);
    if typeValidation.Invalid? then typeValidation else ValidateFileSize(f, k, l)
  }

  /** A rejected file is always reported with a non-empty message. */
  lemma InvalidFileHasMessage(f: FileInfo, k: FileKind)
    ensures ValidateFile(f, k).Invalid? ==> |ValidateFile(f, k).error| > 0
  {
  }

  /** `getFirstFile`: nothing for a missing or empty list. */
  function FirstFile(files: Option<seq<FileInfo>>): (r: Option<FileInfo>)
    ensures r.Some? <==> files.Some? && |files.value| > 0
    ensures r.Some? ==> r.value == files.value[0]
  {
    if files.None? || |files.value| == 0 then None else Some(files.value[0])
  }

  // ------------------------------------------------------------ the hook state

  datatype UploadState = UploadState(file: Option<FileInfo>, preview: Option<string>, isDragging: bool)

  const InitialState := UploadState(None, None, false)

  /** The optional callbacks a handler fires. */
  datatype Callback = OnSuccess(file: FileInfo, preview: Option<string>) | OnError(message: string)

  /** How reading an image as a data URL ends. */
  datatype ReadOutcome = ReadLoaded(dataUrl: string) | ReadFailed

  datatype Step = Step(state: UploadState, callbacks: seq<Callback>)

  /** `handleValidFile`: the file is stored first; a document succeeds
      without a preview, an image succeeds with its data URL as preview, and
      an image that cannot be read reports it as corrupted. */
  function HandleValidFile(s: UploadState, k: FileKind, f: FileInfo, read: ReadOutcome): (r: Step)
    ensures r.state.file == Some(f) && r.state.isDragging == s.isDragging
    ensures |r.callbacks| == 1
    ensures r.callbacks[0].OnSuccess? <==> k == Document || read.ReadLoaded?
    ensures r.callbacks[0].OnSuccess? ==> r.callbacks[0].file == f
    ensures k == Document ==> r.callbacks[0] == OnSuccess(f, None) && r.state.preview == s.preview
    ensures k == Image && read.ReadLoaded? ==>
              r.callbacks[0].preview == r.state.preview == Some(read.dataUrl)
    ensures r.callbacks[0].OnError? ==> r.callbacks[0].message == Corrupted && r.state.preview == s.preview
    ensures r.state.preview != s.preview ==> k == Image && read == ReadLoaded(r.state.preview.value)
  {
    var s1 := s.(file := Some(f));
    match (k, read)
    case (Document, _) => Step(s1, [OnSuccess(f, None)])
    case (Image, ReadLoaded(url)) => Step(s1.(preview := Some(url)), [OnSuccess(f, Some(url))])
    case (Image, ReadFailed) => Step(s1, [OnError(Corrupted)])
  }

  /** `processFile`: a file that fails validation fires the validation error
      and changes nothing; a valid one goes to `handleValidFile`. */
  function ProcessFile(s: UploadState, k: FileKind, f: FileInfo, read: ReadOutcome): (r: Step)
    ensures |r.callbacks| == 1
    ensures ValidateFile(f, k).Invalid? ==> r == Step(s, [OnError(ValidateFile(f, k).error)])
    ensures ValidateFile(f, k).Valid? ==> r.state.file == Some(f)
    ensures r.callbacks[0].OnSuccess? <==> ValidateFile(f, k).Valid? && (k == Document || read.ReadLoaded?)
    ensures r.state.isDragging == s.isDragging
  {
    var validation := ValidateFile(f, k);
    if validation.Invalid? then Step(s, [OnError(validation.error)])
    else HandleValidFile(s, k, f, read)
  }

  /** `handleFileFromList`, behind both file selection and drop: only the
      first file is processed, and an empty or missing list does nothing. */
  function HandleFileFromList(s: UploadState, k: FileKind, files: Option<seq<FileInfo>>, read: ReadOutcome): (r: Step)
    ensures FirstFile(files).None? ==> r == Step(s, [])
    ensures FirstFile(files).Some? ==> r == ProcessFile(s, k, files.value[0], read)
  {
    match FirstFile(files)
    case None => Step(s, [])
    case Some(f) => ProcessFile(s, k, f, read)
  }

  /** `handleFileSelect`: the input's file list goes to
      `handleFileFromList`, so only its first file counts. */
  function HandleFileSelect(s: UploadState, k: FileKind, files: Option<seq<FileInfo>>, read: ReadOutcome): (r: Step)
    ensures FirstFile(files).None? ==> r == Step(s, [])
    ensures FirstFile(files).Some? ==> r == ProcessFile(s, k, files.value[0], read)
    ensures r.state.isDragging == s.isDragging
  {
    HandleFileFromList(s, k, files, read)
  }

  /** `handleDragOver` / `handleDragLeave`: only the dragging flag changes. */
  function HandleDragEvent(s: UploadState, dragging: bool): (r: UploadState)
    ensures r.isDragging == dragging && r.file == s.file && r.preview == s.preview
  {
    s.(isDragging := dragging)
  }

  function HandleDragOver(s: UploadState): (r: UploadState)
    ensures r.isDragging && r.file == s.file && r.preview == s.preview
  {
    HandleDragEvent(s, true)
  }

  function HandleDragLeave(s: UploadState): (r: UploadState)
    ensures !r.isDragging && r.file == s.file && r.preview == s.preview
  {
    HandleDragEvent(s, false)
  }

  /** `handleDrop`: dragging ends, then the dropped list is handled. */
  function HandleDrop(s: UploadState, k: FileKind, files: Option<seq<FileInfo>>, read: ReadOutcome): (r: Step)
    ensures !r.state.isDragging
    ensures r == HandleFileFromList(s.(isDragging := false), k, files, read)
  {
    HandleFileFromList(HandleDragEvent(s, false), k, files, read)
  }

  /** `clearFile`: forgets file and preview, keeps the dragging flag. */
  function ClearFile(s: UploadState): (r: UploadState)
    ensures r.file.None? && r.preview.None? && r.isDragging == s.isDragging
  {
    s.(file := None, preview := None)
  }

  /** Whatever was uploaded, clearing returns the hook to where it started;
      the preview is only ever set together with a file. */
  lemma UploadThenClear(k: FileKind, files: Option<seq<FileInfo>>, read: ReadOutcome)
    ensures var r := HandleDrop(HandleDragOver(InitialState), k, files, read);
            ClearFile(r.state) == InitialState
            && (r.state.preview.Some? ==> r.state.file.Some?)
  {
  }
}
