/** The older upload hook of ai-tool/presentation/hooks/useFileUpload.ts. It
    validates inline and reads images with FileReader callbacks instead of a
    promise. Validation and the successful paths agree with the reusable hook
    of ai-tool/hooks/useFileUpload.ts; a failed image read does not.

    A FileReader that fails fires `error` and then, like every read,
    `loadend`. This hook handles both: its `onerror` reports the file as
    corrupted, and its `onloadend` then stores the empty result (`null`) as
    preview and calls `onSuccess` anyway. */
module PresentationFileUpload {
  import opened Wrappers
  import opened Strings
  import opened ErrorMessages
  import opened FileConstants
  import FU = FileUpload

  /** `validateFile`, written inline: type first, then a strict size limit. */
  function ValidateFile(f: FU.FileInfo, k: FileKind): (v: FU.Validation)
    ensures v.Valid? <==> f.mimeType in LimitsFor(k).allowedTypes && f.size <= LimitsFor(k).maxSize
  {
    var l := if k == Image then ImageLimits else DocumentLimits;
    if f.mimeType !in l.allowedTypes then
      FU.Invalid(InvalidType(KindName(k), ToUpper(Join(l.allowedExtensions, ", "))))
    else if f.size > l.maxSize then
      FU.Invalid(TooLarge(KindName(k), NatToString(l.maxSizeMb) + "MB"))
    else FU.Valid
  }

  /** Both hooks accept the same files and word their rejections alike. */
  lemma ValidateFileAgrees(f: FU.FileInfo, k: FileKind)
    ensures ValidateFile(f, k) == FU.ValidateFile(f, k)
  {
  }

  /** `processFile` as written: after validation the file is stored; an
      image's reader then fires its events, `error` (if the read fails)
      before `loadend`, and each event runs its handler. */
  function ProcessFileAsWritten(s: FU.UploadState, k: FileKind, f: FU.FileInfo, read: FU.ReadOutcome): (r: FU.Step)
    ensures ValidateFile(f, k).Invalid? ==> r == FU.Step(s, [FU.OnError(ValidateFile(f, k).error)])
    ensures ValidateFile(f, k).Valid? ==> r.state.file == Some(f) && |r.callbacks| >= 1
    ensures ValidateFile(f, k).Valid? && k == Image && read.ReadFailed? ==>
              r.callbacks == [FU.OnError(Corrupted), FU.OnSuccess(f, None)] && r.state.preview.None?
  {
    var validation := ValidateFile(f, k);
    if validation.Invalid? then FU.Step(s, [FU.OnError(validation.error)])
    else
      var s1 := s.(file := Some(f));
      match (k, read)
      case (Document, _) => FU.Step(s1, [FU.OnSuccess(f, None)])
      case (Image, ReadLoaded(url)) => FU.Step(s1.(preview := Some(url)), [FU.OnSuccess(f, Some(url))])
      case (Image, ReadFailed) =>
        // onerror, then onloadend with `reader.result === null`
        FU.Step(s1.(preview := None), [FU.OnError(Corrupted), FU.OnSuccess(f, None)])
  }

  /** The discrepancy, on a concrete file: a valid PNG whose read fails is
      reported both as corrupted and as a success, and any earlier preview
      is wiped. */
  lemma FailedReadAlsoSucceeds()
    ensures var f := FU.FileInfo("scan.png", "image/png", 1024);
            var s := FU.UploadState(None, Some("data:old"), false);
            var r := ProcessFileAsWritten(s, Image, f, FU.ReadFailed);
            && FU.OnError(Corrupted) in r.callbacks
            && FU.OnSuccess(f, None) in r.callbacks
            && r.state.preview.None?
            && FU.ProcessFile(s, Image, f, FU.ReadFailed).callbacks == [FU.OnError(Corrupted)]
  {
    var f := FU.FileInfo("scan.png", "image/png", 1024);
    assert "image/png" == ImageLimits.allowedTypes[2];
    assert ValidateFile(f, Image).Valid?;
  }

  /** `processFile` as intended: a failed read is reported and nothing else
      happens, exactly as in the reusable hook. */
  function ProcessFile(s: FU.UploadState, k: FileKind, f: FU.FileInfo, read: FU.ReadOutcome): (r: FU.Step)
    ensures |r.callbacks| == 1
    ensures ValidateFile(f, k).Invalid? ==> r == FU.Step(s, [FU.OnError(ValidateFile(f, k).error)])
    ensures r.callbacks[0].OnSuccess? <==> ValidateFile(f, k).Valid? && (k == Document || read.ReadLoaded?)
    ensures r.callbacks[0].OnError? && ValidateFile(f, k).Valid? ==>
              r.callbacks[0].message == Corrupted && r.state.preview == s.preview
  {
    var validation := ValidateFile(f, k);
    if validation.Invalid? then FU.Step(s, [FU.OnError(validation.error)])
    else
      var s1 := s.(file := Some(f));
      match (k, read)
      case (Document, _) => FU.Step(s1, [FU.OnSuccess(f, None)])
      case (Image, ReadLoaded(url)) => FU.Step(s1.(preview := Some(url)), [FU.OnSuccess(f, Some(url))])
      case (Image, ReadFailed) => FU.Step(s1, [FU.OnError(Corrupted)])
  }

  /** The corrected hook behaves as the reusable one on every input, and the
      hook as written differs from it only on a valid image whose read fails. */
  lemma ProcessFileAgrees(s: FU.UploadState, k: FileKind, f: FU.FileInfo, read: FU.ReadOutcome)
    ensures ProcessFile(s, k, f, read) == FU.ProcessFile(s, k, f, read)
    ensures ProcessFileAsWritten(s, k, f, read) != FU.ProcessFile(s, k, f, read) <==>
              ValidateFile(f, k).Valid? && k == Image && read.ReadFailed?
  {
    ValidateFileAgrees(f, k);
  }

  /** `handleFileSelect` and `handleDrop` take `files?.[0]`: a missing or
      empty list does nothing, and the first file goes to `processFile`, as
      written or as intended according to `asWritten`. */
  function HandleFiles(s: FU.UploadState, k: FileKind, files: Option<seq<FU.FileInfo>>, read: FU.ReadOutcome, asWritten: bool): (r: FU.Step)
    ensures files.None? || |files.value| == 0 ==> r == FU.Step(s, [])
    ensures files.Some? && |files.value| > 0 ==>
              r == if asWritten then ProcessFileAsWritten(s, k, files.value[0], read) else ProcessFile(s, k, files.value[0], read)
  {
    if files.Some? && |files.value| > 0 then
      if asWritten then ProcessFileAsWritten(s, k, files.value[0], read) else ProcessFile(s, k, files.value[0], read)
    else FU.Step(s, [])
  }

  /** `handleDrop`: dragging ends, then the dropped list is handled like a
      selected one. */
  function HandleDrop(s: FU.UploadState, k: FileKind, files: Option<seq<FU.FileInfo>>, read: FU.ReadOutcome, asWritten: bool): (r: FU.Step)
    ensures !r.state.isDragging
    ensures files.None? || |files.value| == 0 ==> r == FU.Step(s.(isDragging := false), [])
    ensures files.Some? && |files.value| > 0 ==>
              var s1 := s.(isDragging := false);
              r == if asWritten then ProcessFileAsWritten(s1, k, files.value[0], read) else ProcessFile(s1, k, files.value[0], read)
  {
    HandleFiles(s.(isDragging := false), k, files, read, asWritten)
  }

  /** Selecting and dropping with the intended `processFile` match the
      reusable hook's handlers on every input; as written they differ from
      them exactly when the first file is a valid image whose read fails. */
  lemma HandlersAgree(s: FU.UploadState, k: FileKind, files: Option<seq<FU.FileInfo>>, read: FU.ReadOutcome)
    ensures HandleFiles(s, k, files, read, false) == FU.HandleFileSelect(s, k, files, read)
    ensures HandleDrop(s, k, files, read, false) == FU.HandleDrop(s, k, files, read)
    ensures HandleFiles(s, k, files, read, true) != FU.HandleFileSelect(s, k, files, read) <==>
              files.Some? && |files.value| > 0 && ValidateFile(files.value[0], k).Valid? && k == Image && read.ReadFailed?
    ensures HandleDrop(s, k, files, read, true) != FU.HandleDrop(s, k, files, read) <==>
              files.Some? && |files.value| > 0 && ValidateFile(files.value[0], k).Valid? && k == Image && read.ReadFailed?
  {
    if files.Some? && |files.value| > 0 {
      ProcessFileAgrees(s, k, files.value[0], read);
      ProcessFileAgrees(s.(isDragging := false), k, files.value[0], read);
    }
  }
}
