/** The `POST` handler of ai-tool/app/api/analyze/route.ts with the services
    it calls (SearchAPI, OpenAI chat and vision, pdfreader, mammoth, the
    UTF-8 decoder of `Buffer`, `JSON.parse` and the statistics helpers) passed
    in as total functions from their input to their outcome.

    The two catch blocks of the route decide with `instanceof ValidationError`
    and `instanceof FileError`, which never hold because the AppError
    constructor resets every instance's prototype (see module Errors). Both
    blocks are modelled as written and as intended; the handler uses the
    intended ones. */
module AnalyzeRoute {
  import opened Wrappers
  import opened Strings
  import opened Types
  import opened Errors
  import opened ErrorMessages
  import opened ErrorHandler
  import opened Utils
  import opened AnalyzeInputs

  /** An error whose status is one the route can answer with: any foreign
      value (normalised to 400, 500 or no status) or an AppError of status
      400 or 500. */
  predicate RouteError(t: Thrown) {
    t.Foreign? || t.err.statusCode == Some(400) || t.err.statusCode == Some(500)
  }

  // ---------------------------------------------------------------- transcripts

  /** What the SearchAPI request ends with: the `transcripts` of its body
      (`None` when that is not an array; each segment's `text`), or what
      axios threw. */
  datatype SearchOutcome =
    | SearchResponded(transcripts: Option<seq<Option<string>>>)
    | SearchThrew(error: ForeignValue)

  /** `.map(segment => segment.text || '').filter(Boolean)`: the non-empty
      texts, in order. */
  function NonEmptyTexts(items: seq<Option<string>>): (r: seq<string>)
    ensures |r| <= |items|
    ensures forall k :: 0 <= k < |r| ==> r[k] != ""
    ensures forall t :: t in r ==> Some(t) in items
    ensures forall k :: 0 <= k < |items| && Truthy(items[k]) ==> items[k].value in r
  {
    if items == [] then []
    else
      var rest := NonEmptyTexts(items[1..]);
      assert forall k :: 1 <= k < |items| ==> items[k] == items[1..][k - 1];
      if Truthy(items[0]) then [items[0].value] + rest else rest
  }

  /** The transcript: the non-empty segment texts joined by single spaces. */
  function JoinTranscript(items: seq<Option<string>>): (r: string)
    ensures r == "" <==> forall k :: 0 <= k < |items| ==> !Truthy(items[k])
  {
    var texts := NonEmptyTexts(items);
    NonEmptyTextsNone(items);
    assert texts != [] ==> |Join(texts, " ")| >= |texts[0]| > 0;
    Join(texts, " ")
  }

  /** No segment has text exactly when no text is kept. */
  lemma NonEmptyTextsNone(items: seq<Option<string>>)
    ensures NonEmptyTexts(items) == [] <==> forall k :: 0 <= k < |items| ==> !Truthy(items[k])
  {
    var texts := NonEmptyTexts(items);
    if texts != [] {
      assert texts[0] in texts;
      var k :| 0 <= k < |items| && items[k] == Some(texts[0]);
      assert Truthy(items[k]);
    }
  }

  /** A transcript is blank exactly when every non-empty segment is. */
  lemma JoinTranscriptBlank(items: seq<Option<string>>)
    ensures IsBlank(JoinTranscript(items)) <==>
              forall k :: 0 <= k < |items| && Truthy(items[k]) ==> IsBlank(items[k].value)
  {
    var texts := NonEmptyTexts(items);
    assert IsBlank(" ");
    JoinBlankIff(texts, " ");
    if forall k :: 0 <= k < |items| && Truthy(items[k]) ==> IsBlank(items[k].value) {
      forall q | 0 <= q < |texts| ensures IsBlank(texts[q]) {
        assert texts[q] in texts;
      }
    }
  }

  /** Segments without spaces can be recovered by splitting the transcript
      at its spaces. */
  lemma JoinTranscriptSplits(items: seq<Option<string>>)
    requires NonEmptyTexts(items) != []
    requires forall k :: 0 <= k < |items| && items[k].Some? ==> ' ' !in items[k].value
    ensures SplitOn(JoinTranscript(items), ' ') == NonEmptyTexts(items)
  {
    var texts := NonEmptyTexts(items);
    forall q | 0 <= q < |texts| ensures ' ' !in texts[q] {
      assert texts[q] in texts;
    }
    SplitOnJoin(texts, ' ');
  }

  /** The `try` block of `fetchYouTubeTranscript`: no or an empty transcript
      array is NO_TRANSCRIPT, a blank join EMPTY_TRANSCRIPT, both as
      ValidationErrors; what axios throws passes through. */
  function TranscriptTry(o: SearchOutcome): (r: Result<string, Thrown>)
    ensures o.SearchThrew? ==> r == Failure(Foreign(o.error))
    ensures o.SearchResponded? && (o.transcripts.None? || o.transcripts.value == []) ==>
              r == Failure(App(NewValidationError(NoTranscript)))
    ensures o.SearchResponded? && o.transcripts.Some? && o.transcripts.value != [] ==>
              if IsBlank(JoinTranscript(o.transcripts.value))
              then r == Failure(App(NewValidationError(EmptyTranscript)))
              else r == Success(JoinTranscript(o.transcripts.value))
    ensures r.Failure? ==> RouteError(r.error)
  {
    match o
    case SearchThrew(e) => Failure(Foreign(e))
    case SearchResponded(ts) =>
      if ts.None? || |ts.value| == 0 then Failure(App(NewValidationError(NoTranscript)))
      else
        var text := JoinTranscript(ts.value);
        if Trim(text) == [] then Failure(App(NewValidationError(EmptyTranscript)))
        else Success(text)
  }

  /** The axios branch of the catch block, checked in order: a timeout,
      status 401, status 403, an error in the response body; anything else
      is a failed fetch. */
  function SearchFailure(t: Thrown): (e: AppError)
    ensures RouteError(App(e))
    ensures t.Foreign? && t.value.AxiosFailure? && t.value.code == Some("ECONNABORTED") ==>
              e == NewNetworkError(YouTubeTimeout, None)
    ensures !(t.Foreign? && t.value.AxiosFailure?) ==> e == NewNetworkError(YouTubeFetchFailed, None)
    ensures e.category == Api <==>
              t.Foreign? && t.value.AxiosFailure? && t.value.code != Some("ECONNABORTED")
              && (t.value.responseStatus == Some(401) || t.value.responseStatus == Some(403) || Truthy(t.value.bodyError))
    ensures e.category == Api ==> e.statusCode == Some(500)
    ensures e.category == Api && t.value.responseStatus == Some(401) ==> e.message == SearchApiInvalidKey
    ensures e.category == Api && t.value.responseStatus == Some(403) ==> e.message == SearchApiAccessDenied
    ensures e.category == Api && t.value.responseStatus != Some(401) && t.value.responseStatus != Some(403) ==>
              e.message == SearchApiError(t.value.bodyError.value)
  {
    match t
    case Foreign(AxiosFailure(_, code, status, bodyError)) =>
      if code == Some("ECONNABORTED") then NewNetworkError(YouTubeTimeout, None)
      else if status == Some(401) then NewApiError(SearchApiInvalidKey, Some(500))
      else if status == Some(403) then NewApiError(SearchApiAccessDenied, Some(500))
      else if Truthy(bodyError) then NewApiError(SearchApiError(bodyError.value), Some(500))
      else NewNetworkError(YouTubeFetchFailed, None)
    case _ => NewNetworkError(YouTubeFetchFailed, None)
  }

  /** The catch block as written: `instanceof ValidationError` is false for
      every value, so even the block's own validation errors become a failed
      fetch. */
  function CatchTranscriptErrorAsWritten(t: Thrown): (e: AppError)
    ensures t.Foreign? || t.err.proto == AppErrorClass ==> e == SearchFailure(t)
    ensures RouteError(t) ==> RouteError(App(e))
  {
    if InstanceOf(t, ValidationErrorClass) then t.err else SearchFailure(t)
  }

  /** The catch block as intended: a ValidationError is rethrown unchanged. */
  function CatchTranscriptError(t: Thrown): (e: AppError)
    ensures t.App? && t.err.name == "ValidationError" ==> e == t.err
    ensures !(t.App? && t.err.name == "ValidationError") ==> e == SearchFailure(t)
    ensures RouteError(t) ==> RouteError(App(e))
  {
    if t.App? && t.err.name == "ValidationError" then t.err else SearchFailure(t)
  }

  /** `fetchYouTubeTranscript` with either catch block: the URL must match,
      the SearchAPI key must be configured, and then the search runs with
      the video id and the key. */
  function FetchTranscriptWith(url: string, env: map<string, string>, search: (string, string) -> SearchOutcome, asWritten: bool): (r: Result<string, Thrown>)
    ensures ParseYouTubeUrl(url).None? ==> r == Failure(App(NewValidationError(YouTubeInvalidUrl)))
    ensures ParseYouTubeUrl(url).Some? && RequireEnvVar(env, "SEARCHAPI_API_KEY").Failure? ==>
              r == Failure(App(RequireEnvVar(env, "SEARCHAPI_API_KEY").error))
    ensures ParseYouTubeUrl(url).Some? && RequireEnvVar(env, "SEARCHAPI_API_KEY").Success? ==>
              var t := TranscriptTry(search(ParseYouTubeUrl(url).value, RequireEnvVar(env, "SEARCHAPI_API_KEY").value));
              t.Failure? ==> r == Failure(App(if asWritten then CatchTranscriptErrorAsWritten(t.error) else CatchTranscriptError(t.error)))
    ensures r.Failure? ==> r.error.App? && RouteError(r.error)
    ensures r.Success? ==>
              && ParseYouTubeUrl(url).Some? && RequireEnvVar(env, "SEARCHAPI_API_KEY").Success?
              && r == TranscriptTry(search(ParseYouTubeUrl(url).value, RequireEnvVar(env, "SEARCHAPI_API_KEY").value))
              && !IsBlank(r.value)
  {
    match ParseYouTubeUrl(url)
    case None => Failure(App(NewValidationError(YouTubeInvalidUrl)))
    case Some(videoId) =>
      match RequireEnvVar(env, "SEARCHAPI_API_KEY")
      case Failure(e) => Failure(App(e))
      case Success(apiKey) =>
        match TranscriptTry(search(videoId, apiKey))
        case Success(text) => Success(text)
        case Failure(t) =>
          Failure(App(if asWritten then CatchTranscriptErrorAsWritten(t) else CatchTranscriptError(t)))
  }

  /** The transcript fetch as written: once the URL and the key are in
      place, every failure of the search, its own missing or blank
      transcript included, leaves the `try` as the axios mapping of
      `SearchFailure`, which for an AppError is FETCH_FAILED. */
  function FetchTranscriptAsWritten(url: string, env: map<string, string>, search: (string, string) -> SearchOutcome): (r: Result<string, Thrown>)
    ensures r.Failure? ==> RouteError(r.error)
    ensures ParseYouTubeUrl(url).None? ==> r == Failure(App(NewValidationError(YouTubeInvalidUrl)))
    ensures ParseYouTubeUrl(url).Some? && RequireEnvVar(env, "SEARCHAPI_API_KEY").Success? ==>
              var o := search(ParseYouTubeUrl(url).value, RequireEnvVar(env, "SEARCHAPI_API_KEY").value);
              && (o.SearchThrew? ==> r == Failure(App(SearchFailure(Foreign(o.error)))))
              && (o.SearchResponded? && TranscriptTry(o).Failure? ==> r == Failure(App(NewNetworkError(YouTubeFetchFailed, None))))
              && (TranscriptTry(o).Success? ==> r == TranscriptTry(o))
  {
    FetchTranscriptWith(url, env, search, true)
  }

  /** The intended transcript fetch: every failure it reports is an AppError
      of status 400 or 500, and a missing or empty transcript keeps its
      ValidationError. */
  function FetchTranscript(url: string, env: map<string, string>, search: (string, string) -> SearchOutcome): (r: Result<string, Thrown>)
    ensures r.Failure? ==> RouteError(r.error)
    ensures ParseYouTubeUrl(url).Some? && RequireEnvVar(env, "SEARCHAPI_API_KEY").Success? ==>
              var o := search(ParseYouTubeUrl(url).value, RequireEnvVar(env, "SEARCHAPI_API_KEY").value);
              o.SearchResponded? && (o.transcripts.None? || o.transcripts.value == []) ==>
                r == Failure(App(NewValidationError(NoTranscript)))
  {
    FetchTranscriptWith(url, env, search, false)
  }

  /** The discrepancy: where the intended fetch reports a missing transcript
      (status 400), the code as written reports a failed fetch (status 500). */
  lemma TranscriptErrorRewrapped(url: string, env: map<string, string>, search: (string, string) -> SearchOutcome)
    requires ParseYouTubeUrl(url).Some? && RequireEnvVar(env, "SEARCHAPI_API_KEY").Success?
    requires search(ParseYouTubeUrl(url).value, RequireEnvVar(env, "SEARCHAPI_API_KEY").value) == SearchResponded(Some([]))
    ensures FetchTranscript(url, env, search) == Failure(App(NewValidationError(NoTranscript)))
    ensures FetchTranscriptAsWritten(url, env, search) == Failure(App(NewNetworkError(YouTubeFetchFailed, None)))
    ensures CreateErrorResponse(FetchTranscript(url, env, search).error, 500).status == 400
    ensures CreateErrorResponse(FetchTranscriptAsWritten(url, env, search).error, 500).status == 500
  {
  }

  /** The two versions agree except where the as-written block swallows a
      ValidationError. */
  lemma TranscriptVersionsAgreeOtherwise(url: string, env: map<string, string>, search: (string, string) -> SearchOutcome)
    requires FetchTranscript(url, env, search).Success?
             || !(FetchTranscript(url, env, search).error.err.name == "ValidationError")
             || ParseYouTubeUrl(url).None?
    ensures FetchTranscriptAsWritten(url, env, search) == FetchTranscript(url, env, search)
  {
  }

  // ----------------------------------------------------------------- documents

  datatype PdfOutcome = PdfParsed(items: seq<Option<string>>) | PdfFailed(error: ForeignValue)

  datatype MammothOutcome = MammothText(value: string) | MammothFailed(error: ForeignValue)

  /** The text extractors, applied to the base64 payload. */
  datatype Extractors = Extractors(
    pdf: string -> PdfOutcome,
    mammoth: string -> MammothOutcome,
    utf8: string -> string)

  const SupportedExtensions: seq<string> := ["pdf", "docx", "doc", "txt"]

  /** The content the extractor for `ext` produces: pdf items with text
      joined by spaces, mammoth's raw text for docx and doc (a doc that
      mammoth cannot read is legacy), UTF-8 for txt, and an unsupported
      format for anything else. */
  function ExtractByExtension(ext: string, payload: string, x: Extractors): (r: Result<string, Thrown>)
    requires ext != ""
    ensures ext !in SupportedExtensions ==> r == Failure(App(NewFileError(UnsupportedFormat)))
    ensures ext == "txt" ==> r == Success(x.utf8(payload))
    ensures ext == "doc" && x.mammoth(payload).MammothFailed? ==> r == Failure(App(NewFileError(LegacyDocUnsupported)))
    ensures ext == "docx" && x.mammoth(payload).MammothFailed? ==> r == Failure(Foreign(x.mammoth(payload).error))
    ensures ext == "docx" && x.mammoth(payload).MammothText? ==> r == Success(x.mammoth(payload).value)
    ensures ext == "doc" && x.mammoth(payload).MammothText? ==> r == Success(x.mammoth(payload).value)
    ensures ext == "pdf" && x.pdf(payload).PdfParsed? ==> r == Success(Join(NonEmptyTexts(x.pdf(payload).items), " "))
    ensures ext == "pdf" && x.pdf(payload).PdfFailed? ==> r == Failure(Foreign(x.pdf(payload).error))
    ensures r.Failure? ==> RouteError(r.error)
  {
    if ext == "pdf" then
      match x.pdf(payload)
      case PdfParsed(items) => Success(Join(NonEmptyTexts(items), " "))
      case PdfFailed(e) => Failure(Foreign(e))
    else if ext == "docx" then
      match x.mammoth(payload)
      case MammothText(v) => Success(v)
      case MammothFailed(e) => Failure(Foreign(e))
    else if ext == "doc" then
      match x.mammoth(payload)
      case MammothText(v) => Success(v)
      case MammothFailed(_) => Failure(App(NewFileError(LegacyDocUnsupported)))
    else if ext == "txt" then Success(x.utf8(payload))
    else Failure(App(NewFileError(UnsupportedFormat)))
  }

  /** `extractDocumentText(document, documentName)`: the payload after any
      data-URL header goes to the extractor the extension picks; no
      extension is an unknown type and blank content is an error. */
  function ExtractDocumentText(document: string, name: string, x: Extractors): (r: Result<string, Thrown>)
    ensures Extension(name) == "" ==> r == Failure(App(NewFileError(UnknownDocumentType)))
    ensures Extension(name) != "" && Extension(name) !in SupportedExtensions ==>
              r == Failure(App(NewFileError(UnsupportedFormat)))
    ensures r.Success? ==> !IsBlank(r.value) && Extension(name) in SupportedExtensions
    ensures Extension(name) != "" && ExtractByExtension(Extension(name), DataUrlPayload(document), x).Success? ==>
              var content := ExtractByExtension(Extension(name), DataUrlPayload(document), x).value;
              r == if IsBlank(content) then Failure(App(NewFileError(NoTextExtracted))) else Success(content)
    ensures r.Failure? ==> RouteError(r.error)
  {
    var payload := DataUrlPayload(document);
    var ext := Extension(name);
    if ext == "" then Failure(App(NewFileError(UnknownDocumentType)))
    else
      var content :- ExtractByExtension(ext, payload, x);
      if Trim(content) == [] then Failure(App(NewFileError(NoTextExtracted)))
      else Success(content)
  }

  // -------------------------------------------------------------------- images

  /** What the vision request ends with: the first choice's message content
      (absent when any link of the chain is missing), or what it threw. */
  datatype VisionOutcome = VisionReplied(content: Option<string>) | VisionThrew(error: ForeignValue)

  /** The answer the vision prompt asks for when an image holds no text. */
  const NoTextSentinel := "NO_TEXT_FOUND"

  /** The `try` block of `extractImageText`: the trimmed content, unless it
      is empty or the sentinel, which is a FileError. */
  function ImageTry(o: VisionOutcome): (r: Result<string, Thrown>)
    ensures o.VisionThrew? ==> r == Failure(Foreign(o.error))
    ensures o.VisionReplied? ==>
              var t := Trim(o.content.GetOr(""));
              if t == "" || t == NoTextSentinel then r == Failure(App(NewFileError(NoTextInImage)))
              else r == Success(t)
  {
    match o
    case VisionThrew(e) => Failure(Foreign(e))
    case VisionReplied(content) =>
      var t := Trim(content.GetOr(""));
      if t == [] || t == NoTextSentinel then Failure(App(NewFileError(NoTextInImage)))
      else Success(t)
  }

  /** The catch block as written: `instanceof FileError` never holds, so
      every failure, the block's own included, becomes VISION_API_FAILED. */
  function CatchImageErrorAsWritten(t: Thrown): (e: AppError)
    ensures t.Foreign? || t.err.proto == AppErrorClass ==> e == NewApiError(VisionApiFailed, None)
  {
    if InstanceOf(t, FileErrorClass) then t.err else NewApiError(VisionApiFailed, None)
  }

  /** The catch block as intended: a FileError is rethrown unchanged. */
  function CatchImageError(t: Thrown): (e: AppError)
    ensures t.App? && t.err.name == "FileError" ==> e == t.err
    ensures !(t.App? && t.err.name == "FileError") ==> e == NewApiError(VisionApiFailed, None)
  {
    if t.App? && t.err.name == "FileError" then t.err else NewApiError(VisionApiFailed, None)
  }

  function ExtractImageTextWith(image: string, vision: string -> VisionOutcome, asWritten: bool): (r: Result<string, Thrown>)
    ensures r.Failure? ==> r.error.App? && RouteError(r.error)
    ensures r.Success? <==> ImageTry(vision(image)).Success?
    ensures r.Success? ==> r == ImageTry(vision(image)) && !IsBlank(r.value) && r.value != NoTextSentinel
  {
    match ImageTry(vision(image))
    case Success(t) => Success(t)
    case Failure(t) => Failure(App(if asWritten then CatchImageErrorAsWritten(t) else CatchImageError(t)))
  }

  function ExtractImageTextAsWritten(image: string, vision: string -> VisionOutcome): (r: Result<string, Thrown>)
    ensures r.Failure? ==> r == Failure(App(NewApiError(VisionApiFailed, None)))
  {
    ExtractImageTextWith(image, vision, true)
  }

  /** The intended image extraction: an image without text is reported as
      such (a FileError, status 400), and a failing vision call as
      VISION_API_FAILED (status 500). */
  function ExtractImageText(image: string, vision: string -> VisionOutcome): (r: Result<string, Thrown>)
    ensures vision(image).VisionThrew? ==> r == Failure(App(NewApiError(VisionApiFailed, None)))
    ensures vision(image).VisionReplied? && ImageTry(vision(image)).Failure? ==>
              r == Failure(App(NewFileError(NoTextInImage)))
    ensures r.Success? ==> r == ImageTry(vision(image))
  {
    ExtractImageTextWith(image, vision, false)
  }

  /** The discrepancy: an image the model reports as textless is, as
      written, a vision-API failure with status 500 instead of a file error
      with status 400. */
  lemma ImageErrorRewrapped(image: string, vision: string -> VisionOutcome)
    requires vision(image) == VisionReplied(Some(NoTextSentinel))
    ensures ExtractImageText(image, vision) == Failure(App(NewFileError(NoTextInImage)))
    ensures ExtractImageTextAsWritten(image, vision) == Failure(App(NewApiError(VisionApiFailed, None)))
    ensures CreateErrorResponse(ExtractImageText(image, vision).error, 500).status == 400
    ensures CreateErrorResponse(ExtractImageTextAsWritten(image, vision).error, 500).status == 500
  {
    TrimOfUntrimmable(NoTextSentinel);
  }

  // -------------------------------------------------------- the analysis result

  /** `parsed.key`: a property of an object; every other non-null value has
      none of the keys the route reads. */
  function Field(parsed: Json, key: string): (v: Option<Json>)
    ensures v.Some? <==> parsed.JObject? && key in parsed.fields
    ensures v.Some? ==> v.value == parsed.fields[key]
  {
    if parsed.JObject? && key in parsed.fields then Some(parsed.fields[key]) else None
  }

  /** `value ?? fallback`: `null` and `undefined` take the fallback. */
  function Coalesce(v: Option<Json>, fallback: Json): (r: Json)
    ensures r == fallback <== v.None? || v == Some(JNull)
    ensures v.Some? && v.value != JNull ==> r == v.value
  {
    if v.None? || v.value == JNull then fallback else v.value
  }

  /** How V8 words the TypeError for reading a property of `null`. */
  const NullPropertyMessage := "Cannot read properties of null (reading 'reading_time_minutes')"

  /** `buildAnalysisResult(text, parsedResponse)`: the model's reading time,
      summary, explanation and reading level unless they are null or absent,
      its key points only when they form an array, and the locally computed
      figures. A parsed `null` has no properties to read and throws. */
  function BuildAnalysisResult(text: string, parsed: Json, stats: TextStats): (r: Result<AnalysisResult, Thrown>)
    ensures r.Failure? <==> parsed == JNull
    ensures r.Failure? ==> r.error == Foreign(PlainError(NullPropertyMessage))
    ensures r.Success? ==>
              var a := r.value;
              && a.wordCount == CountWords(text)
              && a.readingTime == Coalesce(Field(parsed, "reading_time_minutes"), JNumber(ReadingTime(text)))
              && (a.keyPoints != [] ==> Field(parsed, "key_points") == Some(JArray(a.keyPoints)))
              && (Field(parsed, "key_points").Some? && Field(parsed, "key_points").value.JArray? ==>
                    a.keyPoints == Field(parsed, "key_points").value.items)
              && a.summary == Coalesce(Field(parsed, "summary"), JString("No summary available"))
              && a.explanation == Coalesce(Field(parsed, "explanation"), JString("No explanation available"))
              && a.readingLevel == Coalesce(Field(parsed, "reading_level"), JString("General audience"))
              && a.speakingTime == stats.speakingTime && a.uniqueWords == stats.uniqueWords
              && a.averageSentenceLength == stats.averageSentenceLength && a.topWords == stats.topWords
  {
    if parsed == JNull then Failure(Foreign(PlainError(NullPropertyMessage)))
    else
      var keyPoints := Field(parsed, "key_points");
      Success(AnalysisResult(
        summary := Coalesce(Field(parsed, "summary"), JString("No summary available")),
        keyPoints := if keyPoints.Some? && keyPoints.value.JArray? then keyPoints.value.items else [],
        explanation := Coalesce(Field(parsed, "explanation"), JString("No explanation available")),
        readingTime := Coalesce(Field(parsed, "reading_time_minutes"), JNumber(ReadingTime(text))),
        wordCount := CountWords(text),
        readingLevel := Coalesce(Field(parsed, "reading_level"), JString("General audience")),
        speakingTime := stats.speakingTime,
        uniqueWords := stats.uniqueWords,
        averageSentenceLength := stats.averageSentenceLength,
        topWords := stats.topWords))
  }

  /** An answer that is not an object (a number, a string, an array) yields
      every fallback. */
  lemma NonObjectAnswerUsesFallbacks(text: string, parsed: Json, stats: TextStats)
    requires !parsed.JObject? && parsed != JNull
    ensures var a := BuildAnalysisResult(text, parsed, stats).value;
            && a.summary == JString("No summary available") && a.keyPoints == []
            && a.explanation == JString("No explanation available")
            && a.readingTime == JNumber(ReadingTime(text)) && a.readingLevel == JString("General audience")
  {
  }

  /** The answer the prompt asks the model for, as a JSON object. */
  function Answer(summary: string, keyPoints: seq<Json>, explanation: string, minutes: int, level: string): Json {
    JObject(map[
      "summary" := JString(summary),
      "key_points" := JArray(keyPoints),
      "explanation" := JString(explanation),
      "reading_time_minutes" := JNumber(minutes),
      "reading_level" := JString(level)])
  }

  /** An answer of the requested shape comes through unchanged: every field
      the model gave is the one in the result, the reading time included. */
  lemma AnswerRoundTrip(text: string, summary: string, keyPoints: seq<Json>, explanation: string, minutes: int, level: string, stats: TextStats)
    ensures var r := BuildAnalysisResult(text, Answer(summary, keyPoints, explanation, minutes, level), stats);
            && r.Success?
            && r.value.summary == JString(summary) && r.value.keyPoints == keyPoints
            && r.value.explanation == JString(explanation) && r.value.readingTime == JNumber(minutes)
            && r.value.readingLevel == JString(level)
  {
    var j := Answer(summary, keyPoints, explanation, minutes, level);
    assert Field(j, "summary") == Some(JString(summary));
    assert Field(j, "key_points") == Some(JArray(keyPoints));
    assert Field(j, "explanation") == Some(JString(explanation));
    assert Field(j, "reading_time_minutes") == Some(JNumber(minutes));
    assert Field(j, "reading_level") == Some(JString(level));
  }

  // ------------------------------------------------------------------- POST

  /** What the chat completion ends with: the first choice's content, or
      what the client threw. */
  datatype CompletionOutcome = Completed(content: Option<string>) | CompletionThrew(error: ForeignValue)

  datatype Services = Services(
    search: (string, string) -> SearchOutcome,
    extractors: Extractors,
    vision: string -> VisionOutcome,
    complete: (string, Settings) -> CompletionOutcome,
    parseJson: string -> Option<Json>,
    stats: string -> TextStats)

  /** The JSON response with its HTTP status. */
  datatype Response = Response(
    status: int,
    success: bool,
    data: Option<AnalysisResult>,
    error: Option<string>,
    extractedText: Option<string>)

  /** The settings a request asks for, `'medium'` and `'casual'` when
      absent. */
  function RequestSettings(req: AnalyzeRequest): (s: Settings)
    ensures req.summaryLength.None? ==> s.summaryLength == SummaryLength.Medium
    ensures req.analysisStyle.None? ==> s.analysisStyle == Casual
    ensures req.summaryLength.Some? ==> s.summaryLength == req.summaryLength.value
    ensures req.analysisStyle.Some? ==> s.analysisStyle == req.analysisStyle.value
  {
    Settings(req.summaryLength.GetOr(SummaryLength.Medium), req.analysisStyle.GetOr(Casual))
  }

  /** The text of the selected source. `asWritten` picks the catch blocks
      of the transcript fetch and the image extraction: the ones the source
      has, or the intended ones. */
  function SourceText(src: Source, env: map<string, string>, sv: Services, asWritten: bool): (r: Result<string, Thrown>)
    ensures src.FromText? ==> r == Success(src.text)
    ensures src.FromYouTube? ==> r == FetchTranscriptWith(src.url, env, sv.search, asWritten)
    ensures src.FromDocument? ==> r == ExtractDocumentText(src.data, src.name, sv.extractors)
    ensures src.FromImage? ==> r == ExtractImageTextWith(src.image, sv.vision, asWritten)
    ensures r.Failure? ==> RouteError(r.error)
  {
    match src
    case FromYouTube(url) => FetchTranscriptWith(url, env, sv.search, asWritten)
    case FromDocument(data, name) => ExtractDocumentText(data, name, sv.extractors)
    case FromImage(image) => ExtractImageTextWith(image, sv.vision, asWritten)
    case FromText(text) => Success(text)
  }

  /** The text the route analyses once it has passed validation and the
      OpenAI key check: the source's text itself, or the first failure of
      the three steps. */
  function CheckedText(src: Source, env: map<string, string>, sv: Services, asWritten: bool): (r: Result<string, Thrown>)
    ensures SourceText(src, env, sv, asWritten).Failure? ==> r == SourceText(src, env, sv, asWritten)
    ensures SourceText(src, env, sv, asWritten).Success? ==>
              var text := SourceText(src, env, sv, asWritten).value;
              && (ValidateText(text).Failure? ==> r == Failure(App(ValidateText(text).error)))
              && (ValidateText(text).Success? && RequireEnvVar(env, "OPENAI_API_KEY").Failure? ==>
                    r == Failure(App(RequireEnvVar(env, "OPENAI_API_KEY").error)))
              && (r.Success? <==> ValidateText(text).Success? && RequireEnvVar(env, "OPENAI_API_KEY").Success?)
              && (r.Success? ==> r.value == text)
    ensures r.Success? ==> !IsBlank(r.value) && |r.value| <= MaxChars && |Trim(r.value)| >= MinTrimmedChars
    ensures r.Failure? ==> RouteError(r.error)
  {
    var text :- SourceText(src, env, sv, asWritten);
    match ValidateText(text)
    case Failure(e) => Failure(App(e))
    case Success(_) =>
      match RequireEnvVar(env, "OPENAI_API_KEY")
      case Failure(e) => Failure(App(e))
      case Success(_) => Success(text)
  }

  /** The chat completion on a checked text, the parse of its answer and
      the result built from it: a thrown request passes on, an empty
      answer is an API error, an unparsable one a validation error. */
  function AnalyzeText(text: string, settings: Settings, sv: Services): (r: Result<AnalysisResult, Thrown>)
    requires !IsBlank(text)
    ensures sv.complete(text, settings).CompletionThrew? ==> r == Failure(Foreign(sv.complete(text, settings).error))
    ensures sv.complete(text, settings).Completed? ==>
              var content := sv.complete(text, settings).content;
              && (content.None? || content.value == "" ==> r == Failure(App(NewApiError(NoResponse, None))))
              && (content.Some? && content.value != "" && sv.parseJson(content.value).None? ==>
                    r == Failure(App(NewValidationError(InvalidJson))))
              && (content.Some? && content.value != "" && sv.parseJson(content.value).Some? ==>
                    r == BuildAnalysisResult(text, sv.parseJson(content.value).value, sv.stats(text)))
    ensures r.Success? ==> r.value.wordCount >= 1
    ensures r.Failure? ==> RouteError(r.error)
  {
    match sv.complete(text, settings)
    case CompletionThrew(e) => Failure(Foreign(e))
    case Completed(content) =>
      if content.None? || content.value == [] then Failure(App(NewApiError(NoResponse, None)))
      else
        match sv.parseJson(content.value)
        case None => Failure(App(NewValidationError(InvalidJson)))
        case Some(parsed) => BuildAnalysisResult(text, parsed, sv.stats(text))
  }

  /** The `try` block of `POST` after the body has been read, for the
      selected source and the requested settings: the analysis of the
      checked text, with that text as the extracted text unless it came in
      raw. */
  function AnalyzeSource(src: Source, settings: Settings, env: map<string, string>, sv: Services, asWritten: bool): (r: Result<(AnalysisResult, Option<string>), Thrown>)
    ensures CheckedText(src, env, sv, asWritten).Failure? ==> r == Failure(CheckedText(src, env, sv, asWritten).error)
    ensures CheckedText(src, env, sv, asWritten).Success? ==>
              var text := CheckedText(src, env, sv, asWritten).value;
              && (AnalyzeText(text, settings, sv).Failure? ==> r == Failure(AnalyzeText(text, settings, sv).error))
              && (AnalyzeText(text, settings, sv).Success? ==>
                    r == Success((AnalyzeText(text, settings, sv).value, if src.FromText? then None else Some(text))))
    ensures r.Success? ==> r.value.0.wordCount >= 1
    ensures r.Failure? ==> RouteError(r.error)
  {
    var text :- CheckedText(src, env, sv, asWritten);
    var result :- AnalyzeText(text, settings, sv);
    Success((result, if src.FromText? then None else Some(text)))
  }

  /** `POST`, with the catch blocks `asWritten` picks: an unreadable body or
      any failure along the way becomes the normalised error response;
      otherwise 200 with the result and, for extracted sources, the
      extracted text. */
  function PostWith(body: Result<AnalyzeRequest, ForeignValue>, env: map<string, string>, sv: Services, asWritten: bool): (r: Response)
    ensures r.success <==> r.status == 200
    ensures r.success ==> r.data.Some? && r.data.value.wordCount >= 1 && r.error.None?
    ensures !r.success ==> (r.status == 400 || r.status == 500) && r.data.None? && r.error.Some?
    ensures body.Failure? ==> !r.success && r.error == Some(NormalizeError(Foreign(body.error), None).message)
    ensures body.Success? ==>
              var o := AnalyzeSource(SelectSource(body.value), RequestSettings(body.value), env, sv, asWritten);
              && (r.success <==> o.Success?)
              && (o.Success? ==> r.data == Some(o.value.0) && r.extractedText == o.value.1)
              && (o.Failure? ==> r.status == CreateErrorResponse(o.error, 500).status
                                 && r.error == Some(CreateErrorResponse(o.error, 500).error))
    ensures r.success ==> (r.extractedText.Some? <==> !SelectSource(body.value).FromText?)
  {
    var outcome: Result<(AnalysisResult, Option<string>), Thrown> :=
      if body.Failure? then Failure(Foreign(body.error))
      else AnalyzeSource(SelectSource(body.value), RequestSettings(body.value), env, sv, asWritten);
    match outcome
    case Success((result, extracted)) => Response(200, true, Some(result), None, extracted)
    case Failure(t) =>
      RouteErrorStatus(t);
      var e := CreateErrorResponse(t, 500);
      Response(e.status, false, None, Some(e.error), None)
  }

  /** `POST` as intended: a ValidationError from the transcript fetch and a
      FileError from the image extraction keep their status 400. */
  function Post(body: Result<AnalyzeRequest, ForeignValue>, env: map<string, string>, sv: Services): (r: Response)
    ensures r.success <==> r.status == 200
    ensures !r.success ==> (r.status == 400 || r.status == 500) && r.data.None? && r.error.Some?
    ensures r.success ==> r.data.Some? && r.data.value.wordCount >= 1 && r.error.None?
  {
    PostWith(body, env, sv, false)
  }

  /** `POST` as written. */
  function PostAsWritten(body: Result<AnalyzeRequest, ForeignValue>, env: map<string, string>, sv: Services): (r: Response)
    ensures r.success <==> r.status == 200
    ensures !r.success ==> (r.status == 400 || r.status == 500) && r.data.None? && r.error.Some?
    ensures r.success ==> r.data.Some? && r.data.value.wordCount >= 1 && r.error.None?
  {
    PostWith(body, env, sv, true)
  }

  /** A raw text that passes the checks and gets a parsable, non-null answer
      is answered 200 with the result built from that answer, and no
      extracted text. */
  lemma RawTextAnswered(req: AnalyzeRequest, env: map<string, string>, sv: Services, content: string, parsed: Json)
    requires SelectSource(req).FromText? && ValidateText(SelectSource(req).text).Success?
    requires RequireEnvVar(env, "OPENAI_API_KEY").Success?
    requires sv.complete(SelectSource(req).text, RequestSettings(req)) == Completed(Some(content)) && content != ""
    requires sv.parseJson(content) == Some(parsed) && parsed != JNull
    ensures var text := SelectSource(req).text;
            Post(Success(req), env, sv)
            == Response(200, true, Some(BuildAnalysisResult(text, parsed, sv.stats(text)).value), None, None)
  {
    var text := SelectSource(req).text;
    assert CheckedText(SelectSource(req), env, sv, false) == Success(text);
    assert AnalyzeText(text, RequestSettings(req), sv) == BuildAnalysisResult(text, parsed, sv.stats(text));
  }

  /** The discrepancy seen from the client: a video whose search returns no
      transcripts is answered 400 by the intended handler and 500 by the
      one as written. */
  lemma EmptyTranscriptResponses(req: AnalyzeRequest, env: map<string, string>, sv: Services)
    requires SelectSource(req).FromYouTube?
    requires ParseYouTubeUrl(SelectSource(req).url).Some? && RequireEnvVar(env, "SEARCHAPI_API_KEY").Success?
    requires sv.search(ParseYouTubeUrl(SelectSource(req).url).value, RequireEnvVar(env, "SEARCHAPI_API_KEY").value)
             == SearchResponded(Some([]))
    ensures Post(Success(req), env, sv).status == 400
    ensures PostAsWritten(Success(req), env, sv).status == 500
  {
    TranscriptErrorRewrapped(SelectSource(req).url, env, sv.search);
  }

  /** Every error the route raises answers with 400 or 500. */
  lemma RouteErrorStatus(t: Thrown)
    requires RouteError(t)
    ensures CreateErrorResponse(t, 500).status == 400 || CreateErrorResponse(t, 500).status == 500
  {
    if t.Foreign? && (t.value.PlainError? || t.value.AxiosFailure?) {
      var e := ClassifyError(t.value.message);
      assert e.category == Validation || e.category == Network || e.category == Api
             || e.category == File || e.category == Unknown by {
        assert e.category != Auth;
      }
    }
  }

  /** A valid raw text without an OpenAI key is a server error naming the
      key, and the model is never asked. */
  lemma MissingOpenAiKey(req: AnalyzeRequest, env: map<string, string>, sv: Services)
    requires SelectSource(req).FromText? && ValidateText(SelectSource(req).text).Success?
    requires "OPENAI_API_KEY" !in env
    ensures Post(Success(req), env, sv)
            == Response(500, false, None, Some("OPENAI_API_KEY" + NotConfiguredSuffix), None)
  {
  }

  /** A raw text that fails validation answers 400 with the validation
      message. */
  lemma InvalidRawText(req: AnalyzeRequest, env: map<string, string>, sv: Services)
    requires SelectSource(req).FromText? && ValidateText(SelectSource(req).text).Failure?
    ensures Post(Success(req), env, sv)
            == Response(400, false, None, Some(ValidateText(SelectSource(req).text).error.message), None)
  {
  }

  /** With a truthy YouTube URL the text, image and document fields of the
      request change nothing. */
  lemma PostIgnoresOtherInputsForYouTube(req: AnalyzeRequest, env: map<string, string>, sv: Services,
                                         text: Option<string>, image: Option<string>, doc: Option<string>, name: Option<string>)
    requires Truthy(req.youtubeUrl)
    ensures Post(Success(req.(text := text, image := image, document := doc, documentName := name)), env, sv)
            == Post(Success(req), env, sv)
  {
    YouTubeOverridesOtherInputs(req, text, image, doc, name);
  }
}
