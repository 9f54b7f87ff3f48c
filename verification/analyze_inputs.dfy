/** The input decisions of the analyze route (ai-tool/app/api/analyze/route.ts)
    that need no service: which source the text comes from, the ordered text
    validation, the YouTube URL pattern, the data-URL payload and the file
    extension of an uploaded document. */
module AnalyzeInputs {
  import opened Wrappers
  import opened Strings
  import opened Types
  import opened Errors
  import opened ErrorMessages

  /** The request body; absent fields are `undefined`. */
  datatype AnalyzeRequest = AnalyzeRequest(
    text: Option<string>,
    image: Option<string>,
    document: Option<string>,
    documentName: Option<string>,
    youtubeUrl: Option<string>,
    summaryLength: Option<SummaryLength>,
    analysisStyle: Option<AnalysisStyle>)

  /** Where the analysed text comes from. */
  datatype Source =
    | FromYouTube(url: string)
    | FromDocument(data: string, name: string)
    | FromImage(image: string)
    | FromText(text: string)

  /** The source chain of `POST`: a truthy YouTube URL wins, then a document
      that comes with a name, then an image, and otherwise the raw text
      (`text ?? ''`). */
  function SelectSource(req: AnalyzeRequest): (s: Source)
    ensures s.FromYouTube? <==> Truthy(req.youtubeUrl)
    ensures s.FromDocument? <==> !Truthy(req.youtubeUrl) && Truthy(req.document) && Truthy(req.documentName)
    ensures s.FromImage? <==>
              !Truthy(req.youtubeUrl) && !(Truthy(req.document) && Truthy(req.documentName)) && Truthy(req.image)
    ensures s.FromYouTube? ==> s.url == req.youtubeUrl.value
    ensures s.FromDocument? ==> s.data == req.document.value && s.name == req.documentName.value
    ensures s.FromImage? ==> s.image == req.image.value
    ensures s.FromText? ==> s.text == req.text.GetOr("")
  {
    if Truthy(req.youtubeUrl) then FromYouTube(req.youtubeUrl.value)
    else if Truthy(req.document) && Truthy(req.documentName) then FromDocument(req.document.value, req.documentName.value)
    else if Truthy(req.image) then FromImage(req.image.value)
    else FromText(req.text.GetOr(""))
  }

  /** A truthy YouTube URL makes every other input field irrelevant. */
  lemma YouTubeOverridesOtherInputs(req: AnalyzeRequest, text: Option<string>, image: Option<string>, doc: Option<string>, name: Option<string>)
    requires Truthy(req.youtubeUrl)
    ensures SelectSource(req.(text := text, image := image, document := doc, documentName := name)) == SelectSource(req)
  {
  }

  /** `MAX_CHARS` */
  const MaxChars: nat := 50_000

  /** `MAX_CHARS.toLocaleString()` in the en-US locale. */
  const MaxCharsFormatted := "50,000"

  /** The shortest trimmed text worth analysing. */
  const MinTrimmedChars: nat := 10

  /** The three checks of `POST`, in order: a blank text is invalid input, a
      text longer than 50000 characters is too long, and a text whose trimmed
      length is under ten is too short. Each failure is a ValidationError. */
  function ValidateText(text: string): (r: Result<string, AppError>)
    ensures r.Success? <==> !IsBlank(text) && |text| <= MaxChars && |Trim(text)| >= MinTrimmedChars
    ensures r.Success? ==> r.value == text
    ensures r == Failure(NewValidationError(InvalidInput)) <==> IsBlank(text)
    ensures r == Failure(NewValidationError(TextTooLong(MaxCharsFormatted))) <==> !IsBlank(text) && |text| > MaxChars
    ensures r == Failure(NewValidationError(TextTooShort)) <==>
              !IsBlank(text) && |text| <= MaxChars && |Trim(text)| < MinTrimmedChars
  {
    if text == [] || Trim(text) == [] then Failure(NewValidationError(InvalidInput))
    else if |text| > MaxChars then Failure(NewValidationError(TextTooLong(MaxCharsFormatted)))
    else if |Trim(text)| < MinTrimmedChars then Failure(NewValidationError(TextTooShort))
    else Success(text)
  }

  // ------------------------------------------------------------- YouTube URLs

  /** `[a-zA-Z0-9_-]` */
  predicate IsIdChar(c: char) {
    ('a' <= c <= 'z') || ('A' <= c <= 'Z') || ('0' <= c <= '9') || c == '_' || c == '-'
  }

  const VideoIdLength: nat := 11

  const Schemes: seq<string> := ["", "http://", "https://"]
  const WwwParts: seq<string> := ["", "www."]
  const Hosts: seq<string> := ["youtube.com/watch?v=", "youtu.be/"]

  /** `id` is what the fourth group of `YOUTUBE_REGEX` captures on `u`:
      `u` starts with an optional scheme, an optional "www.", one of the two
      hosts and then `id`, eleven identifier characters. Matching is
      case-sensitive and anything after the id is ignored. */
  predicate UrlMatches(u: string, id: string) {
    && |id| == VideoIdLength
    && (forall q :: 0 <= q < |id| ==> IsIdChar(id[q]))
    && exists i, j, k :: 0 <= i < |Schemes| && 0 <= j < |WwwParts| && 0 <= k < |Hosts|
                         && Schemes[i] + WwwParts[j] + Hosts[k] + id <= u
  }

  function SchemeLength(u: string): (n: nat)
    ensures n <= |u| && u[..n] in Schemes
  {
    if "https://" <= u then assert u[..8] == Schemes[2]; 8
    else if "http://" <= u then assert u[..7] == Schemes[1]; 7
    else assert u[..0] == Schemes[0]; 0
  }

  function WwwLength(u: string): (n: nat)
    ensures n <= |u| && u[..n] in WwwParts
  {
    if "www." <= u then assert u[..4] == WwwParts[1]; 4
    else assert u[..0] == WwwParts[0]; 0
  }

  /** The length of the host part `u` starts with, 0 when it has none. */
  function HostLength(u: string): (n: nat)
    ensures n <= |u|
    ensures n != 0 ==> u[..n] in Hosts
  {
    if "youtube.com/watch?v=" <= u then assert u[..20] == Hosts[0]; 20
    else if "youtu.be/" <= u then assert u[..9] == Hosts[1]; 9
    else 0
  }

  /** Where the video id starts once the scheme, "www." and host groups
      have been read, left to right; each optional group is taken when
      present. No backtracking is needed, because a skipped group would leave
      a character that no later group can start with. */
  function IdStart(u: string): (c: Option<nat>)
    ensures c.Some? ==> c.value <= |u|
  {
    var a := SchemeLength(u);
    var b := a + WwwLength(u[a..]);
    var h := HostLength(u[b..]);
    if h == 0 then None else Some(b + h)
  }

  /** The match of `YOUTUBE_REGEX`: the eleven identifier characters after
      the host. */
  function ParseYouTubeUrl(u: string): (r: Option<string>)
    ensures r.Some? ==> UrlMatches(u, r.value)
  {
    match IdStart(u)
    case None => None
    case Some(c) =>
      if c + VideoIdLength <= |u| && forall q :: c <= q < c + VideoIdLength ==> IsIdChar(u[q]) then
        IdStartMatches(u, c);
        Some(u[c..c + VideoIdLength])
      else None
  }

  /** Eleven identifier characters where `IdStart` points make a match. */
  lemma IdStartMatches(u: string, c: nat)
    requires IdStart(u) == Some(c) && c + VideoIdLength <= |u|
    requires forall q :: c <= q < c + VideoIdLength ==> IsIdChar(u[q])
    ensures UrlMatches(u, u[c..c + VideoIdLength])
  {
    var a := SchemeLength(u);
    var b := a + WwwLength(u[a..]);
    var h := HostLength(u[b..]);
    var id := u[c..c + VideoIdLength];
    assert u[a..][..b - a] == u[a..b];
    assert u[b..][..h] == u[b..c];
    assert u[..c + VideoIdLength] == u[..a] + u[a..b] + u[b..c] + id;
    MatchOfGroups(u, u[..a], u[a..b], u[b..c], id);
  }

  /** Groups taken from the three tables, followed by an identifier, make a
      match. */
  lemma MatchOfGroups(u: string, scheme: string, www: string, host: string, id: string)
    requires scheme in Schemes && www in WwwParts && host in Hosts
    requires |id| == VideoIdLength && forall q :: 0 <= q < |id| ==> IsIdChar(id[q])
    requires scheme + www + host + id <= u
    ensures UrlMatches(u, id)
  {
    var i :| 0 <= i < |Schemes| && Schemes[i] == scheme;
    var j :| 0 <= j < |WwwParts| && WwwParts[j] == www;
    var k :| 0 <= k < |Hosts| && Hosts[k] == host;
    assert Schemes[i] + WwwParts[j] + Hosts[k] + id <= u;
  }

  lemma SchemeLengthOf(u: string, i: nat)
    requires i < |Schemes| && |Schemes[i]| < |u| && u[..|Schemes[i]|] == Schemes[i]
    requires u[|Schemes[i]|] == 'w' || u[|Schemes[i]|] == 'y'
    ensures SchemeLength(u) == |Schemes[i]|
  {
    if i == 1 {
      assert u[4] == ':';
    }
  }

  lemma WwwLengthOf(u: string, j: nat)
    requires j < |WwwParts| && |WwwParts[j]| < |u| && u[..|WwwParts[j]|] == WwwParts[j]
    requires u[|WwwParts[j]|] == 'y'
    ensures WwwLength(u) == |WwwParts[j]|
  {
  }

  lemma HostLengthOf(u: string, k: nat)
    requires k < |Hosts| && |Hosts[k]| <= |u| && u[..|Hosts[k]|] == Hosts[k]
    ensures HostLength(u) == |Hosts[k]|
  {
    if k == 1 {
      assert u[5] == '.';
    }
  }

  /** The parser finds the groups a match is made of. */
  lemma IdStartOf(u: string, i: nat, j: nat, k: nat)
    requires i < |Schemes| && j < |WwwParts| && k < |Hosts|
    requires Schemes[i] + WwwParts[j] + Hosts[k] <= u
    ensures IdStart(u) == Some(|Schemes[i]| + |WwwParts[j]| + |Hosts[k]|)
  {
    var s, w, h := Schemes[i], WwwParts[j], Hosts[k];
    var a, b := |s|, |s| + |w|;
    var p := s + w + h;
    assert u[..|p|] == p;
    assert u[..a] == s;
    assert u[a..][..|w|] == w;
    assert u[b..][..|h|] == h;
    assert u[a] == (w + h)[0];
    SchemeLengthOf(u, i);
    assert u[b] == h[0];
    WwwLengthOf(u[a..], j);
    HostLengthOf(u[b..], k);
  }

  /** Completeness: whenever the pattern matches, the parser finds the same
      video id. With the soundness in its contract, `ParseYouTubeUrl(u) ==
      Some(id)` holds exactly when `UrlMatches(u, id)`. */
  lemma ParseYouTubeUrlComplete(u: string, id: string)
    requires UrlMatches(u, id)
    ensures ParseYouTubeUrl(u) == Some(id)
  {
    var i, j, k :| 0 <= i < |Schemes| && 0 <= j < |WwwParts| && 0 <= k < |Hosts|
                   && Schemes[i] + WwwParts[j] + Hosts[k] + id <= u;
    var p := Schemes[i] + WwwParts[j] + Hosts[k];
    assert u[..|p| + |id|] == p + id;
    assert u[..|p|] == p;
    IdStartOf(u, i, j, k);
    assert u[|p|..|p| + VideoIdLength] == id;
  }

  /** A short link with a trailing query yields its id. */
  lemma ShortLinkExample()
    ensures ParseYouTubeUrl("https://youtu.be/dQw4w9WgXcQ?t=42") == Some("dQw4w9WgXcQ")
  {
    var u, id := "https://youtu.be/dQw4w9WgXcQ?t=42", "dQw4w9WgXcQ";
    assert Schemes[2] + WwwParts[0] + Hosts[1] + id == u[..28];
    assert forall q :: 0 <= q < |id| ==> IsIdChar(id[q]);
    ParseYouTubeUrlComplete(u, id);
  }

  /** A bare video id is rejected: the pattern needs a host. */
  lemma BareIdRejected()
    ensures ParseYouTubeUrl("dQw4w9WgXcQ") == None
  {
    var u := "dQw4w9WgXcQ";
    assert u[0] == 'd';
    assert SchemeLength(u) == 0;
    assert WwwLength(u[0..]) == 0;
  }

  // ---------------------------------------------------------------- documents

  /** `base64Document.split(',')[1]` when the string has a comma, the whole
      string otherwise: the payload after the header of a data URL (section 3
      of RFC 2397), up to any second comma. */
  function DataUrlPayload(d: string): (p: string)
    ensures ',' !in d ==> p == d
    ensures ',' in d ==>
              var i := FirstIndex(d, ',');
              && ',' !in p && p <= d[i + 1..]
              && (i + 1 + |p| == |d| || d[i + 1 + |p|] == ',')
  {
    FirstIndexFound(d, ',');
    if ',' in d then
      SplitOnHead(d, ',');
      var i := FirstIndex(d, ',');
      var rest := d[i + 1..];
      var j := FirstIndex(rest, ',');
      assert rest[..j] <= rest;
      SplitOn(d, ',')[1]
    else d
  }

  /** `name.split('.').pop()?.toLowerCase()`: the lower-cased text after the
      last dot, or the whole name when it has none. */
  function Extension(name: string): (e: string)
    ensures |e| <= |name| && e == ToLower(name[|name| - |e|..])
    ensures '.' !in name[|name| - |e|..]
    ensures |e| == |name| || name[|name| - |e| - 1] == '.'
  {
    var parts := SplitOn(name, '.');
    SplitOnLast(name, '.');
    ToLower(parts[|parts| - 1])
  }

  /** The extension of `base.ext` is `ext` lower-cased, whatever `base`
      holds; a name without a dot is its own extension. */
  lemma ExtensionOfDottedName(base: string, ext: string)
    requires '.' !in ext
    ensures Extension(base + "." + ext) == ToLower(ext)
    ensures '.' !in base ==> Extension(base) == ToLower(base)
  {
    var s := base + "." + ext;
    var parts := SplitOn(s, '.');
    SplitOnLast(s, '.');
    assert s[|s| - |ext|..] == ext && s[|s| - |ext| - 1] == '.';
    LastPieceUnique(s, '.', parts[|parts| - 1], ext);
    if '.' !in base {
      SplitOnLast(base, '.');
      assert base[0..] == base;
      LastPieceUnique(base, '.', SplitOn(base, '.')[|SplitOn(base, '.')| - 1], base);
    }
  }
}
