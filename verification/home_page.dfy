/** The client side of ai-tool/app/page.tsx: the checks `handleAnalyze`
    makes before it sends anything, what it does with the reply, the
    keyboard shortcut, the character counter and the Analyze button. */
module HomePage {
  import opened Wrappers
  import opened Strings
  import opened Types
  import ErrorMessages
  import AnalyzeInputs

  const MaxChars: nat := 5000
  /** `formatCount(5000)` in the en-US locale. */
  const MaxCharsFormatted: string := "5,000"
  const MinTrimmedChars: nat := 10
  const EnterTextPrompt: string := "Please enter some text to analyze"
  const AnalysisFailedFallback: string := "Analysis failed"
  const UnexpectedFallback: string := "An unexpected error occurred"

  /** The client checks in order: blank, then too long, then too short.
      `None` means the text may be sent. */
  function ClientCheck(text: string): (r: Option<string>)
    ensures r.None? <==> !IsBlank(text) && |text| <= MaxChars && |Trim(text)| >= MinTrimmedChars
    ensures r == Some(EnterTextPrompt) <==> IsBlank(text)
    ensures r == Some(ErrorMessages.TextTooLong(MaxCharsFormatted)) <==> !IsBlank(text) && |text| > MaxChars
    ensures r == Some(ErrorMessages.TextTooShort) <==>
              !IsBlank(text) && |text| <= MaxChars && |Trim(text)| < MinTrimmedChars
  {
    ErrorMessagesDiffer();
    if Trim(text) == [] then Some(EnterTextPrompt)
    else if |text| > MaxChars then Some(ErrorMessages.TextTooLong(MaxCharsFormatted))
    else if |Trim(text)| < MinTrimmedChars then Some(ErrorMessages.TextTooShort)
    else None
  }

  lemma ErrorMessagesDiffer()
    ensures EnterTextPrompt != ErrorMessages.TextTooLong(MaxCharsFormatted)
    ensures EnterTextPrompt != ErrorMessages.TextTooShort
    ensures ErrorMessages.TextTooLong(MaxCharsFormatted) != ErrorMessages.TextTooShort
  {
    assert |EnterTextPrompt| == 33;
    assert |ErrorMessages.TextTooShort| == 57;
    assert |ErrorMessages.TextTooLong(MaxCharsFormatted)| == 47;
  }

  /** The page's state. */
  datatype PageState = PageState(
    text: string,
    loading: bool,
    error: Option<string>,
    result: Option<AnalysisResult>)

  /** `handleAnalyze` up to the request: the error and result are cleared;
      a rejected text sets the error and returns before `loading` is set, so
      no request goes out; an accepted one sets `loading` and sends the text. */
  function StartAnalyze(s: PageState): (r: (PageState, Option<string>))
    ensures r.1.Some? <==> ClientCheck(s.text).None?
    ensures r.1.Some? ==> r.1.value == s.text && r.0.loading && r.0.error.None?
    ensures r.1.None? ==> r.0.loading == s.loading && r.0.error == ClientCheck(s.text)
    ensures r.0.text == s.text && r.0.result.None?
  {
    var cleared := s.(error := None, result := None);
    match ClientCheck(s.text)
    case Some(message) => (cleared.(error := Some(message)), None)
    case None => (cleared.(loading := true), Some(s.text))
  }

  /** How the request ended: a JSON reply, or a throw from `fetch` or
      `response.json()`, carrying a message when it is an `Error`. */
  datatype Reply =
    | Replied(success: bool, data: Option<AnalysisResult>, error: Option<string>)
    | Threw(message: Option<string>)

  /** The rest of `handleAnalyze`: a successful reply shows its data; an
      unsuccessful one shows its error, or "Analysis failed" when it has
      none; a throw shows its message; `loading` is cleared in every case. */
  function FinishAnalyze(s: PageState, reply: Reply): (r: PageState)
    ensures !r.loading && r.text == s.text
    ensures reply.Replied? && reply.success ==> r.result == reply.data && r.error == s.error
    ensures reply.Replied? && !reply.success ==>
              r.error == Some(if Truthy(reply.error) then reply.error.value else AnalysisFailedFallback)
              && r.result == s.result
    ensures reply.Threw? ==>
              r.error == Some(if reply.message.Some? then reply.message.value else UnexpectedFallback)
  {
    match reply
    case Replied(success, data, error) =>
      if success then s.(result := data, loading := false)
      else s.(error := Some(if Truthy(error) then error.value else AnalysisFailedFallback), loading := false)
    case Threw(message) =>
      s.(error := Some(if message.Some? then message.value else UnexpectedFallback), loading := false)
  }

  /** Whatever the client sends, the server's own text checks accept:
      the client bound is the tighter one, and both ask for ten visible
      characters. */
  lemma ClientStricterThanServer(text: string)
    requires ClientCheck(text).None?
    ensures AnalyzeInputs.ValidateText(text) == Success(text)
  {
  }

  /** A text that is too short is refused with the same words on both
      sides. */
  lemma ShortTextSameMessage(text: string)
    requires ClientCheck(text) == Some(ErrorMessages.TextTooShort)
    ensures AnalyzeInputs.ValidateText(text).Failure?
    ensures AnalyzeInputs.ValidateText(text).error.message == ErrorMessages.TextTooShort
  {
  }

  /** `handleKeyDown`: Enter with Ctrl or Cmd starts the analysis. */
  function TriggersAnalyze(key: string, ctrlKey: bool, metaKey: bool): (r: bool)
    ensures r ==> key == "Enter"
    ensures key == "Enter" ==> (r <==> ctrlKey || metaKey)
  {
    key == "Enter" && (ctrlKey || metaKey)
  }

  /** The colour of the character counter. */
  datatype CounterColour = Neutral | Orange | Red

  function Rank(c: CounterColour): nat {
    match c
    case Neutral => 0
    case Orange => 1
    case Red => 2
  }

  /** Red past the limit, orange past nine tenths of it (4500, exactly
      representable), neutral otherwise. */
  function CounterColourOf(charCount: nat): (c: CounterColour)
    ensures c == Red <==> charCount > MaxChars
    ensures c == Orange <==> 4500 < charCount <= MaxChars
    ensures c == Neutral <==> charCount <= 4500
  {
    if charCount > MaxChars then Red
    else if charCount * 10 > MaxChars * 9 then Orange
    else Neutral
  }

  /** More characters never give a calmer colour. */
  lemma CounterColourMonotone(a: nat, b: nat)
    requires a <= b
    ensures Rank(CounterColourOf(a)) <= Rank(CounterColourOf(b))
  {
  }

  /** `disabled={loading || !text.trim()}` */
  function ButtonDisabled(s: PageState): (r: bool)
    ensures !r <==> !s.loading && !IsBlank(s.text)
  {
    s.loading || Trim(s.text) == []
  }

  /** A press on the enabled button never meets the blank-text message. */
  lemma EnabledButtonPassesBlankCheck(s: PageState)
    requires !ButtonDisabled(s)
    ensures StartAnalyze(s).0.error != Some(EnterTextPrompt)
  {
    ErrorMessagesDiffer();
  }
}
