/** The settings panel of ai-tool/components/AnalysisSettings.tsx: the two
    option tables, the change handlers and the copy kept in storage under
    "analysisSettings". */
module AnalysisSettings {
  import opened Wrappers
  import opened Types

  const SummaryLengthOptions: seq<(SummaryLength, string)> :=
    [(Short, "Short"), (SummaryLength.Medium, "Medium"), (Long, "Long")]

  const AnalysisStyleOptions: seq<(AnalysisStyle, string)> :=
    [(Academic, "Academic"), (Casual, "Casual"), (Technical, "Technical")]

  /** `options.find(opt => opt.value === v)?.label`: the label of the first
      option for `v`. */
  function FindLabel<T(==)>(options: seq<(T, string)>, v: T): (r: Option<string>)
    ensures r.None? <==> forall k :: 0 <= k < |options| ==> options[k].0 != v
    ensures r.Some? ==> (v, r.value) in options
    ensures r.Some? ==> exists k :: 0 <= k < |options| && options[k] == (v, r.value)
                                    && forall j :: 0 <= j < k ==> options[j].0 != v
    decreases |options|
  {
    if options == [] then None
    else if options[0].0 == v then Some(options[0].1)
    else
      var r := FindLabel(options[1..], v);
      assert forall k :: 1 <= k < |options| ==> options[k] == options[1..][k - 1];
      FirstMatchAfterHead(options, v, r);
      r
  }

  /** A first match in the tail of a list whose head does not match is
      the first match in the whole list. */
  lemma FirstMatchAfterHead<T>(options: seq<(T, string)>, v: T, r: Option<string>)
    requires options != [] && options[0].0 != v
    requires r.Some? ==> exists k :: 0 <= k < |options[1..]| && options[1..][k] == (v, r.value)
                                     && forall j :: 0 <= j < k ==> options[1..][j].0 != v
    ensures r.Some? ==> exists k :: 0 <= k < |options| && options[k] == (v, r.value)
                                    && forall j :: 0 <= j < k ==> options[j].0 != v
  {
    if r.Some? {
      var k :| 0 <= k < |options[1..]| && options[1..][k] == (v, r.value)
               && forall j :: 0 <= j < k ==> options[1..][j].0 != v;
      assert options[k + 1] == (v, r.value);
      forall j | 0 <= j < k + 1
        ensures options[j].0 != v
      {
        if j > 0 {
          assert options[j] == options[1..][j - 1];
        }
      }
    }
  }

  /** Each table lists every value of its type once, so a length or style
      held as a typed value always has a label. A stored value outside
      the tables has none: its label is `undefined` in the panel header. */
  lemma TablesCoverEveryValue(l: SummaryLength, st: AnalysisStyle)
    ensures FindLabel(SummaryLengthOptions, l).Some?
    ensures FindLabel(AnalysisStyleOptions, st).Some?
    ensures forall i, j :: 0 <= i < j < |SummaryLengthOptions| ==> SummaryLengthOptions[i].0 != SummaryLengthOptions[j].0
    ensures forall i, j :: 0 <= i < j < |AnalysisStyleOptions| ==> AnalysisStyleOptions[i].0 != AnalysisStyleOptions[j].0
  {
    match l
    case Short => assert SummaryLengthOptions[0].0 == l;
    case Medium => assert SummaryLengthOptions[1].0 == l;
    case Long => assert SummaryLengthOptions[2].0 == l;
    match st
    case Academic => assert AnalysisStyleOptions[0].0 == st;
    case Casual => assert AnalysisStyleOptions[1].0 == st;
    case Technical => assert AnalysisStyleOptions[2].0 == st;
  }

  /** The settings passed up and the stored copy. The stored copy is
      whatever was last passed up, since each change is saved by the
      effect that follows it. Both are typed settings: the model starts
      from a well-formed value, whereas the mount effect can pass up any
      parsed JSON, after which a spread keeps only what that value had. */
  datatype Panel = Panel(settings: Settings, stored: Option<Settings>)

  /** `handleSummaryLengthChange`, with the save that follows. */
  function ChangeSummaryLength(p: Panel, length: SummaryLength): (r: Panel)
    ensures r.settings.summaryLength == length
    ensures r.settings.analysisStyle == p.settings.analysisStyle
    ensures r.stored == Some(r.settings)
  {
    var settings := p.settings.(summaryLength := length);
    Panel(settings, Some(settings))
  }

  /** `handleAnalysisStyleChange`, with the save that follows. */
  function ChangeAnalysisStyle(p: Panel, style: AnalysisStyle): (r: Panel)
    ensures r.settings.analysisStyle == style
    ensures r.settings.summaryLength == p.settings.summaryLength
    ensures r.stored == Some(r.settings)
  {
    var settings := p.settings.(analysisStyle := style);
    Panel(settings, Some(settings))
  }

  /** The two handlers touch different fields, so their order does not
      matter. */
  lemma ChangesCommute(p: Panel, length: SummaryLength, style: AnalysisStyle)
    ensures ChangeAnalysisStyle(ChangeSummaryLength(p, length), style)
            == ChangeSummaryLength(ChangeAnalysisStyle(p, style), length)
  {
  }

  /** The mount effect: a truthy saved text that parses is passed up as it
      is, without checking its shape; a parse error is ignored. `None`
      means nothing is passed up. */
  function LoadSaved(saved: Option<string>, parse: string -> Option<Json>): (r: Option<Json>)
    ensures r.Some? <==> Truthy(saved) && parse(saved.value).Some?
    ensures r.Some? ==> r == parse(saved.value)
  {
    if Truthy(saved) then parse(saved.value) else None
  }
}
