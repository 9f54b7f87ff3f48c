/** The paragraph of ai-tool/components/shared/ExpandableText.tsx: a text
    longer than the limit is shown cut, and a click toggles it in full. */
module ExpandableText {
  import opened Strings
  import Utils
  import ExtractedTextPreview

  const DefaultLimit: int := 300

  /** A short text is shown as it is with no toggle; a long one shows
      whichever form the expanded flag selects. */
  datatype View = Plain(text: string) | Toggleable(shown: string, expanded: bool)

  function Render(text: string, limit: int, expanded: bool): (v: View)
    ensures v.Plain? <==> |text| <= limit
    ensures v.Plain? ==> v.text == text
    ensures v.Toggleable? ==> v.expanded == expanded
    ensures v.Toggleable? && expanded ==> v.shown == text
    ensures v.Toggleable? && !expanded ==>
              && |v.shown| == (if limit > 0 then limit else 0) + 3
              && v.shown[..|v.shown| - 3] == text[..|v.shown| - 3]
              && v.shown[|v.shown| - 3..] == "..."
  {
    if |text| <= limit then Plain(text)
    else Toggleable(if expanded then text else Utils.Substring(text, limit) + "...", expanded)
  }

  /** The click handler `setIsExpanded(!isExpanded)`. */
  function Click(expanded: bool): (r: bool)
    ensures r != expanded
  {
    !expanded
  }

  /** Two clicks show the same paragraph again. */
  lemma ClickTwiceRestores(text: string, limit: int, expanded: bool)
    ensures Render(text, limit, Click(Click(expanded))) == Render(text, limit, expanded)
  {
  }

  /** Collapsed, the paragraph shows exactly the extracted-text preview with
      the same limit; short texts are shown whole by both. */
  lemma CollapsedIsPreview(text: string, limit: int)
    ensures Render(text, limit, false).Toggleable? ==>
              Render(text, limit, false).shown == ExtractedTextPreview.Preview(text, limit)
    ensures Render(text, limit, false).Plain? ==>
              Render(text, limit, false).text == ExtractedTextPreview.Preview(text, limit)
  {
  }
}
