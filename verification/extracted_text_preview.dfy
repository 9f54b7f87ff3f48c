/** The text ai-tool/components/shared/ExtractedTextPreview.tsx shows. */
module ExtractedTextPreview {
  import opened Strings
  import Utils

  const DefaultMaxLength: int := 200
  const DefaultTitle: string := "Extracted Text"

  /** `text.substring(0, maxLength)` followed by "..." exactly when the text
      is longer; nothing is trimmed. */
  function Preview(text: string, maxLength: int): (r: string)
    ensures |text| <= maxLength ==> r == text
    ensures |text| > maxLength ==>
              && |r| == (if maxLength > 0 then maxLength else 0) + 3
              && r[|r| - 3..] == "..."
              && r[..|r| - 3] == text[..|r| - 3]
    ensures |r| <= |text| + 3
  {
    Utils.Substring(text, maxLength) + (if |text| > maxLength then "..." else "")
  }

  /** The preview and `truncateText` differ only in the trim: they agree on
      a long text exactly when its shown prefix has no whitespace to trim. */
  lemma PreviewAgreesWithTruncateIff(text: string, maxLength: int)
    requires |text| > maxLength
    ensures Preview(text, maxLength) == Utils.TruncateText(text, maxLength)
            <==> Trim(Utils.Substring(text, maxLength)) == Utils.Substring(text, maxLength)
  {
    var prefix := Utils.Substring(text, maxLength);
    var p := Preview(text, maxLength);
    var q := Utils.TruncateText(text, maxLength);
    assert p == prefix + "...";
    assert q == Trim(prefix) + "...";
    if p == q {
      assert p[..|p| - 3] == prefix;
      assert q[..|q| - 3] == Trim(prefix);
    }
  }
}
