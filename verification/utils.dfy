/** The text utilities of ai-tool/lib/utils.ts: word counting, the reading-time
    estimate and prefix truncation. */
module Utils {
  import opened Strings

  /** Average silent-reading speed the estimate assumes. */
  const WordsPerMinute: nat := 200

  /** `countWords`: zero for an empty or all-whitespace text, otherwise the
      number of pieces `text.trim().split(/\s+/)` produces, which is the
      number of maximal runs of visible characters. */
  function CountWords(text: string): (n: nat)
    ensures n == 0 <==> IsBlank(text)
    ensures n == RunCount(text)
  {
    RunCountZeroIffBlank(text, false);
    if text == [] || Trim(text) == [] then 0
    else
      var t := Trim(text);
      SplitWsOfTrimmedCountsRuns(t);
      RunCountOfTrim(text);
      |SplitWs(t)|
  }

  /** Whitespace around a text does not change its word count. */
  lemma CountWordsOfTrim(text: string)
    ensures CountWords(Trim(text)) == CountWords(text)
  {
    RunCountOfTrim(text);
  }

  /** `Math.max(1, Math.ceil(words / 200))`: the least whole number of minutes
      that covers the words at 200 words per minute, and never less than one. */
  function ReadingMinutes(words: nat): (m: nat)
    ensures m >= 1
    ensures words <= m * WordsPerMinute
    ensures m == 1 || (m - 1) * WordsPerMinute < words
  {
    var minutes := (words + WordsPerMinute - 1) / WordsPerMinute;
    if minutes > 1 then minutes else 1
  }

  /** `calculateReadingTime` */
  function ReadingTime(text: string): (m: nat)
    ensures m >= 1
    ensures CountWords(text) <= m * WordsPerMinute
    ensures m == 1 || (m - 1) * WordsPerMinute < CountWords(text)
  {
    ReadingMinutes(CountWords(text))
  }

  /** More words never take less time. */
  lemma ReadingMinutesMonotone(a: nat, b: nat)
    requires a <= b
    ensures ReadingMinutes(a) <= ReadingMinutes(b)
  {
  }

  /** Up to 200 words read in one minute; the 201st word adds a second. */
  lemma ReadingMinutesBoundary()
    ensures forall w :: 0 <= w <= 200 ==> ReadingMinutes(w) == 1
    ensures ReadingMinutes(201) == 2
  {
  }

  /** `text.substring(0, k)`: JavaScript clamps `k` into `0..|text|`. */
  function Substring(text: string, k: int): (r: string)
    ensures |r| <= |text| && r == text[..|r|]
    ensures 0 <= k <= |text| ==> |r| == k
  {
    if k <= 0 then [] else if k >= |text| then text else text[..k]
  }

  /** `truncateText`: an input no longer than `maxLength` comes back unchanged;
      a longer one is cut to its first `maxLength` characters, trimmed, and
      followed by "...", possibly in the middle of a word. */
  function TruncateText(text: string, maxLength: int): (r: string)
    ensures |text| <= maxLength ==> r == text
    ensures |text| > maxLength ==>
              && |r| >= 3 && r[|r| - 3..] == "..."
              && |r| <= (if maxLength > 0 then maxLength else 0) + 3
              && r[..|r| - 3] == Trim(Substring(text, maxLength))
  {
    if |text| <= maxLength then text
    else Trim(Substring(text, maxLength)) + "..."
  }
}
