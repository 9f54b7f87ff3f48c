/** The two helpers of ai-tool/components/AnalysisHistory.tsx: its own
    English-only `formatRelativeTime` and `getInputPreview`, the one-line
    summary of a saved entry. */
module AnalysisHistoryView {
  import opened Wrappers
  import opened Strings
  import opened Types
  import DateUtils
  import Utils

  /** "<n> <unit>" with an "s" exactly when n is more than one, then " ago". */
  function CountAgo(n: nat, unit: string): (r: string)
    ensures n > 1 ==> r == NatToString(n) + " " + unit + "s ago"
    ensures n <= 1 ==> r == NatToString(n) + " " + unit + " ago"
  {
    NatToString(n) + " " + unit + (if n > 1 then "s" else "") + " ago"
  }

  /** `formatRelativeTime` at time `now`, with the same floors and limits as
      the translated version of ai-tool/lib/dateUtils.ts. */
  function FormatRelativeTime(now: int, timestamp: int): (r: DateUtils.RelativeTime)
    ensures var diff := now - timestamp;
      && (diff < DateUtils.MsPerMinute ==> r == DateUtils.Phrase("just now"))
      && (DateUtils.MsPerMinute <= diff < DateUtils.MsPerHour ==>
            r == DateUtils.Phrase(CountAgo(diff / DateUtils.MsPerMinute, "minute")))
      && (DateUtils.MsPerHour <= diff < DateUtils.MsPerDay ==>
            r == DateUtils.Phrase(CountAgo(diff / DateUtils.MsPerHour, "hour")))
      && (DateUtils.MsPerDay <= diff < DateUtils.MsPerWeek ==>
            r == DateUtils.Phrase(CountAgo(diff / DateUtils.MsPerDay, "day")))
      && (DateUtils.MsPerWeek <= diff ==> r == DateUtils.LocaleDate(timestamp))
  {
    match DateUtils.BucketOf(now - timestamp)
    case JustNow => DateUtils.Phrase("just now")
    case MinutesAgo(n) => DateUtils.Phrase(CountAgo(n, "minute"))
    case HoursAgo(n) => DateUtils.Phrase(CountAgo(n, "hour"))
    case DaysAgo(n) => DateUtils.Phrase(CountAgo(n, "day"))
    case Older => DateUtils.LocaleDate(timestamp)
  }

  /** The two formatters agree, with no translations, everywhere except on a
      count of exactly one, where the history list writes "1 minute ago"
      and the shared helper writes "minute ago". */
  lemma FormattersAgreeOnPlurals(now: int, timestamp: int)
    ensures var b := DateUtils.BucketOf(now - timestamp);
      (b.JustNow? || b.Older? || b.n > 1) <==>
        FormatRelativeTime(now, timestamp) == DateUtils.FormatRelativeTime(now, timestamp, map[])
  {
    var b := DateUtils.BucketOf(now - timestamp);
    if !(b.JustNow? || b.Older?) && b.n == 1 {
      assert NatToString(1) == "1";
      var mine := FormatRelativeTime(now, timestamp).text;
      assert mine[0] == '1';
    }
  }

  const PreviewLength: nat := 100

  /** `getInputPreview`: the first field that is truthy in the order text,
      document name, video URL, image; the text cut to 100 characters with
      "..." added exactly when it was longer. */
  function InputPreview(input: HistoryInput): (r: string)
    ensures Truthy(input.text) ==>
      && |r| <= PreviewLength + 3
      && (|input.text.value| <= PreviewLength ==> r == input.text.value)
      && (|input.text.value| > PreviewLength ==>
            |r| == PreviewLength + 3 && r[..PreviewLength] == input.text.value[..PreviewLength]
            && r[PreviewLength..] == "...")
    ensures !Truthy(input.text) && Truthy(input.documentName) ==> r == input.documentName.value
    ensures !Truthy(input.text) && !Truthy(input.documentName) && Truthy(input.youtubeUrl) ==>
              r == input.youtubeUrl.value
    ensures !Truthy(input.text) && !Truthy(input.documentName) && !Truthy(input.youtubeUrl) ==>
              r == (if Truthy(input.imagePreview) then "Image" else "No preview available")
    ensures |r| > 0
  {
    if Truthy(input.text) then
      var text := input.text.value;
      Utils.Substring(text, PreviewLength) + (if |text| > PreviewLength then "..." else "")
    else if Truthy(input.documentName) then input.documentName.value
    else if Truthy(input.youtubeUrl) then input.youtubeUrl.value
    else if Truthy(input.imagePreview) then "Image"
    else "No preview available"
  }
}
