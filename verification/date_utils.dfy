/** `formatRelativeTime` of ai-tool/lib/dateUtils.ts. The clock is a
    parameter `now`; times are whole milliseconds. */
module DateUtils {
  import opened Strings

  const MsPerMinute: int := 60_000
  const MsPerHour: int := 3_600_000
  const MsPerDay: int := 86_400_000
  const MsPerWeek: int := 604_800_000

  /** How long ago something happened, in the unit the label uses. */
  datatype Bucket = JustNow | MinutesAgo(n: nat) | HoursAgo(n: nat) | DaysAgo(n: nat) | Older

  /** The elapsed time cut down step by step as the source does: whole
      seconds, minutes, hours and days by floor division, then the first
      unit below its limit. Each bucket is an interval of the raw
      difference, and the count is that difference in the bucket's unit. */
  function BucketOf(diff: int): (b: Bucket)
    ensures b == JustNow <==> diff < MsPerMinute
    ensures b.MinutesAgo? <==> MsPerMinute <= diff < MsPerHour
    ensures b.HoursAgo? <==> MsPerHour <= diff < MsPerDay
    ensures b.DaysAgo? <==> MsPerDay <= diff < MsPerWeek
    ensures b == Older <==> MsPerWeek <= diff
    ensures b.MinutesAgo? ==> b.n == diff / MsPerMinute && 1 <= b.n < 60
    ensures b.HoursAgo? ==> b.n == diff / MsPerHour && 1 <= b.n < 24
    ensures b.DaysAgo? ==> b.n == diff / MsPerDay && 1 <= b.n < 7
  {
    var seconds := diff / 1000;
    var minutes := seconds / 60;
    var hours := minutes / 60;
    var days := hours / 24;
    FloorSteps(diff);
    if seconds < 60 then JustNow
    else if minutes < 60 then MinutesAgo(minutes)
    else if hours < 24 then HoursAgo(hours)
    else if days < 7 then DaysAgo(days)
    else Older
  }

  /** Flooring in steps equals flooring once by the product of the steps. */
  lemma FloorSteps(diff: int)
    ensures diff / 1000 / 60 == diff / MsPerMinute
    ensures diff / 1000 / 60 / 60 == diff / MsPerHour
    ensures diff / 1000 / 60 / 60 / 24 == diff / MsPerDay
  {
    var s, m, h := diff / 1000, diff / 1000 / 60, diff / 1000 / 60 / 60;
    assert 1000 * s <= diff < 1000 * s + 1000;
    assert 60 * m <= s < 60 * m + 60;
    assert 60 * h <= m < 60 * h + 60;
  }

  /** The translation table `t`; a key that is missing or maps to the empty
      string is falsy and takes the English text. */
  type Translations = map<string, string>

  function Translate(t: Translations, key: string, english: string): (r: string)
    ensures key in t && t[key] != "" ==> r == t[key]
    ensures key !in t || t[key] == "" ==> r == english
  {
    if key in t && t[key] != "" then t[key] else english
  }

  /** What is shown: a phrase, or the locale's rendering of the date, which
      is not modelled. */
  datatype RelativeTime = Phrase(text: string) | LocaleDate(timestamp: int)

  /** `formatRelativeTime(timestamp, t)` at time `now`: exactly one minute,
      hour or day shows the singular key alone; a larger count shows the
      number, a space and the plural key. */
  function FormatRelativeTime(now: int, timestamp: int, t: Translations): (r: RelativeTime)
    ensures var diff := now - timestamp;
      && (diff < MsPerMinute ==> r == Phrase(Translate(t, "justNow", "just now")))
      && (MsPerMinute <= diff < 2 * MsPerMinute ==> r == Phrase(Translate(t, "minuteAgo", "minute ago")))
      && (2 * MsPerMinute <= diff < MsPerHour ==>
            r == Phrase(NatToString(diff / MsPerMinute) + " " + Translate(t, "minutesAgo", "minutes ago")))
      && (MsPerHour <= diff < 2 * MsPerHour ==> r == Phrase(Translate(t, "hourAgo", "hour ago")))
      && (2 * MsPerHour <= diff < MsPerDay ==>
            r == Phrase(NatToString(diff / MsPerHour) + " " + Translate(t, "hoursAgo", "hours ago")))
      && (MsPerDay <= diff < 2 * MsPerDay ==> r == Phrase(Translate(t, "dayAgo", "day ago")))
      && (2 * MsPerDay <= diff < MsPerWeek ==>
            r == Phrase(NatToString(diff / MsPerDay) + " " + Translate(t, "daysAgo", "days ago")))
      && (MsPerWeek <= diff ==> r == LocaleDate(timestamp))
  {
    match BucketOf(now - timestamp)
    case JustNow => Phrase(Translate(t, "justNow", "just now"))
    case MinutesAgo(n) =>
      if n == 1 then Phrase(Translate(t, "minuteAgo", "minute ago"))
      else Phrase(NatToString(n) + " " + Translate(t, "minutesAgo", "minutes ago"))
    case HoursAgo(n) =>
      if n == 1 then Phrase(Translate(t, "hourAgo", "hour ago"))
      else Phrase(NatToString(n) + " " + Translate(t, "hoursAgo", "hours ago"))
    case DaysAgo(n) =>
      if n == 1 then Phrase(Translate(t, "dayAgo", "day ago"))
      else Phrase(NatToString(n) + " " + Translate(t, "daysAgo", "days ago"))
    case Older => LocaleDate(timestamp)
  }

  /** Without translations the English defaults are shown. */
  lemma EnglishDefaults(now: int)
    ensures FormatRelativeTime(now, now - 90_000, map[]) == Phrase("minute ago")
    ensures FormatRelativeTime(now, now - 3 * MsPerHour, map[]) == Phrase("3 hours ago")
  {
    assert (3 * MsPerHour) / MsPerHour == 3;
  }
}
