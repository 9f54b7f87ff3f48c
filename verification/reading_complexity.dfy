/** The grade logic of ai-tool/components/shared/ReadingComplexityChart.tsx:
    `parseReadingLevel` turns the model's reading-level text into a grade by
    an ordered fallback (a grade pattern, keywords, any number, 10), and
    `getGradeCategory` and the indicator percentage place that grade on the
    chart. */
module ReadingComplexity {
  import opened Wrappers
  import opened Strings

  /** The first index from `p` on that does not hold a decimal digit. */
  function DigitRunEnd(s: string, p: nat): (e: nat)
    requires p <= |s|
    ensures p <= e <= |s|
    ensures forall k :: p <= k < e ==> IsDigit(s[k])
    ensures e < |s| ==> !IsDigit(s[e])
    decreases |s| - p
  {
    if p < |s| && IsDigit(s[p]) then DigitRunEnd(s, p + 1) else p
  }

  /** `w`, written in lower case, occurs at `p` ignoring ASCII case. */
  predicate WordAt(s: string, p: nat, w: string) {
    p + |w| <= |s| && forall i :: 0 <= i < |w| ==> LowerChar(s[p + i]) == w[i]
  }

  const OrdinalSuffixes: seq<string> := ["th", "st", "nd", "rd"]

  /** The first alternative of `/(\d+)(?:th|st|nd|rd)?\s*grade/i` at `p`:
      the whole run of digits, an optional ordinal suffix, any whitespace,
      then "grade". Giving back a digit or the suffix never helps, since the
      character freed could not start what follows. */
  function OrdinalGradeAt(s: string, p: nat): (r: Option<string>)
    requires p <= |s|
    ensures r.Some? ==> r.value != [] && AllDigits(r.value) && r.value == s[p..DigitRunEnd(s, p)]
    ensures r.Some? <==> (p < |s| && IsDigit(s[p]) &&
              var e := DigitRunEnd(s, p);
              var f := if exists k :: 0 <= k < |OrdinalSuffixes| && WordAt(s, e, OrdinalSuffixes[k]) then e + 2 else e;
              WordAt(s, NextNonWs(s, f), "grade"))
  {
    if p < |s| && IsDigit(s[p]) then
      var e := DigitRunEnd(s, p);
      var hasSuffix := WordAt(s, e, "th") || WordAt(s, e, "st") || WordAt(s, e, "nd") || WordAt(s, e, "rd");
      assert hasSuffix <==> exists k :: 0 <= k < |OrdinalSuffixes| && WordAt(s, e, OrdinalSuffixes[k]) by {
        if hasSuffix {
          if WordAt(s, e, "th") { assert WordAt(s, e, OrdinalSuffixes[0]); }
          else if WordAt(s, e, "st") { assert WordAt(s, e, OrdinalSuffixes[1]); }
          else if WordAt(s, e, "nd") { assert WordAt(s, e, OrdinalSuffixes[2]); }
          else { assert WordAt(s, e, OrdinalSuffixes[3]); }
        }
      }
      var f := if hasSuffix then e + 2 else e;
      if WordAt(s, NextNonWs(s, f), "grade") then Some(s[p..e]) else None
    else None
  }

  /** The second alternative, `grade\s*(\d+)`, at `p`: "grade", any
      whitespace, then the whole run of digits, of which there must be one. */
  function GradeNumberAt(s: string, p: nat): (r: Option<string>)
    requires p <= |s|
    ensures r.Some? ==> r.value != [] && AllDigits(r.value)
    ensures r.Some? <==> WordAt(s, p, "grade") && DigitRunEnd(s, NextNonWs(s, p + 5)) > NextNonWs(s, p + 5)
    ensures r.Some? ==> r.value == s[NextNonWs(s, p + 5)..DigitRunEnd(s, NextNonWs(s, p + 5))]
  {
    if WordAt(s, p, "grade") then
      var g := NextNonWs(s, p + 5);
      var e := DigitRunEnd(s, g);
      if e > g then Some(s[g..e]) else None
    else None
  }

  /** One way the first alternative `(\d+)(?:th|st|nd|rd)?\s*grade` can
      match at `p`, read off the pattern and ignoring case: digits on
      `[p, d)`, either nothing (`f == d`) or an ordinal suffix on `[d, f)`,
      whitespace on `[f, g)`, then "grade" at `g`. Any split of the text
      that fits counts, as it does for a backtracking matcher. */
  predicate OrdinalGradeMatch(s: string, p: nat, d: nat, f: nat, g: nat) {
    && p < d <= f <= g <= |s|
    && (forall k :: p <= k < d ==> IsDigit(s[k]))
    && (f == d || (f == d + 2 && exists j :: 0 <= j < |OrdinalSuffixes| && WordAt(s, d, OrdinalSuffixes[j])))
    && (forall k :: f <= k < g ==> IsWs(s[k]))
    && WordAt(s, g, "grade")
  }

  /** One way the second alternative `grade\s*(\d+)` can match at `p`:
      "grade", whitespace on `[p + 5, a)`, then digits on `[a, b)`. */
  predicate GradeNumberMatch(s: string, p: nat, a: nat, b: nat) {
    && WordAt(s, p, "grade")
    && p + 5 <= a < b <= |s|
    && (forall k :: p + 5 <= k < a ==> IsWs(s[k]))
    && (forall k :: a <= k < b ==> IsDigit(s[k]))
  }

  /** A word found at `p` starts with its first letter there. */
  lemma WordAtFirst(s: string, p: nat, w: string)
    ensures WordAt(s, p, w) && w != [] ==> p < |s| && LowerChar(s[p]) == w[0]
  {
    if WordAt(s, p, w) && w != [] {
      assert LowerChar(s[p + 0]) == w[0];
    }
  }

  /** A whitespace run ended by a non-space is what `NextNonWs` skips. */
  lemma {:induction false} WsRunEnd(s: string, i: nat, a: nat)
    requires i <= a <= |s|
    requires forall k :: i <= k < a ==> IsWs(s[k])
    requires a < |s| ==> !IsWs(s[a])
    ensures NextNonWs(s, i) == a
    decreases a - i
  {
    if i < a {
      assert IsWs(s[i]);
      WsRunEnd(s, i + 1, a);
    }
  }

  /** A run of digits from `a` lies within the one `DigitRunEnd` finds. */
  lemma {:induction false} DigitRunWithin(s: string, a: nat, b: nat)
    requires a <= b <= |s|
    requires forall k :: a <= k < b ==> IsDigit(s[k])
    ensures b <= DigitRunEnd(s, a)
    decreases b - a
  {
    if a < b {
      assert IsDigit(s[a]);
      DigitRunWithin(s, a + 1, b);
    }
  }

  /** Every way the first alternative matches splits the text at the same
      places: the whole digit run, the suffix when there is one, all the
      whitespace. */
  lemma OrdinalGradeMatchUnique(s: string, p: nat, d: nat, f: nat, g: nat)
    requires OrdinalGradeMatch(s, p, d, f, g)
    ensures d == DigitRunEnd(s, p)
    ensures f == (if exists j :: 0 <= j < |OrdinalSuffixes| && WordAt(s, d, OrdinalSuffixes[j]) then d + 2 else d)
    ensures g == NextNonWs(s, f)
  {
    WordAtFirst(s, g, "grade");
    if exists j :: 0 <= j < |OrdinalSuffixes| && WordAt(s, d, OrdinalSuffixes[j]) {
      var j :| 0 <= j < |OrdinalSuffixes| && WordAt(s, d, OrdinalSuffixes[j]);
      WordAtFirst(s, d, OrdinalSuffixes[j]);
    }
    // the character after the digits is a suffix letter, whitespace or the
    // "g" of "grade": never a digit
    assert d < |s| && !IsDigit(s[d]);
  }

  /** Whichever way it splits the text, a match captures what
      `OrdinalGradeAt` finds. */
  lemma OrdinalGradeMatchCaptures(s: string, p: nat, d: nat, f: nat, g: nat)
    requires OrdinalGradeMatch(s, p, d, f, g)
    ensures OrdinalGradeAt(s, p) == Some(s[p..d])
  {
    OrdinalGradeMatchUnique(s, p, d, f, g);
    assert IsDigit(s[p]);
  }

  /** `OrdinalGradeAt` is the first alternative of the regex: it finds a
      capture exactly when some split of the text matches, and every match
      captures the same digits, so backtracking cannot pick another. */
  lemma OrdinalGradeAtIsRegexMatch(s: string, p: nat)
    requires p <= |s|
    ensures OrdinalGradeAt(s, p).Some? <==> exists d: nat, f: nat, g: nat :: OrdinalGradeMatch(s, p, d, f, g)
    ensures forall d: nat, f: nat, g: nat :: OrdinalGradeMatch(s, p, d, f, g) ==> OrdinalGradeAt(s, p) == Some(s[p..d])
  {
    forall d: nat, f: nat, g: nat | OrdinalGradeMatch(s, p, d, f, g)
      ensures OrdinalGradeAt(s, p) == Some(s[p..d])
    {
      OrdinalGradeMatchCaptures(s, p, d, f, g);
    }
    if OrdinalGradeAt(s, p).Some? {
      OrdinalGradeAtMatches(s, p);
    }
  }

  /** What `OrdinalGradeAt` finds is a match. */
  lemma OrdinalGradeAtMatches(s: string, p: nat)
    requires p <= |s| && OrdinalGradeAt(s, p).Some?
    ensures var e := DigitRunEnd(s, p);
            var f := if exists j :: 0 <= j < |OrdinalSuffixes| && WordAt(s, e, OrdinalSuffixes[j]) then e + 2 else e;
            OrdinalGradeMatch(s, p, e, f, NextNonWs(s, f))
  {
  }

  /** `GradeNumberAt` is the second alternative of the regex: it finds a
      capture exactly when some split matches; every match starts its
      digits at the same place, and the capture is the longest of them, as
      the greedy `\d+` takes it. */
  lemma GradeNumberAtIsRegexMatch(s: string, p: nat)
    requires p <= |s|
    ensures GradeNumberAt(s, p).Some? <==> exists a: nat, b: nat :: GradeNumberMatch(s, p, a, b)
    ensures forall a: nat, b: nat :: GradeNumberMatch(s, p, a, b) ==> a == NextNonWs(s, p + 5) && b <= DigitRunEnd(s, a)
    ensures GradeNumberAt(s, p).Some? ==>
              var a := NextNonWs(s, p + 5);
              GradeNumberMatch(s, p, a, DigitRunEnd(s, a)) && GradeNumberAt(s, p) == Some(s[a..DigitRunEnd(s, a)])
  {
    forall a: nat, b: nat | GradeNumberMatch(s, p, a, b)
      ensures a == NextNonWs(s, p + 5) && b <= DigitRunEnd(s, a)
    {
      assert IsDigit(s[a]);
      WsRunEnd(s, p + 5, a);
      DigitRunWithin(s, a, b);
    }
    if GradeNumberAt(s, p).Some? {
      var a := NextNonWs(s, p + 5);
      assert GradeNumberMatch(s, p, a, DigitRunEnd(s, a));
    }
  }

  /** The regex at position `p`: the first alternative, else the second.
      The two never both apply, since one starts with a digit and the other
      with a letter. */
  function GradePatternAt(s: string, p: nat): (r: Option<string>)
    requires p <= |s|
    ensures r.Some? ==> r.value != [] && AllDigits(r.value)
  {
    if OrdinalGradeAt(s, p).Some? then OrdinalGradeAt(s, p) else GradeNumberAt(s, p)
  }

  /** The leftmost match from `p` on, as `String.prototype.match` finds it. */
  function GradePatternFrom(s: string, p: nat): (r: Option<string>)
    requires p <= |s|
    ensures r.Some? ==> r.value != [] && AllDigits(r.value)
    ensures r.Some? ==> exists q :: p <= q <= |s| && GradePatternAt(s, q) == r
                                    && forall q' :: p <= q' < q ==> GradePatternAt(s, q').None?
    ensures r.None? ==> forall q :: p <= q <= |s| ==> GradePatternAt(s, q).None?
    decreases |s| - p
  {
    if GradePatternAt(s, p).Some? then GradePatternAt(s, p)
    else if p == |s| then None
    else GradePatternFrom(s, p + 1)
  }

  function GradePattern(s: string): (r: Option<string>)
    ensures r.Some? ==> r.value != [] && AllDigits(r.value)
  {
    GradePatternFrom(s, 0)
  }

  /** A text without digits never matches the grade pattern: both
      alternatives capture digits. */
  lemma {:induction false} NoDigitsNoGradePattern(s: string, p: nat)
    requires p <= |s|
    requires forall k :: 0 <= k < |s| ==> !IsDigit(s[k])
    ensures GradePatternFrom(s, p) == None
    decreases |s| - p
  {
    var g := NextNonWs(s, if p + 5 <= |s| then p + 5 else p);
    if p < |s| {
      assert !IsDigit(s[p]);
      NoDigitsNoGradePattern(s, p + 1);
    }
    if WordAt(s, p, "grade") {
      var g := NextNonWs(s, p + 5);
      assert g == |s| || !IsDigit(s[g]);
    }
  }

  /** The keywords tried, in order, when the pattern does not match, with
      the grade each stands for. */
  const Keywords: seq<(string, nat)> :=
    [("graduate", 18), ("college", 14), ("high school", 11), ("middle school", 7), ("elementary", 5)]

  /** The index of the first keyword the lower-cased text contains. */
  function FirstKeyword(lower: string, k: nat): (r: Option<nat>)
    requires k <= |Keywords|
    ensures r.Some? ==> k <= r.value < |Keywords| && Contains(lower, Keywords[r.value].0)
                        && forall j :: k <= j < r.value ==> !Contains(lower, Keywords[j].0)
    ensures r.None? ==> forall j :: k <= j < |Keywords| ==> !Contains(lower, Keywords[j].0)
    decreases |Keywords| - k
  {
    if k == |Keywords| then None
    else if Contains(lower, Keywords[k].0) then Some(k)
    else FirstKeyword(lower, k + 1)
  }

  /** `readingLevel.match(/\d+/)`: the first run of digits, taken whole. */
  function FirstNumber(s: string, p: nat): (r: Option<string>)
    requires p <= |s|
    ensures r.Some? ==> r.value != [] && AllDigits(r.value)
    ensures r.None? <==> forall k :: p <= k < |s| ==> !IsDigit(s[k])
    ensures r.Some? ==> exists q :: p <= q < |s| && IsDigit(s[q]) && (forall k :: p <= k < q ==> !IsDigit(s[k]))
                                    && r.value == s[q..DigitRunEnd(s, q)]
    decreases |s| - p
  {
    if p == |s| then None
    else if IsDigit(s[p]) then Some(s[p..DigitRunEnd(s, p)])
    else FirstNumber(s, p + 1)
  }

  const DefaultGrade: nat := 10
  const MaxFallbackGrade: nat := 20

  datatype ReadingLevel = ReadingLevel(grade: nat, description: string)

  /** `parseReadingLevel`: the number the grade pattern captures, else the
      grade of the first keyword, else the first number when it is at most
      20, else 10. The description is always the input. */
  function ParseReadingLevel(level: string): (r: ReadingLevel)
    ensures r.description == level
    ensures GradePattern(level).Some? ==> r.grade == DigitsValue(GradePattern(level).value)
    ensures GradePattern(level).None? && FirstKeyword(ToLower(level), 0).Some? ==>
              r.grade == Keywords[FirstKeyword(ToLower(level), 0).value].1
    ensures GradePattern(level).None? && FirstKeyword(ToLower(level), 0).None? ==>
              r.grade == (if FirstNumber(level, 0).Some? && DigitsValue(FirstNumber(level, 0).value) <= MaxFallbackGrade
                          then DigitsValue(FirstNumber(level, 0).value) else DefaultGrade)
    ensures r.grade > MaxFallbackGrade ==> GradePattern(level).Some?
  {
    match GradePattern(level)
    case Some(digits) => ReadingLevel(DigitsValue(digits), level)
    case None =>
      match FirstKeyword(ToLower(level), 0)
      case Some(k) => ReadingLevel(Keywords[k].1, level)
      case None =>
        match FirstNumber(level, 0)
        case Some(digits) =>
          var n := DigitsValue(digits);
          if n <= MaxFallbackGrade then ReadingLevel(n, level) else ReadingLevel(DefaultGrade, level)
        case None => ReadingLevel(DefaultGrade, level)
  }

  /** A level without digits that mentions "graduate" in any case, as
      "Undergraduate" does, is grade 18: the first keyword wins over the
      later ones and over the default. */
  lemma GraduateWithoutNumber(level: string)
    requires forall k :: 0 <= k < |level| ==> !IsDigit(level[k])
    requires Contains(ToLower(level), "graduate")
    ensures ParseReadingLevel(level).grade == 18
  {
    NoDigitsNoGradePattern(level, 0);
  }

  /** Both alternatives of the grade pattern contain the word "grade". */
  lemma GradePatternNeedsWord(s: string, q: nat)
    requires q <= |s|
    ensures GradePatternAt(s, q).Some? ==> exists g :: q <= g <= |s| && WordAt(s, g, "grade")
  {
    if OrdinalGradeAt(s, q).Some? {
      OrdinalGradeAtMatches(s, q);
    } else if GradeNumberAt(s, q).Some? {
      assert WordAt(s, q, "grade");
    }
  }

  /** A text that contains `sub` holds the first character of `sub`. */
  lemma {:induction false} ContainsFirst(s: string, sub: string)
    ensures Contains(s, sub) && sub != [] ==> exists i :: 0 <= i < |s| && s[i] == sub[0]
    decreases |s|
  {
    if Contains(s, sub) && sub != [] {
      if sub <= s {
        assert s[0] == sub[0];
      } else {
        ContainsFirst(s[1..], sub);
        var i :| 0 <= i < |s[1..]| && s[1..][i] == sub[0];
        assert s[i + 1] == sub[0];
      }
    }
  }

  /** No letters, no "grade": the grade pattern cannot match. */
  lemma LetterlessNoPattern(level: string)
    requires forall k :: 0 <= k < |level| ==> !('a' <= LowerChar(level[k]) <= 'z')
    ensures GradePattern(level).None?
  {
    forall q | 0 <= q <= |level|
      ensures GradePatternAt(level, q).None?
    {
      GradePatternNeedsWord(level, q);
      forall g | q <= g <= |level|
        ensures !WordAt(level, g, "grade")
      {
        WordAtFirst(level, g, "grade");
      }
    }
  }

  /** No letters, no keyword: every keyword starts with a letter. */
  lemma LetterlessNoKeyword(level: string)
    requires forall k :: 0 <= k < |level| ==> !('a' <= LowerChar(level[k]) <= 'z')
    ensures FirstKeyword(ToLower(level), 0).None?
  {
    var lower := ToLower(level);
    forall j | 0 <= j < |Keywords|
      ensures !Contains(lower, Keywords[j].0)
    {
      ContainsFirst(lower, Keywords[j].0);
      assert 'a' <= Keywords[j].0[0] <= 'z';
    }
  }

  /** A level written without letters, as "7" or "850", matches neither the
      grade pattern nor a keyword, so its first number decides: that number
      when it is at most 20, else the default 10. */
  lemma LetterlessLevel(level: string)
    requires forall k :: 0 <= k < |level| ==> !('a' <= LowerChar(level[k]) <= 'z')
    ensures ParseReadingLevel(level).grade ==
              (if FirstNumber(level, 0).Some? && DigitsValue(FirstNumber(level, 0).value) <= MaxFallbackGrade
               then DigitsValue(FirstNumber(level, 0).value) else DefaultGrade)
  {
    LetterlessNoPattern(level);
    LetterlessNoKeyword(level);
  }

  /** A bare "7" is grade 7. */
  lemma BareSeven()
    ensures ParseReadingLevel("7").grade == 7
  {
    LetterlessLevel("7");
    assert DigitRunEnd("7", 1) == 1;
    assert DigitRunEnd("7", 0) == 1;
    assert "7"[0..1] == "7";
    assert DigitsValue("7") == 7;
  }

  lemma FirstNumberOf850()
    ensures FirstNumber("850", 0) == Some("850") && DigitsValue("850") == 850
  {
    var s := "850";
    assert DigitRunEnd(s, 3) == 3;
    assert DigitRunEnd(s, 0) == 3;
    assert s[0..3] == s;
    assert s[..2] == "85" && "85"[..1] == "8";
    assert DigitValue('8') == 8 && DigitValue('5') == 5 && DigitValue('0') == 0;
  }

  /** A bare "850", a Lexile measure say, is past 20 and falls back to 10. */
  lemma BareEightHundredFifty()
    ensures ParseReadingLevel("850").grade == DefaultGrade
  {
    LetterlessLevel("850");
    FirstNumberOf850();
  }

  /** The grade pattern is not range-checked. */
  lemma TwentyFifthGrade()
    ensures ParseReadingLevel("25th grade").grade == 25
  {
    var s := "25th grade";
    assert DigitRunEnd(s, 2) == 2;
    assert DigitRunEnd(s, 0) == 2;
    assert WordAt(s, 2, "th") && WordAt(s, 2, OrdinalSuffixes[0]);
    assert NextNonWs(s, 5) == 5;
    assert NextNonWs(s, 4) == 5;
    assert WordAt(s, 5, "grade");
    assert s[0..2] == "25";
    assert OrdinalGradeAt(s, 0) == Some("25");
    assert GradePatternAt(s, 0) == Some("25");
    assert DigitsValue("25") == 25 by {
      assert DigitValue('2') == 2 && DigitValue('5') == 5;
    }
  }

  /** `getGradeCategory`: the index of the chart band, with bands up to
      grade 5, 8, 12 and 16 and one above. */
  function GradeCategory(grade: int): (c: nat)
    ensures c <= 4
    ensures c == 0 <==> grade <= 5
    ensures c == 1 <==> 5 < grade <= 8
    ensures c == 2 <==> 8 < grade <= 12
    ensures c == 3 <==> 12 < grade <= 16
    ensures c == 4 <==> 16 < grade
  {
    if grade <= 5 then 0
    else if grade <= 8 then 1
    else if grade <= 12 then 2
    else if grade <= 16 then 3
    else 4
  }

  /** A higher grade never falls in a lower band. */
  lemma GradeCategoryMonotone(a: int, b: int)
    requires a <= b
    ensures GradeCategory(a) <= GradeCategory(b)
  {
  }

  /** `Math.min((grade / 20) * 100, 100)` over the reals: the position of the
      indicator, which never passes the end of the scale. */
  function Percentage(grade: nat): (r: real)
    ensures 0.0 <= r <= 100.0
    ensures grade <= 20 ==> r == 5.0 * grade as real
    ensures grade >= 20 ==> r == 100.0
  {
    var raw := (grade as real / 20.0) * 100.0;
    if raw < 100.0 then raw else 100.0
  }
}
