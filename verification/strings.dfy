/** JavaScript string operations the application relies on, over `seq<char>`:
    trimming, whitespace classification, splitting and joining, ASCII case
    mapping, substring search and decimal rendering of integers. */
module Strings {

  /** The whitespace set shared by `String.prototype.trim` and the regular
      expression class `\s`: the WhiteSpace and LineTerminator code points of
      sections 12.2 and 12.3 of ECMA-262. */
  predicate IsWs(c: char) {
    || c == '\t' || c == '\n' || c == '\U{000B}' || c == '\U{000C}' || c == '\r' || c == ' '
    || c == '\U{00A0}' || c == '\U{1680}' || ('\U{2000}' <= c <= '\U{200A}')
    || c == '\U{2028}' || c == '\U{2029}' || c == '\U{202F}' || c == '\U{205F}'
    || c == '\U{3000}' || c == '\U{FEFF}'
  }

  /** Every character is whitespace, so that `s.trim()` is the empty (falsy) string. */
  predicate IsBlank(s: string) {
    forall i :: 0 <= i < |s| ==> IsWs(s[i])
  }

  // ---------------------------------------------------------------- trimming

  /** Drops leading whitespace: the result is a suffix of `s`, everything
      dropped is whitespace and the result does not start with whitespace. */
  function TrimStart(s: string): (r: string)
    ensures |r| <= |s| && r == s[|s| - |r|..]
    ensures IsBlank(s[..|s| - |r|])
    ensures r == [] || !IsWs(r[0])
  {
    if |s| > 0 && IsWs(s[0]) then
      var r := TrimStart(s[1..]);
      assert s[..|s| - |r|] == [s[0]] + s[1..][..|s| - 1 - |r|];
      r
    else s
  }

  /** Drops trailing whitespace: the result is a prefix of `s`, everything
      dropped is whitespace and the result does not end with whitespace. */
  function TrimEnd(s: string): (r: string)
    ensures |r| <= |s| && r == s[..|r|]
    ensures IsBlank(s[|r|..])
    ensures r == [] || !IsWs(r[|r| - 1])
  {
    if |s| > 0 && IsWs(s[|s| - 1]) then
      var r := TrimEnd(s[..|s| - 1]);
      assert s[|r|..] == s[..|s| - 1][|r|..] + [s[|s| - 1]];
      r
    else s
  }

  /** Number of leading characters `trim` removes. */
  function TrimOffset(s: string): nat
    ensures TrimOffset(s) <= |s|
  {
    |s| - |TrimStart(s)|
  }

  /** `String.prototype.trim`: the result is the slice of `s` that starts at
      `TrimOffset(s)`, what lies around it is whitespace, it is empty exactly
      when `s` is blank, and otherwise it starts and ends with a visible
      character. */
  function Trim(s: string): (r: string)
    ensures TrimOffset(s) + |r| <= |s| && r == s[TrimOffset(s)..TrimOffset(s) + |r|]
    ensures IsBlank(s[..TrimOffset(s)]) && IsBlank(s[TrimOffset(s) + |r|..])
    ensures r == [] <==> IsBlank(s)
    ensures r != [] ==> !IsWs(r[0]) && !IsWs(r[|r| - 1])
  {
    var t := TrimStart(s);
    var r := TrimEnd(t);
    SliceWithin(s, t, r, |s| - |t|);
    BlankAround(s, |s| - |t|, |r|);
    assert r != [] ==> r[0] == t[0];
    r
  }

  lemma SliceWithin(s: string, t: string, r: string, o: nat)
    requires o + |t| == |s| && t == s[o..]
    requires |r| <= |t| && r == t[..|r|]
    ensures r == s[o..o + |r|] && s[o + |r|..] == t[|r|..]
  {
  }

  /** A string is blank when its middle is empty and what lies around it
      is blank, and not blank when its middle starts with a visible
      character. */
  lemma BlankAround(s: string, o: nat, n: nat)
    requires o + n <= |s|
    requires IsBlank(s[..o]) && IsBlank(s[o + n..])
    ensures n == 0 ==> IsBlank(s)
    ensures n > 0 && !IsWs(s[o]) ==> !IsBlank(s)
  {
    if n == 0 {
      forall i | 0 <= i < |s|
        ensures IsWs(s[i])
      {
        if i < o {
          assert s[..o][i] == s[i];
        } else {
          assert s[o..][i - o] == s[i];
        }
      }
    }
  }

  /** Trimming twice is trimming once. */
  lemma TrimIdempotent(s: string)
    ensures Trim(Trim(s)) == Trim(s)
  {
    var r := Trim(s);
    if r != [] {
      TrimOfUntrimmable(r);
    } else {
      assert IsBlank(r);
    }
  }

  /** A string that neither starts nor ends with whitespace is its own trim. */
  lemma TrimOfUntrimmable(s: string)
    requires s != [] && !IsWs(s[0]) && !IsWs(s[|s| - 1])
    ensures TrimStart(s) == s && TrimEnd(s) == s && Trim(s) == s
  {
  }

  // ---------------------------------------------------- whitespace splitting

  /** First index at or after `i` that holds whitespace, or `|s|`. */
  function NextWs(s: string, i: nat): (j: nat)
    requires i <= |s|
    ensures i <= j <= |s|
    ensures forall k :: i <= k < j ==> !IsWs(s[k])
    ensures j < |s| ==> IsWs(s[j])
    decreases |s| - i
  {
    if i == |s| || IsWs(s[i]) then i else NextWs(s, i + 1)
  }

  /** First index at or after `i` that holds a visible character, or `|s|`. */
  function NextNonWs(s: string, i: nat): (j: nat)
    requires i <= |s|
    ensures i <= j <= |s|
    ensures forall k :: i <= k < j ==> IsWs(s[k])
    ensures j < |s| ==> !IsWs(s[j])
    decreases |s| - i
  {
    if i == |s| || !IsWs(s[i]) then i else NextNonWs(s, i + 1)
  }

  /** The pieces of `s[p..]` that `split(/\s+/)` produces: the text before the
      first maximal whitespace run, then the split of what follows the run. */
  function SplitWsFrom(s: string, p: nat): (parts: seq<string>)
    requires p <= |s|
    decreases |s| - p
  {
    var i := NextWs(s, p);
    if i == |s| then [s[p..]]
    else [s[p..i]] + SplitWsFrom(s, NextNonWs(s, i))
  }

  /** `s.split(/\s+/)` */
  function SplitWs(s: string): seq<string> {
    SplitWsFrom(s, 0)
  }

  /** Reference count of the maximal runs of visible characters in `s`;
      `inWord` says whether the character just before `s` was visible. */
  function WordRuns(s: string, inWord: bool): nat
    decreases |s|
  {
    if s == [] then 0
    else if IsWs(s[0]) then WordRuns(s[1..], false)
    else (if inWord then 0 else 1) + WordRuns(s[1..], true)
  }

  /** Number of maximal runs of non-whitespace characters in `s`. */
  function RunCount(s: string): nat {
    WordRuns(s, false)
  }

  lemma {:induction false} RunCountZeroIffBlank(s: string, inWord: bool)
    ensures WordRuns(s, false) == 0 <==> IsBlank(s)
    ensures WordRuns(s, true) <= WordRuns(s, false)
    decreases |s|
  {
    if s != [] {
      RunCountZeroIffBlank(s[1..], inWord);
      if IsBlank(s[1..]) && IsWs(s[0]) {
        assert forall i :: 0 < i < |s| ==> s[i] == s[1..][i - 1];
      }
    }
  }

  /** Whitespace at the end of a string starts no run. */
  lemma {:induction false} WordRunsAppendWs(s: string, c: char, inWord: bool)
    requires IsWs(c)
    ensures WordRuns(s + [c], inWord) == WordRuns(s, inWord)
    decreases |s|
  {
    if s == [] {
      assert WordRuns([c], inWord) == WordRuns([], false);
    } else {
      assert (s + [c])[1..] == s[1..] + [c];
      WordRunsAppendWs(s[1..], c, false);
      WordRunsAppendWs(s[1..], c, true);
    }
  }

  lemma {:induction false} WordRunsTrimStart(s: string)
    ensures WordRuns(TrimStart(s), false) == WordRuns(s, false)
    decreases |s|
  {
    if |s| > 0 && IsWs(s[0]) {
      WordRunsTrimStart(s[1..]);
    }
  }

  lemma {:induction false} WordRunsTrimEnd(s: string, inWord: bool)
    ensures WordRuns(TrimEnd(s), inWord) == WordRuns(s, inWord)
    decreases |s|
  {
    if |s| > 0 && IsWs(s[|s| - 1]) {
      WordRunsTrimEnd(s[..|s| - 1], inWord);
      assert s == s[..|s| - 1] + [s[|s| - 1]];
      WordRunsAppendWs(s[..|s| - 1], s[|s| - 1], inWord);
    }
  }

  /** Leading and trailing whitespace create no runs. */
  lemma RunCountOfTrim(s: string)
    ensures RunCount(Trim(s)) == RunCount(s)
  {
    WordRunsTrimStart(s);
    WordRunsTrimEnd(TrimStart(s), false);
  }

  lemma {:induction false} SkipWord(s: string, q: nat, i: nat)
    requires q <= i <= |s|
    requires forall k :: q <= k < i ==> !IsWs(s[k])
    ensures WordRuns(s[q..], true) == WordRuns(s[i..], true)
    decreases i - q
  {
    if q < i {
      assert s[q..][1..] == s[q + 1..];
      SkipWord(s, q + 1, i);
    }
  }

  lemma {:induction false} SkipSpace(s: string, q: nat, j: nat, inWord: bool)
    requires q < j <= |s|
    requires forall k :: q <= k < j ==> IsWs(s[k])
    ensures WordRuns(s[q..], inWord) == WordRuns(s[j..], false)
    decreases j - q
  {
    assert s[q..][1..] == s[q + 1..];
    if q + 1 < j {
      SkipSpace(s, q + 1, j, false);
    }
  }

  /** On a string that ends with a visible character, splitting from a visible
      character yields one piece per run. */
  lemma {:induction false} SplitWsFromCountsRuns(s: string, p: nat)
    requires p < |s| && !IsWs(s[p]) && !IsWs(s[|s| - 1])
    ensures |SplitWsFrom(s, p)| == WordRuns(s[p..], false)
    decreases |s| - p
  {
    var i := NextWs(s, p);
    assert s[p..][1..] == s[p + 1..];
    SkipWord(s, p + 1, i);
    if i < |s| {
      var k := NextNonWs(s, i);
      SplitWsFromCountsRuns(s, k);
      SkipSpace(s, i, k, true);
    }
  }

  /** `t.split(/\s+/)` of a trimmed, non-empty `t` has one piece per run. */
  lemma SplitWsOfTrimmedCountsRuns(t: string)
    requires t != [] && !IsWs(t[0]) && !IsWs(t[|t| - 1])
    ensures |SplitWs(t)| == RunCount(t)
  {
    SplitWsFromCountsRuns(t, 0);
    assert t[0..] == t;
  }

  // -------------------------------------------- single-character split, join

  /** Index of the first `c` in `s`, or `|s|` when there is none. */
  function FirstIndex(s: string, c: char): (i: nat)
    ensures i <= |s|
    ensures c !in s[..i]
    ensures i < |s| ==> s[i] == c
  {
    if s == [] then 0
    else if s[0] == c then 0
    else
      var j := FirstIndex(s[1..], c);
      assert s[..j + 1] == [s[0]] + s[1..][..j];
      1 + j
  }

  /** `s.split(c)` for a one-character separator: the text before the
      first `c`, then the split of the rest. */
  function SplitOn(s: string, c: char): (parts: seq<string>)
    ensures |parts| >= 1
    decreases |s|
  {
    var i := FirstIndex(s, c);
    if i == |s| then [s] else [s[..i]] + SplitOn(s[i + 1..], c)
  }

  /** No piece of a split contains the separator. */
  lemma {:induction false} SplitOnPiecesFree(s: string, c: char)
    ensures forall k :: 0 <= k < |SplitOn(s, c)| ==> c !in SplitOn(s, c)[k]
    decreases |s|
  {
    var i := FirstIndex(s, c);
    if i < |s| {
      SplitOnPiecesFree(s[i + 1..], c);
      var rest := SplitOn(s[i + 1..], c);
      assert SplitOn(s, c) == [s[..i]] + rest;
      assert forall k :: 1 <= k < |SplitOn(s, c)| ==> SplitOn(s, c)[k] == rest[k - 1];
    }
  }

  /** `last` is the text of `s` after its last `c`, all of `s` when it has
      none. */
  predicate IsLastPiece(s: string, c: char, last: string) {
    && |last| <= |s| && last == s[|s| - |last|..]
    && (|last| == |s| || s[|s| - |last| - 1] == c)
    && c !in last
  }

  /** The last piece of a split is the text after the last separator. */
  lemma {:induction false} SplitOnLast(s: string, c: char)
    ensures IsLastPiece(s, c, SplitOn(s, c)[|SplitOn(s, c)| - 1])
    decreases |s|
  {
    var i := FirstIndex(s, c);
    if i < |s| {
      var tail := s[i + 1..];
      SplitOnLast(tail, c);
      var rest := SplitOn(tail, c);
      assert SplitOn(s, c) == [s[..i]] + rest;
      LastPieceOfTail(s, c, i, rest[|rest| - 1]);
    } else {
      assert s[..i] == s && s[0..] == s;
    }
  }

  lemma LastPieceOfTail(s: string, c: char, i: nat, last: string)
    requires i < |s| && s[i] == c
    requires IsLastPiece(s[i + 1..], c, last)
    ensures IsLastPiece(s, c, last)
  {
    var tail := s[i + 1..];
    assert tail[|tail| - |last|..] == s[|s| - |last|..];
    if |last| < |tail| {
      assert s[|s| - |last| - 1] == tail[|tail| - |last| - 1];
    }
  }

  /** A string has only one last piece. */
  lemma LastPieceUnique(s: string, c: char, a: string, b: string)
    requires IsLastPiece(s, c, a) && IsLastPiece(s, c, b)
    ensures a == b
  {
    assert forall k :: |s| - |a| <= k < |s| ==> s[k] == a[k - (|s| - |a|)] && s[k] != c;
    assert forall k :: |s| - |b| <= k < |s| ==> s[k] == b[k - (|s| - |b|)] && s[k] != c;
  }

  /** The first piece is the text before the first separator and, when
      there is one, the second is the text up to the next. */
  lemma SplitOnHead(s: string, c: char)
    ensures SplitOn(s, c)[0] == s[..FirstIndex(s, c)]
    ensures FirstIndex(s, c) < |s| ==>
              var rest := s[FirstIndex(s, c) + 1..];
              |SplitOn(s, c)| >= 2 && SplitOn(s, c)[1] == rest[..FirstIndex(rest, c)]
  {
    var i := FirstIndex(s, c);
    if i < |s| {
      var rest := s[i + 1..];
      assert SplitOn(s, c) == [s[..i]] + SplitOn(rest, c);
      assert SplitOn(rest, c)[0] == rest[..FirstIndex(rest, c)];
    } else {
      assert s[..i] == s;
    }
  }

  /** A character occurs exactly when its first index is inside the string. */
  lemma FirstIndexFound(s: string, c: char)
    ensures c in s <==> FirstIndex(s, c) < |s|
  {
    var i := FirstIndex(s, c);
    if i == |s| {
      assert s[..i] == s;
    }
  }

  /** `parts.join(sep)` */
  function Join(parts: seq<string>, sep: string): string
    decreases |parts|
  {
    if |parts| == 0 then ""
    else if |parts| == 1 then parts[0]
    else parts[0] + sep + Join(parts[1..], sep)
  }

  /** Joining the pieces of a split restores the string. */
  lemma {:induction false} JoinSplitOn(s: string, c: char)
    ensures Join(SplitOn(s, c), [c]) == s
    decreases |s|
  {
    var i := FirstIndex(s, c);
    if i < |s| {
      var rest := SplitOn(s[i + 1..], c);
      JoinSplitOn(s[i + 1..], c);
      var parts := [s[..i]] + rest;
      assert SplitOn(s, c) == parts;
      assert |parts| >= 2 && parts[0] == s[..i] && parts[1..] == rest;
      assert Join(parts, [c]) == s[..i] + [c] + Join(rest, [c]);
      assert s == s[..i] + [c] + s[i + 1..];
    } else {
      assert SplitOn(s, c) == [s];
    }
  }

  /** Splitting a join on its one-character separator restores the pieces,
      provided no piece contains the separator. */
  lemma {:induction false} SplitOnJoin(parts: seq<string>, c: char)
    requires |parts| >= 1
    requires forall k :: 0 <= k < |parts| ==> c !in parts[k]
    ensures SplitOn(Join(parts, [c]), c) == parts
    decreases |parts|
  {
    if |parts| > 1 {
      var rest := Join(parts[1..], [c]);
      var s := parts[0] + [c] + rest;
      assert Join(parts, [c]) == s;
      FirstIndexAfter(parts[0], c, rest);
      assert s[|parts[0]| + 1..] == rest;
      assert s[..|parts[0]|] == parts[0];
      assert SplitOn(s, c) == [parts[0]] + SplitOn(rest, c);
      SplitOnJoin(parts[1..], c);
      assert parts == [parts[0]] + parts[1..];
    } else {
      FirstIndexFound(parts[0], c);
    }
  }

  lemma FirstIndexAfter(a: string, c: char, rest: string)
    requires c !in a
    ensures FirstIndex(a + [c] + rest, c) == |a|
  {
    assert (a + [c] + rest)[|a|] == c;
    assert (a + [c] + rest)[..|a|] == a;
  }

  /** A join with a whitespace separator is blank exactly when every piece is. */
  lemma {:induction false} JoinBlankIff(parts: seq<string>, sep: string)
    requires IsBlank(sep)
    ensures IsBlank(Join(parts, sep)) <==> forall k :: 0 <= k < |parts| ==> IsBlank(parts[k])
    decreases |parts|
  {
    if |parts| > 1 {
      JoinBlankIff(parts[1..], sep);
      var j := Join(parts[1..], sep);
      var s := parts[0] + sep + j;
      assert forall i :: 0 <= i < |parts[0]| ==> s[i] == parts[0][i];
      assert forall i :: 0 <= i < |sep| ==> s[|parts[0]| + i] == sep[i];
      assert forall i :: 0 <= i < |j| ==> s[|parts[0]| + |sep| + i] == j[i];
      if IsBlank(s) {
        assert IsBlank(parts[0]);
        assert IsBlank(j);
      }
      if forall k :: 0 <= k < |parts| ==> IsBlank(parts[k]) {
        assert forall k :: 0 <= k < |parts| - 1 ==> parts[1..][k] == parts[k + 1];
        assert IsBlank(parts[0]);
        assert IsBlank(j);
      }
    }
  }

  // ------------------------------------------------------------ case mapping

  function LowerChar(c: char): char {
    if 'A' <= c <= 'Z' then (c as int + 32) as char else c
  }

  function UpperChar(c: char): char {
    if 'a' <= c <= 'z' then (c as int - 32) as char else c
  }

  /** `toLowerCase`, on ASCII letters */
  function ToLower(s: string): (r: string)
    ensures |r| == |s|
    ensures forall i :: 0 <= i < |s| ==> r[i] == LowerChar(s[i])
  {
    seq(|s|, i requires 0 <= i < |s| => LowerChar(s[i]))
  }

  /** `toUpperCase`, on ASCII letters */
  function ToUpper(s: string): (r: string)
    ensures |r| == |s|
    ensures forall i :: 0 <= i < |s| ==> r[i] == UpperChar(s[i])
  {
    seq(|s|, i requires 0 <= i < |s| => UpperChar(s[i]))
  }

  // -------------------------------------------------------- substring search

  /** `s.includes(sub)` */
  predicate Contains(s: string, sub: string)
    decreases |s|
  {
    sub <= s || (|s| > 0 && Contains(s[1..], sub))
  }

  /** `includes` finds `sub` exactly when it occurs at some offset. */
  lemma {:induction false} ContainsIffOccurs(s: string, sub: string)
    ensures Contains(s, sub) <==> exists i :: 0 <= i <= |s| && sub <= s[i..]
    decreases |s|
  {
    if |s| == 0 {
      if exists i :: 0 <= i <= |s| && sub <= s[i..] {
        var i :| 0 <= i <= |s| && sub <= s[i..];
        assert s[i..] == s;
      }
    } else {
      ContainsIffOccurs(s[1..], sub);
      if Contains(s, sub) {
        if sub <= s {
          assert s[0..] == s;
        } else {
          var i :| 0 <= i <= |s| - 1 && sub <= s[1..][i..];
          assert s[1..][i..] == s[i + 1..];
        }
      }
      if exists i :: 0 <= i <= |s| && sub <= s[i..] {
        var i :| 0 <= i <= |s| && sub <= s[i..];
        if i == 0 {
          assert s[0..] == s;
        } else {
          assert s[1..][i - 1..] == s[i..];
        }
      }
    }
  }

  // ------------------------------------------------------- decimal integers

  predicate IsDigit(c: char) {
    '0' <= c <= '9'
  }

  predicate AllDigits(s: string) {
    forall i :: 0 <= i < |s| ==> IsDigit(s[i])
  }

  function DigitChar(d: nat): char
    requires d < 10
  {
    ('0' as int + d) as char
  }

  function DigitValue(c: char): nat
    requires IsDigit(c)
  {
    c as int - '0' as int
  }

  /** `parseInt(s, 10)` of a string of decimal digits */
  function DigitsValue(s: string): nat
    requires AllDigits(s)
    decreases |s|
  {
    if s == [] then 0 else 10 * DigitsValue(s[..|s| - 1]) + DigitValue(s[|s| - 1])
  }

  /** `${n}` for a non-negative integer: at least one digit, no leading zero. */
  function NatToString(n: nat): (s: string)
    ensures |s| >= 1 && AllDigits(s)
    ensures s[0] == '0' ==> n == 0
    decreases n
  {
    if n < 10 then [DigitChar(n)] else NatToString(n / 10) + [DigitChar(n % 10)]
  }

  /** Reading back the rendering of a number gives the number. */
  lemma {:induction false} DigitsValueOfNatToString(n: nat)
    ensures DigitsValue(NatToString(n)) == n
    decreases n
  {
    if n >= 10 {
      DigitsValueOfNatToString(n / 10);
      var s := NatToString(n);
      assert s[..|s| - 1] == NatToString(n / 10);
    }
  }

  /** Distinct numbers render differently. */
  lemma NatToStringInjective(m: nat, n: nat)
    requires NatToString(m) == NatToString(n)
    ensures m == n
  {
    DigitsValueOfNatToString(m);
    DigitsValueOfNatToString(n);
  }
}
