/** The list ai-tool/components/shared/TopWordsModal.tsx shows: the words
    used more than once, at most fifteen of them, ranked from one. */
module TopWords {
  import opened Types

  const MaxShown: nat := 15

  /** `topWords.filter(item => item.count > 1)` */
  function Repeated(words: seq<WordCount>): (r: seq<WordCount>)
    ensures |r| <= |words|
    ensures forall k :: 0 <= k < |r| ==> r[k].count > 1
    decreases |words|
  {
    if words == [] then []
    else
      var rest := Repeated(words[1..]);
      if words[0].count > 1 then [words[0]] + rest else rest
  }

  /** A word is kept exactly when it was used more than once. */
  lemma {:induction false} RepeatedKeeps(words: seq<WordCount>)
    ensures forall w :: w in Repeated(words) <==> w in words && w.count > 1
    decreases |words|
  {
    if words != [] {
      RepeatedKeeps(words[1..]);
      assert words == [words[0]] + words[1..];
      assert forall w :: w in words <==> w == words[0] || w in words[1..];
    }
  }

  /** The filter keeps the order of what it keeps. */
  lemma {:induction false} RepeatedDistributes(a: seq<WordCount>, b: seq<WordCount>)
    ensures Repeated(a + b) == Repeated(a) + Repeated(b)
    decreases |a|
  {
    if a == [] {
      assert a + b == b;
    } else {
      assert (a + b)[0] == a[0];
      assert (a + b)[1..] == a[1..] + b;
      RepeatedDistributes(a[1..], b);
    }
  }

  /** What the modal body shows: the empty state, or rows of rank and word. */
  datatype Display = EmptyState | Ranked(rows: seq<(nat, WordCount)>)

  /** `filteredWords` and the branch on its length. */
  function Show(words: seq<WordCount>): (d: Display)
    ensures d == EmptyState <==> forall k :: 0 <= k < |words| ==> words[k].count <= 1
    ensures d.Ranked? ==>
      && 1 <= |d.rows| <= MaxShown && |d.rows| <= |Repeated(words)|
      && d.rows == RankRows(Repeated(words)[..|d.rows|])
      && (|d.rows| < MaxShown ==> |d.rows| == |Repeated(words)|)
  {
    var filtered := Repeated(words);
    var shown := filtered[..if |filtered| < MaxShown then |filtered| else MaxShown];
    assert filtered == [] <==> forall k :: 0 <= k < |words| ==> words[k].count <= 1 by {
      RepeatedKeeps(words);
      if filtered != [] {
        assert filtered[0] in words;
      }
      if exists k :: 0 <= k < |words| && words[k].count > 1 {
        var k :| 0 <= k < |words| && words[k].count > 1;
        assert words[k] in filtered;
      }
    }
    if |shown| == 0 then EmptyState else Ranked(RankRows(shown))
  }

  /** Each row with its rank, `idx + 1`. */
  function RankRows(shown: seq<WordCount>): (rows: seq<(nat, WordCount)>)
    ensures |rows| == |shown|
    ensures forall i :: 0 <= i < |rows| ==> rows[i] == (i + 1, shown[i])
  {
    seq(|shown|, i requires 0 <= i < |shown| => (i + 1, shown[i]))
  }

  /** Every shown word was used more than once, and the ranks count up
      from one. */
  lemma ShownRowsAreRepeated(words: seq<WordCount>)
    requires Show(words).Ranked?
    ensures forall i :: 0 <= i < |Show(words).rows| ==>
              Show(words).rows[i].0 == i + 1 && Show(words).rows[i].1.count > 1
              && Show(words).rows[i].1 in words
  {
    var rows := Show(words).rows;
    var filtered := Repeated(words);
    forall i | 0 <= i < |rows|
      ensures rows[i].0 == i + 1 && rows[i].1.count > 1 && rows[i].1 in words
    {
      assert rows[i].1 == filtered[i];
      assert filtered[i] in filtered;
      RepeatedKeeps(words);
    }
  }
}
