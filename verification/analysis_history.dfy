/** The history list of ai-tool/hooks/useAnalysisHistory.ts: newest first,
    at most 50 entries. Each operation is the function its `setHistory`
    updater applies; the id and timestamp an entry gets from the clock and
    the random source are parameters. */
module AnalysisHistory {
  import opened Wrappers
  import opened Types

  const MaxHistoryEntries: nat := 50

  function Min(a: nat, b: nat): nat {
    if a <= b then a else b
  }

  /** `addToHistory`: the new entry goes in front and the list is cut back
      to 50, dropping the oldest. */
  function AddToHistory(history: seq<HistoryEntry>, id: string, now: int, inputMode: InputMode,
                        input: HistoryInput, settings: Settings, result: AnalysisResult,
                        extractedText: Option<string>): (r: seq<HistoryEntry>)
    ensures |r| == Min(|history| + 1, MaxHistoryEntries)
    ensures r[0] == HistoryEntry(id, now, inputMode, input, settings, result, extractedText)
    ensures r[1..] == history[..Min(|history|, MaxHistoryEntries - 1)]
  {
    var entry := HistoryEntry(id, now, inputMode, input, settings, result, extractedText);
    var updated := [entry] + history;
    updated[..Min(|updated|, MaxHistoryEntries)]
  }

  /** `removeFromHistory`: every entry with the id goes, the rest stay. */
  function RemoveFromHistory(history: seq<HistoryEntry>, id: string): (r: seq<HistoryEntry>)
    ensures |r| <= |history|
    ensures forall k :: 0 <= k < |r| ==> r[k].id != id
    decreases |history|
  {
    if history == [] then []
    else
      var rest := RemoveFromHistory(history[1..], id);
      if history[0].id == id then rest else [history[0]] + rest
  }

  /** An entry survives removal exactly when it was there under another id. */
  lemma {:induction false} RemoveKeepsOthers(history: seq<HistoryEntry>, id: string)
    ensures forall e :: e in RemoveFromHistory(history, id) <==> e in history && e.id != id
    decreases |history|
  {
    if history != [] {
      RemoveKeepsOthers(history[1..], id);
      assert history == [history[0]] + history[1..];
      assert forall e :: e in history <==> e == history[0] || e in history[1..];
    }
  }

  /** Removing an id no entry has changes nothing. */
  lemma {:induction false} RemoveAbsentId(history: seq<HistoryEntry>, id: string)
    requires forall k :: 0 <= k < |history| ==> history[k].id != id
    ensures RemoveFromHistory(history, id) == history
    decreases |history|
  {
    if history != [] {
      assert history[0].id != id;
      RemoveAbsentId(history[1..], id);
      assert history == [history[0]] + history[1..];
    }
  }

  /** Removal works entry by entry, so it keeps the order of what stays. */
  lemma {:induction false} RemoveDistributes(a: seq<HistoryEntry>, b: seq<HistoryEntry>, id: string)
    ensures RemoveFromHistory(a + b, id) == RemoveFromHistory(a, id) + RemoveFromHistory(b, id)
    decreases |a|
  {
    if a == [] {
      assert a + b == b;
    } else {
      assert (a + b)[0] == a[0];
      assert (a + b)[1..] == a[1..] + b;
      RemoveDistributes(a[1..], b, id);
    }
  }

  /** `clearHistory`. */
  function ClearHistory(): (r: seq<HistoryEntry>)
    ensures |r| == 0
  {
    []
  }

  /** The history after removing each of `ids` in turn. */
  function RemoveEach(history: seq<HistoryEntry>, ids: seq<string>): seq<HistoryEntry>
    decreases |ids|
  {
    if ids == [] then history else RemoveEach(RemoveFromHistory(history, ids[0]), ids[1..])
  }

  /** Removing several ids keeps exactly the entries with none of them. */
  lemma {:induction false} RemoveEachKeepsOthers(history: seq<HistoryEntry>, ids: seq<string>)
    ensures forall e :: e in RemoveEach(history, ids) <==> e in history && e.id !in ids
    decreases |ids|
  {
    if ids != [] {
      RemoveKeepsOthers(history, ids[0]);
      RemoveEachKeepsOthers(RemoveFromHistory(history, ids[0]), ids[1..]);
      assert forall x :: x in ids <==> x == ids[0] || x in ids[1..];
    }
  }

  lemma NoMemberEmpty(s: seq<HistoryEntry>)
    ensures (forall e :: e !in s) ==> s == []
  {
    if s != [] {
      assert s[0] in s;
    }
  }

  /** Clearing is the same as deleting every entry one by one. */
  lemma ClearIsRemovingEveryEntry(history: seq<HistoryEntry>)
    ensures RemoveEach(history, seq(|history|, k requires 0 <= k < |history| => history[k].id)) == ClearHistory()
  {
    var ids := seq(|history|, k requires 0 <= k < |history| => history[k].id);
    var r := RemoveEach(history, ids);
    RemoveEachKeepsOthers(history, ids);
    forall e | e in history
      ensures e.id in ids
    {
      var k :| 0 <= k < |history| && history[k] == e;
      assert ids[k] == e.id;
    }
    NoMemberEmpty(r);
  }

  /** What `loadFromHistory` hands back to the page. */
  datatype Loaded = Loaded(
    inputMode: InputMode,
    input: HistoryInput,
    settings: Settings,
    result: AnalysisResult,
    extractedText: Option<string>)

  function LoadFromHistory(entry: HistoryEntry): (r: Loaded)
    ensures r.inputMode == entry.inputMode && r.input == entry.input && r.settings == entry.settings
    ensures r.result == entry.result && r.extractedText == entry.extractedText
  {
    Loaded(entry.inputMode, entry.input, entry.settings, entry.result, entry.extractedText)
  }

  /** Loading the entry just added gives back what was saved. */
  lemma LoadAfterAdd(history: seq<HistoryEntry>, id: string, now: int, inputMode: InputMode,
                     input: HistoryInput, settings: Settings, result: AnalysisResult,
                     extractedText: Option<string>)
    ensures LoadFromHistory(AddToHistory(history, id, now, inputMode, input, settings, result, extractedText)[0])
            == Loaded(inputMode, input, settings, result, extractedText)
  {
  }

  /** Adding under a fresh id to a list below the bound, then removing that
      id, restores the list. */
  lemma AddThenRemove(history: seq<HistoryEntry>, id: string, now: int, inputMode: InputMode,
                      input: HistoryInput, settings: Settings, result: AnalysisResult,
                      extractedText: Option<string>)
    requires |history| < MaxHistoryEntries
    requires forall k :: 0 <= k < |history| ==> history[k].id != id
    ensures RemoveFromHistory(AddToHistory(history, id, now, inputMode, input, settings, result, extractedText), id)
            == history
  {
    var entry := HistoryEntry(id, now, inputMode, input, settings, result, extractedText);
    var added := AddToHistory(history, id, now, inputMode, input, settings, result, extractedText);
    assert added == [entry] + history;
    RemoveDistributes([entry], history, id);
    RemoveAbsentId(history, id);
    assert RemoveFromHistory([entry], id) == [];
  }

  /** After clearing, the next add leaves exactly that entry. */
  lemma AddAfterClear(id: string, now: int, inputMode: InputMode, input: HistoryInput,
                      settings: Settings, result: AnalysisResult, extractedText: Option<string>)
    ensures AddToHistory(ClearHistory(), id, now, inputMode, input, settings, result, extractedText)
            == [HistoryEntry(id, now, inputMode, input, settings, result, extractedText)]
  {
  }

  /** The mount-time load: the stored text is read only when truthy, and its
      parse is adopted, unchecked, only when it is a JSON array; a failed
      parse is logged and ignored. `None` leaves the empty initial list.
      The operations above act on well-formed entries only; an adopted
      array whose items are not entries is outside them. */
  function LoadStored(stored: Option<string>, parse: string -> Option<Json>): (r: Option<seq<Json>>)
    ensures r.Some? <==> Truthy(stored) && parse(stored.value).Some? && parse(stored.value).value.JArray?
    ensures r.Some? ==> r.value == parse(stored.value).value.items
  {
    if Truthy(stored) then
      match parse(stored.value)
      case Some(JArray(items)) => Some(items)
      case _ => None
    else None
  }
}
