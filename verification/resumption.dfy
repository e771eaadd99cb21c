/** `resolve_write_mode`: decides, from what is already on disk and the user's
    answer to the overwrite prompt, whether a job starts a fresh file or appends
    to it, and which ids it still has to fetch. */
module Resumption {

  /** The `mode` argument of `to_csv`: `'w'` truncates, `'a'` appends. */
  datatype Mode = Overwrite | Append

  datatype WritePlan = WritePlan(mode: Mode, idsToFetch: seq<int>, header: bool)

  predicate NoDuplicates<T(==)>(xs: seq<T>) {
    forall i, j :: 0 <= i < j < |xs| ==> xs[i] != xs[j]
  }

  function Elements<T(==)>(xs: seq<T>): set<T> {
    set x | x in xs
  }

  /** ASCII lower-casing of one character (`str.lower`). */
  function LowerChar(c: char): char {
    if 'A' <= c <= 'Z' then (c as int + 32) as char else c
  }

  function Lower(s: string): (r: string)
    ensures |r| == |s|
  {
    if s == [] then [] else [LowerChar(s[0])] + Lower(s[1..])
  }

  /** `user_response.lower() == 'y'`. */
  predicate IsYes(answer: string) {
    Lower(answer) == "y"
  }

  /** Exactly the answers "y" and "Y" ask for an overwrite. */
  lemma IsYesExactly(answer: string)
    ensures IsYes(answer) <==> answer == "y" || answer == "Y"
  {
    if |answer| == 1 {
      assert Lower(answer) == [LowerChar(answer[0])];
    }
  }

  lemma EmptyElements<T>(xs: seq<T>)
    ensures Elements(xs) == {} <==> xs == []
  {
    if xs != [] {
      assert xs[0] in Elements(xs);
    }
  }

  /** The distinct elements of `xs` that are not in `seen`, in first-occurrence
      order: `list(set(all_ids) - set(ids_seen))` with one fixed iteration order. */
  function Unseen(xs: seq<int>, seen: set<int>): (r: seq<int>)
    ensures NoDuplicates(r)
    ensures Elements(r) == Elements(xs) - seen
  {
    if xs == [] then []
    else if xs[0] in seen then Unseen(xs[1..], seen)
    else
      var rest := Unseen(xs[1..], seen + {xs[0]});
      assert xs == [xs[0]] + xs[1..];
      assert Elements(xs) == {xs[0]} + Elements(xs[1..]);
      assert Elements([xs[0]] + rest) == {xs[0]} + Elements(rest);
      assert xs[0] !in Elements(rest);
      [xs[0]] + rest
  }

  /** `list(set(xs))`: the distinct elements of `xs`, in one fixed order. */
  function Dedup(xs: seq<int>): (r: seq<int>)
    ensures NoDuplicates(r)
    ensures Elements(r) == Elements(xs)
  {
    Unseen(xs, {})
  }

  /** `resolve_write_mode(filepath, id_name, all_ids)`. `sinkExists` is
      `filepath.exists()`, `answer` the text typed at the prompt, and `idsSeen`
      the id column read back from the existing file (read only when appending). */
  function ResolveWriteMode(sinkExists: bool, answer: string, idsSeen: seq<int>, allIds: seq<int>): (p: WritePlan)
    ensures !sinkExists ==> p == WritePlan(Overwrite, allIds, true)
    ensures sinkExists && IsYes(answer) ==> p == WritePlan(Overwrite, allIds, true)
    ensures sinkExists && !IsYes(answer) ==>
      && p.mode == Append
      && !p.header
      && NoDuplicates(p.idsToFetch)
      && Elements(p.idsToFetch) == Elements(allIds) - Elements(idsSeen)
    ensures p.header <==> p.mode == Overwrite
  {
    if sinkExists && !IsYes(answer) then
      WritePlan(Append, Unseen(allIds, Elements(idsSeen)), false)
    else
      WritePlan(Overwrite, allIds, true)
  }

  /** In append mode the work set is disjoint from what is stored, is drawn from
      the candidates, and misses no candidate that is not stored yet. */
  lemma AppendWorkSet(answer: string, idsSeen: seq<int>, allIds: seq<int>)
    requires !IsYes(answer)
    ensures var p := ResolveWriteMode(true, answer, idsSeen, allIds);
      && (forall i :: 0 <= i < |p.idsToFetch| ==> p.idsToFetch[i] !in idsSeen && p.idsToFetch[i] in allIds)
      && (forall x :: x in allIds && x !in idsSeen ==> x in p.idsToFetch)
  {
    var p := ResolveWriteMode(true, answer, idsSeen, allIds);
    assert forall x :: x in p.idsToFetch <==> x in Elements(p.idsToFetch);
    assert forall x :: x in idsSeen <==> x in Elements(idsSeen);
    assert forall x :: x in allIds <==> x in Elements(allIds);
    forall i | 0 <= i < |p.idsToFetch|
      ensures p.idsToFetch[i] !in idsSeen && p.idsToFetch[i] in allIds
    {
      assert p.idsToFetch[i] in Elements(p.idsToFetch);
    }
  }

  /** The work set depends on the stored ids only as a set: re-ordering or
      repeating them in the file changes nothing. */
  lemma WorkSetIgnoresStoredOrder(answer: string, seen1: seq<int>, seen2: seq<int>, allIds: seq<int>)
    requires Elements(seen1) == Elements(seen2)
    ensures ResolveWriteMode(true, answer, seen1, allIds) == ResolveWriteMode(true, answer, seen2, allIds)
  {
  }

  /** Resumption is idempotent: once every id of an append run has been stored,
      planning again with the same candidates finds nothing left to fetch, and
      the stored id column still holds no duplicate when it held none before. */
  lemma ResumeAfterCompleteRun(answer: string, idsSeen: seq<int>, allIds: seq<int>)
    requires !IsYes(answer)
    ensures var p := ResolveWriteMode(true, answer, idsSeen, allIds);
      && ResolveWriteMode(true, answer, idsSeen + p.idsToFetch, allIds).idsToFetch == []
      && (NoDuplicates(idsSeen) ==> NoDuplicates(idsSeen + p.idsToFetch))
  {
    var p := ResolveWriteMode(true, answer, idsSeen, allIds);
    var stored := idsSeen + p.idsToFetch;
    assert Elements(stored) == Elements(idsSeen) + Elements(p.idsToFetch);
    var q := ResolveWriteMode(true, answer, stored, allIds);
    assert Elements(q.idsToFetch) == {};
    EmptyElements(q.idsToFetch);
    if NoDuplicates(idsSeen) {
      forall i, j | 0 <= i < j < |stored|
        ensures stored[i] != stored[j]
      {
        if i < |idsSeen| <= j {
          assert stored[j] == p.idsToFetch[j - |idsSeen|];
          assert stored[j] in Elements(p.idsToFetch);
          assert stored[i] in Elements(idsSeen);
        }
      }
    }
  }

  /** Scenario: candidates {1, 2, 3}, the stored file holds 2, the user declines
      the overwrite: ids 1 and 3 are fetched in append mode with no header. */
  lemma AppendScenario()
    ensures ResolveWriteMode(true, "n", [2], [1, 2, 3]) == WritePlan(Append, [1, 3], false)
  {
    assert !IsYes("n") by { IsYesExactly("n"); }
    assert Elements([2]) == {2};
    assert [1, 2, 3][1..] == [2, 3];
    assert [2, 3][1..] == [3];
    assert [3][1..] == [];
    assert Unseen([3], {2} + {1}) == [3];
    assert Unseen([2, 3], {2} + {1}) == [3];
    assert Unseen([1, 2, 3], {2}) == [1, 3];
  }
}
