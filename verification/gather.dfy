/** The two ways the jobs collect the results of a batch of concurrent fetches. */
module Gather {
  import opened Wrappers
  import opened Fetch

  /** `await asyncio.gather(*tasks)`: every result in task order, or, when some
      task raised, the error propagates and no result is seen. */
  function GatherAll<T>(outs: seq<Fetched<T>>): (r: Option<seq<Option<T>>>)
    ensures r.None? <==> exists i :: 0 <= i < |outs| && outs[i].Raised?
    ensures r.Some? ==> |r.value| == |outs| && forall i :: 0 <= i < |outs| ==> r.value[i] == outs[i].data
  {
    if outs == [] then Some([])
    else if outs[0].Raised? then None
    else
      match GatherAll(outs[1..])
      case None => None
      case Some(rest) => Some([outs[0].data] + rest)
  }

  /** `asyncio.gather(*tasks, return_exceptions=True)` followed by the loop that
      drops exceptions and None results. */
  function ValidResults<T>(outs: seq<Fetched<T>>): (r: seq<T>)
    ensures |r| <= |outs|
    ensures forall x :: x in r ==> exists i :: 0 <= i < |outs| && outs[i] == Returned(Some(x))
    ensures forall i :: 0 <= i < |outs| && outs[i].Returned? && outs[i].data.Some? ==> outs[i].data.value in r
  {
    if outs == [] then []
    else
      var rest := ValidResults(outs[1..]);
      assert forall i :: 1 <= i < |outs| ==> outs[i] == outs[1..][i - 1];
      match outs[0]
      case Returned(Some(x)) => [x] + rest
      case _ => rest
  }

  /** Filtering keeps the order of the tasks: it distributes over concatenation. */
  lemma {:induction false} ValidResultsAppend<T>(a: seq<Fetched<T>>, b: seq<Fetched<T>>)
    ensures ValidResults(a + b) == ValidResults(a) + ValidResults(b)
  {
    if a == [] {
      assert a + b == b;
    } else {
      assert (a + b)[1..] == a[1..] + b;
      ValidResultsAppend(a[1..], b);
    }
  }
}
