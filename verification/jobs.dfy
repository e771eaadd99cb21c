/** What the CSV batch jobs share: how a prerequisite file read can end, the
    errors they raise, and the chunk-fetch-write pipeline of their main loop. */
module Jobs {
  import opened Wrappers
  import opened Json
  import opened Fetch
  import opened Gather
  import opened Batching
  import opened BatchWriter
  import opened Resumption

  /** `BATCH_SIZE` of every CSV job. */
  const BatchSize: nat := 500

  /** Reading a prerequisite file with pandas. */
  datatype CsvRead<T> = Missing | Unreadable | Loaded(contents: T)

  /** The exceptions a job raises before its main loop. `ReadError` is a pandas
      read error that is not caught and propagates unchanged. */
  datatype JobError = FileNotFound(message: string) | RuntimeError(message: string) | ReadError

  datatype JobOutcome<R> = Failed(error: JobError) | NothingToFetch | Ran(run: Run<R>)

  /** The per-id network: attempt results of the request for that id. */
  type Network = int -> (nat -> Attempt)

  /** Awaiting the fetch of each id in turn (the task list of a batch). */
  function FetchAll<T>(ids: seq<int>, fetch: int -> Fetched<T>): (r: seq<Fetched<T>>)
    ensures |r| == |ids|
    ensures forall i :: 0 <= i < |ids| ==> r[i] == fetch(ids[i])
  {
    if ids == [] then [] else [fetch(ids[0])] + FetchAll(ids[1..], fetch)
  }

  lemma FetchAllAppend<T>(a: seq<int>, b: seq<int>, fetch: int -> Fetched<T>)
    ensures FetchAll(a + b, fetch) == FetchAll(a, fetch) + FetchAll(b, fetch)
  {
  }

  /** `step` applied to every batch, in batch order. */
  function MapBatches<R>(cs: seq<seq<int>>, step: seq<int> -> Option<seq<R>>): (r: seq<Option<seq<R>>>)
    ensures |r| == |cs|
    ensures forall k :: 0 <= k < |cs| ==> r[k] == step(cs[k])
  {
    if cs == [] then [] else [step(cs[0])] + MapBatches(cs[1..], step)
  }

  /** The batch results of `for batch in chunked(ids, size)`. */
  function BatchOutcomes<R>(ids: seq<int>, size: nat, step: seq<int> -> Option<seq<R>>): seq<Option<seq<R>>>
    requires size > 0
  {
    MapBatches(Chunked(ids, size), step)
  }

  /** A batch of a job that awaits `asyncio.gather(*tasks)`: the results of
      every id in order, or `None` when one of the fetches raised. */
  function StrictBatch<T>(batch: seq<int>, fetch: int -> Fetched<T>): (r: Option<seq<Option<T>>>)
    ensures r.None? <==> exists i :: 0 <= i < |batch| && fetch(batch[i]).Raised?
    ensures r.Some? ==> |r.value| == |batch| && forall i :: 0 <= i < |batch| ==> r.value[i] == fetch(batch[i]).data
  {
    GatherAll(FetchAll(batch, fetch))
  }

  /** A batch of a job that gathers with `return_exceptions=True` and keeps only
      the values that are neither exceptions nor None. */
  function LenientBatch<T>(batch: seq<int>, fetch: int -> Fetched<T>): (r: Option<seq<T>>)
    ensures r.Some?
    ensures forall x :: x in r.value ==> exists i :: 0 <= i < |batch| && fetch(batch[i]) == Returned(Some(x))
    ensures forall i :: 0 <= i < |batch| && fetch(batch[i]).Returned? && fetch(batch[i]).data.Some? ==> fetch(batch[i]).data.value in r.value
  {
    Some(ValidResults(FetchAll(batch, fetch)))
  }

  predicate NoneRaised<T>(ids: seq<int>, fetch: int -> Fetched<T>) {
    forall i :: 0 <= i < |ids| ==> !fetch(ids[i]).Raised?
  }

  /** The values of the fetches of `ids`, in order. */
  function Results<T>(ids: seq<int>, fetch: int -> Fetched<T>): (r: seq<Option<T>>)
    ensures |r| == |ids|
  {
    if ids == [] then []
    else [if fetch(ids[0]).Returned? then fetch(ids[0]).data else None] + Results(ids[1..], fetch)
  }

  lemma {:induction false} ResultsAppend<T>(a: seq<int>, b: seq<int>, fetch: int -> Fetched<T>)
    ensures Results(a + b, fetch) == Results(a, fetch) + Results(b, fetch)
  {
    if a != [] {
      assert (a + b)[1..] == a[1..] + b;
      ResultsAppend(a[1..], b, fetch);
    } else {
      assert a + b == b;
    }
  }

  lemma NoneRaisedSplit<T>(a: seq<int>, b: seq<int>, fetch: int -> Fetched<T>)
    requires NoneRaised(a + b, fetch)
    ensures NoneRaised(a, fetch) && NoneRaised(b, fetch)
  {
    assert forall i :: 0 <= i < |a| ==> (a + b)[i] == a[i];
    assert forall i :: 0 <= i < |b| ==> (a + b)[|a| + i] == b[i];
  }

  lemma {:induction false} StrictBatchOk<T>(batch: seq<int>, fetch: int -> Fetched<T>)
    requires NoneRaised(batch, fetch)
    ensures StrictBatch(batch, fetch) == Some(Results(batch, fetch))
  {
    if batch != [] {
      assert NoneRaised(batch[1..], fetch) by {
        assert forall i :: 0 <= i < |batch[1..]| ==> batch[1..][i] == batch[i + 1];
      }
      StrictBatchOk(batch[1..], fetch);
      var outs := FetchAll(batch, fetch);
      assert outs[1..] == FetchAll(batch[1..], fetch);
      assert !outs[0].Raised?;
    }
  }

  lemma {:induction false} StrictBatchesAll<T>(cs: seq<seq<int>>, fetch: int -> Fetched<T>)
    requires NoneRaised(Flatten(cs), fetch)
    ensures var outs := MapBatches(cs, b => StrictBatch(b, fetch));
      && !SomeBatchFails(outs)
      && Flatten(Completed(outs)) == Results(Flatten(cs), fetch)
  {
    var outs := MapBatches(cs, b => StrictBatch(b, fetch));
    if cs != [] {
      NoneRaisedSplit(cs[0], Flatten(cs[1..]), fetch);
      StrictBatchesAll(cs[1..], fetch);
      StrictBatchOk(cs[0], fetch);
      assert outs[1..] == MapBatches(cs[1..], b => StrictBatch(b, fetch));
      assert Completed(outs) == [Results(cs[0], fetch)] + Completed(outs[1..]);
      ResultsAppend(cs[0], Flatten(cs[1..]), fetch);
    }
  }

  /** A job that does not raise persists, over all its writes, one result per
      id of its work set, in work-set order. */
  lemma StrictJobPersistsEveryResult<T>(ids: seq<int>, fetch: int -> Fetched<T>, mode: Mode, header: bool)
    requires NoneRaised(ids, fetch)
    ensures var r := WriteBatches(WriteEvery, BatchOutcomes(ids, BatchSize, b => StrictBatch(b, fetch)), mode, header);
      && !r.aborted
      && Flatten(Rows(r.log)) == Results(ids, fetch)
  {
    ChunkedFlattens(ids, BatchSize);
    StrictBatchesAll(Chunked(ids, BatchSize), fetch);
  }

  lemma {:induction false} LenientBatchesAll<T>(cs: seq<seq<int>>, fetch: int -> Fetched<T>)
    ensures var outs := MapBatches(cs, b => LenientBatch(b, fetch));
      && !SomeBatchFails(outs)
      && Flatten(Completed(outs)) == ValidResults(FetchAll(Flatten(cs), fetch))
  {
    var outs := MapBatches(cs, b => LenientBatch(b, fetch));
    if cs != [] {
      LenientBatchesAll(cs[1..], fetch);
      assert outs[1..] == MapBatches(cs[1..], b => LenientBatch(b, fetch));
      assert Completed(outs) == [outs[0].value] + Completed(outs[1..]);
      FetchAllAppend(cs[0], Flatten(cs[1..]), fetch);
      ValidResultsAppend(FetchAll(cs[0], fetch), FetchAll(Flatten(cs[1..]), fetch));
    }
  }

  /** A job that gathers with `return_exceptions=True` never aborts, and its
      writes persist exactly the valid results of its work set, in order. */
  lemma LenientJobPersistsValidResults<T>(ids: seq<int>, fetch: int -> Fetched<T>, mode: Mode, header: bool)
    ensures var r := WriteBatches(SkipEmpty, BatchOutcomes(ids, BatchSize, b => LenientBatch(b, fetch)), mode, header);
      && !r.aborted
      && Flatten(Rows(r.log)) == ValidResults(FetchAll(ids, fetch))
  {
    ChunkedFlattens(ids, BatchSize);
    var outs := BatchOutcomes(ids, BatchSize, b => LenientBatch(b, fetch));
    LenientBatchesAll(Chunked(ids, BatchSize), fetch);
    FlattenNonEmpty(Completed(outs));
  }
}
