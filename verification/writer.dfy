/** The batch writers: a fold over the per-batch results that emits the log of
    writes a job performs. A batch result is `None` when collecting it raised
    (the exception ends the job) and `Some(rows)` otherwise. */
module BatchWriter {
  import opened Wrappers
  import opened Resumption
  import Batching

  /** One `df.to_csv(path, mode=..., header=...)` call. */
  datatype WriteEvent<R> = WriteEvent(mode: Mode, header: bool, rows: seq<R>)

  /** The writes performed, and whether an exception ended the job early. */
  datatype Run<R> = Run(log: seq<WriteEvent<R>>, aborted: bool)

  /** Whether a batch without rows is still written (`to_csv` of an empty frame)
      or skipped with `continue`. */
  datatype EmptyBatchPolicy = WriteEvery | SkipEmpty

  /** The row lists of the batches collected before the first failed one. */
  function Completed<R>(outs: seq<Option<seq<R>>>): seq<seq<R>> {
    if outs == [] || outs[0].None? then [] else [outs[0].value] + Completed(outs[1..])
  }

  predicate SomeBatchFails<R>(outs: seq<Option<seq<R>>>) {
    exists i :: 0 <= i < |outs| && outs[i].None?
  }

  function Rows<R>(log: seq<WriteEvent<R>>): seq<seq<R>> {
    if log == [] then [] else [log[0].rows] + Rows(log[1..])
  }

  function NonEmpty<R>(batches: seq<seq<R>>): seq<seq<R>> {
    if batches == [] then []
    else if batches[0] == [] then NonEmpty(batches[1..])
    else [batches[0]] + NonEmpty(batches[1..])
  }

  /** The writer loop. `mode` and `header` are the values used for the next
      write; after each write the scripts switch them to `'a'` and `False`. */
  function WriteBatches<R>(policy: EmptyBatchPolicy, outs: seq<Option<seq<R>>>, mode: Mode, header: bool): (r: Run<R>)
    ensures r.aborted <==> SomeBatchFails(outs)
    ensures |r.log| > 0 ==> r.log[0].mode == mode && r.log[0].header == header
    ensures forall i :: 0 < i < |r.log| ==> r.log[i].mode == Append && !r.log[i].header
    ensures policy == WriteEvery ==> Rows(r.log) == Completed(outs)
    ensures policy == SkipEmpty ==> Rows(r.log) == NonEmpty(Completed(outs))
    ensures policy == SkipEmpty ==> forall i :: 0 <= i < |r.log| ==> r.log[i].rows != []
  {
    if outs == [] then Run([], false)
    else match outs[0]
      case None => Run([], true)
      case Some(rows) =>
        assert forall i :: 1 <= i < |outs| ==> outs[i] == outs[1..][i - 1];
        if policy == SkipEmpty && rows == [] then
          WriteBatches(policy, outs[1..], mode, header)
        else
          var rest := WriteBatches(policy, outs[1..], Append, false);
          var log := [WriteEvent(mode, header, rows)] + rest.log;
          assert log[1..] == rest.log;
          Run(log, rest.aborted)
  }

  lemma {:induction false} FlattenNonEmpty<R>(batches: seq<seq<R>>)
    ensures Batching.Flatten(NonEmpty(batches)) == Batching.Flatten(batches)
  {
    if batches != [] {
      var rest := NonEmpty(batches[1..]);
      FlattenNonEmpty(batches[1..]);
      assert Batching.Flatten(batches) == batches[0] + Batching.Flatten(batches[1..]);
      if batches[0] != [] {
        var ne := [batches[0]] + rest;
        assert NonEmpty(batches) == ne;
        assert ne[0] == batches[0] && ne[1..] == rest;
        assert Batching.Flatten(ne) == batches[0] + Batching.Flatten(rest);
      } else {
        assert NonEmpty(batches) == rest;
        assert batches[0] + Batching.Flatten(batches[1..]) == Batching.Flatten(batches[1..]);
      }
    }
  }

  /** Skipping empty batches loses no row: both policies persist the same rows
      in the same order. */
  lemma SameRowsEitherPolicy<R>(outs: seq<Option<seq<R>>>, mode: Mode, header: bool)
    ensures Batching.Flatten(Rows(WriteBatches(SkipEmpty, outs, mode, header).log))
         == Batching.Flatten(Rows(WriteBatches(WriteEvery, outs, mode, header).log))
  {
    FlattenNonEmpty(Completed(outs));
  }

  function HeaderCount<R>(log: seq<WriteEvent<R>>): nat {
    if log == [] then 0 else (if log[0].header then 1 else 0) + HeaderCount(log[1..])
  }

  lemma {:induction false} HeaderCountTail<R>(log: seq<WriteEvent<R>>)
    requires forall i :: 0 <= i < |log| ==> !log[i].header
    ensures HeaderCount(log) == 0
  {
    if log != [] {
      HeaderCountTail(log[1..]);
    }
  }

  /** The header is written at most once, on the first write, and exactly when
      the job asked for it and writes something. */
  lemma HeaderAtMostOnce<R>(policy: EmptyBatchPolicy, outs: seq<Option<seq<R>>>, mode: Mode, header: bool)
    ensures var log := WriteBatches(policy, outs, mode, header).log;
      HeaderCount(log) == if header && |log| > 0 then 1 else 0
  {
    var log := WriteBatches(policy, outs, mode, header).log;
    if log != [] {
      HeaderCountTail(log[1..]);
    }
  }

  /** Starting with `mode == 'w'` exactly when `header` (as every script does),
      each write truncates exactly when it writes the header. */
  lemma ModeMatchesHeader<R>(policy: EmptyBatchPolicy, outs: seq<Option<seq<R>>>, mode: Mode, header: bool)
    requires mode == Overwrite <==> header
    ensures var log := WriteBatches(policy, outs, mode, header).log;
      forall i :: 0 <= i < |log| ==> (log[i].mode == Overwrite <==> log[i].header)
  {
  }

  lemma {:induction false} CompletedAllSome<R>(outs: seq<Option<seq<R>>>)
    requires forall i :: 0 <= i < |outs| ==> outs[i].Some?
    ensures |Completed(outs)| == |outs|
    ensures forall i :: 0 <= i < |outs| ==> Completed(outs)[i] == outs[i].value
  {
    if outs != [] {
      CompletedAllSome(outs[1..]);
    }
  }

  lemma {:induction false} RowsLength<R>(log: seq<WriteEvent<R>>)
    ensures |Rows(log)| == |log|
    ensures forall i :: 0 <= i < |log| ==> Rows(log)[i] == log[i].rows
  {
    if log != [] {
      RowsLength(log[1..]);
    }
  }

  /** When no batch fails, the always-write loop writes every batch once, in
      order, each with exactly its rows. */
  lemma WriteEveryBatch<R>(outs: seq<Option<seq<R>>>, mode: Mode, header: bool)
    requires forall i :: 0 <= i < |outs| ==> outs[i].Some?
    ensures var r := WriteBatches(WriteEvery, outs, mode, header);
      && !r.aborted
      && |r.log| == |outs|
      && forall i :: 0 <= i < |outs| ==> r.log[i].rows == outs[i].value
  {
    var r := WriteBatches(WriteEvery, outs, mode, header);
    CompletedAllSome(outs);
    RowsLength(r.log);
  }

  // ---- The single parquet writer of the movie-details job ----

  datatype ParquetEvent<R> = Unlink | Open | WriteTable(rows: seq<R>) | Close

  datatype ParquetRun<R> = ParquetRun(events: seq<ParquetEvent<R>>, aborted: bool)

  function Tables<R>(events: seq<ParquetEvent<R>>): seq<seq<R>> {
    if events == [] then []
    else (if events[0].WriteTable? then [events[0].rows] else []) + Tables(events[1..])
  }

  datatype EventKind = Unlinked | Opened | Written | Closed

  function KindOf<R>(e: ParquetEvent<R>): EventKind {
    match e
    case Unlink => Unlinked
    case Open => Opened
    case WriteTable(_) => Written
    case Close => Closed
  }

  /** How many events of kind `k` the log holds. */
  function Count<R>(events: seq<ParquetEvent<R>>, k: EventKind): nat {
    if events == [] then 0 else (if KindOf(events[0]) == k then 1 else 0) + Count(events[1..], k)
  }

  lemma {:induction false} CountAppend<R>(a: seq<ParquetEvent<R>>, b: seq<ParquetEvent<R>>, e: EventKind)
    ensures Count(a + b, e) == Count(a, e) + Count(b, e)
    ensures Tables(a + b) == Tables(a) + Tables(b)
  {
    if a == [] {
      assert a + b == b;
    } else {
      assert (a + b)[1..] == a[1..] + b;
      CountAppend(a[1..], b, e);
    }
  }

  /** The batch loop: `writer` is created from the first batch's table, every
      batch is written through it. The result also says whether it is open. */
  function StreamBatches<R>(outs: seq<Option<seq<R>>>, open: bool): (r: (ParquetRun<R>, bool))
    ensures r.0.aborted <==> SomeBatchFails(outs)
    ensures r.1 <==> open || Completed(outs) != []
    ensures Tables(r.0.events) == Completed(outs)
    ensures Count(r.0.events, Opened) == if open || Completed(outs) == [] then 0 else 1
    ensures Count(r.0.events, Closed) == 0 && Count(r.0.events, Unlinked) == 0
    ensures !open && r.0.events != [] ==> r.0.events[0].Open?
  {
    if outs == [] then (ParquetRun([], false), open)
    else match outs[0]
      case None => (ParquetRun([], true), open)
      case Some(rows) =>
        assert forall i :: 1 <= i < |outs| ==> outs[i] == outs[1..][i - 1];
        var rest := StreamBatches(outs[1..], true);
        var head: seq<ParquetEvent<R>> := (if open then [] else [Open]) + [WriteTable(rows)];
        forall e: EventKind ensures Count(head + rest.0.events, e) == Count(head, e) + Count(rest.0.events, e)
          && Tables(head + rest.0.events) == Tables(head) + Tables(rest.0.events) {
          CountAppend(head, rest.0.events, e);
        }
        assert Tables(head) == [rows] by {
          
          if !open {
            assert head == [Open] + [WriteTable(rows)];
            CountAppend([Open], [WriteTable(rows)], Opened);
          }
        }
        assert Count(head, Opened) == (if open then 0 else 1) && Count(head, Closed) == 0 && Count(head, Unlinked) == 0 by {
          if !open {
            CountAppend([Open], [WriteTable(rows)], Opened);
            CountAppend([Open], [WriteTable(rows)], Closed);
            CountAppend([Open], [WriteTable(rows)], Unlinked);
          }
        }
        (ParquetRun(head + rest.0.events, rest.0.aborted), true)
  }

  /** `_fetch_details_and_credits`: the existing output is removed, the batches
      are streamed, and the writer is closed after the loop when it exists. An
      exception escaping the loop skips the close. */
  function ParquetJob<R>(outputExists: bool, outs: seq<Option<seq<R>>>): (r: ParquetRun<R>)
    ensures r.aborted <==> SomeBatchFails(outs)
    ensures Tables(r.events) == Completed(outs)
    ensures Count(r.events, Unlinked) == (if outputExists then 1 else 0)
    ensures Count(r.events, Opened) == (if Completed(outs) == [] then 0 else 1)
    ensures Count(r.events, Closed) == (if Completed(outs) != [] && !SomeBatchFails(outs) then 1 else 0)
    ensures Count(r.events, Closed) == 1 ==> r.events[|r.events| - 1].Close?
    ensures outputExists ==> r.events[0].Unlink?
  {
    var (loop, open) := StreamBatches(outs, false);
    var pre: seq<ParquetEvent<R>> := if outputExists then [Unlink] else [];
    var post: seq<ParquetEvent<R>> := if open && !loop.aborted then [Close] else [];
    var events := pre + loop.events + post;
    forall e: EventKind ensures Count(events, e) == Count(pre, e) + Count(loop.events, e) + Count(post, e)
      && Tables(events) == Tables(pre) + Tables(loop.events) + Tables(post) {
      CountAppend(pre, loop.events, e);
      CountAppend(pre + loop.events, post, e);
    }
    ParquetRun(events, loop.aborted)
  }

  /** With no ids there is no writer and no file: at most the old output is
      removed. */
  lemma NoBatchesNoFile<R>(outputExists: bool)
    ensures var events := ParquetJob<R>(outputExists, []).events;
      |events| == (if outputExists then 1 else 0) && (outputExists ==> events[0].Unlink?)
  {
  }
}
