/** ingestion/get_movie_details.py: details of every movie id of movies.csv,
    written in batches to a fresh movie_details.csv. */
module IngestionMovieDetails {
  import opened Wrappers
  import opened Json
  import opened Fetch
  import opened Batching
  import opened BatchWriter
  import opened Resumption
  import opened Jobs

  const MoviesMissing: string := "You must run get_movies.py before running this script"

  /** The details endpoint through `fetch_api_data` with its default `serialize=True`. */
  function DetailsFetch(net: Network, dumps: Json -> string): int -> Fetched<Json> {
    id => IngestionFetch(net(id), dumps)
  }

  /** `collect_movie_details()`: only a missing movies.csv is turned into the
      explanatory FileNotFoundError; any other read error propagates. */
  function CollectMovieDetails(movies: CsvRead<seq<int>>, net: Network, dumps: Json -> string): (o: JobOutcome<Option<Json>>)
    ensures movies.Missing? ==> o == Failed(FileNotFound(MoviesMissing))
    ensures movies.Unreadable? ==> o == Failed(ReadError)
    ensures movies.Loaded? ==> o.Ran?
  {
    match movies
    case Missing => Failed(FileNotFound(MoviesMissing))
    case Unreadable => Failed(ReadError)
    case Loaded(ids) =>
      var fetch := DetailsFetch(net, dumps);
      Ran(WriteBatches(WriteEvery, BatchOutcomes(ids, BatchSize, b => StrictBatch(b, fetch)), Overwrite, true))
  }

  /** The first write truncates the file and writes the header; every later
      write appends without one, so the header is written exactly once when
      there is at least one batch. Results are not filtered: a run in which no
      fetch raises writes one entry per id, in order, in `ceil(n / 500)`
      batches. */
  lemma MovieDetailsWrites(ids: seq<int>, net: Network, dumps: Json -> string)
    ensures var o := CollectMovieDetails(Loaded(ids), net, dumps);
      && (|o.run.log| > 0 ==> o.run.log[0].mode == Overwrite && o.run.log[0].header)
      && (forall i :: 0 < i < |o.run.log| ==> o.run.log[i].mode == Append && !o.run.log[i].header)
      && HeaderCount(o.run.log) == (if |o.run.log| > 0 then 1 else 0)
      && (NoneRaised(ids, DetailsFetch(net, dumps)) ==>
            && !o.run.aborted
            && |o.run.log| == NumBatches(|ids|, BatchSize)
            && Flatten(Rows(o.run.log)) == Results(ids, DetailsFetch(net, dumps)))
  {
    var fetch := DetailsFetch(net, dumps);
    var outs := BatchOutcomes(ids, BatchSize, b => StrictBatch(b, fetch));
    HeaderAtMostOnce(WriteEvery, outs, Overwrite, true);
    if NoneRaised(ids, fetch) {
      StrictJobPersistsEveryResult(ids, fetch, Overwrite, true);
      var r := WriteBatches(WriteEvery, outs, Overwrite, true);
      assert forall i :: 0 <= i < |outs| ==> outs[i].Some?;
      WriteEveryBatch(outs, Overwrite, true);
      ChunkedCount(ids, BatchSize);
    }
  }
}

/** scripts/get_movie_details.py: the same job made resumable through
    `resolve_write_mode` on movie_details.csv keyed by "id". */
module ScriptMovieDetails {
  import opened Wrappers
  import opened Json
  import opened Fetch
  import opened Batching
  import opened BatchWriter
  import opened Resumption
  import opened Jobs

  const MoviesMissing: string := "You must run get_movies.py before running this script"

  function DetailsFetch(net: Network, dumps: Json -> string): int -> Fetched<Json> {
    id => IngestionFetch(net(id), dumps)
  }

  /** The module body and `collect_movie_details()`: any failure reading
      movies.csv becomes a FileNotFoundError; the work set and the header come
      from `resolve_write_mode`, and the first mode is `'w'` exactly when the
      header is requested. */
  function CollectMovieDetails(movies: CsvRead<seq<int>>, sinkExists: bool, answer: string, idsSeen: seq<int>,
                               net: Network, dumps: Json -> string): (o: JobOutcome<Option<Json>>)
    ensures !movies.Loaded? ==> o == Failed(FileNotFound(MoviesMissing))
    ensures movies.Loaded? ==> o.Ran?
  {
    match movies
    case Loaded(ids) =>
      var plan := ResolveWriteMode(sinkExists, answer, idsSeen, ids);
      var mode := if plan.header then Overwrite else Append;
      var fetch := DetailsFetch(net, dumps);
      Ran(WriteBatches(WriteEvery, BatchOutcomes(plan.idsToFetch, BatchSize, b => StrictBatch(b, fetch)), mode, plan.header))
    case _ => Failed(FileNotFound(MoviesMissing))
  }

  /** Writes follow the plan: the first one uses its mode and header, later ones
      append without a header. In append mode no stored id is fetched again,
      and a run in which no fetch raises persists one result per new id. */
  lemma ScriptMovieDetailsWrites(ids: seq<int>, sinkExists: bool, answer: string, idsSeen: seq<int>,
                                 net: Network, dumps: Json -> string)
    ensures var plan := ResolveWriteMode(sinkExists, answer, idsSeen, ids);
      var o := CollectMovieDetails(Loaded(ids), sinkExists, answer, idsSeen, net, dumps);
      && (|o.run.log| > 0 ==> (o.run.log[0].mode == Overwrite <==> plan.header) && o.run.log[0].header == plan.header)
      && (forall i :: 0 < i < |o.run.log| ==> o.run.log[i].mode == Append && !o.run.log[i].header)
      && HeaderCount(o.run.log) <= 1
      && (plan.mode == Append ==> forall i :: 0 <= i < |plan.idsToFetch| ==> plan.idsToFetch[i] !in idsSeen)
      && (NoneRaised(plan.idsToFetch, DetailsFetch(net, dumps)) ==>
            !o.run.aborted && Flatten(Rows(o.run.log)) == Results(plan.idsToFetch, DetailsFetch(net, dumps)))
  {
    var plan := ResolveWriteMode(sinkExists, answer, idsSeen, ids);
    var mode := if plan.header then Overwrite else Append;
    var fetch := DetailsFetch(net, dumps);
    var outs := BatchOutcomes(plan.idsToFetch, BatchSize, b => StrictBatch(b, fetch));
    HeaderAtMostOnce(WriteEvery, outs, mode, plan.header);
    if plan.mode == Append {
      AppendWorkSet(answer, idsSeen, ids);
    }
    if NoneRaised(plan.idsToFetch, fetch) {
      StrictJobPersistsEveryResult(plan.idsToFetch, fetch, mode, plan.header);
    }
  }
}
