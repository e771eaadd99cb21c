/** tmdb_ingestion/ingest_tmdb.py: discovery, then details; a failing stage
    is re-raised and ends the pipeline. */
module Orchestrator {
  import opened Wrappers
  import opened Json
  import opened Fetch
  import opened BatchWriter
  import opened Jobs
  import opened Discovery
  import opened DiscoverMovies
  import opened MovieDetailsJob

  datatype Stage = DiscoverStage | DetailsStage

  /** What `run_full_ingestion` does: the stages it started, the error it
      re-raised, and whether it printed the completion summary. */
  datatype Pipeline<E> = Pipeline(started: seq<Stage>, raised: Option<E>, summary: bool)

  /** The stage sequencing, over the error each stage raises (None when it
      completes). The details outcome is only looked at when discovery
      completed. */
  function RunFullIngestion<E>(discovery: Option<E>, details: Option<E>): (p: Pipeline<E>)
    ensures p.started != [] && p.started[0] == DiscoverStage
    ensures DetailsStage in p.started <==> discovery.None?
    ensures discovery.Some? ==> p.raised == discovery
    ensures discovery.None? ==> p.raised == details
    ensures p.summary <==> p.raised.None?
  {
    match discovery
    case Some(e) => Pipeline([DiscoverStage], Some(e), false)
    case None =>
      match details
      case Some(e) => Pipeline([DiscoverStage, DetailsStage], Some(e), false)
      case None => Pipeline([DiscoverStage, DetailsStage], None, true)
  }

  /** Why the pipeline failed. */
  datatype IngestionError = DiscoveryFailed | DetailsFailed(error: JobError) | DetailsBatchFailed

  /** The ids of the movies one parquet file holds. */
  function IdsOf(movies: seq<Json>, idOf: Json -> int): (r: seq<int>)
    ensures |r| == |movies|
  {
    seq(|movies|, j requires 0 <= j < |movies| => idOf(movies[j]))
  }

  /** The movies directory after discovery: the files discovery did not
      rewrite, then the ones it wrote. */
  function ListingAfter(existing: seq<MoviesFile>, written: seq<(string, seq<Json>)>, idOf: Json -> int): (r: seq<MoviesFile>)
    ensures forall i :: 0 <= i < |written| ==> MoviesFile(written[i].0, IdsOf(written[i].1, idOf)) in r
    ensures forall f :: f in r ==> f in existing || exists i :: 0 <= i < |written| && f == MoviesFile(written[i].0, IdsOf(written[i].1, idOf))
  {
    var made := seq(|written|, i requires 0 <= i < |written| => MoviesFile(written[i].0, IdsOf(written[i].1, idOf)));
    var kept := Keep(existing, set i | 0 <= i < |written| :: written[i].0);
    forall i | 0 <= i < |written|
      ensures MoviesFile(written[i].0, IdsOf(written[i].1, idOf)) in kept + made
    {
      assert (kept + made)[|kept| + i] == made[i];
    }
    assert forall f :: f in kept + made ==> f in kept || f in made;
    kept + made
  }

  /** The existing files whose name is not in `names`, in order. */
  function Keep(files: seq<MoviesFile>, names: set<string>): (r: seq<MoviesFile>)
    ensures forall f :: f in r ==> f in files && f.name !in names
  {
    if files == [] then []
    else (if files[0].name in names then [] else [files[0]]) + Keep(files[1..], names)
  }

  /** The whole pipeline: discovery with the job's settings, then the details
      job over the directory discovery leaves behind. */
  function FullIngestion(s: Settings, apiKey: string, respond: Params -> Fetched<Page>, idOf: Json -> int,
                         moviesDir: string, existing: seq<MoviesFile>, outputExists: bool, batchSize: int,
                         fetch: int -> Fetched<Json>): Pipeline<IngestionError> {
    var runs := DiscoverRange(s, apiKey, respond);
    var discovery := if exists i :: 0 <= i < |runs| && runs[i].1.aborted then Some(DiscoveryFailed) else None;
    var details :=
      match RunMovieDetails(moviesDir, ListingAfter(existing, WrittenFiles(runs), idOf), outputExists, batchSize, fetch)
      case Failure(e) => Some(DetailsFailed(e))
      case Success(run) => if run.aborted then Some(DetailsBatchFailed) else None;
    RunFullIngestion(discovery, details)
  }

  /** Once discovery has written a file, the details stage finds its input:
      the pipeline cannot fail with the missing-input error, and the summary
      is printed exactly when no stage raised. */
  lemma DiscoveredFilesFeedDetails(s: Settings, apiKey: string, respond: Params -> Fetched<Page>, idOf: Json -> int,
                                   moviesDir: string, existing: seq<MoviesFile>, outputExists: bool, batchSize: int,
                                   fetch: int -> Fetched<Json>)
    requires WrittenFiles(DiscoverRange(s, apiKey, respond)) != []
    ensures var p := FullIngestion(s, apiKey, respond, idOf, moviesDir, existing, outputExists, batchSize, fetch);
      p.raised != Some(DetailsFailed(FileNotFound(NoFilesMessage(moviesDir))))
  {
    var runs := DiscoverRange(s, apiKey, respond);
    var written := WrittenFiles(runs);
    DiscoverFiles(s, apiKey, respond);
    var listing := ListingAfter(existing, written, idOf);
    var f := MoviesFile(written[0].0, IdsOf(written[0].1, idOf));
    assert f in listing && MatchesGlob(f.name);
  }
}
