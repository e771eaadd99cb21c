/** tmdb_ingestion/jobs/fetch_movie_details.py: the ids of every
    `movies_*.parquet` file, fetched in batches and streamed into one
    movie_details.parquet through a single writer. */
module MovieDetailsJob {
  import opened Wrappers
  import opened Json
  import opened Fetch
  import opened Gather
  import opened Batching
  import opened BatchWriter
  import opened Jobs
  import opened Discovery

  /** `ingest_cfg.get("batch_size", 500)`. */
  const DefaultBatchSize: int := 500

  /** A file of the movies directory and the `id` column it holds. */
  datatype MoviesFile = MoviesFile(name: string, ids: seq<int>)

  /** The row `_fetch_with_metadata` builds (its `ingested_at` clock value is
      not modelled). */
  datatype DetailRow = DetailRow(movieId: int, payload: Option<Json>)

  /** Code-point order on strings, the order `sorted` puts the paths of one
      directory in. */
  predicate NameLe(a: string, b: string)
    decreases |a|
  {
    a == [] || (b != [] && (a[0] < b[0] || (a[0] == b[0] && NameLe(a[1..], b[1..]))))
  }

  lemma {:induction false} NameLeTotal(a: string, b: string)
    ensures NameLe(a, b) || NameLe(b, a)
    decreases |a|
  {
    if a != [] && b != [] && a[0] == b[0] {
      NameLeTotal(a[1..], b[1..]);
    }
  }

  predicate SortedByName(fs: seq<MoviesFile>) {
    forall i :: 0 <= i < |fs| - 1 ==> NameLe(fs[i].name, fs[i + 1].name)
  }

  function Insert(f: MoviesFile, fs: seq<MoviesFile>): (r: seq<MoviesFile>)
    requires SortedByName(fs)
    ensures multiset(r) == multiset(fs) + multiset{f}
    ensures SortedByName(r)
    ensures |r| > 0 && (r[0] == f || (fs != [] && r[0] == fs[0]))
  {
    if fs == [] || NameLe(f.name, fs[0].name) then [f] + fs
    else
      NameLeTotal(f.name, fs[0].name);
      var rest := Insert(f, fs[1..]);
      assert fs == [fs[0]] + fs[1..];
      [fs[0]] + rest
  }

  /** `sorted(...)` of the matching paths. */
  function SortByName(fs: seq<MoviesFile>): (r: seq<MoviesFile>)
    ensures multiset(r) == multiset(fs)
    ensures SortedByName(r)
  {
    if fs == [] then []
    else
      assert fs == [fs[0]] + fs[1..];
      Insert(fs[0], SortByName(fs[1..]))
  }

  /** The files of the listing the glob matches, in listing order. */
  function Matching(listing: seq<MoviesFile>): (r: seq<MoviesFile>)
    ensures forall f :: f in r <==> f in listing && MatchesGlob(f.name)
  {
    if listing == [] then []
    else (if MatchesGlob(listing[0].name) then [listing[0]] else []) + Matching(listing[1..])
  }

  /** `movies_files = sorted(movies_dir.glob("movies_*.parquet"))`. */
  function MoviesFiles(listing: seq<MoviesFile>): seq<MoviesFile> {
    SortByName(Matching(listing))
  }

  /** The loop extending `all_movie_ids` with each file's ids in turn. */
  function AllMovieIds(files: seq<MoviesFile>): seq<int> {
    if files == [] then [] else files[0].ids + AllMovieIds(files[1..])
  }

  function NoFilesMessage(moviesDir: string): string {
    "No movies_*.parquet files found in " + moviesDir + ". Run discover_movies.py first."
  }

  /** The glob finds nothing exactly when no file of the listing matches. */
  lemma MoviesFilesEmpty(listing: seq<MoviesFile>)
    ensures MoviesFiles(listing) == [] <==> forall f :: f in listing ==> !MatchesGlob(f.name)
  {
    var m := Matching(listing);
    assert |multiset(MoviesFiles(listing))| == |multiset(m)|;
    if m != [] {
      assert m[0] in m;
    }
  }

  /** The rows of a gathered batch: each id paired with its result. */
  function Tag(ids: seq<int>, results: seq<Option<Json>>): (r: seq<DetailRow>)
    requires |ids| == |results|
    ensures |r| == |ids|
    ensures forall i :: 0 <= i < |ids| ==> r[i] == DetailRow(ids[i], results[i])
  {
    if ids == [] then [] else [DetailRow(ids[0], results[0])] + Tag(ids[1..], results[1..])
  }

  lemma {:induction false} TagAppend(a: seq<int>, ra: seq<Option<Json>>, b: seq<int>, rb: seq<Option<Json>>)
    requires |a| == |ra| && |b| == |rb|
    ensures Tag(a + b, ra + rb) == Tag(a, ra) + Tag(b, rb)
  {
    var l, r := Tag(a + b, ra + rb), Tag(a, ra) + Tag(b, rb);
    assert |l| == |r|;
    forall i | 0 <= i < |l| ensures l[i] == r[i] {
      if i < |a| {
        assert (a + b)[i] == a[i] && (ra + rb)[i] == ra[i];
      } else {
        assert (a + b)[i] == b[i - |a|] && (ra + rb)[i] == rb[i - |a|];
      }
    }
  }

  /** One batch: gather the tasks (an exception ends the job), then one row
      per id. */
  function DetailsBatch(batch: seq<int>, fetch: int -> Fetched<Json>): (r: Option<seq<DetailRow>>)
    ensures r.None? <==> exists i :: 0 <= i < |batch| && fetch(batch[i]).Raised?
  {
    match StrictBatch(batch, fetch)
    case None => None
    case Some(results) => Some(Tag(batch, results))
  }

  /** `range(0, num_movies, batch_size)` slices: none for a negative step. */
  function Batches(ids: seq<int>, batchSize: int): seq<seq<int>>
    requires batchSize != 0
  {
    if batchSize < 0 then [] else Chunked(ids, batchSize)
  }

  /** `run_movie_details` through `_fetch_details_and_credits`. With no
      matching file the job raises before touching the output. Otherwise the
      old output is removed first; a zero batch size then makes the batch-count
      division raise. */
  function RunMovieDetails(moviesDir: string, listing: seq<MoviesFile>, outputExists: bool, batchSize: int,
                           fetch: int -> Fetched<Json>): (r: Result<ParquetRun<DetailRow>, JobError>)
    ensures r.Failure? <==> (forall f :: f in listing ==> !MatchesGlob(f.name))
    ensures r.Failure? ==> r.error == FileNotFound(NoFilesMessage(moviesDir))
    ensures r.Success? ==> Count(r.value.events, Unlinked) == (if outputExists then 1 else 0)
    ensures r.Success? && batchSize == 0 ==> r.value.aborted && Count(r.value.events, Opened) == 0
  {
    var files := MoviesFiles(listing);
    MoviesFilesEmpty(listing);
    if files == [] then Failure(FileNotFound(NoFilesMessage(moviesDir)))
    else
      if batchSize == 0 then
        var events: seq<ParquetEvent<DetailRow>> := if outputExists then [Unlink] else [];
        assert Count(events, Opened) == 0;
        Success(ParquetRun(events, true))
      else
        Success(ParquetJob(outputExists, MapBatches(Batches(AllMovieIds(files), batchSize), b => DetailsBatch(b, fetch))))
  }

  lemma {:induction false} StrictDetailsBatches(cs: seq<seq<int>>, fetch: int -> Fetched<Json>)
    requires NoneRaised(Flatten(cs), fetch)
    ensures var outs := MapBatches(cs, b => DetailsBatch(b, fetch));
      && !SomeBatchFails(outs)
      && |Completed(outs)| == |cs|
      && Flatten(Completed(outs)) == Tag(Flatten(cs), Results(Flatten(cs), fetch))
  {
    var outs := MapBatches(cs, b => DetailsBatch(b, fetch));
    if cs != [] {
      NoneRaisedSplit(cs[0], Flatten(cs[1..]), fetch);
      StrictDetailsBatches(cs[1..], fetch);
      StrictBatchOk(cs[0], fetch);
      assert outs[1..] == MapBatches(cs[1..], b => DetailsBatch(b, fetch));
      assert Completed(outs) == [Tag(cs[0], Results(cs[0], fetch))] + Completed(outs[1..]);
      ResultsAppend(cs[0], Flatten(cs[1..]), fetch);
      TagAppend(cs[0], Results(cs[0], fetch), Flatten(cs[1..]), Results(Flatten(cs[1..]), fetch));
    }
  }

  /** The job with fetch results as inputs: when no fetch raises, the output holds one row per
      movie id, in the order of the sorted files, each with that id's payload
      (None included), written in `ceil(n / batch_size)` tables, and the writer
      is closed exactly when there was at least one id. */
  lemma DetailsOneRowPerMovie(moviesDir: string, listing: seq<MoviesFile>, outputExists: bool, batchSize: int,
                              fetch: int -> Fetched<Json>)
    requires batchSize > 0
    requires exists f :: f in listing && MatchesGlob(f.name)
    requires NoneRaised(AllMovieIds(MoviesFiles(listing)), fetch)
    ensures var ids := AllMovieIds(MoviesFiles(listing));
      var r := RunMovieDetails(moviesDir, listing, outputExists, batchSize, fetch);
      && r.Success?
      && !r.value.aborted
      && |Tables(r.value.events)| == NumBatches(|ids|, batchSize)
      && |Flatten(Tables(r.value.events))| == |ids|
      && (forall i :: 0 <= i < |ids| ==> Flatten(Tables(r.value.events))[i] == DetailRow(ids[i], Results(ids, fetch)[i]))
      && Count(r.value.events, Closed) == (if ids != [] then 1 else 0)
  {
    var ids := AllMovieIds(MoviesFiles(listing));
    var cs := Chunked(ids, batchSize);
    ChunkedFlattens(ids, batchSize);
    ChunkedCount(ids, batchSize);
    StrictDetailsBatches(cs, fetch);
    if ids != [] {
      assert NumBatches(|ids|, batchSize) > 0 by {
        DivStep(|ids| - 1, batchSize);
      }
    }
  }

  /** A fetch of the first movie that raises ends the job in the first
      batch: the old output has already been removed, no writer is opened and
      nothing is written. */
  lemma FirstFetchRaisesWritesNothing(moviesDir: string, listing: seq<MoviesFile>, outputExists: bool, batchSize: int,
                                      fetch: int -> Fetched<Json>)
    requires batchSize > 0
    requires AllMovieIds(MoviesFiles(listing)) != []
    requires fetch(AllMovieIds(MoviesFiles(listing))[0]).Raised?
    ensures var r := RunMovieDetails(moviesDir, listing, outputExists, batchSize, fetch);
      && r.Success?
      && r.value.aborted
      && Tables(r.value.events) == []
      && Count(r.value.events, Opened) == 0
      && Count(r.value.events, Unlinked) == (if outputExists then 1 else 0)
  {
    var ids := AllMovieIds(MoviesFiles(listing));
    MoviesFilesEmpty(listing);
    FirstBatchRaises(ids, batchSize, fetch);
  }

  /** When the first id's fetch raises, the first batch already fails. */
  lemma FirstBatchRaises(ids: seq<int>, batchSize: int, fetch: int -> Fetched<Json>)
    requires batchSize > 0 && ids != []
    requires fetch(ids[0]).Raised?
    ensures var outs := MapBatches(Batches(ids, batchSize), b => DetailsBatch(b, fetch));
      SomeBatchFails(outs) && Completed(outs) == []
  {
    var cs := Chunked(ids, batchSize);
    ChunkedSizes(ids, batchSize);
    ChunkedCount(ids, batchSize);
    ChunkedFlattens(ids, batchSize);
    assert |cs| > 0 by {
      DivStep(|ids| - 1, batchSize);
    }
    assert Flatten(cs) == cs[0] + Flatten(cs[1..]);
    assert cs[0][0] == ids[0];
    assert DetailsBatch(cs[0], fetch).None?;
    var outs := MapBatches(cs, b => DetailsBatch(b, fetch));
    assert outs[0].None?;
  }
}
