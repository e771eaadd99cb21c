/** scripts/get_cast.py: the cast list of every movie, one row per cast member
    tagged with the movie id, appended to cast.csv batch after batch. */
module Cast {
  import opened Wrappers
  import opened Json
  import opened Fetch
  import opened Gather
  import opened Batching
  import opened BatchWriter
  import opened Resumption
  import opened Jobs

  const MoviesMissing: string := "You must run get_movies.py before running this script"

  /** `fetch_with_id`: the credits endpoint with `serialize=False`. */
  function CreditsFetch(net: Network, dumps: Json -> string): int -> Fetched<Json> {
    id => FetchApiData(net(id), false, dumps).outcome
  }

  /** Iterating `data["cast"]` and assigning `cast_member["movie_id"]`: only a
      list of objects gives rows; an empty string or object gives none; any
      other value makes the loop raise (None). */
  function CastMembers(cast: Json): (r: Option<seq<Object>>)
    ensures cast.JArr? && (forall i :: 0 <= i < |cast.items| ==> cast.items[i].JObj?) ==>
      r.Some? && |r.value| == |cast.items| && forall i :: 0 <= i < |cast.items| ==> r.value[i] == cast.items[i].fields
    ensures cast.JArr? && (exists i :: 0 <= i < |cast.items| && !cast.items[i].JObj?) ==> r.None?
    ensures !cast.JArr? ==> (r.Some? <==> !Truthy(cast) && (cast.JStr? || cast.JObj?))
    ensures !cast.JArr? && r.Some? ==> r.value == []
  {
    match cast
    case JArr(xs) =>
      if forall i :: 0 <= i < |xs| ==> xs[i].JObj? then Some(seq(|xs|, i requires 0 <= i < |xs| => xs[i].fields))
      else None
    case JStr(s) => if s == "" then Some([]) else None
    case JObj(m) => if m == map[] then Some([]) else None
    case _ => None
  }

  /** One cast member as written: `movie_id` set to the movie's id, then
      `serialize_json`. */
  function CastRow(member: Object, movieId: int, dumps: Json -> string): (row: Object)
    ensures row.Keys == member.Keys + {"movie_id"}
    ensures row["movie_id"] == JNum(movieId)
    ensures forall k :: k in member && k != "movie_id" ==> row[k] == SerializeValue(member[k], dumps)
  {
    SerializeJson(member["movie_id" := JNum(movieId)], dumps)
  }

  function CastRows(members: seq<Object>, movieId: int, dumps: Json -> string): (rows: seq<Object>)
    ensures |rows| == |members|
    ensures forall i :: 0 <= i < |members| ==> rows[i] == CastRow(members[i], movieId, dumps)
  {
    seq(|members|, i requires 0 <= i < |members| => CastRow(members[i], movieId, dumps))
  }

  /** The rows one movie contributes: none when its data is falsy; otherwise one
      row per cast member, in cast order, each tagged with this movie's id; None
      when `data["cast"]` or the loop over it raises. */
  function MovieRows(movieId: int, data: Option<Json>, dumps: Json -> string): (r: Option<seq<Object>>)
    ensures data.None? || !Truthy(data.value) ==> r == Some([])
    ensures data.Some? && Truthy(data.value) && (!data.value.JObj? || "cast" !in data.value.fields) ==> r.None?
    ensures r.Some? ==> forall j :: 0 <= j < |r.value| ==> "movie_id" in r.value[j] && r.value[j]["movie_id"] == JNum(movieId)
    ensures data.Some? && data.value.JObj? && "cast" in data.value.fields && data.value.fields["cast"].JArr?
            && (forall k :: 0 <= k < |data.value.fields["cast"].items| ==> data.value.fields["cast"].items[k].JObj?) ==>
              && r.Some?
              && |r.value| == |data.value.fields["cast"].items|
              && forall k :: 0 <= k < |r.value| ==> r.value[k] == CastRow(data.value.fields["cast"].items[k].fields, movieId, dumps)
  {
    if data.None? || !Truthy(data.value) then Some([])
    else if !data.value.JObj? || "cast" !in data.value.fields then None
    else match CastMembers(data.value.fields["cast"])
      case None => None
      case Some(members) => Some(CastRows(members, movieId, dumps))
  }

  /** The rows of each movie of a batch, in batch order; a movie whose
      extraction raises stands for no rows here. */
  function PerMovieRows(ids: seq<int>, results: seq<Option<Json>>, dumps: Json -> string): (r: seq<seq<Object>>)
    requires |ids| == |results|
    ensures |r| == |ids|
  {
    seq(|ids|, i requires 0 <= i < |ids| => MovieRows(ids[i], results[i], dumps).GetOr([]))
  }

  /** No movie of the batch makes its extraction raise. */
  predicate AllExtract(ids: seq<int>, results: seq<Option<Json>>, dumps: Json -> string)
    requires |ids| == |results|
  {
    forall i :: 0 <= i < |ids| ==> MovieRows(ids[i], results[i], dumps).Some?
  }

  lemma PerMovieAppend(a: seq<int>, b: seq<int>, ra: seq<Option<Json>>, rb: seq<Option<Json>>, dumps: Json -> string)
    requires |a| == |ra| && |b| == |rb|
    ensures PerMovieRows(a + b, ra + rb, dumps) == PerMovieRows(a, ra, dumps) + PerMovieRows(b, rb, dumps)
    ensures AllExtract(a + b, ra + rb, dumps) <==> AllExtract(a, ra, dumps) && AllExtract(b, rb, dumps)
  {
    assert forall i :: 0 <= i < |a| ==> (a + b)[i] == a[i] && (ra + rb)[i] == ra[i];
    assert forall i :: |a| <= i < |a| + |b| ==> (a + b)[i] == b[i - |a|] && (ra + rb)[i] == rb[i - |a|];
    if AllExtract(a + b, ra + rb, dumps) {
      forall i | 0 <= i < |b|
        ensures MovieRows(b[i], rb[i], dumps).Some?
      {
        assert (a + b)[|a| + i] == b[i] && (ra + rb)[|a| + i] == rb[i];
      }
    }
  }

  /** The extraction loop over a gathered batch: rows in batch order, then in
      cast order; None when an extraction raises. */
  function ExtractCast(ids: seq<int>, results: seq<Option<Json>>, dumps: Json -> string): (r: Option<seq<Object>>)
    requires |ids| == |results|
  {
    if ids == [] then Some([])
    else match MovieRows(ids[0], results[0], dumps)
      case None => None
      case Some(rows) =>
        match ExtractCast(ids[1..], results[1..], dumps)
        case None => None
        case Some(rest) => Some(rows + rest)
  }

  /** Every extracted row carries the id of the movie it came from, and falsy
      results contribute nothing. */
  lemma {:induction false} ExtractCastTagsRows(ids: seq<int>, results: seq<Option<Json>>, dumps: Json -> string)
    requires |ids| == |results|
    ensures var r := ExtractCast(ids, results, dumps);
      r.Some? ==> forall j :: 0 <= j < |r.value| ==>
        "movie_id" in r.value[j] && exists i :: 0 <= i < |ids| && r.value[j]["movie_id"] == JNum(ids[i]) && results[i].Some? && Truthy(results[i].value)
  {
    if ids != [] {
      ExtractCastTagsRows(ids[1..], results[1..], dumps);
      var r := ExtractCast(ids, results, dumps);
      if r.Some? {
        var rows := MovieRows(ids[0], results[0], dumps).value;
        var rest := ExtractCast(ids[1..], results[1..], dumps).value;
        assert r.value == rows + rest;
        forall j | 0 <= j < |r.value|
          ensures "movie_id" in r.value[j] && exists i :: 0 <= i < |ids| && r.value[j]["movie_id"] == JNum(ids[i]) && results[i].Some? && Truthy(results[i].value)
        {
          if j < |rows| {
            assert r.value[j]["movie_id"] == JNum(ids[0]);
          } else {
            var i :| 0 <= i < |ids[1..]| && rest[j - |rows|]["movie_id"] == JNum(ids[1..][i]) && results[1..][i].Some? && Truthy(results[1..][i].value);
            assert ids[1..][i] == ids[i + 1] && results[1..][i] == results[i + 1];
          }
        }
      }
    }
  }

  /** The extraction loop yields the rows of the batch's movies concatenated in
      batch order, each movie's rows in cast order; it raises exactly when one
      movie's extraction raises. */
  lemma {:induction false} ExtractCastRows(ids: seq<int>, results: seq<Option<Json>>, dumps: Json -> string)
    requires |ids| == |results|
    ensures var r := ExtractCast(ids, results, dumps);
      && (r.Some? <==> AllExtract(ids, results, dumps))
      && (r.Some? ==> r.value == Flatten(PerMovieRows(ids, results, dumps)))
  {
    if ids != [] {
      ExtractCastRows(ids[1..], results[1..], dumps);
      PerMovieAppend(ids[..1], ids[1..], results[..1], results[1..], dumps);
      assert ids[..1] + ids[1..] == ids && results[..1] + results[1..] == results;
      var first := PerMovieRows(ids[..1], results[..1], dumps);
      assert first == [MovieRows(ids[0], results[0], dumps).GetOr([])];
      assert AllExtract(ids[..1], results[..1], dumps) <==> MovieRows(ids[0], results[0], dumps).Some?;
      FlattenAppend(first, PerMovieRows(ids[1..], results[1..], dumps));
      assert Flatten(first) == first[0] + Flatten(first[1..]);
      assert first[1..] == [];
    }
  }

  /** One batch: gather (an exception ends the job), then extract. */
  function CastBatch(batch: seq<int>, fetch: int -> Fetched<Json>, dumps: Json -> string): Option<seq<Object>> {
    match StrictBatch(batch, fetch)
    case None => None
    case Some(results) => ExtractCast(batch, results, dumps)
  }

  /** When no fetch of the batch raises, its rows are the rows of its movies'
      fetched results, in batch order. */
  lemma CastBatchRows(batch: seq<int>, fetch: int -> Fetched<Json>, dumps: Json -> string)
    requires NoneRaised(batch, fetch)
    ensures var o := CastBatch(batch, fetch, dumps);
      var results := Results(batch, fetch);
      && (o.Some? <==> AllExtract(batch, results, dumps))
      && (o.Some? ==> o.value == Flatten(PerMovieRows(batch, results, dumps)))
  {
    StrictBatchOk(batch, fetch);
    ExtractCastRows(batch, Results(batch, fetch), dumps);
  }

  lemma {:induction false} CastBatchesAll(cs: seq<seq<int>>, fetch: int -> Fetched<Json>, dumps: Json -> string)
    requires NoneRaised(Flatten(cs), fetch)
    ensures var outs := MapBatches(cs, b => CastBatch(b, fetch, dumps));
      var ids := Flatten(cs);
      && (SomeBatchFails(outs) <==> !AllExtract(ids, Results(ids, fetch), dumps))
      && (!SomeBatchFails(outs) ==> Flatten(Completed(outs)) == Flatten(PerMovieRows(ids, Results(ids, fetch), dumps)))
  {
    var outs := MapBatches(cs, b => CastBatch(b, fetch, dumps));
    if cs != [] {
      var a := cs[0];
      var b := Flatten(cs[1..]);
      assert Flatten(cs) == a + b;
      NoneRaisedSplit(a, b, fetch);
      CastBatchesAll(cs[1..], fetch, dumps);
      CastBatchRows(a, fetch, dumps);
      ResultsAppend(a, b, fetch);
      PerMovieAppend(a, b, Results(a, fetch), Results(b, fetch), dumps);
      var rest := MapBatches(cs[1..], b => CastBatch(b, fetch, dumps));
      assert outs[1..] == rest;
      assert outs[0] == CastBatch(a, fetch, dumps);
      assert SomeBatchFails(outs) <==> outs[0].None? || SomeBatchFails(rest) by {
        assert forall i :: 1 <= i < |outs| ==> outs[i] == rest[i - 1];
      }
      if !SomeBatchFails(outs) {
        assert Completed(outs) == [outs[0].value] + Completed(rest);
        FlattenAppend(PerMovieRows(a, Results(a, fetch), dumps), PerMovieRows(b, Results(b, fetch), dumps));
      }
    }
  }

  /** A run in which no fetch raises writes, over all its batches, the rows of
      every movie of the work set in work-set order, each movie's cast in cast
      order; it aborts exactly when a movie's cast cannot be iterated. */
  lemma CastJobRows(ids: seq<int>, fetch: int -> Fetched<Json>, dumps: Json -> string, mode: Mode, header: bool)
    requires NoneRaised(ids, fetch)
    ensures var r := WriteBatches(WriteEvery, BatchOutcomes(ids, BatchSize, b => CastBatch(b, fetch, dumps)), mode, header);
      && (r.aborted <==> !AllExtract(ids, Results(ids, fetch), dumps))
      && (!r.aborted ==> Flatten(Rows(r.log)) == Flatten(PerMovieRows(ids, Results(ids, fetch), dumps)))
  {
    ChunkedFlattens(ids, BatchSize);
    CastBatchesAll(Chunked(ids, BatchSize), fetch, dumps);
  }

  /** The module body and `collect_cast()`: any failure reading movies.csv
      becomes a FileNotFoundError; the plan comes from `resolve_write_mode` on
      cast.csv keyed by "movie_id"; every batch is written, even without rows. */
  function CollectCast(movies: CsvRead<seq<int>>, sinkExists: bool, answer: string, idsSeen: seq<int>,
                       net: Network, dumps: Json -> string): (o: JobOutcome<Object>)
    ensures !movies.Loaded? ==> o == Failed(FileNotFound(MoviesMissing))
    ensures movies.Loaded? ==> o.Ran?
  {
    match movies
    case Loaded(ids) =>
      var plan := ResolveWriteMode(sinkExists, answer, idsSeen, ids);
      var header := plan.mode == Overwrite;
      var mode := if header then Overwrite else Append;
      var fetch := CreditsFetch(net, dumps);
      Ran(WriteBatches(WriteEvery, BatchOutcomes(plan.idsToFetch, BatchSize, b => CastBatch(b, fetch, dumps)), mode, header))
    case _ => Failed(FileNotFound(MoviesMissing))
  }

  /** Every row a batch yields is tagged with the id of one of the batch's
      movies. */
  lemma CastBatchTagsRows(batch: seq<int>, fetch: int -> Fetched<Json>, dumps: Json -> string)
    ensures var o := CastBatch(batch, fetch, dumps);
      o.Some? ==> forall j :: 0 <= j < |o.value| ==>
        "movie_id" in o.value[j] && exists k :: 0 <= k < |batch| && o.value[j]["movie_id"] == JNum(batch[k])
  {
    var g := StrictBatch(batch, fetch);
    if g.Some? && |g.value| == |batch| {
      ExtractCastTagsRows(batch, g.value, dumps);
    }
  }

  /** Every written row is tagged with the id of a movie of the work set. */
  lemma WrittenRowsTagged(ids: seq<int>, fetch: int -> Fetched<Json>, dumps: Json -> string, mode: Mode, header: bool)
    ensures var r := WriteBatches(WriteEvery, BatchOutcomes(ids, BatchSize, b => CastBatch(b, fetch, dumps)), mode, header);
      forall i, j :: 0 <= i < |r.log| && 0 <= j < |r.log[i].rows| ==>
        "movie_id" in r.log[i].rows[j] && exists m :: m in ids && r.log[i].rows[j]["movie_id"] == JNum(m)
  {
    var cs := Chunked(ids, BatchSize);
    var outs := BatchOutcomes(ids, BatchSize, b => CastBatch(b, fetch, dumps));
    var r := WriteBatches(WriteEvery, outs, mode, header);
    RowsLength(r.log);
    CompletedIsPrefix(outs);
    ChunkedFlattens(ids, BatchSize);
    forall i, j | 0 <= i < |r.log| && 0 <= j < |r.log[i].rows|
      ensures "movie_id" in r.log[i].rows[j] && exists m :: m in ids && r.log[i].rows[j]["movie_id"] == JNum(m)
    {
      assert r.log[i].rows == Rows(r.log)[i] == Completed(outs)[i] == outs[i].value;
      assert outs[i] == CastBatch(cs[i], fetch, dumps);
      CastBatchTagsRows(cs[i], fetch, dumps);
      var k :| 0 <= k < |cs[i]| && r.log[i].rows[j]["movie_id"] == JNum(cs[i][k]);
      FlattenContains(cs, i, k);
    }
  }

  /** Every row written carries a `movie_id` that is one of `ids`. */
  predicate RowsTaggedBy(log: seq<WriteEvent<Object>>, ids: seq<int>) {
    forall i, j :: 0 <= i < |log| && 0 <= j < |log[i].rows| ==>
      "movie_id" in log[i].rows[j] && exists m :: m in ids && log[i].rows[j]["movie_id"] == JNum(m)
  }

  /** The writes of a run: the first one truncates exactly when it writes the
      header, which `resolve_write_mode` requested; every later write appends
      without a header; every row is tagged with the id of a movie of the work
      set. */
  lemma CastWrites(ids: seq<int>, sinkExists: bool, answer: string, idsSeen: seq<int>, net: Network, dumps: Json -> string)
    ensures var plan := ResolveWriteMode(sinkExists, answer, idsSeen, ids);
      var o := CollectCast(Loaded(ids), sinkExists, answer, idsSeen, net, dumps);
      && (|o.run.log| > 0 ==> o.run.log[0].header == plan.header && (o.run.log[0].mode == Overwrite <==> plan.header))
      && (forall i :: 0 < i < |o.run.log| ==> o.run.log[i].mode == Append && !o.run.log[i].header)
      && HeaderCount(o.run.log) <= 1
      && RowsTaggedBy(o.run.log, plan.idsToFetch)
      && CastRowsWritten(plan, o, net, dumps)
  {
    CastWritesModes(ids, sinkExists, answer, idsSeen, net, dumps);
    CastWritesTagged(ids, sinkExists, answer, idsSeen, net, dumps);
    CastRunRows(ids, sinkExists, answer, idsSeen, net, dumps);
  }

  lemma CastWritesModes(ids: seq<int>, sinkExists: bool, answer: string, idsSeen: seq<int>, net: Network, dumps: Json -> string)
    ensures var plan := ResolveWriteMode(sinkExists, answer, idsSeen, ids);
      var o := CollectCast(Loaded(ids), sinkExists, answer, idsSeen, net, dumps);
      && (|o.run.log| > 0 ==> o.run.log[0].header == plan.header && (o.run.log[0].mode == Overwrite <==> plan.header))
      && (forall i :: 0 < i < |o.run.log| ==> o.run.log[i].mode == Append && !o.run.log[i].header)
      && HeaderCount(o.run.log) <= 1
  {
    var plan := ResolveWriteMode(sinkExists, answer, idsSeen, ids);
    var fetch := CreditsFetch(net, dumps);
    var outs := BatchOutcomes(plan.idsToFetch, BatchSize, b => CastBatch(b, fetch, dumps));
    CastRun(ids, sinkExists, answer, idsSeen, net, dumps);
    HeaderAtMostOnce(WriteEvery, outs, if plan.header then Overwrite else Append, plan.header);
  }

  lemma CastWritesTagged(ids: seq<int>, sinkExists: bool, answer: string, idsSeen: seq<int>, net: Network, dumps: Json -> string)
    ensures var plan := ResolveWriteMode(sinkExists, answer, idsSeen, ids);
      var o := CollectCast(Loaded(ids), sinkExists, answer, idsSeen, net, dumps);
      RowsTaggedBy(o.run.log, plan.idsToFetch)
  {
    var plan := ResolveWriteMode(sinkExists, answer, idsSeen, ids);
    CastRun(ids, sinkExists, answer, idsSeen, net, dumps);
    WrittenRowsTagged(plan.idsToFetch, CreditsFetch(net, dumps), dumps, if plan.header then Overwrite else Append, plan.header);
  }

  /** `collect_cast` on a readable movies.csv runs the writer loop over the
      work set of `resolve_write_mode`, starting in the mode of its header. */
  lemma CastRun(ids: seq<int>, sinkExists: bool, answer: string, idsSeen: seq<int>, net: Network, dumps: Json -> string)
    ensures var plan := ResolveWriteMode(sinkExists, answer, idsSeen, ids);
      var fetch := CreditsFetch(net, dumps);
      CollectCast(Loaded(ids), sinkExists, answer, idsSeen, net, dumps)
        == Ran(WriteBatches(WriteEvery, BatchOutcomes(plan.idsToFetch, BatchSize, b => CastBatch(b, fetch, dumps)),
                            if plan.header then Overwrite else Append, plan.header))
  {
  }

  lemma CastRunRows(ids: seq<int>, sinkExists: bool, answer: string, idsSeen: seq<int>, net: Network, dumps: Json -> string)
    ensures var plan := ResolveWriteMode(sinkExists, answer, idsSeen, ids);
      var o := CollectCast(Loaded(ids), sinkExists, answer, idsSeen, net, dumps);
      CastRowsWritten(plan, o, net, dumps)
  {
    var plan := ResolveWriteMode(sinkExists, answer, idsSeen, ids);
    var fetch := CreditsFetch(net, dumps);
    CastRun(ids, sinkExists, answer, idsSeen, net, dumps);
    if NoneRaised(plan.idsToFetch, fetch) {
      CastJobRows(plan.idsToFetch, fetch, dumps, if plan.header then Overwrite else Append, plan.header);
    }
  }

  /** When no fetch of the work set raises, the run aborts exactly when a
      movie's cast cannot be iterated, and otherwise writes the rows of every
      movie of the work set, in work-set then cast order. */
  predicate CastRowsWritten(plan: WritePlan, o: JobOutcome<Object>, net: Network, dumps: Json -> string)
    requires o.Ran?
  {
    NoneRaised(plan.idsToFetch, CreditsFetch(net, dumps)) ==>
      var results := Results(plan.idsToFetch, CreditsFetch(net, dumps));
      && (o.run.aborted <==> !AllExtract(plan.idsToFetch, results, dumps))
      && (!o.run.aborted ==> Flatten(Rows(o.run.log)) == Flatten(PerMovieRows(plan.idsToFetch, results, dumps)))
  }

  lemma {:induction false} CompletedIsPrefix<R>(outs: seq<Option<seq<R>>>)
    ensures |Completed(outs)| <= |outs|
    ensures forall i :: 0 <= i < |Completed(outs)| ==> outs[i].Some? && Completed(outs)[i] == outs[i].value
  {
    if outs != [] && outs[0].Some? {
      CompletedIsPrefix(outs[1..]);
    }
  }

  lemma {:induction false} FlattenContains<T>(cs: seq<seq<T>>, i: nat, k: nat)
    requires i < |cs| && k < |cs[i]|
    ensures cs[i][k] in Flatten(cs)
  {
    if i > 0 {
      FlattenContains(cs[1..], i - 1, k);
      assert Flatten(cs) == cs[0] + Flatten(cs[1..]);
    } else {
      assert Flatten(cs) == cs[0] + Flatten(cs[1..]);
    }
  }
}
