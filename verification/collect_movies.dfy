/** ingestion/get_movies.py: one discover query per calendar year from 2000 to
    2025, every page fetched (page 1 twice), all movies written once at the
    end. */
module CollectMovies {
  import opened Wrappers
  import opened Json
  import opened Fetch
  import opened Gather
  import opened Discovery
  import Batching

  const StartYear: int := 2000
  const EndYear: int := 2025
  const MaxPages: int := 500

  /** `YEAR_RANGES`: the first and last day of each year, ascending. */
  function YearRanges(): (r: seq<(string, string)>)
    ensures |r| == 26
    ensures forall i :: 0 <= i < |r| ==> DateYear(r[i].0) == Some(StartYear + i) && DateYear(r[i].1) == Some(StartYear + i)
    ensures forall i :: 0 <= i < |r| ==> |r[i].0| > 6 && r[i].0[|r[i].0| - 6..] == "-01-01"
    ensures forall i :: 0 <= i < |r| ==> |r[i].1| > 6 && r[i].1[|r[i].1| - 6..] == "-12-31"
  {
    var r := seq(EndYear - StartYear + 1, i => (YearStart(StartYear + i), YearEnd(StartYear + i)));
    assert forall i :: 0 <= i < |r| ==> r[i] == (YearStart(StartYear + i), YearEnd(StartYear + i));
    forall i | 0 <= i < |r|
      ensures DateYear(r[i].0) == Some(StartYear + i) && DateYear(r[i].1) == Some(StartYear + i)
      ensures |r[i].0| > 6 && r[i].0[|r[i].0| - 6..] == "-01-01"
      ensures |r[i].1| > 6 && r[i].1[|r[i].1| - 6..] == "-12-31"
    {
      DatesBracketYear(StartYear + i);
    }
    r
  }

  /** The parameters of a year's query; the page is added per request. */
  function RangeParams(apiKey: string, range: (string, string)): (p: Params)
    ensures p.Keys == {"api_key", "primary_release_date.gte", "primary_release_date.lte", "vote_count.gte", "sort_by"}
    ensures p["primary_release_date.gte"] == PStr(range.0) && p["primary_release_date.lte"] == PStr(range.1)
    ensures p["vote_count.gte"] == PInt(10) && p["sort_by"] == PStr("primary_release_date.asc")
    ensures p["api_key"] == PStr(apiKey)
  {
    map["api_key" := PStr(apiKey), "primary_release_date.gte" := PStr(range.0), "primary_release_date.lte" := PStr(range.1),
        "vote_count.gte" := PInt(10), "sort_by" := PStr("primary_release_date.asc")]
  }

  /** `min(first_page_data.get("total_pages", 1), 500)`. */
  function PagesToFetch(first: Page): (n: int)
    ensures n <= MaxPages && n <= first.totalPages.GetOr(1)
    ensures n == MaxPages || n == first.totalPages.GetOr(1)
  {
    Batching.Min(first.totalPages.GetOr(1), MaxPages)
  }

  /** One year: the requests sent, and its movies, or None when the year
      raised. The first page is dereferenced without a check, so a None first
      page raises too. */
  function CollectRange(apiKey: string, range: (string, string), respond: Params -> Fetched<Page>): (r: (seq<Params>, Option<seq<Json>>))
    ensures r.0 != [] && r.0[0] == RangeParams(apiKey, range)
    ensures forall i :: 1 <= i < |r.0| ==> r.0[i] == WithPage(RangeParams(apiKey, range), i)
    ensures respond(RangeParams(apiKey, range)).Value().None? ==> r.1.None? && |r.0| == 1
    ensures respond(RangeParams(apiKey, range)).Value().Some? ==>
      |r.0| == 1 + PageCount(1, PagesToFetch(respond(RangeParams(apiKey, range)).Value().value))
  {
    var base := RangeParams(apiKey, range);
    match respond(base)
    case Raised(_) => ([base], None)
    case Returned(None) => ([base], None)
    case Returned(Some(first)) =>
      var pageRequests := PageRequests(base, 1, PagesToFetch(first));
      var requests := [base] + pageRequests;
      assert forall i :: 1 <= i < |requests| ==> requests[i] == pageRequests[i - 1];
      match GatherAll(FetchPages(pageRequests, respond))
      case None => (requests, None)
      case Some(pages) => (requests, Some(Aggregate(pages)))
  }

  /** A year's movies come only from the fanned-out pages `1..n`, in page
      order: the first page is requested twice and its first copy adds
      nothing. */
  lemma RangeMovies(apiKey: string, range: (string, string), respond: Params -> Fetched<Page>)
    requires respond(RangeParams(apiKey, range)).Value().Some?
    requires var n := PagesToFetch(respond(RangeParams(apiKey, range)).Value().value);
      forall i :: 1 <= i <= n ==> respond(WithPage(RangeParams(apiKey, range), i)).Returned?
    ensures var base := RangeParams(apiKey, range);
      var n := PagesToFetch(respond(base).Value().value);
      var r := CollectRange(apiKey, range, respond);
      && r.1 == Some(Aggregate(PagesData(base, 1, n, respond)))
      && (n >= 1 ==> r.0[1] == WithPage(base, 1))
  {
    var base := RangeParams(apiKey, range);
    PagesGathered(base, 1, PagesToFetch(respond(base).Value().value), respond);
  }

  /** What one range yields: its requests, and its movies or None when it
      raised. */
  type RangeResult = (seq<Params>, Option<seq<Json>>)

  /** The ranges in turn, `run(r)` being range `r`: all requests, and all
      movies in range order, or None once a range raised. */
  function RangesLoop(ranges: seq<(string, string)>, run: ((string, string)) -> RangeResult): RangeResult {
    if ranges == [] then ([], Some([]))
    else
      var head := run(ranges[0]);
      if head.1.None? then (head.0, None)
      else
        var rest := RangesLoop(ranges[1..], run);
        (head.0 + rest.0, if rest.1.None? then None else Some(head.1.value + rest.1.value))
  }

  /** One range of `collect_movies`. */
  function RangeRun(apiKey: string, respond: Params -> Fetched<Page>): ((string, string)) -> RangeResult {
    range => CollectRange(apiKey, range, respond)
  }

  /** All ranges in turn, accumulating every movie; an exception ends the
      loop with nothing written. */
  function CollectFrom(apiKey: string, ranges: seq<(string, string)>, respond: Params -> Fetched<Page>): RangeResult {
    RangesLoop(ranges, RangeRun(apiKey, respond))
  }

  /** What `collect_movies` writes: None when it raised, otherwise the single
      frame written after the loop, possibly empty. */
  function CollectMovies(apiKey: string, respond: Params -> Fetched<Page>): (written: Option<seq<Json>>) {
    CollectFrom(apiKey, YearRanges(), respond).1
  }

  /** Whether every range in `ranges` gets through without raising. */
  predicate AllRangesOk(ranges: seq<(string, string)>, run: ((string, string)) -> RangeResult) {
    forall i :: 0 <= i < |ranges| ==> run(ranges[i]).1.Some?
  }

  /** Each range's movies, in range order, for ranges that do not raise. */
  function RangesMovies(ranges: seq<(string, string)>, run: ((string, string)) -> RangeResult): (ms: seq<seq<Json>>)
    requires AllRangesOk(ranges, run)
    ensures |ms| == |ranges|
  {
    seq(|ranges|, i requires 0 <= i < |ranges| && AllRangesOk(ranges, run) => run(ranges[i]).1.value)
  }

  /** The ranges are all fine exactly when the first one and all the rest are. */
  lemma AllRangesOkCons(ranges: seq<(string, string)>, run: ((string, string)) -> RangeResult)
    requires ranges != []
    ensures AllRangesOk(ranges, run) <==> run(ranges[0]).1.Some? && AllRangesOk(ranges[1..], run)
  {
    assert forall i :: 0 <= i < |ranges[1..]| ==> ranges[1..][i] == ranges[i + 1];
    if !AllRangesOk(ranges, run) && run(ranges[0]).1.Some? {
      var i :| 0 <= i < |ranges| && run(ranges[i]).1.None?;
      assert ranges[1..][i - 1] == ranges[i];
    }
  }

  /** The movies of all ranges are those of the first one followed by those of the rest. */
  lemma RangesMoviesCons(ranges: seq<(string, string)>, run: ((string, string)) -> RangeResult)
    requires ranges != [] && AllRangesOk(ranges, run)
    ensures AllRangesOk(ranges[1..], run)
    ensures RangesMovies(ranges, run) == [run(ranges[0]).1.value] + RangesMovies(ranges[1..], run)
  {
    AllRangesOkCons(ranges, run);
    var full := RangesMovies(ranges, run);
    var tail := RangesMovies(ranges[1..], run);
    forall k | 0 <= k < |tail|
      ensures full[1..][k] == tail[k]
    {
      assert ranges[1..][k] == ranges[k + 1];
    }
    assert full[1..] == tail;
  }

  /** The loop yields movies exactly when no range raised, and they are the
      ranges' movies concatenated in range order. */
  lemma {:induction false} RangesLoopConcatenates(ranges: seq<(string, string)>, run: ((string, string)) -> RangeResult)
    ensures var r := RangesLoop(ranges, run);
      && (r.1.Some? <==> AllRangesOk(ranges, run))
      && (r.1.Some? ==> r.1.value == Batching.Flatten(RangesMovies(ranges, run)))
  {
    if ranges != [] {
      RangesLoopConcatenates(ranges[1..], run);
      AllRangesOkCons(ranges, run);
      if AllRangesOk(ranges, run) {
        RangesMoviesCons(ranges, run);
      }
    }
  }

  /** The movies of the single final write are the concatenation of every
      year's movies, in year order; the run writes exactly when no year
      raised. */
  lemma CollectConcatenates(apiKey: string, ranges: seq<(string, string)>, respond: Params -> Fetched<Page>)
    ensures var r := CollectFrom(apiKey, ranges, respond);
      && (r.1.Some? <==> forall i :: 0 <= i < |ranges| ==> CollectRange(apiKey, ranges[i], respond).1.Some?)
      && (r.1.Some? ==> r.1.value == Batching.Flatten(RangesMovies(ranges, RangeRun(apiKey, respond))))
  {
    RangesLoopConcatenates(ranges, RangeRun(apiKey, respond));
  }
}
