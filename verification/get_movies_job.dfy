/** tmdb_ingestion/jobs/get_movies.py: the older per-year pager, with a hard
    cap of 500 pages and an optional vote-count filter. */
module GetMoviesJob {
  import opened Wrappers
  import opened Json
  import opened Fetch
  import opened Gather
  import opened Discovery

  /** The page cap the discover endpoint enforces. */
  const HardMaxPages: int := 500

  /** The parameters shared by every page of a year; "vote_count.gte" only when
      a filter is configured. */
  function YearParams(apiKey: string, year: int, voteCountGte: Option<int>): (p: Params)
    ensures {"api_key", "primary_release_year", "include_adult", "page"} <= p.Keys
    ensures "vote_count.gte" in p <==> voteCountGte.Some?
    ensures voteCountGte.Some? ==> p["vote_count.gte"] == PInt(voteCountGte.value)
    ensures p.Keys <= {"api_key", "primary_release_year", "include_adult", "page", "vote_count.gte"}
    ensures p["primary_release_year"] == PInt(year) && p["include_adult"] == PStr("false") && p["page"] == PInt(1)
    ensures p["api_key"] == PStr(apiKey)
  {
    var p := map["api_key" := PStr(apiKey), "primary_release_year" := PInt(year),
                 "include_adult" := PStr("false"), "page" := PInt(1)];
    if voteCountGte.Some? then p["vote_count.gte" := PInt(voteCountGte.value)] else p
  }

  /** `total_pages` clamped to 500. */
  function Clamp(reported: int): (r: int)
    ensures r <= reported && r <= HardMaxPages
    ensures r == reported || r == HardMaxPages
  {
    if reported > HardMaxPages then HardMaxPages else reported
  }

  /** One iteration of the year loop. Only a missing or empty first page skips
      the year; the first page's "results" are taken when present. */
  function GetMoviesYear(apiKey: string, year: int, voteCountGte: Option<int>, respond: Params -> Fetched<Page>): (r: YearRun)
    ensures r.requests != [] && r.requests[0] == YearParams(apiKey, year, voteCountGte)
    ensures forall i :: 1 <= i < |r.requests| ==> r.requests[i] == WithPage(YearParams(apiKey, year, voteCountGte), i + 1)
    ensures |r.requests| <= HardMaxPages
    ensures r.written.Some? ==> !r.aborted && r.written.value != []
  {
    var base := YearParams(apiKey, year, voteCountGte);
    match respond(base)
    case Raised(_) => YearRun([base], false, None, true)
    case Returned(first) =>
      if first.None? || !PageTruthy(first.value) then YearRun([base], false, None, false)
      else
        var reported := first.value.totalPages.GetOr(1);
        var total := Clamp(reported);
        var later := PageRequests(base, 2, total);
        var requests := [base] + later;
        assert forall i :: 1 <= i < |requests| ==> requests[i] == later[i - 1];
        match GatherAll(FetchPages(later, respond))
        case None => YearRun(requests, reported > HardMaxPages, None, true)
        case Some(pages) =>
          var movies := first.value.results.GetOr([]) + Aggregate(pages);
          YearRun(requests, reported > HardMaxPages, if movies == [] then None else Some(movies), false)
  }

  /** A missing or empty first page skips the year: no further request and no
      write. */
  lemma SkipsOnlyFalsyFirstPage(apiKey: string, year: int, voteCountGte: Option<int>, respond: Params -> Fetched<Page>)
    requires respond(YearParams(apiKey, year, voteCountGte)).Returned?
    ensures var first := respond(YearParams(apiKey, year, voteCountGte)).data;
      var r := GetMoviesYear(apiKey, year, voteCountGte, respond);
      first.None? || !PageTruthy(first.value) ==> r == YearRun([YearParams(apiKey, year, voteCountGte)], false, None, false)
  {
  }

  /** With a truthy first page and no later page raising, the pages `2..total`
      are requested (`total` the reported count clamped to 500), a warning is
      printed exactly when more than 500 pages are reported, and the movies are
      the first page's results, if any, followed by those of the later pages
      that are truthy and carry results; they are written exactly when there
      is at least one. */
  lemma YearMovies(apiKey: string, year: int, voteCountGte: Option<int>, respond: Params -> Fetched<Page>)
    requires respond(YearParams(apiKey, year, voteCountGte)).Returned?
    requires var first := respond(YearParams(apiKey, year, voteCountGte)).data;
      first.Some? && PageTruthy(first.value)
    requires var first := respond(YearParams(apiKey, year, voteCountGte)).data.value;
      forall i :: 2 <= i <= Clamp(first.totalPages.GetOr(1)) ==> respond(WithPage(YearParams(apiKey, year, voteCountGte), i)).Returned?
    ensures var base := YearParams(apiKey, year, voteCountGte);
      var first := respond(base).data.value;
      var reported := first.totalPages.GetOr(1);
      var movies := first.results.GetOr([]) + Aggregate(PagesData(base, 2, Clamp(reported), respond));
      var r := GetMoviesYear(apiKey, year, voteCountGte, respond);
      && !r.aborted
      && r.warned == (reported > HardMaxPages)
      && |r.requests| == 1 + PageCount(2, Clamp(reported))
      && (r.written.Some? <==> movies != [])
      && (r.written.Some? ==> r.written.value == movies)
  {
    var base := YearParams(apiKey, year, voteCountGte);
    var first := respond(base).data.value;
    PagesGathered(base, 2, Clamp(first.totalPages.GetOr(1)), respond);
  }

  /** A first page with a page count but no "results" does not skip the year:
      its later pages are still requested, and all its movies come from them. */
  lemma FirstPageWithoutResults(apiKey: string, year: int, voteCountGte: Option<int>, respond: Params -> Fetched<Page>, total: int)
    requires respond(YearParams(apiKey, year, voteCountGte)) == Returned(Some(Page(None, Some(total), false)))
    requires forall i :: 2 <= i <= Clamp(total) ==> respond(WithPage(YearParams(apiKey, year, voteCountGte), i)).Returned?
    ensures var base := YearParams(apiKey, year, voteCountGte);
      var r := GetMoviesYear(apiKey, year, voteCountGte, respond);
      var later := Aggregate(PagesData(base, 2, Clamp(total), respond));
      && |r.requests| == 1 + PageCount(2, Clamp(total))
      && (later != [] ==> r.written == Some(later))
      && (later == [] ==> r.written.None?)
  {
    YearMovies(apiKey, year, voteCountGte, respond);
    var later := Aggregate(PagesData(YearParams(apiKey, year, voteCountGte), 2, Clamp(total), respond));
    assert [] + later == later;
  }

  /** `_discover_movies_for_range` of this job: ascending years, one at a time,
      until one raises. */
  function GetMoviesRange(startYear: int, endYear: int, apiKey: string, voteCountGte: Option<int>,
                          respond: Params -> Fetched<Page>): (runs: seq<(int, YearRun)>)
    ensures forall i :: 0 <= i < |runs| ==> runs[i].0 == startYear + i
    ensures (forall i :: 0 <= i < |runs| ==> !runs[i].1.aborted) ==> |runs| == PageCount(startYear, endYear)
  {
    ProcessYears(y => GetMoviesYear(apiKey, y, voteCountGte, respond), startYear, endYear)
  }
}
