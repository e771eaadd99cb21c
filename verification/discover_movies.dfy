/** tmdb_ingestion/jobs/discover_movies.py: one discover query per calendar
    year, its later pages fetched together, one parquet file per year. */
module DiscoverMovies {
  import opened Wrappers
  import opened Json
  import opened Decimal
  import opened Fetch
  import opened Gather
  import opened Discovery

  const DefaultVoteCountGte: int := 100
  const DefaultIncludeAdult: bool := false
  const DefaultSortBy: string := "primary_release_date.asc"
  const DefaultMaxPages: int := 500

  /** The discover settings after the config's defaults are applied. */
  datatype Settings = Settings(startYear: int, endYear: int, voteCountGte: int, includeAdult: bool, sortBy: string, maxPages: int)

  /** `discover_cfg.get(...)` for the optional settings. */
  function ReadSettings(startYear: int, endYear: int, voteCountGte: Option<int>, includeAdult: Option<bool>,
                        sortBy: Option<string>, maxPages: Option<int>): Settings {
    Settings(startYear, endYear, voteCountGte.GetOr(DefaultVoteCountGte), includeAdult.GetOr(DefaultIncludeAdult),
             sortBy.GetOr(DefaultSortBy), maxPages.GetOr(DefaultMaxPages))
  }

  /** An empty discover section means: at least 100 votes, no adult titles,
      ascending release date, at most 500 pages; a configured value wins. */
  lemma SettingsDefaults(startYear: int, endYear: int, voteCountGte: Option<int>, includeAdult: Option<bool>,
                         sortBy: Option<string>, maxPages: Option<int>)
    ensures ReadSettings(startYear, endYear, None, None, None, None)
         == Settings(startYear, endYear, 100, false, "primary_release_date.asc", 500)
    ensures var s := ReadSettings(startYear, endYear, voteCountGte, includeAdult, sortBy, maxPages);
      && (voteCountGte.Some? ==> s.voteCountGte == voteCountGte.value)
      && (includeAdult.Some? ==> s.includeAdult == includeAdult.value)
      && (sortBy.Some? ==> s.sortBy == sortBy.value)
      && (maxPages.Some? ==> s.maxPages == maxPages.value)
  {
  }

  /** `str(include_adult).lower()`. */
  function LowerBool(b: bool): string {
    if b then "true" else "false"
  }

  /** The parameters shared by every page of a year. */
  function BaseParams(s: Settings, apiKey: string, year: int): (p: Params)
    ensures p.Keys == {"api_key", "primary_release_date.gte", "primary_release_date.lte", "include_adult", "vote_count.gte", "sort_by", "page"}
    ensures p["page"] == PInt(1)
    ensures p["primary_release_date.gte"].PStr? && DateYear(p["primary_release_date.gte"].s) == Some(year)
    ensures p["primary_release_date.lte"].PStr? && DateYear(p["primary_release_date.lte"].s) == Some(year)
    ensures p["primary_release_date.gte"] == PStr(YearStart(year)) && p["primary_release_date.lte"] == PStr(YearEnd(year))
    ensures p["api_key"] == PStr(apiKey)
    ensures p["include_adult"] == PStr(if s.includeAdult then "true" else "false")
    ensures p["vote_count.gte"] == PInt(s.voteCountGte) && p["sort_by"] == PStr(s.sortBy)
  {
    DatesBracketYear(year);
    map[
      "api_key" := PStr(apiKey),
      "primary_release_date.gte" := PStr(YearStart(year)),
      "primary_release_date.lte" := PStr(YearEnd(year)),
      "include_adult" := PStr(LowerBool(s.includeAdult)),
      "vote_count.gte" := PInt(s.voteCountGte),
      "sort_by" := PStr(s.sortBy),
      "page" := PInt(1)
    ]
  }

  /** `total_pages`, clamped to `max_pages`: the smaller of the two. */
  function EffectiveTotal(reported: int, maxPages: int): (r: int)
    ensures r <= reported && r <= maxPages
    ensures r == reported || r == maxPages
  {
    if reported > maxPages then maxPages else reported
  }

  /** Whether the first page lets the year go on: present, truthy, and with a
      non-empty "results" list. */
  predicate Usable(first: Option<Page>) {
    first.Some? && PageTruthy(first.value) && first.value.results.Some? && first.value.results.value != []
  }

  /** The rest of a year once its first page is usable: pages `2..total`
      requested together, their movies appended to the first page's. */
  function LaterPages(base: Params, first: Page, maxPages: int, respond: Params -> Fetched<Page>): (r: YearRun)
    requires first.results.Some? && first.results.value != []
    ensures r.requests != [] && r.requests[0] == base
    ensures forall i :: 1 <= i < |r.requests| ==> r.requests[i] == WithPage(base, i + 1)
    ensures |r.requests| <= if maxPages < 1 then 1 else maxPages
    ensures r.written.Some? ==> !r.aborted && r.written.value != []
  {
    var reported := first.totalPages.GetOr(1);
    var total := EffectiveTotal(reported, maxPages);
    var later := PageRequests(base, 2, total);
    var requests := [base] + later;
    assert forall i :: 1 <= i < |requests| ==> requests[i] == later[i - 1];
    match GatherAll(FetchPages(later, respond))
    case None => YearRun(requests, reported > maxPages, None, true)
    case Some(pages) =>
      var movies := first.results.value + Aggregate(pages);
      YearRun(requests, reported > maxPages, if movies == [] then None else Some(movies), false)
  }

  /** One iteration of the year loop. */
  function DiscoverYear(s: Settings, apiKey: string, year: int, respond: Params -> Fetched<Page>): (r: YearRun)
    ensures r.requests != [] && r.requests[0] == BaseParams(s, apiKey, year)
    ensures forall i :: 1 <= i < |r.requests| ==> r.requests[i] == WithPage(BaseParams(s, apiKey, year), i + 1)
    ensures |r.requests| <= if s.maxPages < 1 then 1 else s.maxPages
    ensures r.written.Some? ==> !r.aborted && r.written.value != []
    ensures respond(BaseParams(s, apiKey, year)).Raised? ==> r.aborted && |r.requests| == 1
  {
    var base := BaseParams(s, apiKey, year);
    match respond(base)
    case Raised(_) => YearRun([base], false, None, true)
    case Returned(first) =>
      if !Usable(first) then YearRun([base], false, None, false)
      else LaterPages(base, first.value, s.maxPages, respond)
  }

  /** The year is skipped, with no further request and no write, when the
      first page is missing, empty, or has no results. */
  lemma SkippedYear(s: Settings, apiKey: string, year: int, respond: Params -> Fetched<Page>)
    requires respond(BaseParams(s, apiKey, year)).Returned?
    requires !Usable(respond(BaseParams(s, apiKey, year)).data)
    ensures DiscoverYear(s, apiKey, year, respond) == YearRun([BaseParams(s, apiKey, year)], false, None, false)
  {
  }

  /** With a usable first page and no later page raising: the pages `2..total`
      are requested, where `total` is the reported count clamped to
      `max_pages`; a warning is printed exactly when the reported count exceeds
      it; the year's file holds the first page's movies followed by those of
      every later page, in page order. */
  lemma YearAggregation(s: Settings, apiKey: string, year: int, respond: Params -> Fetched<Page>)
    requires respond(BaseParams(s, apiKey, year)).Returned?
    requires Usable(respond(BaseParams(s, apiKey, year)).data)
    requires var first := respond(BaseParams(s, apiKey, year)).data.value;
      forall i :: 2 <= i <= EffectiveTotal(first.totalPages.GetOr(1), s.maxPages) ==>
        respond(WithPage(BaseParams(s, apiKey, year), i)).Returned?
    ensures var base := BaseParams(s, apiKey, year);
      var first := respond(base).data.value;
      var reported := first.totalPages.GetOr(1);
      var total := EffectiveTotal(reported, s.maxPages);
      var r := DiscoverYear(s, apiKey, year, respond);
      && !r.aborted
      && r.warned == (reported > s.maxPages)
      && |r.requests| == (if total < 1 then 1 else total)
      && r.written == Some(first.results.value + Aggregate(PagesData(base, 2, total, respond)))
  {
    var base := BaseParams(s, apiKey, year);
    var first := respond(base).data.value;
    var total := EffectiveTotal(first.totalPages.GetOr(1), s.maxPages);
    PagesGathered(base, 2, total, respond);
  }

  /** Under the same conditions, a movie is written exactly when the first page
      or one of the later pages lists it. */
  lemma YearMembers(s: Settings, apiKey: string, year: int, respond: Params -> Fetched<Page>, m: Json)
    requires respond(BaseParams(s, apiKey, year)).Returned?
    requires Usable(respond(BaseParams(s, apiKey, year)).data)
    requires var first := respond(BaseParams(s, apiKey, year)).data.value;
      forall i :: 2 <= i <= EffectiveTotal(first.totalPages.GetOr(1), s.maxPages) ==>
        respond(WithPage(BaseParams(s, apiKey, year), i)).Returned?
    ensures var base := BaseParams(s, apiKey, year);
      var first := respond(base).data.value;
      var pages := PagesData(base, 2, EffectiveTotal(first.totalPages.GetOr(1), s.maxPages), respond);
      var r := DiscoverYear(s, apiKey, year, respond);
      r.written.Some? &&
      (m in r.written.value <==>
         m in first.results.value ||
         exists i :: 0 <= i < |pages| && pages[i].Some? && pages[i].value.results.Some? && m in pages[i].value.results.value)
  {
    var base := BaseParams(s, apiKey, year);
    var first := respond(base).data.value;
    var pages := PagesData(base, 2, EffectiveTotal(first.totalPages.GetOr(1), s.maxPages), respond);
    YearAggregation(s, apiKey, year, respond);
    AggregateMembers(pages, m);
  }

  /** A reported count above the cap: with the default cap of 500 and 750
      reported pages, the year sends exactly 500 requests, the last for page
      500, and warns. */
  lemma ClampScenario(apiKey: string, year: int, respond: Params -> Fetched<Page>, rest: seq<Json>)
    requires respond(BaseParams(ReadSettings(year, year, None, None, None, None), apiKey, year)) == Returned(Some(Page(Some(rest), Some(750), false)))
    requires rest != []
    requires forall p :: respond(p).Returned?
    ensures var s := ReadSettings(year, year, None, None, None, None);
      var r := DiscoverYear(s, apiKey, year, respond);
      && r.warned
      && |r.requests| == 500
      && r.requests[499]["page"] == PInt(500)
      && !r.aborted && r.written.Some?
  {
    var s := ReadSettings(year, year, None, None, None, None);
    YearAggregation(s, apiKey, year, respond);
  }

  /** `_discover_movies_for_range`: the years from `start_year` to `end_year`
      inclusive, ascending, one at a time, until one raises. */
  function DiscoverRange(s: Settings, apiKey: string, respond: Params -> Fetched<Page>): (runs: seq<(int, YearRun)>)
    ensures |runs| <= PageCount(s.startYear, s.endYear)
    ensures forall i :: 0 <= i < |runs| ==> runs[i].0 == s.startYear + i
    ensures (forall i :: 0 <= i < |runs| ==> !runs[i].1.aborted) ==> |runs| == PageCount(s.startYear, s.endYear)
  {
    ProcessYears(y => DiscoverYear(s, apiKey, y, respond), s.startYear, s.endYear)
  }

  /** The files a run writes: named `movies_{year}.parquet`, one per year at
      most, each found by the details job's glob. */
  lemma DiscoverFiles(s: Settings, apiKey: string, respond: Params -> Fetched<Page>)
    ensures var files := WrittenFiles(DiscoverRange(s, apiKey, respond));
      && (forall i :: 0 <= i < |files| ==> MatchesGlob(files[i].0) && files[i].1 != [])
      && (forall i, j :: 0 <= i < j < |files| ==> files[i].0 != files[j].0)
  {
    var step := y => DiscoverYear(s, apiKey, y, respond);
    var runs := DiscoverRange(s, apiKey, respond);
    WrittenFilesDistinct(step, s.startYear, s.endYear, WrittenFiles(runs));
    WrittenFilesNonEmpty(runs);
  }

  lemma {:induction false} WrittenFilesNonEmpty(runs: seq<(int, YearRun)>)
    requires forall i :: 0 <= i < |runs| ==> runs[i].1.written.Some? ==> runs[i].1.written.value != []
    ensures forall i :: 0 <= i < |WrittenFiles(runs)| ==> WrittenFiles(runs)[i].1 != []
  {
    if runs != [] {
      WrittenFilesNonEmpty(runs[1..]);
    }
  }

  /** An exception from the first request of the first year propagates out
      of the loop: a non-empty year range then ends after that year and
      writes no file at all. */
  lemma FirstRequestRaises(s: Settings, apiKey: string, respond: Params -> Fetched<Page>)
    requires s.startYear <= s.endYear
    requires respond(BaseParams(s, apiKey, s.startYear)).Raised?
    ensures var runs := DiscoverRange(s, apiKey, respond);
      && |runs| == 1
      && runs[0].1.aborted
      && WrittenFiles(runs) == []
  {
    var runs := DiscoverRange(s, apiKey, respond);
    assert runs[0].1.aborted;
    assert WrittenFiles(runs) == [] by {
      assert runs[1..] == [];
    }
  }
}
