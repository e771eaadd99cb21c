/** scripts/get_tmdb_movies.py: the sequential pager. Pages are requested one
    after the other per year, each movie is cleaned, and everything is written
    once at the end. */
module TmdbMoviesScript {
  import opened Wrappers
  import opened Json
  import opened Discovery
  import Batching

  const FirstYear: int := 2000
  const LastYear: int := 2024
  const LastPage: int := 500

  /** What one `session.get` gives the loop: a status that makes
      `raise_for_status` raise, a body that is not JSON, or a decoded page. */
  datatype Reply = HttpFailure | InvalidJson | Parsed(page: Page)

  /** The cleaning of one value: lists and dicts become JSON text, strings
      lose their line and paragraph separators, the rest is kept. */
  function CleanValue(v: Json, dumps: Json -> string): (r: Json)
    ensures !IsContainer(r)
    ensures IsContainer(v) ==> r == JStr(dumps(v))
    ensures v.JStr? ==> r.JStr? && |r.s| == |v.s| && forall i :: 0 <= i < |r.s| ==> !IsSeparator(r.s[i])
    ensures !IsContainer(v) && !v.JStr? ==> r == v
  {
    if IsContainer(v) then JStr(dumps(v))
    else if v.JStr? then
      CleanTextHasNoSeparator(v.s);
      JStr(CleanText(v.s))
    else v
  }

  /** The in-place cleaning of one movie; a movie that is not an object makes
      `movie.items()` raise. */
  function CleanMovie(m: Json, dumps: Json -> string): (r: Option<Json>)
    ensures r.Some? <==> m.JObj?
    ensures r.Some? ==> r.value.JObj? && r.value.fields.Keys == m.fields.Keys
    ensures r.Some? ==> forall k :: k in m.fields ==> r.value.fields[k] == CleanValue(m.fields[k], dumps)
  {
    if m.JObj? then Some(JObj(map k | k in m.fields :: CleanValue(m.fields[k], dumps))) else None
  }

  /** A cleaned movie is a flat row: no list or dict value is left, and every
      value that was a string is free of separators. */
  lemma CleanMovieFlat(m: Json, dumps: Json -> string)
    requires m.JObj?
    ensures var c := CleanMovie(m, dumps).value;
      forall k :: k in c.fields ==>
        && !IsContainer(c.fields[k])
        && (m.fields[k].JStr? ==> forall i :: 0 <= i < |c.fields[k].s| ==> !IsSeparator(c.fields[k].s[i]))
  {
  }

  /** Cleaning a list of movies; None when one of them is not an object. */
  function CleanMovies(ms: seq<Json>, dumps: Json -> string): (r: Option<seq<Json>>)
    ensures r.Some? <==> forall i :: 0 <= i < |ms| ==> ms[i].JObj?
    ensures r.Some? ==> |r.value| == |ms| && forall i :: 0 <= i < |ms| ==> Some(r.value[i]) == CleanMovie(ms[i], dumps)
  {
    if ms == [] then Some([])
    else
      var rest := CleanMovies(ms[1..], dumps);
      assert forall i :: 1 <= i < |ms| ==> ms[i] == ms[1..][i - 1];
      match CleanMovie(ms[0], dumps)
      case None => None
      case Some(c) => if rest.None? then None else Some([c] + rest.value)
  }

  /** What one page does to the loop: the script raises, the year ends, or
      the page's cleaned movies are kept and the next page is requested. */
  datatype PageStep = Crash | Stop | Keep(movies: seq<Json>)

  function PageOutcome(reply: Reply, dumps: Json -> string): (o: PageStep)
    ensures o.Keep? <==> reply.Parsed? && reply.page.results.Some? && reply.page.results.value != []
                         && forall i :: 0 <= i < |reply.page.results.value| ==> reply.page.results.value[i].JObj?
    ensures o.Crash? <==>
      || reply.HttpFailure?
      || (reply.Parsed? && reply.page.results.Some? && exists i :: 0 <= i < |reply.page.results.value| && !reply.page.results.value[i].JObj?)
    ensures o.Keep? ==> o.movies != [] && CleanMovies(reply.page.results.value, dumps) == Some(o.movies)
  {
    match reply
    case HttpFailure => Crash
    case InvalidJson => Stop
    case Parsed(p) =>
      if p.results.None? || p.results.value == [] then Stop
      else match CleanMovies(p.results.value, dumps)
        case None => Crash
        case Some(movies) => Keep(movies)
  }

  /** How each request fares, given the replies. */
  function Steps(reply: Params -> Reply, dumps: Json -> string): Params -> PageStep {
    p => PageOutcome(reply(p), dumps)
  }

  /** `for page in range(page, 501)`: the requests sent, and the movies kept,
      or None when the script raised. */
  function PageLoop(params: Params, page: int, step: Params -> PageStep): (r: (seq<Params>, Option<seq<Json>>))
    decreases LastPage + 1 - page
  {
    if page > LastPage then ([], Some([]))
    else
      var request := WithPage(params, page);
      match step(request)
      case Crash => ([request], None)
      case Stop => ([request], Some([]))
      case Keep(movies) =>
        var rest := PageLoop(params, page + 1, step);
        ([request] + rest.0, if rest.1.None? then None else Some(movies + rest.1.value))
  }

  /** The loop asks for consecutive pages from `page` on, never past 500, and
      asks for at least one when `page` is in range. */
  lemma {:induction false} PageLoopRequests(params: Params, page: int, step: Params -> PageStep)
    ensures var r := PageLoop(params, page, step);
      && |r.0| <= PageCount(page, LastPage)
      && (page <= LastPage ==> r.0 != [])
      && forall i :: 0 <= i < |r.0| ==> r.0[i] == WithPage(params, page + i)
    decreases LastPage + 1 - page
  {
    if page <= LastPage {
      var request := WithPage(params, page);
      if step(request).Keep? {
        PageLoopRequests(params, page + 1, step);
        var r := PageLoop(params, page, step);
        var rest := PageLoop(params, page + 1, step);
        assert r.0 == [request] + rest.0;
        forall i | 1 <= i < |r.0|
          ensures r.0[i] == WithPage(params, page + i)
        {
          assert r.0[i] == rest.0[i - 1];
        }
      }
    }
  }

  /** The loop goes on exactly while pages are kept: every request but the
      last was kept, a loop that stops before page 500 stopped on a page it
      did not keep, and the script raised exactly when the last page crashed. */
  lemma {:induction false} PageLoopSteps(params: Params, page: int, step: Params -> PageStep)
    ensures var r := PageLoop(params, page, step);
      && (forall i :: 0 <= i < |r.0| - 1 ==> step(r.0[i]).Keep?)
      && (|r.0| < PageCount(page, LastPage) ==> |r.0| > 0 && !step(r.0[|r.0| - 1]).Keep?)
      && (r.1.None? <==> r.0 != [] && step(r.0[|r.0| - 1]).Crash?)
    decreases LastPage + 1 - page
  {
    if page <= LastPage {
      var request := WithPage(params, page);
      if step(request).Keep? {
        PageLoopSteps(params, page + 1, step);
        var r := PageLoop(params, page, step);
        var rest := PageLoop(params, page + 1, step);
        assert r.0 == [request] + rest.0;
        assert forall i :: 1 <= i < |r.0| ==> r.0[i] == rest.0[i - 1];
      }
    }
  }

  /** Every movie a year keeps comes from a page the loop requested and kept. */
  lemma {:induction false} PageLoopMovies(params: Params, page: int, step: Params -> PageStep, m: Json)
    ensures var r := PageLoop(params, page, step);
      r.1.Some? && m in r.1.value ==>
        exists i :: 0 <= i < |r.0| && step(r.0[i]).Keep? && m in step(r.0[i]).movies
    decreases LastPage + 1 - page
  {
    var r := PageLoop(params, page, step);
    if page <= LastPage && r.1.Some? && m in r.1.value {
      var request := WithPage(params, page);
      var o := step(request);
      if o.Keep? {
        var rest := PageLoop(params, page + 1, step);
        assert r.0 == [request] + rest.0;
        assert r.1.value == o.movies + rest.1.value;
        if m !in o.movies {
          PageLoopMovies(params, page + 1, step, m);
          var i :| 0 <= i < |rest.0| && step(rest.0[i]).Keep? && m in step(rest.0[i]).movies;
          assert r.0[i + 1] == rest.0[i];
        } else {
          assert r.0[0] == request;
        }
      }
    }
  }

  /** The movies of the kept requests, in request order. */
  function KeptMovies(requests: seq<Params>, step: Params -> PageStep): seq<Json> {
    if requests == [] then []
    else (if step(requests[0]).Keep? then step(requests[0]).movies else []) + KeptMovies(requests[1..], step)
  }

  /** A year that does not raise keeps exactly the movies of its kept pages,
      in page order. */
  lemma {:induction false} PageLoopKept(params: Params, page: int, step: Params -> PageStep)
    ensures var r := PageLoop(params, page, step);
      r.1.Some? ==> r.1.value == KeptMovies(r.0, step)
    decreases LastPage + 1 - page
  {
    if page <= LastPage {
      var request := WithPage(params, page);
      var r := PageLoop(params, page, step);
      assert r.0[0] == request;
      match step(request)
      case Crash =>
      case Stop =>
        assert r.0 == [request];
        assert KeptMovies(r.0, step) == [] + KeptMovies([], step);
      case Keep(movies) =>
        var rest := PageLoop(params, page + 1, step);
        PageLoopKept(params, page + 1, step);
        assert r.0 == [request] + rest.0;
        assert r.0[1..] == rest.0;
        assert KeptMovies(r.0, step) == movies + KeptMovies(rest.0, step);
    }
  }

  /** A year's parameters; the page is set per request. */
  function YearParams(apiKey: string, year: int): (p: Params)
    ensures p.Keys == {"api_key", "primary_release_date.gte", "primary_release_date.lte", "vote_count.gte"}
    ensures p["primary_release_date.gte"] == PStr(YearStart(year)) && p["primary_release_date.lte"] == PStr(YearEnd(year))
    ensures p["vote_count.gte"] == PInt(10)
    ensures p["api_key"] == PStr(apiKey)
  {
    map["api_key" := PStr(apiKey), "primary_release_date.gte" := PStr(YearStart(year)),
        "primary_release_date.lte" := PStr(YearEnd(year)), "vote_count.gte" := PInt(10)]
  }

  /** What a year's page loop yields: its requests, and its kept movies or None
      when the script raised. */
  type YearResult = (seq<Params>, Option<seq<Json>>)

  /** The years `year..2024` in turn, `run(y)` being the page loop of year `y`:
      all requests, and all kept movies in year then page order, or None when
      the script raised. */
  function YearsLoop(year: int, run: int -> YearResult): YearResult
    decreases LastYear + 1 - year
  {
    if year > LastYear then ([], Some([]))
    else
      var head := run(year);
      if head.1.None? then (head.0, None)
      else
        var rest := YearsLoop(year + 1, run);
        (head.0 + rest.0, if rest.1.None? then None else Some(head.1.value + rest.1.value))
  }

  /** The page loop of each year, starting at page 1 of that year's query. */
  function YearRun(apiKey: string, step: Params -> PageStep): int -> YearResult {
    y => PageLoop(YearParams(apiKey, y), 1, step)
  }

  /** `for year in range(year, 2025)` of the script. */
  function YearLoop(apiKey: string, year: int, step: Params -> PageStep): YearResult {
    YearsLoop(year, YearRun(apiKey, step))
  }

  /** The script: the frame written to movies.csv at the end, or None when it
      raised before getting there. */
  function RunScript(apiKey: string, reply: Params -> Reply, dumps: Json -> string): Option<seq<Json>> {
    YearLoop(apiKey, FirstYear, Steps(reply, dumps)).1
  }

  /** The requests of each year from `year` to 2024, in year order. */
  function YearsRequests(year: int, run: int -> YearResult): seq<seq<Params>>
    decreases LastYear + 1 - year
  {
    if year > LastYear then [] else [run(year).0] + YearsRequests(year + 1, run)
  }

  /** The movies of each year from `year` to 2024, in year order. */
  function YearsMovies(year: int, run: int -> YearResult): seq<seq<Json>>
    decreases LastYear + 1 - year
  {
    if year > LastYear then [] else [run(year).1.GetOr([])] + YearsMovies(year + 1, run)
  }

  lemma {:induction false} YearsLoopRaises(year: int, run: int -> YearResult)
    ensures YearsLoop(year, run).1.Some? <==> forall y :: year <= y <= LastYear ==> run(y).1.Some?
    decreases LastYear + 1 - year
  {
    if year <= LastYear {
      YearsLoopRaises(year + 1, run);
    }
  }

  lemma {:induction false} YearsLoopRequests(year: int, run: int -> YearResult)
    ensures var r := YearsLoop(year, run);
      r.1.Some? ==> r.0 == Batching.Flatten(YearsRequests(year, run))
    decreases LastYear + 1 - year
  {
    if year <= LastYear {
      YearsLoopRequests(year + 1, run);
      var reqs := YearsRequests(year, run);
      assert reqs[1..] == YearsRequests(year + 1, run);
    }
  }

  lemma {:induction false} YearsLoopMovies(year: int, run: int -> YearResult)
    ensures var r := YearsLoop(year, run);
      r.1.Some? ==> r.1.value == Batching.Flatten(YearsMovies(year, run))
    decreases LastYear + 1 - year
  {
    if year <= LastYear {
      YearsLoopMovies(year + 1, run);
      var movies := YearsMovies(year, run);
      assert movies[1..] == YearsMovies(year + 1, run);
    }
  }

  lemma {:induction false} YearsLoopCovers(year: int, run: int -> YearResult)
    ensures var r := YearsLoop(year, run);
      r.1.Some? ==> forall y :: year <= y <= LastYear && run(y).0 != [] ==> run(y).0[0] in r.0
    decreases LastYear + 1 - year
  {
    var r := YearsLoop(year, run);
    if year <= LastYear && r.1.Some? {
      var rest := YearsLoop(year + 1, run);
      YearsLoopCovers(year + 1, run);
      assert r.0 == run(year).0 + rest.0;
      forall y | year < y <= LastYear && run(y).0 != []
        ensures run(y).0[0] in r.0
      {
        var k :| 0 <= k < |rest.0| && rest.0[k] == run(y).0[0];
        assert r.0[|run(year).0| + k] == rest.0[k];
      }
      if run(year).0 != [] {
        assert r.0[0] == run(year).0[0];
      }
    }
  }

  /** The year loop runs the page loop of every year from `year` to 2024 in
      turn: it raises exactly when one year raises; otherwise its requests and
      movies are the years' own, concatenated in year order, each year asked
      for its page 1, and each year's movies are those of its kept pages. */
  lemma YearLoopConcatenates(apiKey: string, year: int, step: Params -> PageStep)
    ensures var r := YearLoop(apiKey, year, step);
      var run := YearRun(apiKey, step);
      && (r.1.Some? <==> forall y :: year <= y <= LastYear ==> run(y).1.Some?)
      && (r.1.Some? ==> r.0 == Batching.Flatten(YearsRequests(year, run)))
      && (r.1.Some? ==> r.1.value == Batching.Flatten(YearsMovies(year, run)))
      && (r.1.Some? ==> forall y :: year <= y <= LastYear ==> WithPage(YearParams(apiKey, y), 1) in r.0)
      && (forall y :: run(y).1.Some? ==> run(y).1.value == KeptMovies(run(y).0, step))
  {
    var run := YearRun(apiKey, step);
    YearsLoopRaises(year, run);
    YearsLoopRequests(year, run);
    YearsLoopMovies(year, run);
    YearsLoopCovers(year, run);
    forall y | true
      ensures run(y).1.Some? ==> run(y).1.value == KeptMovies(run(y).0, step)
      ensures run(y).0 != [] && run(y).0[0] == WithPage(YearParams(apiKey, y), 1)
    {
      YearRunFacts(apiKey, step, y);
    }
  }

  lemma YearRunFacts(apiKey: string, step: Params -> PageStep, y: int)
    ensures var run := YearRun(apiKey, step);
      && (run(y).1.Some? ==> run(y).1.value == KeptMovies(run(y).0, step))
      && run(y).0 != [] && run(y).0[0] == WithPage(YearParams(apiKey, y), 1)
  {
    assert YearRun(apiKey, step)(y) == PageLoop(YearParams(apiKey, y), 1, step);
    PageLoopKept(YearParams(apiKey, y), 1, step);
    PageLoopRequests(YearParams(apiKey, y), 1, step);
  }

  /** The loop starts with page 1 of the first year's query, and every request
      asks for a page between 1 and 500. */
  lemma {:induction false} YearLoopPages(apiKey: string, year: int, step: Params -> PageStep)
    ensures var r := YearLoop(apiKey, year, step);
      && (year <= LastYear ==> r.0 != [] && r.0[0] == WithPage(YearParams(apiKey, year), 1))
      && forall i :: 0 <= i < |r.0| ==> "page" in r.0[i] && r.0[i]["page"].PInt? && 1 <= r.0[i]["page"].i <= LastPage
    decreases LastYear + 1 - year
  {
    if year <= LastYear {
      YearLoopPages(apiKey, year + 1, step);
      PageLoopRequests(YearParams(apiKey, year), 1, step);
      var head := PageLoop(YearParams(apiKey, year), 1, step);
      var r := YearLoop(apiKey, year, step);
      assert YearRun(apiKey, step)(year) == head;
      if head.1.Some? {
        var rest := YearLoop(apiKey, year + 1, step);
        assert r.0 == head.0 + rest.0;
        assert forall i :: |head.0| <= i < |r.0| ==> r.0[i] == rest.0[i - |head.0|];
      }
    }
  }

  /** What the script writes: nothing when a year raises; otherwise the movies
      of every kept page of every year from 2000 to 2024, in year then page
      order. */
  lemma RunScriptWrites(apiKey: string, reply: Params -> Reply, dumps: Json -> string)
    ensures var run := YearRun(apiKey, Steps(reply, dumps));
      var frame := RunScript(apiKey, reply, dumps);
      && (frame.Some? <==> forall y :: FirstYear <= y <= LastYear ==> run(y).1.Some?)
      && (frame.Some? ==> frame.value == Batching.Flatten(YearsMovies(FirstYear, run)))
  {
    YearLoopConcatenates(apiKey, FirstYear, Steps(reply, dumps));
  }
}
