/** What the three discover-endpoint pagers share: request parameters, the
    decoded page, the aggregation of page results, the year loop, and the name
    of the yearly output file. */
module Discovery {
  import opened Wrappers
  import opened Json
  import opened Decimal
  import opened Fetch
  import opened Gather

  datatype ParamValue = PStr(s: string) | PInt(i: int)

  /** The query parameters of one request. */
  type Params = map<string, ParamValue>

  /** `dict(params, page=page)` and `params["page"] = page`. */
  function WithPage(base: Params, page: int): (r: Params)
    ensures r.Keys == base.Keys + {"page"}
    ensures r["page"] == PInt(page)
    ensures forall k :: k in base && k != "page" ==> r[k] == base[k]
  {
    base["page" := PInt(page)]
  }

  /** `len(range(first, last + 1))`. */
  function PageCount(first: int, last: int): nat {
    if last < first then 0 else last - first + 1
  }

  /** One request for every page of `range(first, last + 1)`. */
  function PageRequests(base: Params, first: int, last: int): (r: seq<Params>)
    ensures |r| == PageCount(first, last)
    ensures forall i :: 0 <= i < |r| ==> r[i].Keys == base.Keys + {"page"} && r[i]["page"] == PInt(first + i)
    ensures forall i, k :: 0 <= i < |r| && k in base && k != "page" ==> r[i][k] == base[k]
  {
    var r := seq(PageCount(first, last), i => WithPage(base, first + i));
    assert forall i :: 0 <= i < |r| ==> r[i] == WithPage(base, first + i);
    r
  }

  function YearStart(year: int): string {
    IntToString(year) + "-01-01"
  }

  function YearEnd(year: int): string {
    IntToString(year) + "-12-31"
  }

  /** The year of a date string written as `{year}-MM-DD`. */
  function DateYear(date: string): Option<int> {
    if |date| >= 6 then ParseInt(date[..|date| - 6]) else None
  }

  /** The two bounds name the first and the last day of the same year. */
  lemma DatesBracketYear(year: int)
    ensures DateYear(YearStart(year)) == Some(year) && DateYear(YearEnd(year)) == Some(year)
    ensures YearStart(year)[|YearStart(year)| - 6..] == "-01-01"
    ensures YearEnd(year)[|YearEnd(year)| - 6..] == "-12-31"
  {
    IntToStringRoundTrip(year);
    assert YearStart(year)[..|YearStart(year)| - 6] == IntToString(year);
    assert YearEnd(year)[..|YearEnd(year)| - 6] == IntToString(year);
  }

  /** A decoded discover response: its "results" list and its "total_pages"
      when present, and whether it has any other key. */
  datatype Page = Page(results: Option<seq<Json>>, totalPages: Option<int>, otherKeys: bool)

  /** A dict is truthy when it has a key. */
  predicate PageTruthy(p: Page) {
    p.results.Some? || p.totalPages.Some? || p.otherKeys
  }

  /** The movies one later page adds: nothing for a missing or falsy page or
      one without results. */
  function Contribution(p: Option<Page>): seq<Json> {
    if p.None? || !PageTruthy(p.value) then [] else p.value.results.GetOr([])
  }

  /** The loop over the gathered later pages, extending the movie list. */
  function Aggregate(pages: seq<Option<Page>>): seq<Json> {
    if pages == [] then [] else Contribution(pages[0]) + Aggregate(pages[1..])
  }

  /** Aggregation keeps page order: it distributes over concatenation. */
  lemma {:induction false} AggregateAppend(a: seq<Option<Page>>, b: seq<Option<Page>>)
    ensures Aggregate(a + b) == Aggregate(a) + Aggregate(b)
  {
    if a == [] {
      assert a + b == b;
    } else {
      assert (a + b)[1..] == a[1..] + b;
      AggregateAppend(a[1..], b);
    }
  }

  /** A movie is aggregated exactly when some returned page lists it. */
  lemma {:induction false} AggregateMembers(pages: seq<Option<Page>>, m: Json)
    ensures m in Aggregate(pages) <==>
      exists i :: 0 <= i < |pages| && pages[i].Some? && pages[i].value.results.Some? && m in pages[i].value.results.value
  {
    if pages != [] {
      AggregateMembers(pages[1..], m);
      if m in Aggregate(pages[1..]) {
        var i :| 0 <= i < |pages[1..]| && pages[1..][i].Some? && pages[1..][i].value.results.Some? && m in pages[1..][i].value.results.value;
        assert pages[i + 1] == pages[1..][i];
      }
      if exists i :: 0 <= i < |pages| && pages[i].Some? && pages[i].value.results.Some? && m in pages[i].value.results.value {
        var i :| 0 <= i < |pages| && pages[i].Some? && pages[i].value.results.Some? && m in pages[i].value.results.value;
        if i > 0 {
          assert pages[1..][i - 1] == pages[i];
        }
      }
    }
  }

  /** Awaiting one task per request. */
  function FetchPages(requests: seq<Params>, respond: Params -> Fetched<Page>): (r: seq<Fetched<Page>>)
    ensures |r| == |requests|
    ensures forall i :: 0 <= i < |r| ==> r[i] == respond(requests[i])
  {
    seq(|requests|, i requires 0 <= i < |requests| => respond(requests[i]))
  }

  /** The data of the pages `first..last`, in page order. */
  function PagesData(base: Params, first: int, last: int, respond: Params -> Fetched<Page>): (pages: seq<Option<Page>>)
    ensures |pages| == PageCount(first, last)
  {
    seq(PageCount(first, last), i => respond(WithPage(base, first + i)).Value())
  }

  /** When none of the page requests raises, gathering them yields their data
      in page order. */
  lemma PagesGathered(base: Params, first: int, last: int, respond: Params -> Fetched<Page>)
    requires forall i :: first <= i <= last ==> respond(WithPage(base, i)).Returned?
    ensures GatherAll(FetchPages(PageRequests(base, first, last), respond)) == Some(PagesData(base, first, last, respond))
  {
    var outs := FetchPages(PageRequests(base, first, last), respond);
    var pages := PagesData(base, first, last, respond);
    forall i | 0 <= i < |outs| ensures !outs[i].Raised? && outs[i].data == pages[i] {
      assert outs[i] == respond(WithPage(base, first + i));
      assert pages[i] == respond(WithPage(base, first + i)).Value();
    }
    var g := GatherAll(outs);
    assert g.Some?;
    assert |g.value| == |pages| && forall i :: 0 <= i < |pages| ==> g.value[i] == pages[i];
    assert g.value == pages;
  }

  /** What one year of a pager does: the requests it sends (first page first),
      whether it warned about the page cap, the movies it writes, and whether
      an exception ended the job. */
  datatype YearRun = YearRun(requests: seq<Params>, warned: bool, written: Option<seq<Json>>, aborted: bool)

  /** `for year in range(start_year, end_year + 1)`: one year at a time, in
      ascending order; an exception ends the loop. */
  function ProcessYears(step: int -> YearRun, year: int, endYear: int): (r: seq<(int, YearRun)>)
    ensures |r| <= PageCount(year, endYear)
    ensures forall i :: 0 <= i < |r| ==> r[i] == (year + i, step(year + i))
    ensures forall i :: 0 <= i < |r| - 1 ==> !r[i].1.aborted
    ensures |r| < PageCount(year, endYear) ==> |r| > 0 && r[|r| - 1].1.aborted
    decreases endYear - year + 1
  {
    if year > endYear then []
    else
      var run := step(year);
      if run.aborted then [(year, run)]
      else [(year, run)] + ProcessYears(step, year + 1, endYear)
  }

  const Prefix: string := "movies_"
  const Suffix: string := ".parquet"

  /** Whether a file name matches the glob `movies_*.parquet`. */
  predicate MatchesGlob(name: string) {
    |name| >= |Prefix| + |Suffix| && name[..|Prefix|] == Prefix && name[|name| - |Suffix|..] == Suffix
  }

  /** `f"movies_{year}.parquet"`. */
  function ParquetName(year: int): string {
    Prefix + IntToString(year) + Suffix
  }

  /** Every yearly file is found by the details job's glob, and distinct years
      write distinct files. */
  lemma ParquetNames(y1: int, y2: int)
    ensures MatchesGlob(ParquetName(y1))
    ensures ParquetName(y1) == ParquetName(y2) ==> y1 == y2
  {
    var n1 := ParquetName(y1);
    assert n1[..|Prefix|] == Prefix;
    assert n1[|n1| - |Suffix|..] == Suffix;
    if n1 == ParquetName(y2) {
      var n2 := ParquetName(y2);
      assert IntToString(y1) == n1[|Prefix|..|n1| - |Suffix|];
      assert IntToString(y2) == n2[|Prefix|..|n2| - |Suffix|];
      IntToStringInjective(y1, y2);
    }
  }

  /** The files a loop over years writes, named after their year. */
  function WrittenFiles(runs: seq<(int, YearRun)>): seq<(string, seq<Json>)> {
    if runs == [] then []
    else (if runs[0].1.written.Some? then [(ParquetName(runs[0].0), runs[0].1.written.value)] else []) + WrittenFiles(runs[1..])
  }

  /** Every file the year loop writes matches the glob the details job reads,
      and no two years write the same file. */
  lemma {:induction false} WrittenFilesDistinct(step: int -> YearRun, year: int, endYear: int, files: seq<(string, seq<Json>)>)
    requires files == WrittenFiles(ProcessYears(step, year, endYear))
    ensures forall i :: 0 <= i < |files| ==> MatchesGlob(files[i].0)
    ensures forall i, j :: 0 <= i < j < |files| ==> files[i].0 != files[j].0
    ensures forall i :: 0 <= i < |files| ==> exists y :: year <= y <= endYear && files[i].0 == ParquetName(y)
    decreases endYear - year + 1
  {
    if year <= endYear {
      var runs := ProcessYears(step, year, endYear);
      var rest := WrittenFiles(ProcessYears(step, year + 1, endYear));
      WrittenFilesDistinct(step, year + 1, endYear, rest);
      ParquetNames(year, year);
      var head := if step(year).written.Some? then [(ParquetName(year), step(year).written.value)] else [];
      if step(year).aborted {
        assert runs == [(year, step(year))];
        assert files == head;
      } else {
        assert runs[1..] == ProcessYears(step, year + 1, endYear);
        assert files == head + rest;
        forall i | 0 <= i < |rest|
          ensures rest[i].0 != ParquetName(year)
        {
          var y :| year + 1 <= y <= endYear && rest[i].0 == ParquetName(y);
          ParquetNames(y, year);
        }
        forall i | 0 <= i < |rest| ensures MatchesGlob(rest[i].0) && exists y :: year <= y <= endYear && rest[i].0 == ParquetName(y) {
          var y :| year + 1 <= y <= endYear && rest[i].0 == ParquetName(y);
        }
      }
    }
  }
}
