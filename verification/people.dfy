/** ingestion/get_people.py: person details for every person id of credits.csv,
    appended to people.csv in batches; failed fetches are dropped and a batch
    left with no result is not written. */
module People {
  import opened Wrappers
  import opened Json
  import opened Fetch
  import opened Gather
  import opened Batching
  import opened BatchWriter
  import opened Resumption
  import opened Jobs

  const CreditsMissing: string := "You must run get_credits.py before running this script"
  const CreditsUnreadable: string := "Error reading credits.csv"

  /** The person endpoint through `fetch_api_data` with its default `serialize=True`. */
  function PersonFetch(net: Network, dumps: Json -> string): int -> Fetched<Json> {
    id => IngestionFetch(net(id), dumps)
  }

  /** The plan `resolve_write_mode(PEOPLE_CSV, "id", all_people_ids)` returns. */
  function PeoplePlan(creditIds: seq<int>, sinkExists: bool, answer: string, idsSeen: seq<int>): WritePlan {
    ResolveWriteMode(sinkExists, answer, idsSeen, Dedup(creditIds))
  }

  /** `collect_people()`. `credits` is the read of credits.csv (its `id` column),
      `sinkExists`/`answer`/`idsSeen` feed `resolve_write_mode` for people.csv. */
  function CollectPeople(credits: CsvRead<seq<int>>, sinkExists: bool, answer: string, idsSeen: seq<int>,
                         net: Network, dumps: Json -> string): (o: JobOutcome<Json>)
    ensures credits.Missing? ==> o == Failed(FileNotFound(CreditsMissing))
    ensures credits.Unreadable? ==> o == Failed(RuntimeError(CreditsUnreadable))
    ensures credits.Loaded? ==>
      (o.NothingToFetch? <==> PeoplePlan(credits.contents, sinkExists, answer, idsSeen).idsToFetch == [])
    ensures o.Ran? ==> !o.run.aborted && forall i :: 0 <= i < |o.run.log| ==> o.run.log[i].rows != []
  {
    match credits
    case Missing => Failed(FileNotFound(CreditsMissing))
    case Unreadable => Failed(RuntimeError(CreditsUnreadable))
    case Loaded(ids) =>
      var plan := PeoplePlan(ids, sinkExists, answer, idsSeen);
      if plan.idsToFetch == [] then NothingToFetch
      else
        var fetch := PersonFetch(net, dumps);
        LenientJobPersistsValidResults(plan.idsToFetch, fetch, plan.mode, plan.header);
        Ran(WriteBatches(SkipEmpty, BatchOutcomes(plan.idsToFetch, BatchSize, b => LenientBatch(b, fetch)), plan.mode, plan.header))
  }

  /** What the writes of a run hold: the person ids are fetched once each
      (duplicates in credits.csv are dropped), the header goes with the first
      write only and only when `resolve_write_mode` asked for it, every later
      write appends, and the rows are the valid results of the work set in
      order. */
  lemma PeopleWrites(creditIds: seq<int>, sinkExists: bool, answer: string, idsSeen: seq<int>,
                     net: Network, dumps: Json -> string)
    ensures var plan := PeoplePlan(creditIds, sinkExists, answer, idsSeen);
      var o := CollectPeople(Loaded(creditIds), sinkExists, answer, idsSeen, net, dumps);
      && NoDuplicates(plan.idsToFetch)
      && Elements(plan.idsToFetch) <= Elements(creditIds)
      && (o.Ran? ==>
        && HeaderCount(o.run.log) == (if plan.header && |o.run.log| > 0 then 1 else 0)
        && (|o.run.log| > 0 ==> o.run.log[0].mode == plan.mode && o.run.log[0].header == plan.header)
        && (forall i :: 0 < i < |o.run.log| ==> o.run.log[i].mode == Append && !o.run.log[i].header)
        && Flatten(Rows(o.run.log)) == ValidResults(FetchAll(plan.idsToFetch, PersonFetch(net, dumps))))
  {
    var plan := PeoplePlan(creditIds, sinkExists, answer, idsSeen);
    var fetch := PersonFetch(net, dumps);
    var outs := BatchOutcomes(plan.idsToFetch, BatchSize, b => LenientBatch(b, fetch));
    HeaderAtMostOnce(SkipEmpty, outs, plan.mode, plan.header);
    LenientJobPersistsValidResults(plan.idsToFetch, fetch, plan.mode, plan.header);
    if !(sinkExists && !IsYes(answer)) {
      assert plan.idsToFetch == Dedup(creditIds);
    }
  }
}

/** ingestion/tmdb/get_people.py: the same job restricted to the first six
    billed cast members of every film, with every batch written. */
module TmdbPeople {
  import opened Wrappers
  import opened Json
  import opened Fetch
  import opened Gather
  import opened Batching
  import opened BatchWriter
  import opened Resumption
  import opened Jobs

  const CreditsMissing: string := "You must run get_credits.py before running this script"

  /** A row of credits.csv: the person id and its billing order (`NaN` when empty). */
  datatype CreditRow = CreditRow(id: int, order: Option<int>)

  /** Whether `df_credits["order"].astype(int)` succeeds: no order is empty. */
  predicate OrdersPresent(rows: seq<CreditRow>) {
    forall i :: 0 <= i < |rows| ==> rows[i].order.Some?
  }

  function TopBilled(rows: seq<CreditRow>): (ids: seq<int>)
    requires OrdersPresent(rows)
    ensures forall x :: x in ids <==> exists i :: 0 <= i < |rows| && rows[i].id == x && rows[i].order.value <= 5
  {
    if rows == [] then []
    else
      assert forall i :: 1 <= i < |rows| ==> rows[i] == rows[1..][i - 1];
      (if rows[0].order.value <= 5 then [rows[0].id] else []) + TopBilled(rows[1..])
  }

  /** Lines 23-28: the ids of credits whose order is at most 5, deduplicated;
      any failure of the read or the filter becomes a FileNotFoundError. */
  function SelectPeople(credits: CsvRead<seq<CreditRow>>): (r: Result<seq<int>, JobError>)
    ensures r.Failure? <==> !credits.Loaded? || !OrdersPresent(credits.contents)
    ensures r.Failure? ==> r.error == FileNotFound(CreditsMissing)
    ensures r.Success? ==> NoDuplicates(r.value)
    ensures r.Success? ==> forall x :: x in r.value <==>
      exists i :: 0 <= i < |credits.contents| && credits.contents[i].id == x && credits.contents[i].order.value <= 5
  {
    if credits.Loaded? && OrdersPresent(credits.contents) then
      var ids := TopBilled(credits.contents);
      var r := Dedup(ids);
      assert forall x :: x in r <==> x in Elements(r);
      assert forall x :: x in ids <==> x in Elements(ids);
      Success(r)
    else Failure(FileNotFound(CreditsMissing))
  }

  /** The person endpoint through `fetch_api_data` with its default `serialize=True`. */
  function PersonFetch(net: Network, dumps: Json -> string): int -> Fetched<Json> {
    id => IngestionFetch(net(id), dumps)
  }

  /** The module body and `collect_people()`: mode `'w'` exactly when the plan
      asks for a header, every batch written, `'a'` and no header afterwards. */
  function CollectPeople(credits: CsvRead<seq<CreditRow>>, sinkExists: bool, answer: string, idsSeen: seq<int>,
                         net: Network, dumps: Json -> string): (o: JobOutcome<Option<Json>>)
    ensures SelectPeople(credits).Failure? <==> o.Failed?
    ensures o.Failed? ==> o.error == FileNotFound(CreditsMissing)
    ensures !o.NothingToFetch?
  {
    match SelectPeople(credits)
    case Failure(e) => Failed(e)
    case Success(ids) =>
      var plan := ResolveWriteMode(sinkExists, answer, idsSeen, ids);
      var mode := if plan.header then Overwrite else Append;
      var fetch := PersonFetch(net, dumps);
      Ran(WriteBatches(WriteEvery, BatchOutcomes(plan.idsToFetch, BatchSize, b => StrictBatch(b, fetch)), mode, plan.header))
  }

  /** Each write truncates exactly when it carries the header, the header is
      written at most once, and a run in which no fetch raises persists one
      result per id of the work set, in order. */
  lemma TmdbPeopleWrites(rows: seq<CreditRow>, sinkExists: bool, answer: string, idsSeen: seq<int>,
                         net: Network, dumps: Json -> string)
    requires OrdersPresent(rows)
    ensures var plan := ResolveWriteMode(sinkExists, answer, idsSeen, SelectPeople(Loaded(rows)).value);
      var o := CollectPeople(Loaded(rows), sinkExists, answer, idsSeen, net, dumps);
      && o.Ran?
      && HeaderCount(o.run.log) <= 1
      && (forall i :: 0 <= i < |o.run.log| ==> (o.run.log[i].mode == Overwrite <==> o.run.log[i].header))
      && (NoneRaised(plan.idsToFetch, PersonFetch(net, dumps)) ==>
            !o.run.aborted && Flatten(Rows(o.run.log)) == Results(plan.idsToFetch, PersonFetch(net, dumps)))
  {
    var plan := ResolveWriteMode(sinkExists, answer, idsSeen, SelectPeople(Loaded(rows)).value);
    var mode := if plan.header then Overwrite else Append;
    var fetch := PersonFetch(net, dumps);
    var outs := BatchOutcomes(plan.idsToFetch, BatchSize, b => StrictBatch(b, fetch));
    HeaderAtMostOnce(WriteEvery, outs, mode, plan.header);
    ModeMatchesHeader(WriteEvery, outs, mode, plan.header);
    if NoneRaised(plan.idsToFetch, fetch) {
      StrictJobPersistsEveryResult(plan.idsToFetch, fetch, mode, plan.header);
    }
  }
}
