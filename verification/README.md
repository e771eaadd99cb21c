# TMDB harvester: the decision logic, in Dafny

This project models the sequential logic of an asynchronous harvester for The
Movie Database (TMDB) API. The network, the files and the clock are not
modelled. What is modelled:

- how ids are cut into batches;
- how a job resumes against an existing output file;
- how rows are serialised;
- how each variant of the discover job plans and aggregates its pages;
- how each batch writer folds over its batches;
- how `fetch_api_data` classifies an attempt and decides to retry;
- how the two-stage pipeline propagates a failing stage.

Everything the network decides is an input:

- A fetch that goes through the retry policy is a stream of per-attempt
  results: `Transient`, `Fatal`, `HttpError`, `BadBody` or `Ok(body)`.
- A job that fetches by id takes an `int -> Fetched<Json>` function.
- A discover job takes a `Params -> Fetched<Page>` function.
- `Fetched` is either `Returned(Option<value>)`, a value or Python's `None`,
  or `Raised`, an exception that reaches the caller.
- `json.dumps` is an uninterpreted function parameter `dumps: Json -> string`.

Modules, following the repository's files:

| module | file | models |
|---|---|---|
| `Wrappers` | wrappers.dfy | `Option` and `Result` |
| `Json` | json.dfy | JSON values, Python truthiness, `serialize_json`, `clean_text` |
| `Batching` | batching.dfy | `chunked` and the `(n + b - 1) // b` batch count |
| `Resumption` | resumption.dfy | `resolve_write_mode` |
| `Fetch` | fetch.dfy | `fetch_api_data` with its tenacity policy (5 attempts, retry only on client and timeout errors), for positional calls and for keyword-only calls |
| `Gather` | gather.dfy | `asyncio.gather`, with and without `return_exceptions=True` |
| `BatchWriter` | writer.dfy | the CSV writer loop as a log of `(mode, header, rows)` events; the single parquet writer as a log of unlink/open/write/close events |
| `Jobs` | jobs.dfy | what the batch jobs share: reading an input CSV, fetching a batch, strict and lenient batches |
| `People`, `TmdbPeople` | people.dfy | ingestion/get_people.py and ingestion/tmdb/get_people.py |
| `IngestionMovieDetails`, `ScriptMovieDetails` | movie_details.dfy | ingestion/get_movie_details.py and scripts/get_movie_details.py |
| `Cast` | cast.dfy | scripts/get_cast.py |
| `Decimal` | decimal.dfy | decimal formatting of years (`f"{year}"`) and reading it back |
| `Discovery` | discovery.dfy | what the three discover variants share: page requests, the year loop, page aggregation, `movies_{year}.parquet` names |
| `DiscoverMovies` | discover_movies.dfy | tmdb_ingestion/jobs/discover_movies.py |
| `GetMoviesJob` | get_movies_job.dfy | tmdb_ingestion/jobs/get_movies.py |
| `CollectMovies` | collect_movies.dfy | ingestion/get_movies.py |
| `TmdbMoviesScript` | tmdb_movies_script.dfy | scripts/get_tmdb_movies.py |
| `Paths` | paths.dfy | `ensure_path_exists` of tmdb_ingestion/utils.py |
| `MovieDetailsJob` | details_job.dfy | tmdb_ingestion/jobs/fetch_movie_details.py |
| `Orchestrator` | orchestrator.dfy | tmdb_ingestion/ingest_tmdb.py |

Three scripts, scripts/get_cast.py, scripts/get_movie_details.py and
ingestion/tmdb/get_people.py, do `from utils import ...`. The model takes this
to resolve to ingestion/utils.py, the only `utils` that defines
`resolve_write_mode`, so their `fetch_api_data` serialises by default.

Two behaviours of the code that a reader might not expect, and that the model
follows:

- **The parquet writer on failure.** In `_fetch_details_and_credits`, an
  exception from a batch leaves the function before `writer.close()`, so the
  writer is not closed. `BatchWriter.ParquetJob` closes the writer only when
  it was opened and no batch failed.
- **A failing first page.** Only a `None` or falsy first page skips a year.
  - In the two tmdb_ingestion jobs, an exception from the first page
    propagates and ends the job (`DiscoverMovies.FirstRequestRaises`).
  - In ingestion/get_movies.py, a `None` first page is dereferenced and the
    job ends with an AttributeError. `CollectMovies.CollectRange` models this
    as an abort.

## Model

| member | source | states |
|---|---|---|
| Json.SerializeValue | ingestion/utils.py:69 | A list or dict value becomes the string `dumps(v)`. Any other value is kept as it is. The result is never a list or dict. |
| Json.SerializeJson | ingestion/utils.py:67-71 | The key set is unchanged. Exactly the list and dict values are replaced by their `dumps` text, and every other value is kept. No list or dict value remains. |
| Json.SerializeJsonIdempotent | ingestion/utils.py:67-71 | Serialising twice gives the same row as serialising once. |
| Json.SerializeJsonFlatRowUnchanged | tmdb_ingestion/utils.py:57-61 | A row with no list or dict value is returned unchanged. |
| Json.CleanText | scripts/get_tmdb_movies.py:29-31 | The length is kept. Each U+2028 and U+2029 becomes a space, and every other character stays in its position. |
| Json.CleanTextHasNoSeparator | scripts/get_tmdb_movies.py:29-31 | The output contains no U+2028 and no U+2029. |
| Json.CleanTextIdempotent | scripts/get_tmdb_movies.py:29-31 | Cleaning twice equals cleaning once. |
| Json.CleanTextKeepsCleanText | scripts/get_tmdb_movies.py:29-31 | A text without the two separators is left unchanged. |
| Batching.Chunked | ingestion/utils.py:20-23 | `chunked`: the slices of the input list, `batch_size` at a time. No contract of its own: Batching.ChunkedFlattens, Batching.ChunkedSizes and Batching.ChunkedCount state what it yields. |
| Batching.ChunkedFlattens | ingestion/utils.py:20-23 | Concatenating the chunks gives back the input exactly, in order. |
| Batching.ChunkedSizes | tmdb_ingestion/utils.py:22-25 | For a positive batch size, every chunk is non-empty and at most batch-size long. All chunks but the last are exactly batch-size long. |
| Batching.ChunkedCount | tmdb_ingestion/jobs/fetch_movie_details.py:117-126 | The number of chunks is `(n + b - 1) div b`. This is the batch count the job announces, and its slice loop produces that many batches. |
| Resumption.IsYesExactly | ingestion/utils.py:41 | The answer lower-cases to "y" exactly when it is "y" or "Y". |
| Resumption.Unseen | ingestion/utils.py:48 | `list(set(all_ids) - set(ids_seen))`: no duplicates, and its elements are exactly the ids not seen. |
| Resumption.Dedup | ingestion/get_people.py:45 | `list(set(ids))`: no duplicates, and the same elements as the input. |
| Resumption.ResolveWriteMode | ingestion/utils.py:37-61 | No sink, or an existing sink with answer "y": mode `'w'`, every id in input order, header. Otherwise: mode `'a'`, no header, and a duplicate-free work set whose elements are exactly all ids minus the seen ids. The header is set exactly when the mode is `'w'`. |
| Resumption.AppendWorkSet | ingestion/utils.py:45-48 | In append mode, every id to fetch is a candidate that has not been seen, and every unseen candidate is fetched. |
| Resumption.WorkSetIgnoresStoredOrder | ingestion/utils.py:47-48 | The plan depends only on the set of stored ids, not on their order or repetitions. |
| Resumption.ResumeAfterCompleteRun | ingestion/utils.py:45-48 | Once the fetched ids are appended to the sink, resuming again finds nothing to fetch. Appending keeps a duplicate-free sink duplicate-free. |
| Resumption.AppendScenario | ingestion/utils.py:45-55 | Sink holding 2, candidates [1, 2, 3], answer "n": append ids [1, 3] without a header. |
| Fetch.Decode | ingestion/utils.py:86-95 | With `serialize`, a value is returned exactly when the body is an object, and it is that object serialised. Without `serialize`, a value is returned exactly when the body is not `null`, and it is the body itself. |
| Fetch.AttemptFrom | ingestion/utils.py:73-78 | From attempt `n` on: all attempts before the last were transient. Fewer than 5 attempts means the last was not transient. The outcome is retries-exhausted exactly when the last attempt was transient. One notice is issued per retry. |
| Fetch.FetchApiData | ingestion/utils.py:73-98 | A positional call makes between 1 and 5 attempts. The retry notice fires once between consecutive attempts, for attempts 1 to attempts-1, and never after the last. |
| Fetch.FetchOutcome | ingestion/utils.py:73-98 | The first non-transient attempt `k` decides the call after `k+1` attempts. A fatal exception propagates. An HTTP error or an unreadable body gives None. A decoded body gives its value. |
| Fetch.FetchExhausted | ingestion/utils.py:73-78 | Five transient failures raise after exactly 5 attempts, with notices for attempts 1 to 4. |
| Fetch.HttpErrorNotRetried | ingestion/utils.py:85-98 | An HTTP error status or an unparseable body returns None after a single attempt, with no notice. |
| Fetch.ThreeTransientThenSuccess | ingestion/utils.py:73-98 | Three transient failures followed by a good body return that body after 4 attempts, with notices 1, 2, 3. |
| Fetch.KeywordFetchApiData | tmdb_ingestion/utils.py:53-69 | A call with keyword arguments only makes exactly one attempt and no notice. It raises exactly when that attempt is transient, because `notify_before_retry` reads `retry_state.args[1]` and `args` is empty. Any other first attempt decides the call as in a positional call. |
| Fetch.KeywordCallNotRetried | tmdb_ingestion/jobs/get_movies.py:94-100 | After one transient failure and then a body, a positional call returns that body after 2 attempts with notice 1. The keyword-only call that the tmdb_ingestion jobs make raises after its single attempt. |
| Fetch.UnserializedPayloadUnchanged | tmdb_ingestion/utils.py:69-82 | With the default `serialize=False`, a parsed payload is returned unchanged. |
| Fetch.IngestionFetchReturnsFlatRows | ingestion/utils.py:79-90 | With the default `serialize=True`, every returned value is an object without list or dict values. |
| Gather.GatherAll | ingestion/get_movie_details.py:62 | `gather` without `return_exceptions` fails exactly when some task raised. Otherwise it gives each task's value in task order. |
| Gather.ValidResults | ingestion/get_people.py:76-84 | Every kept value is a non-None value some task returned, and every such value is kept. |
| Gather.ValidResultsAppend | ingestion/get_people.py:78-84 | The filter keeps task order: it distributes over concatenation. |
| BatchWriter.WriteBatches | scripts/get_cast.py:56-82 | The run aborts exactly when some batch failed. The first write uses the initial mode and header. Every later write is `'a'` with no header. Either every completed batch is written, or only the non-empty ones. |
| BatchWriter.SameRowsEitherPolicy | ingestion/get_people.py:86-87 | Skipping empty batches loses no row: both policies persist the same rows in the same order. |
| BatchWriter.HeaderAtMostOnce | ingestion/get_people.py:52-55 | The header is written once when it was requested and something was written, and never otherwise. |
| BatchWriter.ModeMatchesHeader | scripts/get_cast.py:52-53 | Starting with `'w'` exactly when the header is set, every write truncates exactly when it writes a header. |
| BatchWriter.WriteEveryBatch | ingestion/get_movie_details.py:49-76 | When every batch completes, the always-write loop writes one event per batch, holding that batch's rows. |
| BatchWriter.StreamBatches | tmdb_ingestion/jobs/fetch_movie_details.py:125-164 | The writer is opened before the first table, once. Every completed batch is one table, in order. A failing batch stops the loop. |
| BatchWriter.ParquetJob | tmdb_ingestion/jobs/fetch_movie_details.py:107-171 | The old output is unlinked first, exactly when it exists. The writer is opened exactly when a batch completed. It is closed once, as the last event, exactly when it was opened and no batch failed. |
| BatchWriter.NoBatchesNoFile | tmdb_ingestion/jobs/fetch_movie_details.py:114-171 | With no batch, the job opens no writer and writes no file. |
| Jobs.StrictBatchOk | ingestion/get_movie_details.py:62 | A batch in which no fetch raises gathers to the fetched values in order. |
| Jobs.StrictBatch | ingestion/get_movie_details.py:55-62 | A batch gathered without `return_exceptions` fails exactly when one of its fetches raises. Otherwise it holds one result per id, in id order, `None` included. |
| Jobs.LenientBatch | ingestion/get_people.py:62-84 | A batch gathered with `return_exceptions=True` never fails. Every kept value is a non-None value some fetch of the batch returned, and every such value is kept. |
| Jobs.StrictJobPersistsEveryResult | ingestion/get_movie_details.py:49-76 | When no fetch raises, the rows written are exactly the fetched values of all ids, in order, with None included. |
| Jobs.LenientJobPersistsValidResults | ingestion/get_people.py:62-99 | The lenient job never aborts. The rows written are exactly the non-None, non-exception results, in order. |
| People.CollectPeople | ingestion/get_people.py:38-99 | A missing credits.csv gives a FileNotFoundError naming get_credits.py. Another read error gives a RuntimeError. The job returns before any fetch exactly when the work set is empty. Every batch written is non-empty. |
| People.PeopleWrites | ingestion/get_people.py:45-99 | The work set has no duplicates and only credited ids. The header is written at most once, on the first write, as the plan requested. Later writes are `'a'`. The rows are the valid results of the work set. |
| TmdbPeople.TopBilled | ingestion/tmdb/get_people.py:25 | An id is selected exactly when some credit row with that id has order at most 5. |
| TmdbPeople.SelectPeople | ingestion/tmdb/get_people.py:23-28 | A read failure or an unusable order column gives FileNotFoundError. Otherwise the ids are duplicate-free and exactly the top-billed ones. |
| TmdbPeople.CollectPeople | ingestion/tmdb/get_people.py:23-63 | The job fails exactly when the selection fails, and then with FileNotFoundError. It never stops early for an empty work set. |
| TmdbPeople.TmdbPeopleWrites | ingestion/tmdb/get_people.py:31-63 | At most one header. Each write truncates exactly when it writes the header. When no fetch raises, the rows are the fetched values of the work set, in order. |
| IngestionMovieDetails.CollectMovieDetails | ingestion/get_movie_details.py:39-46 | A missing movies.csv gives a FileNotFoundError naming get_movies.py. Another read error propagates. A readable file runs the job. |
| IngestionMovieDetails.MovieDetailsWrites | ingestion/get_movie_details.py:45-76 | The first write is `'w'` with the header. Every later write is `'a'` without it, so there is exactly one header when anything is written. When no fetch raises, there are `ceil(n / 500)` writes holding every result in order. |
| ScriptMovieDetails.CollectMovieDetails | scripts/get_movie_details.py:21-32 | Any failure reading movies.csv gives FileNotFoundError. A readable file runs the job. |
| ScriptMovieDetails.ScriptMovieDetailsWrites | scripts/get_movie_details.py:28-63 | The first mode is `'w'` exactly when the plan asks for the header. Later writes are `'a'` without a header, and there is at most one header. In append mode, no stored id is fetched. When no fetch raises, the rows are the fetched values in order. |
| Cast.CastMembers | scripts/get_cast.py:69-71 | A list of objects gives one member per element. An empty string or an empty object gives no members. Anything else makes the loop raise. |
| Cast.CastRow | scripts/get_cast.py:71-72 | A cast row has the member's keys plus `movie_id`, which holds the movie's id. Every other value is serialised. |
| Cast.MovieRows | scripts/get_cast.py:65-72 | A movie with falsy data gives no rows. Truthy data without a `cast` key raises. A cast that is a list of objects gives one row per member, in cast order, each built from that member and this movie's id. Every row carries this movie's `movie_id`. |
| Cast.ExtractCastRows | scripts/get_cast.py:65-72 | Extraction raises exactly when one movie's extraction raises. Otherwise the rows are each movie's rows concatenated in batch order. |
| Cast.ExtractCastTagsRows | scripts/get_cast.py:65-72 | Every extracted row carries the id of a movie of the batch whose data was truthy. Which movie, and in what order, is stated by Cast.ExtractCastRows. |
| Cast.CollectCast | scripts/get_cast.py:22-27 | Any failure reading movies.csv gives FileNotFoundError. A readable file runs the job. |
| Cast.CastBatchTagsRows | scripts/get_cast.py:56-72 | Every row of a batch carries the id of one of the batch's movies. |
| Cast.CastBatchRows | scripts/get_cast.py:56-72 | When no fetch of the batch raises, the batch fails exactly when a movie's extraction raises. Otherwise its rows are its movies' rows in batch order. |
| Cast.CastJobRows | scripts/get_cast.py:56-82 | When no fetch raises, the run aborts exactly when a movie's cast cannot be iterated. Otherwise the rows written across all batches are every movie's rows, in work-set then cast order. |
| Cast.WrittenRowsTagged | scripts/get_cast.py:56-82 | Every written row carries the id of a movie of the work set. |
| Cast.CastWrites | scripts/get_cast.py:30-82 | The first write truncates exactly when it writes the header, which the plan requested. Later writes append without a header, and there is at most one header. Every row is tagged with an id of the work set. When no fetch raises, the rows written are every movie's cast rows in work-set then cast order, unless a cast cannot be iterated, which aborts the run. |
| Paths.Parent | tmdb_ingestion/utils.py:51 | The parent path is the path without its last part. |
| Paths.SuffixCharacterization | tmdb_ingestion/utils.py:51 | A name has a suffix exactly when its last dot is neither its first nor its last character. The suffix is then that dot and what follows it. |
| Paths.EnsureTarget | tmdb_ingestion/utils.py:49-51 | The directory created is the parent when the path has a suffix, and the path itself otherwise. |
| Paths.EnsureTargetExamples | tmdb_ingestion/utils.py:49-51 | For `movies/movies_2000.parquet` the directory created is `movies`. A directory path is created as itself. |
| Discovery.WithPage | tmdb_ingestion/jobs/discover_movies.py:153 | `dict(params, page=page)` has the base keys plus `page` and that page number. Every other value is inherited. |
| Discovery.PageRequests | tmdb_ingestion/jobs/discover_movies.py:150-162 | One request for each page from first to last, in order. Each request is the base parameters with only the page number changed. |
| Discovery.Contribution | tmdb_ingestion/jobs/discover_movies.py:174-179 | What one later page adds to the movie list: nothing for a missing or falsy page, its `results` otherwise. No contract of its own: Discovery.AggregateMembers states its effect. |
| Discovery.Aggregate | tmdb_ingestion/jobs/discover_movies.py:174-179 | The loop over the gathered later pages. No contract of its own: Discovery.AggregateAppend and Discovery.AggregateMembers state its order and its members. |
| Discovery.DatesBracketYear | tmdb_ingestion/jobs/discover_movies.py:107-108 | `"{year}-01-01"` and `"{year}-12-31"` both read back as the same year, with those day suffixes. |
| Discovery.AggregateAppend | tmdb_ingestion/jobs/discover_movies.py:174-179 | Aggregation keeps page order: it distributes over concatenation. |
| Discovery.AggregateMembers | tmdb_ingestion/jobs/discover_movies.py:174-179 | A movie is aggregated exactly when a present page lists it. |
| Discovery.PagesGathered | tmdb_ingestion/jobs/discover_movies.py:150-171 | When no page fetch raises, gathering the requests gives each page's data in page order. |
| Discovery.ProcessYears | tmdb_ingestion/jobs/discover_movies.py:98 | Years are processed ascending from the start year, one at a time. Only the last processed year may have raised, and a run that stops early stopped on a year that raised. |
| Discovery.ParquetNames | tmdb_ingestion/jobs/discover_movies.py:186 | `movies_{year}.parquet` matches the details job's `movies_*.parquet` glob, and distinct years give distinct names. |
| Discovery.WrittenFilesDistinct | tmdb_ingestion/jobs/discover_movies.py:181-188 | The files a run writes all match the glob, are pairwise distinct, and are each named after a year of the range. |
| Decimal.IntToString | tmdb_ingestion/jobs/discover_movies.py:186 | `f"{year}"`: the decimal form of an integer, never empty. |
| Decimal.IntToStringRoundTrip | tmdb_ingestion/jobs/discover_movies.py:186 | Reading back the decimal form of any integer, negative ones included, gives that integer. |
| Decimal.IntToStringInjective | tmdb_ingestion/jobs/discover_movies.py:186 | Distinct integers have distinct decimal forms, so distinct years give distinct file names. |
| DiscoverMovies.SettingsDefaults | tmdb_ingestion/jobs/discover_movies.py:38 | Unconfigured settings give 100 votes, no adult titles, ascending release date and 500 pages. A configured value wins. |
| DiscoverMovies.BaseParams | tmdb_ingestion/jobs/discover_movies.py:105-113 | A year's parameters have seven keys: the API key, `"{year}-01-01"` as the lower date bound and `"{year}-12-31"` as the upper one, the lower-cased `include_adult`, the vote threshold, the sort order, and page 1. |
| DiscoverMovies.EffectiveTotal | tmdb_ingestion/jobs/discover_movies.py:137-147 | The page total is the smaller of the reported total and `max_pages`. |
| DiscoverMovies.LaterPages | tmdb_ingestion/jobs/discover_movies.py:135-183 | After a usable first page, the requests are the base, then pages 2 onward with only the page number changed, at most `max_pages` in all. A written result is non-empty and comes from a run that did not raise. |
| DiscoverMovies.DiscoverYear | tmdb_ingestion/jobs/discover_movies.py:105-183 | A year sends its base request first, then later pages with only the page number changed, and at most `max_pages` requests. A first page that raises ends the run after that single request. |
| DiscoverMovies.SkippedYear | tmdb_ingestion/jobs/discover_movies.py:125-133 | A `None` first page, or one with missing or empty results, skips the year: no further request and no write. |
| DiscoverMovies.YearAggregation | tmdb_ingestion/jobs/discover_movies.py:135-179 | The job warns exactly when the reported total exceeds `max_pages`. It requests exactly the effective total of pages. It writes the first page's movies followed by those of pages 2 to the total, in page order. |
| DiscoverMovies.YearMembers | tmdb_ingestion/jobs/discover_movies.py:174-179 | A movie is written exactly when the first page or a later page lists it. |
| DiscoverMovies.ClampScenario | tmdb_ingestion/jobs/discover_movies.py:137-162 | With the defaults and 750 reported pages, the job warns and sends 500 requests, the last for page 500. |
| DiscoverMovies.DiscoverRange | tmdb_ingestion/jobs/discover_movies.py:97-98 | Years run from `start_year` upward. All years up to `end_year` are processed unless one raises. |
| DiscoverMovies.DiscoverFiles | tmdb_ingestion/jobs/discover_movies.py:181-188 | Every file written is non-empty and found by the details glob, and no year's file is written twice. |
| DiscoverMovies.FirstRequestRaises | tmdb_ingestion/jobs/discover_movies.py:116-123 | An exception from the first year's first request ends the run after one year, with no file written. |
| GetMoviesJob.YearParams | tmdb_ingestion/jobs/get_movies.py:82-91 | The parameters hold the caller's API key, the year, `"false"` for adult titles and page 1. `vote_count.gte` is present exactly when it is configured. |
| GetMoviesJob.Clamp | tmdb_ingestion/jobs/get_movies.py:106-115 | The page total is the smaller of the reported total and the hard limit of 500. |
| GetMoviesJob.GetMoviesYear | tmdb_ingestion/jobs/get_movies.py:76-139 | The base request comes first, then later pages inheriting every base parameter, at most 500 requests. A written result is non-empty. |
| GetMoviesJob.SkipsOnlyFalsyFirstPage | tmdb_ingestion/jobs/get_movies.py:102-104 | A `None` or falsy first page skips the year with no further request. |
| GetMoviesJob.YearMovies | tmdb_ingestion/jobs/get_movies.py:106-144 | The job warns exactly above 500 pages and requests pages 2 to the clamped total. It writes exactly when the first page's results plus the later pages' results are non-empty, and it writes exactly that list. |
| GetMoviesJob.FirstPageWithoutResults | tmdb_ingestion/jobs/get_movies.py:116 | A first page without `results` contributes nothing, but the year is not skipped: the later pages are still fetched and written. |
| GetMoviesJob.GetMoviesRange | tmdb_ingestion/jobs/get_movies.py:76 | Years ascend one at a time, and all of them are processed unless one raises. |
| CollectMovies.YearRanges | ingestion/get_movies.py:24-29 | There are exactly 26 ranges, from `"2000-01-01"`/`"2000-12-31"` through 2025. |
| CollectMovies.RangeParams | ingestion/get_movies.py:44-50 | A range's parameters have five keys: the caller's API key, its two dates, 10 votes and ascending release date. |
| CollectMovies.PagesToFetch | ingestion/get_movies.py:60 | The page count is the smaller of the reported total (1 by default) and 500. |
| CollectMovies.CollectRange | ingestion/get_movies.py:52-76 | The first request is the base. A `None` or raising first page ends the job. Otherwise pages 1 to the count are requested again, each with only the page number added. |
| CollectMovies.RangeMovies | ingestion/get_movies.py:64-93 | The range's movies come only from the fan-out pages 1 to the count, in page order. Page 1 is requested again right after the base request. |
| CollectMovies.CollectMovies | ingestion/get_movies.py:40-98 | `collect_movies` over the 26 year ranges. No contract of its own: CollectMovies.CollectConcatenates states what it writes. |
| CollectMovies.CollectConcatenates | ingestion/get_movies.py:40-98 | The single final write happens exactly when no range failed. It holds every range's movies concatenated in year order. |
| TmdbMoviesScript.CleanValue | scripts/get_tmdb_movies.py:61-65 | A list or dict becomes its `dumps` text. A string keeps its length and loses its separators. Any other value is unchanged. |
| TmdbMoviesScript.CleanMovie | scripts/get_tmdb_movies.py:60-65 | A movie keeps its keys, and each value is cleaned. A movie that is not an object makes the script raise. |
| TmdbMoviesScript.CleanMovieFlat | scripts/get_tmdb_movies.py:60-65 | A cleaned movie holds no list or dict, and none of its strings holds a separator. |
| TmdbMoviesScript.CleanMovies | scripts/get_tmdb_movies.py:58-65 | A page is cleaned exactly when all its movies are objects, and each is cleaned in place. |
| TmdbMoviesScript.PageOutcome | scripts/get_tmdb_movies.py:46-65 | A page is kept exactly when its JSON parsed and its results are a non-empty list of objects. The script raises exactly on an HTTP error or a non-object movie. Every other page ends the year. |
| TmdbMoviesScript.PageLoop | scripts/get_tmdb_movies.py:44-67 | One year's page loop. No contract of its own: TmdbMoviesScript.PageLoopRequests, PageLoopSteps, PageLoopMovies and PageLoopKept state it. |
| TmdbMoviesScript.PageLoopRequests | scripts/get_tmdb_movies.py:44-46 | A year requests consecutive pages from its first page on, never past 500, and at least one. |
| TmdbMoviesScript.PageLoopSteps | scripts/get_tmdb_movies.py:44-56 | Every page before the last was kept. A year that stops before page 500 stopped on a page it did not keep. The script raised exactly when that page crashed. |
| TmdbMoviesScript.PageLoopMovies | scripts/get_tmdb_movies.py:58-67 | Every kept movie comes from a requested page that was kept. |
| TmdbMoviesScript.PageLoopKept | scripts/get_tmdb_movies.py:44-67 | A year that does not raise keeps exactly the movies of its kept pages, in page order. |
| TmdbMoviesScript.YearParams | scripts/get_tmdb_movies.py:36-41 | A year's parameters have four keys: the caller's API key, `"{year}-01-01"` and `"{year}-12-31"` as the date bounds, and at least 10 votes. |
| TmdbMoviesScript.YearLoop | scripts/get_tmdb_movies.py:34-67 | The loop over the years from the start to 2024. No contract of its own: TmdbMoviesScript.YearLoopPages and YearLoopConcatenates state it. |
| TmdbMoviesScript.YearLoopPages | scripts/get_tmdb_movies.py:34-46 | The loop's first request is page 1 of its first year's query, and every request asks for a page between 1 and 500. |
| TmdbMoviesScript.YearLoopConcatenates | scripts/get_tmdb_movies.py:23-67 | The loop raises exactly when one year from the start to 2024 raises. Otherwise its requests and movies are each year's own, concatenated in year order. Every such year was asked for its page 1, and each year's movies are those of its kept pages. |
| TmdbMoviesScript.RunScript | scripts/get_tmdb_movies.py:23-73 | The frame the script writes, or None when it raised. No contract of its own: TmdbMoviesScript.RunScriptWrites states it. |
| TmdbMoviesScript.RunScriptWrites | scripts/get_tmdb_movies.py:23-73 | The frame is written exactly when no year from 2000 to 2024 raises. It then holds the movies of every year, in year then page order. |
| MovieDetailsJob.SortByName | tmdb_ingestion/jobs/fetch_movie_details.py:47 | `sorted(...)`: a permutation of the matching files, ordered by name. |
| MovieDetailsJob.Matching | tmdb_ingestion/jobs/fetch_movie_details.py:47 | The glob keeps exactly the files named `movies_*.parquet`. |
| MovieDetailsJob.MoviesFilesEmpty | tmdb_ingestion/jobs/fetch_movie_details.py:47-52 | The input list is empty exactly when no file in the directory matches the glob. |
| MovieDetailsJob.Tag | tmdb_ingestion/jobs/fetch_movie_details.py:186-199 | Each row pairs a movie id with that movie's payload, None included, one row per id in order. |
| MovieDetailsJob.DetailsBatch | tmdb_ingestion/jobs/fetch_movie_details.py:128-152 | A batch fails exactly when one of its fetches raises. |
| MovieDetailsJob.RunMovieDetails | tmdb_ingestion/jobs/fetch_movie_details.py:39-126 | The job fails exactly when no file matches, with the FileNotFoundError that names discover_movies.py. Otherwise an existing output is unlinked first. A zero batch size raises before any writer is opened. |
| MovieDetailsJob.StrictDetailsBatches | tmdb_ingestion/jobs/fetch_movie_details.py:125-164 | When no fetch raises, every batch completes, and the tables hold one row per id of all batches, in order. |
| MovieDetailsJob.DetailsOneRowPerMovie | tmdb_ingestion/jobs/fetch_movie_details.py:100-171 | When no fetch raises, the output holds one row per movie id, in the order of the sorted files, with its payload. It is written in `ceil(n / batch_size)` tables, and the writer is closed exactly when there was an id. |
| MovieDetailsJob.FirstFetchRaisesWritesNothing | tmdb_ingestion/jobs/fetch_movie_details.py:109-164 | If the first movie's fetch raises, the old output is already gone, no writer is opened and nothing is written. |
| Orchestrator.RunFullIngestion | tmdb_ingestion/ingest_tmdb.py:24-49 | Discovery runs first. Its failure is re-raised and details are never started. A details failure is re-raised. The summary is printed exactly when neither stage raised. |
| Orchestrator.FullIngestion | tmdb_ingestion/ingest_tmdb.py:26-40 | Discovery followed by the details job over the directory discovery leaves behind. No contract of its own: Orchestrator.RunFullIngestion and Orchestrator.DiscoveredFilesFeedDetails state it. |
| Orchestrator.ListingAfter | tmdb_ingestion/jobs/discover_movies.py:186-188 | After discovery the directory holds every file discovery wrote, plus only files that were already there. |
| Orchestrator.DiscoveredFilesFeedDetails | tmdb_ingestion/ingest_tmdb.py:24-40 | Once discovery has written a file, the details stage cannot fail because its input is missing. |

## Left out

- Concurrency is not modelled: aiohttp sessions, the rate limiter, the semaphore and task scheduling. `gather` is modelled only as "results in task order".
- The tenacity waits (`wait_exponential`) and the exact `RetryError` wrapping are not modelled. The model keeps the 5-attempt limit and the set of retried exceptions.
- pandas, pyarrow, CSV and parquet encoding, and the text of `json.dumps` are not modelled. A write event holds the rows handed to the writer.
- `input()` is not modelled: the user's answer is a parameter. The ids already stored in an output file are a parameter too.
- `load_config`, `get_api_key`, `get_root_dir`, the command-line overrides, `print` output, progress bars, sleeps and the elapsed-time arithmetic are not modelled.
- The tmdb_ingestion jobs (discover, get_movies, fetch_movie_details) take their fetch results as inputs. Those jobs call `fetch_api_data` with keyword arguments only, so a transient failure raises instead of being retried. Fetch.KeywordFetchApiData states this, and the jobs' inputs admit that raise as `Raised`. The model does not derive the jobs' inputs from it.
- The `ingested_at` timestamp of a details row is a clock read and is not modelled.
- `_fetch_with_metadata` and the discover fan-out pass `timeout=` to `fetch_api_data`, whose signature declares no such parameter (discover_movies.py:122 and 160, fetch_movie_details.py:139 and 192). The tmdb_ingestion jobs take their fetch results as abstract inputs and do not model that call.
- Page JSON shape: a discover page is a record of optional `results` (a list), optional `total_pages` and whether other keys are present. A `null` value is treated like a missing key. Three places where the code would raise on `null` are therefore modelled as the default instead:
  - `null` results: `extend(None)` at tmdb_ingestion/jobs/get_movies.py:116 and 135;
  - `null` total_pages: `None > 500` at tmdb_ingestion/jobs/get_movies.py:109, `None > max_pages` at tmdb_ingestion/jobs/discover_movies.py:140, and `min(None, 500)` at ingestion/get_movies.py:60. The model uses the default of 1.
- JSON numbers are integers: floats do not occur in the decisions modelled.
- Batching.Chunked: requires a positive batch size. `range(0, n, 0)` raises, and the fetch_movie_details model handles a zero batch size itself. A negative size yields no batch.
- People.CollectPeople: the RuntimeError message omits the full path and the exception text.
- The order of `list(set(...))` is CPython's hash order. The model fixes one order, and the contracts speak only of elements and duplicates.
- `sorted()` on paths is modelled as code-point order on file names within one directory.
- The one-call seed and lookup scripts, the database loaders, ingestion/get_credits.py, ingestion/get_movie_details_and_credits.py and ingestion/ingest_tmdb.py are not part of this model.
- GetMoviesJob.SkipsOnlyFalsyFirstPage: states only that a falsy first page skips the year. The converse, that a truthy first page is never skipped, is stated by GetMoviesJob.YearMovies under its precondition.
