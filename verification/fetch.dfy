/** `fetch_api_data` of both utility modules: one GET under tenacity's retry
    policy. The network is replaced by the result of each attempt. */
module Fetch {
  import opened Wrappers
  import opened Json

  /** `stop_after_attempt(5)`. */
  const MaxAttempts: nat := 5

  /** What one attempt of the decorated coroutine ends with. */
  datatype Attempt =
    | Transient          // aiohttp.ClientError or asyncio.TimeoutError escaping the request
    | Fatal              // any other exception escaping the request: not retried
    | HttpError(status: int)  // raise_for_status() fails: caught, logged, None
    | BadBody            // response.json() (or serialising it) raises: caught, logged, None
    | Ok(body: Json)     // a decoded body

  /** `RetryExhausted`: tenacity's RetryError after the fifth attempt;
      `NotRetryable`: an exception outside the retried types; `NotifyFailed`:
      the IndexError `notify_before_retry` raises when the call passed fewer
      than two positional arguments, so `retry_state.args[1]` does not exist. */
  datatype FetchError = RetryExhausted | NotRetryable | NotifyFailed

  /** What awaiting the call yields: a value (possibly None) or a raised error. */
  datatype Fetched<+T> = Returned(data: Option<T>) | Raised(error: FetchError)
  {
    /** The value seen when the call did not raise. */
    function Value(): Option<T> {
      if Returned? then data else None
    }
  }

  /** The outcome, how many attempts ran, and the attempt numbers for which
      `notify_before_retry` fired. */
  datatype Trace = Trace(outcome: Fetched<Json>, attempts: nat, notices: seq<nat>)

  /** The value returned for a decoded body: `serialize_json(data)` when
      `serialize` (a non-object body makes it raise, which the handler turns
      into None), otherwise the body itself (JSON `null` decodes to None). */
  function Decode(body: Json, serialize: bool, dumps: Json -> string): (r: Option<Json>)
    ensures serialize ==> (r.Some? <==> body.JObj?)
    ensures serialize && body.JObj? ==> r == Some(JObj(SerializeJson(body.fields, dumps)))
    ensures !serialize ==> (r.Some? <==> !body.JNull?)
    ensures !serialize && !body.JNull? ==> r == Some(body)
  {
    if serialize then
      if body.JObj? then Some(JObj(SerializeJson(body.fields, dumps))) else None
    else
      if body.JNull? then None else Some(body)
  }

  predicate IsRetried(a: Attempt) {
    a.Transient?
  }

  /** Attempts `n`, `n+1`, ... where attempt `n` sees `tries(n - 1)`. */
  function AttemptFrom(tries: nat -> Attempt, n: nat, serialize: bool, dumps: Json -> string): (t: Trace)
    requires 1 <= n <= MaxAttempts
    ensures n <= t.attempts <= MaxAttempts
    ensures t.notices == seq(t.attempts - n, i => n + i)
    ensures forall k: nat :: n - 1 <= k < t.attempts - 1 ==> IsRetried(tries(k))
    ensures t.attempts < MaxAttempts ==> !IsRetried(tries(t.attempts - 1))
    ensures t.outcome == Raised(RetryExhausted) <==> IsRetried(tries(t.attempts - 1))
    decreases MaxAttempts - n
  {
    match tries(n - 1)
    case Transient =>
      if n == MaxAttempts then Trace(Raised(RetryExhausted), n, [])
      else
        var rest := AttemptFrom(tries, n + 1, serialize, dumps);
        Trace(rest.outcome, rest.attempts, [n] + rest.notices)
    case Fatal => Trace(Raised(NotRetryable), n, [])
    case HttpError(_) => Trace(Returned(None), n, [])
    case BadBody => Trace(Returned(None), n, [])
    case Ok(body) => Trace(Returned(Decode(body, serialize, dumps)), n, [])
  }

  /** `await fetch_api_data(url, session, params, semaphore, limiter, serialize)`. */
  function FetchApiData(tries: nat -> Attempt, serialize: bool, dumps: Json -> string): (t: Trace)
    ensures 1 <= t.attempts <= MaxAttempts
    ensures t.notices == seq(t.attempts - 1, i => i + 1)
  {
    AttemptFrom(tries, 1, serialize, dumps)
  }

  /** The first attempt that is not a transient error decides the result; the
      retry budget runs out only when all five attempts were transient. */
  lemma FetchOutcome(tries: nat -> Attempt, serialize: bool, dumps: Json -> string, k: nat)
    requires k < MaxAttempts
    requires forall j :: 0 <= j < k ==> tries(j).Transient?
    requires !tries(k).Transient?
    ensures var t := FetchApiData(tries, serialize, dumps);
      && t.attempts == k + 1
      && t.outcome == match tries(k)
           case Fatal => Raised(NotRetryable)
           case HttpError(_) => Returned(None)
           case BadBody => Returned(None)
           case Ok(body) => Returned(Decode(body, serialize, dumps))
           case Transient => Raised(RetryExhausted)
  {
    AttemptFromOutcome(tries, 1, serialize, dumps, k);
  }

  lemma {:induction false} AttemptFromOutcome(tries: nat -> Attempt, n: nat, serialize: bool, dumps: Json -> string, k: nat)
    requires 1 <= n <= k + 1 <= MaxAttempts
    requires forall j :: n - 1 <= j < k ==> tries(j).Transient?
    requires !tries(k).Transient?
    ensures var t := AttemptFrom(tries, n, serialize, dumps);
      && t.attempts == k + 1
      && t.outcome == match tries(k)
           case Fatal => Raised(NotRetryable)
           case HttpError(_) => Returned(None)
           case BadBody => Returned(None)
           case Ok(body) => Returned(Decode(body, serialize, dumps))
           case Transient => Raised(RetryExhausted)
    decreases k + 1 - n
  {
    if n < k + 1 {
      assert tries(n - 1).Transient?;
      AttemptFromOutcome(tries, n + 1, serialize, dumps, k);
    }
  }

  /** Five transient failures in a row exhaust the policy: the call raises
      after exactly five attempts and four retry notices. */
  lemma FetchExhausted(tries: nat -> Attempt, serialize: bool, dumps: Json -> string)
    requires forall j :: 0 <= j < MaxAttempts ==> tries(j).Transient?
    ensures var t := FetchApiData(tries, serialize, dumps);
      && t.outcome == Raised(RetryExhausted)
      && t.attempts == MaxAttempts
      && t.notices == [1, 2, 3, 4]
  {
  }

  /** An HTTP error status or an unparseable body on the first attempt yields
      None at once: one attempt, no retry notice. */
  lemma HttpErrorNotRetried(tries: nat -> Attempt, serialize: bool, dumps: Json -> string)
    requires tries(0).HttpError? || tries(0).BadBody?
    ensures FetchApiData(tries, serialize, dumps) == Trace(Returned(None), 1, [])
  {
  }

  /** Three transient failures and then a body: exactly four attempts, with a
      notice before each of the three retries. */
  lemma ThreeTransientThenSuccess(tries: nat -> Attempt, dumps: Json -> string)
    requires tries(0).Transient? && tries(1).Transient? && tries(2).Transient?
    requires tries(3).Ok? && !tries(3).body.JNull?
    ensures FetchApiData(tries, false, dumps) == Trace(Returned(Some(tries(3).body)), 4, [1, 2, 3])
  {
    FetchOutcome(tries, false, dumps, 3);
  }

  /** With `serialize=False` (the default of the tmdb_ingestion variant) a body
      that is not `null` is returned exactly as decoded. */
  lemma UnserializedPayloadUnchanged(tries: nat -> Attempt, dumps: Json -> string)
    requires tries(0).Ok? && !tries(0).body.JNull?
    ensures FetchApiData(tries, false, dumps).outcome == Returned(Some(tries(0).body))
  {
  }

  /** `await fetch_api_data(url=..., session=..., params=..., ...)`: a call
      with keyword arguments only, as every tmdb_ingestion job makes it. Before
      the first retry tenacity runs `notify_before_retry`, whose
      `retry_state.args[1]` raises IndexError on an empty `args`, and that
      exception ends the call; every other first attempt decides the call as
      in a positional call. */
  function KeywordFetchApiData(tries: nat -> Attempt, serialize: bool, dumps: Json -> string): (t: Trace)
    ensures t.attempts == 1 && t.notices == []
    ensures t.outcome == Raised(NotifyFailed) <==> tries(0).Transient?
    ensures !tries(0).Transient? ==> t == FetchApiData(tries, serialize, dumps)
  {
    if tries(0).Transient? then Trace(Raised(NotifyFailed), 1, [])
    else
      FetchOutcome(tries, serialize, dumps, 0);
      FetchApiData(tries, serialize, dumps)
  }

  /** The two call styles part after one transient failure: the positional
      call retries and returns the next body, the keyword-only call raises
      after its single attempt. */
  lemma KeywordCallNotRetried(tries: nat -> Attempt, dumps: Json -> string)
    requires tries(0).Transient? && tries(1).Ok? && !tries(1).body.JNull?
    ensures FetchApiData(tries, false, dumps) == Trace(Returned(Some(tries(1).body)), 2, [1])
    ensures KeywordFetchApiData(tries, false, dumps) == Trace(Raised(NotifyFailed), 1, [])
  {
    FetchOutcome(tries, false, dumps, 1);
  }

  /** `fetch_api_data` of ingestion/utils.py: `serialize=True` by default. */
  function IngestionFetch(tries: nat -> Attempt, dumps: Json -> string): Fetched<Json> {
    FetchApiData(tries, true, dumps).outcome
  }

  /** With `serialize=True` every returned value is a flat row: an object whose
      values are neither lists nor objects. */
  lemma IngestionFetchReturnsFlatRows(tries: nat -> Attempt, dumps: Json -> string)
    ensures var f := IngestionFetch(tries, dumps);
      f.Returned? && f.data.Some? ==>
        f.data.value.JObj? && forall k :: k in f.data.value.fields ==> !IsContainer(f.data.value.fields[k])
  {
    var t := FetchApiData(tries, true, dumps);
    var k := t.attempts - 1;
    if !tries(k).Transient? {
      FetchOutcome(tries, true, dumps, k);
    }
  }
}
