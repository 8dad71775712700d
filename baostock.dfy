/** `sources/baostock_source.py`: the A-share source.

    The Baostock session and its queries are outside this model: each
    attempt of the retry loop is told by `outcome(k)` whether logging in
    fails (and with what message) and what the query answers. The rate
    limiter's wait, the locks, the date formatting and the reshaping of
    the answered rows are not modelled; the sleeps are returned as the list
    of delays asked for. */
module Baostock {
  import opened Wrappers
  import opened Text
  import opened Schema
  import opened Frames
  import opened RateLimiting

  // ---------------------------------------------------------------------
  // Intervals, adjustment and fields

  /** `_map_interval`'s table: interval token to Baostock frequency. */
  const IntervalFrequency: map<string, string> := map[
    "1d" := "d", "1w" := "w", "1wk" := "w", "1mo" := "m", "1min" := "1", "1m" := "1",
    "5m" := "5", "15m" := "15", "30m" := "30", "60m" := "60", "1h" := "60"]

  /** `_map_interval`: the frequency of the stripped, lowercased token, or a
      ValueError naming it. */
  function MapInterval(interval: string): (r: Result<string>)
    ensures r.Ok? <==> Lower(Strip(interval)) in IntervalFrequency
    ensures r.Ok? ==> r.value == IntervalFrequency[Lower(Strip(interval))]
    ensures r.Ok? ==> r.value in {"d", "w", "m", "1", "5", "15", "30", "60"}
    ensures r.Err? ==> r.error == ValueError("unsupported interval for baostock: " + Lower(Strip(interval)))
  {
    var key := Lower(Strip(interval));
    if key in IntervalFrequency then Ok(IntervalFrequency[key])
    else Err(ValueError("unsupported interval for baostock: " + key))
  }

  /** The mapping ignores surrounding whitespace and letter case. */
  lemma MapIntervalNormalized(interval: string)
    ensures MapInterval(Upper(interval)) == MapInterval(interval)
    ensures MapInterval(Strip(interval)) == MapInterval(interval)
  {
    StripCase(interval);
    LowerOfCase(Strip(interval));
    StripIdempotent(interval);
  }

  /** `_map_adjust`'s table: adjustment name to Baostock flag. */
  const AdjustFlag: map<string, string> := map[
    "front" := "2", "forward" := "2", "back" := "1", "backward" := "1", "none" := "3", "raw" := "3"]

  /** `_map_adjust`: "auto" is replaced by the configured default; a key
      the table does not know falls back to the default when the table
      knows that, else to "back". */
  function MapAdjust(adjust: Option<string>, default: string): (r: string)
    ensures r in {"1", "2", "3"}
  {
    var key := Lower(Strip(if adjust.Some? then adjust.value else ""));
    var key' := if key == "auto" then default else key;
    if key' in AdjustFlag then AdjustFlag[key']
    else if default in AdjustFlag then AdjustFlag[default]
    else AdjustFlag["back"]
  }

  /** A known adjustment gets its own flag; anything else, "auto" included,
      gets the default's flag, or "1" (back) when the default is unknown. */
  lemma MapAdjustCases(adjust: Option<string>, default: string)
    ensures var key := Lower(Strip(if adjust.Some? then adjust.value else ""));
      && (key in AdjustFlag ==> MapAdjust(adjust, default) == AdjustFlag[key])
      && (key !in AdjustFlag && default in AdjustFlag ==> MapAdjust(adjust, default) == AdjustFlag[default])
      && (key !in AdjustFlag && default !in AdjustFlag ==> MapAdjust(adjust, default) == "1")
  {
    assert "auto" !in AdjustFlag;
  }

  /** With the default "auto" (which the configuration accepts) an "auto"
      request is fetched back-adjusted, and a missing adjustment too. */
  lemma MapAdjustAutoDefault()
    ensures MapAdjust(Some("auto"), "auto") == "1"
    ensures MapAdjust(None, "auto") == "1"
  {
    EmptyFacts();
    MapAdjustCases(Some("auto"), "auto");
    MapAdjustCases(None, "auto");
  }

  /** The frequencies of intraday bars. */
  const IntradayFrequencies: set<string> := {"5", "15", "30", "60"}

  /** The fields asked for: "time" only for intraday bars. The query sends
      them joined by commas. */
  function QueryFields(freq: string): (r: seq<string>)
    ensures "time" in r <==> freq in IntradayFrequencies
    ensures |r| >= 7 && r[0] == "date" && r[|r| - 5..] == ["open", "high", "low", "close", "volume"]
  {
    if freq in IntradayFrequencies then ["date", "time", "code", "open", "high", "low", "close", "volume"]
    else ["date", "code", "open", "high", "low", "close", "volume"]
  }

  /** Minute and hour intervals ask for the time of day; day, week and month
      intervals do not. */
  lemma TimeFieldForIntraday(interval: string)
    requires MapInterval(interval).Ok?
    ensures "time" in QueryFields(MapInterval(interval).value) <==>
      Lower(Strip(interval)) in {"5m", "15m", "30m", "60m", "1h"}
  {
  }

  // ---------------------------------------------------------------------
  // The retry loop

  /** What a query answers: an error (a non-zero error code, or any other
      exception inside the `try`), nothing, or rows. */
  datatype QueryOutcome = QueryFailed(error: Exc) | NoRows | Rows(table: Table)

  /** One attempt: the login error message if logging in fails, and what the
      query answers. */
  datatype Attempt = Attempt(loginError: Option<string>, query: QueryOutcome)

  /** What every attempt asks Baostock for: the frequency, the fields and
      the adjustment flag (the symbol and the dates are passed through). */
  datatype Query = Query(freq: string, fields: seq<string>, adjustFlag: string)

  /** `OhlcvResult`: the frame and the adjustment it was asked for with. */
  datatype OhlcvResult = OhlcvResult(data: Table, adjustment: string)

  /** The end of the loop from some attempt on: its result, the backoff
      delays slept, whether the session is logged in, and how many
      attempts were made. */
  datatype Run = Run(result: Result<OhlcvResult>, delays: seq<real>, loggedIn: bool, attempts: nat)

  function LoginFailed(message: string): Exc {
    Exc("RuntimeError", "baostock login failed: " + message)
  }

  /** The loop of `fetch_ohlcv` from attempt `k` on. Logging in happens
      outside the `try`, so a login failure ends the fetch at once; a query
      failure before the last attempt backs off with `backoff(k + 1)` and
      drops the session; on the last attempt it is raised again. */
  function Retry(config: RateLimitConfig, maxRetries: int, adjust: string, outcome: nat -> Attempt,
                 k: nat, loggedIn: bool): (run: Run)
    decreases maxRetries + 1 - k
  {
    if k > maxRetries then Run(Ok(OhlcvResult(EmptyTable, adjust)), [], loggedIn, 0)
    else
      var a := outcome(k);
      if !loggedIn && a.loginError.Some? then Run(Err(LoginFailed(a.loginError.value)), [], false, 1)
      else
        match a.query
        case NoRows => Run(Ok(OhlcvResult(EmptyTable, adjust)), [], true, 1)
        case Rows(t) => Run(Ok(OhlcvResult(t, adjust)), [], true, 1)
        case QueryFailed(e) =>
          if k >= maxRetries then Run(Err(e), [], true, 1)
          else
            var rest := Retry(config, maxRetries, adjust, outcome, k + 1, false);
            Run(rest.result, [Backoff(config, k + 1)] + rest.delays, rest.loggedIn, rest.attempts + 1)
  }

  /** At most `max_retries + 1 - k` attempts are made, none only when no
      attempt is left; every attempt but the last is followed by a backoff,
      the `i`-th of them `backoff(k + i + 1)`. */
  lemma {:induction false} RetryShape(config: RateLimitConfig, maxRetries: int, adjust: string,
                                      outcome: nat -> Attempt, k: nat, loggedIn: bool)
    ensures var run := Retry(config, maxRetries, adjust, outcome, k, loggedIn);
      && run.attempts <= (if k > maxRetries then 0 else maxRetries + 1 - k)
      && (run.attempts == 0 <==> k > maxRetries)
      && (run.attempts > 0 ==> |run.delays| == run.attempts - 1)
      && (forall i :: 0 <= i < |run.delays| ==> run.delays[i] == Backoff(config, k + i + 1))
    decreases maxRetries + 1 - k
  {
    if k <= maxRetries {
      var a := outcome(k);
      if (loggedIn || a.loginError.None?) && a.query.QueryFailed? && k < maxRetries {
        RetryShape(config, maxRetries, adjust, outcome, k + 1, false);
      }
    }
  }

  /** An answer without rows ends the fetch at once with an empty frame. */
  lemma RetryEmptyAnswer(config: RateLimitConfig, maxRetries: int, adjust: string,
                         outcome: nat -> Attempt, k: nat, loggedIn: bool)
    requires k <= maxRetries && outcome(k).query.NoRows?
    requires loggedIn || outcome(k).loginError.None?
    ensures Retry(config, maxRetries, adjust, outcome, k, loggedIn).result == Ok(OhlcvResult(EmptyTable, adjust))
    ensures Retry(config, maxRetries, adjust, outcome, k, loggedIn).delays == []
  {
  }

  /** When every query fails and logging in always works, every attempt is
      made and the last attempt's error is raised. */
  lemma {:induction false} RetryAllFail(config: RateLimitConfig, maxRetries: int, adjust: string,
                                        outcome: nat -> Attempt, k: nat, loggedIn: bool)
    requires k <= maxRetries
    requires forall j :: k <= j <= maxRetries ==> outcome(j).loginError.None? && outcome(j).query.QueryFailed?
    ensures Retry(config, maxRetries, adjust, outcome, k, loggedIn).result == Err(outcome(maxRetries).query.error)
    ensures Retry(config, maxRetries, adjust, outcome, k, loggedIn).attempts == maxRetries + 1 - k
    decreases maxRetries + 1 - k
  {
    if k < maxRetries {
      RetryAllFail(config, maxRetries, adjust, outcome, k + 1, false);
    }
  }

  /** A negative retry count makes no attempt and answers an empty frame. */
  lemma RetryNoAttempts(config: RateLimitConfig, maxRetries: int, adjust: string, outcome: nat -> Attempt, loggedIn: bool)
    requires maxRetries < 0
    ensures Retry(config, maxRetries, adjust, outcome, 0, loggedIn) == Run(Ok(OhlcvResult(EmptyTable, adjust)), [], loggedIn, 0)
  {
  }

  /** The loop so far, with the delays already slept in front. */
  function Resume(delays: seq<real>, done: nat, run: Run): Run {
    Run(run.result, delays + run.delays, run.loggedIn, done + run.attempts)
  }

  /** A query failure before the last attempt: one backoff, then the next
      attempt without a session. */
  lemma RetryFailedStep(config: RateLimitConfig, maxRetries: int, adjust: string, outcome: nat -> Attempt,
                        k: nat, loggedIn: bool, delays: seq<real>)
    requires k < maxRetries && outcome(k).query.QueryFailed?
    requires loggedIn || outcome(k).loginError.None?
    ensures Resume(delays, k, Retry(config, maxRetries, adjust, outcome, k, loggedIn))
      == Resume(delays + [Backoff(config, k + 1)], k + 1, Retry(config, maxRetries, adjust, outcome, k + 1, false))
  {
    var rest := Retry(config, maxRetries, adjust, outcome, k + 1, false);
    assert delays + ([Backoff(config, k + 1)] + rest.delays) == delays + [Backoff(config, k + 1)] + rest.delays;
  }

  class BaostockSource {
    const rateLimit: RateLimitConfig
    const maxRetries: int
    const adjustDefault: string
    var loggedIn: bool

    /** `__init__`: not logged in yet. */
    constructor (rateLimit: RateLimitConfig, maxRetries: int, adjustDefault: string)
      ensures this.rateLimit == rateLimit && this.maxRetries == maxRetries && this.adjustDefault == adjustDefault
      ensures !loggedIn
    {
      this.rateLimit := rateLimit;
      this.maxRetries := maxRetries;
      this.adjustDefault := adjustDefault;
      loggedIn := false;
    }

    /** `fetch_ohlcv`: the interval must map (a ValueError before any
        attempt otherwise); the query is built once from the mapped
        frequency, its fields and the mapped adjustment, and the retry loop
        runs on what Baostock answers to that query; the session state it
        leaves behind is kept. */
    method FetchOhlcv(interval: string, adjust: string, answers: Query -> nat -> Attempt)
      returns (r: Result<OhlcvResult>, delays: seq<real>, asked: Option<Query>)
      modifies this
      ensures MapInterval(interval).Err? ==>
        r == Err(MapInterval(interval).error) && delays == [] && asked == None && loggedIn == old(loggedIn)
      ensures MapInterval(interval).Ok? ==>
        var freq := MapInterval(interval).value;
        asked == Some(Query(freq, QueryFields(freq), MapAdjust(Some(adjust), adjustDefault)))
      ensures MapInterval(interval).Ok? && asked.Some? ==>
        var run := Retry(rateLimit, maxRetries, adjust, answers(asked.value), 0, old(loggedIn));
        r == run.result && delays == run.delays && loggedIn == run.loggedIn
    {
      var freq := MapInterval(interval);
      if freq.Err? {
        return Err(freq.error), [], None;
      }
      var query := Query(freq.value, QueryFields(freq.value), MapAdjust(Some(adjust), adjustDefault));
      asked := Some(query);
      r, delays := RetryLoop(adjust, answers(query));
    }

    /** The `for attempt` loop of `fetch_ohlcv`, answered by `outcome`. */
    method RetryLoop(adjust: string, outcome: nat -> Attempt) returns (r: Result<OhlcvResult>, delays: seq<real>)
      modifies this
      ensures var run := Retry(rateLimit, maxRetries, adjust, outcome, 0, old(loggedIn));
        r == run.result && delays == run.delays && loggedIn == run.loggedIn
    {
      ghost var L0 := loggedIn;
      delays := [];
      var attempt := 0;
      while attempt < maxRetries + 1
        invariant 0 <= attempt && (maxRetries >= 0 ==> attempt <= maxRetries + 1)
        invariant |delays| == attempt
        invariant attempt > 0 ==> !loggedIn
        invariant Retry(rateLimit, maxRetries, adjust, outcome, 0, L0)
          == Resume(delays, attempt, Retry(rateLimit, maxRetries, adjust, outcome, attempt, loggedIn))
        invariant attempt == 0 ==> loggedIn == L0
        decreases maxRetries + 1 - attempt
      {
        var a := outcome(attempt);
        if !loggedIn {
          if a.loginError.Some? {
            r := Err(LoginFailed(a.loginError.value));
            return;
          }
          loggedIn := true;
        }
        match a.query {
          case NoRows =>
            r := Ok(OhlcvResult(EmptyTable, adjust));
            return;
          case Rows(t) =>
            r := Ok(OhlcvResult(t, adjust));
            return;
          case QueryFailed(e) =>
            if attempt >= maxRetries {
              r := Err(e);
              return;
            }
            RetryFailedStep(rateLimit, maxRetries, adjust, outcome, attempt, loggedIn, delays);
            delays := delays + [Backoff(rateLimit, attempt + 1)];
            loggedIn := false;
        }
        attempt := attempt + 1;
      }
      r := Ok(OhlcvResult(EmptyTable, adjust));
    }
  }
}
