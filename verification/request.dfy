/**
 * The request pipeline `_get` of src/fmp_client/client.py: one loop of at most
 * `max_retries + 1` session calls that retries HTTP 429 answers with
 * exponential backoff and transient storage faults with linear backoff.
 *
 * The session is an oracle: `session(k)` is what the k-th call to
 * `session.get` produces, a response or a raised exception. Sleeps are
 * recorded in a log instead of being performed.
 */
module Request {
  import opened RateLimiter
  import StorageFault

  /** Which of `_get`'s except-clauses catches an exception raised by the session. */
  datatype ExceptionKind =
    | TooManyRequestsRaised    // a TooManyRequestsException
    | RequestExceptionRaised   // any other requests.RequestException (connection error, timeout, ...)
    | OtherRaised              // anything else, e.g. an error of the SQLite response cache

  /** What one call to `session.get` produces. `at` is the clock reading when the response is recorded. */
  datatype Outcome =
    | Response(status: int, fromCache: bool, body: string, at: int)
    | Raised(kind: ExceptionKind, message: string)

  /** The k-th call to the session produces `session(k)`. */
  type Session = nat -> Outcome

  /** The client settings `_get` reads, and its own `max_retries` argument. */
  datatype Policy = Policy(requestsPerMinute: int, retryOn429: bool, max429Retries: int, maxRetries: int)

  /** `http.client.OK` and `http.client.TOO_MANY_REQUESTS`. */
  const StatusOk: int := 200
  const StatusTooManyRequests: int := 429

  /** One entry of the sleep log. */
  datatype SleepEntry =
    | Throttle(ms: int)           // slept by the rate limiter after recording a call
    | RateLimitBackoff(ms: int)   // slept after a 429 answer
    | StoreBackoff(ms: int)       // slept after a transient storage fault

  /** The exception `_get` ends with. */
  datatype GetError =
    | TooManyRequests                      // TooManyRequestsException
    | HttpError(status: int, body: string) // RequestException for a status other than 200 and 429
    | RequestError(message: string)        // a RequestException raised by the session, re-raised
    | Unhandled(message: string)           // any other exception, re-raised unchanged
    | MaxRetriesExceeded                   // the fallback after the loop

  /** What `_get` returns (the decoded body) or raises. */
  datatype GetResult = Ok(body: string) | Fail(error: GetError)

  /** The observable side effects of a call: rate window, sleep log, recordings and session calls. */
  datatype Effects = Effects(window: seq<int>, sleeps: seq<SleepEntry>, recorded: nat, calls: nat)

  /** A finished call of `_get`: its result and its side effects. */
  datatype Run = Run(result: GetResult, effects: Effects)

  /** `2 ** k`. */
  function Pow2(k: nat): nat {
    if k == 0 then 1 else 2 * Pow2(k - 1)
  }

  /** The backoff after the `hits`-th 429 answer: `2 ** hits` seconds. */
  function RateLimitBackoffMs(hits: nat): int {
    1000 * Pow2(hits)
  }

  /** The backoff after a storage fault on loop iteration `attempt`: `(attempt + 1) * 0.5` seconds. */
  function StoreBackoffMs(attempt: nat): int {
    500 * (attempt + 1)
  }

  /** An outcome the loop answers with `continue`, given enough budget. */
  predicate Retryable(o: Outcome) {
    || (o.Response? && o.status == StatusTooManyRequests)
    || (o.Raised? && o.kind == OtherRaised && StorageFault.IsTransient(o.message))
  }

  /** Number of responses among the first `n` session calls that did not come from the cache. */
  function FreshCount(session: Session, n: nat): (c: nat)
    ensures c <= n
  {
    if n == 0 then 0
    else FreshCount(session, n - 1) + (if session(n - 1).Response? && !session(n - 1).fromCache then 1 else 0)
  }

  /**
   * Bookkeeping once a response arrives: a cached response changes nothing;
   * any other is recorded in the rate window, whose throttle is logged.
   */
  function AfterResponse(e: Effects, fromCache: bool, at: int, rpm: int): (r: Effects)
    ensures r.calls == e.calls
    ensures fromCache ==> r == e
    ensures !fromCache ==>
              && r.recorded == e.recorded + 1
              && |r.window| > 0 && r.window[|r.window| - 1] == at
              && |r.window| <= |e.window| + 1
              && Extends(r.sleeps, e.sleeps)
              && forall i :: |e.sleeps| <= i < |r.sleeps| ==> r.sleeps[i].Throttle?
    ensures !fromCache ==>
              && (|r.sleeps| == |e.sleeps| + 1 <==> |r.window| >= rpm)
              && (|r.window| < rpm ==> |r.sleeps| == |e.sleeps|)
              && (|r.window| >= rpm ==> r.sleeps[|e.sleeps|] == Throttle(r.window[0] + WindowMs + BufferMs - at))
  {
    if fromCache then e
    else
      var c := RecordRequest(e.window, at, rpm);
      var throttle := if c.verdict.Sleep? then [Throttle(c.verdict.ms)] else [];
      Effects(c.window, e.sleeps + throttle, e.recorded + 1, e.calls)
  }

  /**
   * A recorded response appends its time to the rate window and then drops
   * only calls older than 60 seconds from the front.
   */
  lemma AfterResponseWindow(e: Effects, at: int, rpm: int)
    ensures var r := AfterResponse(e, false, at, rpm);
      && IsSuffix(r.window, e.window + [at])
      && forall i :: 0 <= i < |e.window| + 1 - |r.window| ==> (e.window + [at])[i] < at - WindowMs
  {
    RecordRequestPrunes(e.window, at, rpm);
  }

  /** `b` is a prefix of `a`: the log `a` only grew from `b`. */
  ghost predicate Extends<T>(a: seq<T>, b: seq<T>) {
    |b| <= |a| && a[..|b|] == b
  }

  /** Whether one loop iteration ends `_get` or continues it. */
  datatype Step = Continue(hits: nat, effects: Effects) | Stop(result: GetResult, effects: Effects)

  /** Whether `_get` continues after outcome `o` on iteration `attempt` with `hits` earlier 429 answers. */
  predicate Continues(p: Policy, o: Outcome, attempt: nat, hits: nat) {
    match o
    case Response(status, _, _, _) =>
      status == StatusTooManyRequests && p.retryOn429 && hits + 1 <= p.max429Retries
    case Raised(kind, message) =>
      kind == OtherRaised && StorageFault.IsTransient(message) && attempt < p.maxRetries
  }

  /** The loop body of `_get` when the session raised an exception. */
  function OnRaised(p: Policy, kind: ExceptionKind, message: string, attempt: nat, hits: nat, e: Effects): (s: Step)
    ensures s.effects.calls == e.calls + 1
    ensures s.effects.recorded == e.recorded && s.effects.window == e.window
    ensures s.Continue? <==> Continues(p, Raised(kind, message), attempt, hits)
    ensures s.Continue? ==> s.hits == hits && s.effects.sleeps == e.sleeps + [StoreBackoff(StoreBackoffMs(attempt))]
    ensures s.Stop? ==> s.effects.sleeps == e.sleeps && Ends(Raised(kind, message), s.result)
  {
    var e1 := e.(calls := e.calls + 1);
    if kind == TooManyRequestsRaised then Stop(Fail(TooManyRequests), e1)
    else if kind == RequestExceptionRaised then Stop(Fail(RequestError(message)), e1)
    else if StorageFault.IsTransient(message) && attempt < p.maxRetries then
      Continue(hits, e1.(sleeps := e1.sleeps + [StoreBackoff(StoreBackoffMs(attempt))]))
    else Stop(Fail(Unhandled(message)), e1)
  }

  /** The loop body of `_get` when the session returned a response. */
  function OnResponse(p: Policy, status: int, fromCache: bool, body: string, at: int, hits: nat, e: Effects): (s: Step)
    ensures s.effects.calls == e.calls + 1
    ensures var e' := AfterResponse(e, fromCache, at, p.requestsPerMinute);
      && s.effects.recorded == e'.recorded
      && s.effects.window == e'.window
      && (s.Continue? ==> s.effects.sleeps == e'.sleeps + [RateLimitBackoff(RateLimitBackoffMs(hits + 1))])
      && (s.Stop? ==> s.effects.sleeps == e'.sleeps)
    ensures s.Continue? <==> status == StatusTooManyRequests && p.retryOn429 && hits + 1 <= p.max429Retries
    ensures s.Continue? ==> s.hits == hits + 1
    ensures s.Stop? ==> Ends(Response(status, fromCache, body, at), s.result)
  {
    var e2 := AfterResponse(e, fromCache, at, p.requestsPerMinute).(calls := e.calls + 1);
    if status == StatusOk then Stop(Ok(body), e2)
    else if status == StatusTooManyRequests then
      if p.retryOn429 && hits + 1 <= p.max429Retries then
        Continue(hits + 1, e2.(sleeps := e2.sleeps + [RateLimitBackoff(RateLimitBackoffMs(hits + 1))]))
      else Stop(Fail(TooManyRequests), e2)
    else Stop(Fail(HttpError(status, body)), e2)
  }

  /** One iteration of the loop body of `_get`, on session outcome `o`. */
  function Iteration(p: Policy, o: Outcome, attempt: nat, hits: nat, e: Effects): (s: Step)
    ensures s.effects.calls == e.calls + 1
    ensures s.effects.recorded == e.recorded + (if o.Response? && !o.fromCache then 1 else 0)
    ensures s.Continue? <==> Continues(p, o, attempt, hits)
    ensures s.Continue? ==> s.hits == hits + (if o.Response? then 1 else 0)
    ensures s.Stop? ==> Ends(o, s.result)
    ensures Extends(s.effects.sleeps, e.sleeps)
    ensures !(o.Response? && !o.fromCache) ==> s.effects.window == e.window
    ensures |s.effects.window| <= |e.window| + s.effects.recorded - e.recorded
    ensures o.Response? && !o.fromCache ==>
              |s.effects.window| > 0 && s.effects.window[|s.effects.window| - 1] == o.at
  {
    match o
    case Raised(kind, message) => OnRaised(p, kind, message, attempt, hits, e)
    case Response(status, fromCache, body, at) => OnResponse(p, status, fromCache, body, at, hits, e)
  }

  /**
   * Loop iterations `attempt ..= p.maxRetries` of `_get` (`for attempt in
   * range(max_retries + 1)`), `hits` being the number of 429 answers so far
   * (`rate_limit_attempts`).
   */
  function Loop(p: Policy, session: Session, attempt: nat, hits: nat, e: Effects): (r: Run)
    requires e.calls == attempt
    requires e.recorded == FreshCount(session, attempt)
    ensures r.effects.calls >= attempt
    ensures r.effects.calls <= if attempt <= p.maxRetries then p.maxRetries + 1 else attempt
    ensures r.effects.recorded == FreshCount(session, r.effects.calls)
    ensures Extends(r.effects.sleeps, e.sleeps)
    decreases p.maxRetries + 1 - attempt
  {
    if attempt > p.maxRetries then Run(Fail(MaxRetriesExceeded), e)
    else
      match Iteration(p, session(attempt), attempt, hits, e)
      case Stop(result, e') => Run(result, e')
      case Continue(hits', e') => Loop(p, session, attempt + 1, hits', e')
  }

  /** The session outcome `o` of the last call is one that makes `_get` end with `result`. */
  predicate Ends(o: Outcome, result: GetResult) {
    match result
    case Ok(body) => o.Response? && o.status == StatusOk && o.body == body
    case Fail(TooManyRequests) =>
      (o.Response? && o.status == StatusTooManyRequests) || (o.Raised? && o.kind == TooManyRequestsRaised)
    case Fail(HttpError(status, body)) =>
      o.Response? && o.status == status && o.body == body && status != StatusOk && status != StatusTooManyRequests
    case Fail(RequestError(message)) => o == Raised(RequestExceptionRaised, message)
    case Fail(Unhandled(message)) => o == Raised(OtherRaised, message)
    case Fail(MaxRetriesExceeded) => false
  }

  /** One unrolling of the loop. */
  lemma LoopStep(p: Policy, session: Session, attempt: nat, hits: nat, e: Effects)
    requires e.calls == attempt
    requires e.recorded == FreshCount(session, attempt)
    requires attempt <= p.maxRetries
    ensures var s := Iteration(p, session(attempt), attempt, hits, e);
      && (s.Stop? ==> Loop(p, session, attempt, hits, e) == Run(s.result, s.effects))
      && (s.Continue? ==>
            && s.effects.calls == attempt + 1
            && s.effects.recorded == FreshCount(session, attempt + 1)
            && Loop(p, session, attempt, hits, e) == Loop(p, session, attempt + 1, s.hits, s.effects))
  {
  }

  /** Every outcome `_get` continues after is one of the retryable kinds. */
  lemma ContinuesOnlyRetryable(p: Policy, o: Outcome, attempt: nat, hits: nat)
    requires Continues(p, o, attempt, hits)
    ensures Retryable(o)
    ensures attempt == p.maxRetries ==> o.Response? && o.status == StatusTooManyRequests
  {
  }

  /**
   * How a run of the loop ends: every call but the last was retried, the last
   * outcome decides the result, and the fallback after the loop is reached
   * only when the final iteration continued after a 429 answer.
   */
  lemma {:induction false} LoopEnding(p: Policy, session: Session, attempt: nat, hits: nat, e: Effects)
    requires e.calls == attempt
    requires e.recorded == FreshCount(session, attempt)
    ensures var r := Loop(p, session, attempt, hits, e);
      && (forall k :: attempt <= k < r.effects.calls - 1 ==> Retryable(session(k)))
      && (r.result == Fail(MaxRetriesExceeded) ==>
            && r.effects.calls == (if attempt <= p.maxRetries then p.maxRetries + 1 else attempt)
            && (attempt <= p.maxRetries ==>
                  session(p.maxRetries).Response? && session(p.maxRetries).status == StatusTooManyRequests))
      && (r.result != Fail(MaxRetriesExceeded) ==>
            r.effects.calls > attempt && Ends(session(r.effects.calls - 1), r.result))
    decreases p.maxRetries + 1 - attempt
  {
    if attempt <= p.maxRetries {
      var s := Iteration(p, session(attempt), attempt, hits, e);
      if s.Continue? {
        ContinuesOnlyRetryable(p, session(attempt), attempt, hits);
        LoopEnding(p, session, attempt + 1, s.hits, s.effects);
      }
    }
  }

  /** The rate window only changes through recordings, each adding at most one timestamp. */
  lemma {:induction false} LoopWindow(p: Policy, session: Session, attempt: nat, hits: nat, e: Effects)
    requires e.calls == attempt
    requires e.recorded == FreshCount(session, attempt)
    ensures var r := Loop(p, session, attempt, hits, e);
      && |r.effects.window| <= |e.window| + r.effects.recorded - e.recorded
    decreases p.maxRetries + 1 - attempt
  {
    if attempt <= p.maxRetries {
      var s := Iteration(p, session(attempt), attempt, hits, e);
      assert |s.effects.window| <= |e.window| + s.effects.recorded - e.recorded;
      if s.Continue? {
        LoopWindow(p, session, attempt + 1, s.hits, s.effects);
      }
    }
  }

  /** Without a recording the rate window is left exactly as it was. */
  lemma {:induction false} LoopWindowUnchanged(p: Policy, session: Session, attempt: nat, hits: nat, e: Effects)
    requires e.calls == attempt
    requires e.recorded == FreshCount(session, attempt)
    ensures var r := Loop(p, session, attempt, hits, e);
      && r.effects.recorded >= e.recorded
      && (r.effects.recorded == e.recorded ==> r.effects.window == e.window)
    decreases p.maxRetries + 1 - attempt
  {
    if attempt <= p.maxRetries {
      var s := Iteration(p, session(attempt), attempt, hits, e);
      LoopStep(p, session, attempt, hits, e);
      if s.Continue? {
        LoopWindowUnchanged(p, session, attempt + 1, s.hits, s.effects);
      }
    }
  }

  /** `_get` on a client whose rate window is `window`. */
  function Get(p: Policy, session: Session, window: seq<int>): (r: Run)
    ensures r.effects.calls <= if p.maxRetries >= 0 then p.maxRetries + 1 else 0
    ensures r.effects.recorded == FreshCount(session, r.effects.calls)
    ensures r.effects.recorded == 0 ==> r.effects.window == window
    ensures |r.effects.window| <= |window| + r.effects.recorded
    ensures forall k :: 0 <= k < r.effects.calls - 1 ==> Retryable(session(k))
    ensures r.result == Fail(MaxRetriesExceeded) ==>
              && r.effects.calls == (if p.maxRetries >= 0 then p.maxRetries + 1 else 0)
              && (p.maxRetries >= 0 ==>
                    session(p.maxRetries).Response? && session(p.maxRetries).status == StatusTooManyRequests)
    ensures r.result != Fail(MaxRetriesExceeded) ==> r.effects.calls >= 1 && Ends(session(r.effects.calls - 1), r.result)
  {
    var e := Effects(window, [], 0, 0);
    LoopEnding(p, session, 0, 0, e);
    LoopWindow(p, session, 0, 0, e);
    LoopWindowUnchanged(p, session, 0, 0, e);
    Loop(p, session, 0, 0, e)
  }
}
