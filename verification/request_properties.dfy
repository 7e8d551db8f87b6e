/**
 * Properties of the request pipeline `_get` over whole runs: the exact
 * backoff schedules, the shared loop budget, storage-fault retries and the
 * bookkeeping of cached responses.
 */
module RequestProperties {
  import opened Request
  import StorageFault

  /** The backoff sleeps of a log, in order, leaving out the rate limiter's throttles. */
  function Backoffs(s: seq<SleepEntry>): seq<SleepEntry> {
    if |s| == 0 then []
    else (if s[0].Throttle? then [] else [s[0]]) + Backoffs(s[1..])
  }

  /** The backoffs of a concatenated log are the backoffs of its parts. */
  lemma {:induction false} BackoffsAppend(a: seq<SleepEntry>, b: seq<SleepEntry>)
    ensures Backoffs(a + b) == Backoffs(a) + Backoffs(b)
    decreases |a|
  {
    if |a| == 0 {
      assert a + b == b;
    } else {
      assert (a + b)[0] == a[0];
      assert (a + b)[1..] == a[1..] + b;
      BackoffsAppend(a[1..], b);
    }
  }

  /** A log that only grew by throttles has the same backoffs. */
  lemma {:induction false} BackoffsIgnoreThrottles(a: seq<SleepEntry>, b: seq<SleepEntry>)
    requires Extends(b, a)
    requires forall i :: |a| <= i < |b| ==> b[i].Throttle?
    ensures Backoffs(b) == Backoffs(a)
    decreases |b| - |a|
  {
    if |b| == |a| {
      assert b == b[..|a|];
    } else {
      var b' := b[..|b| - 1];
      assert b'[..|a|] == b[..|a|];
      BackoffsIgnoreThrottles(a, b');
      assert b == b' + [b[|b| - 1]];
      BackoffsAppend(b', [b[|b| - 1]]);
      assert Backoffs([b[|b| - 1]]) == [];
    }
  }

  /** The sleeps after the 429 answers number `lo + 1 ..= hi`. */
  function Schedule429(lo: nat, hi: int): seq<SleepEntry>
    decreases hi - lo
  {
    if lo >= hi then [] else [RateLimitBackoff(RateLimitBackoffMs(lo + 1))] + Schedule429(lo + 1, hi)
  }

  /** The sleeps after storage faults on iterations `lo .. hi - 1`. */
  function StoreSchedule(lo: nat, hi: int): seq<SleepEntry>
    decreases hi - lo
  {
    if lo >= hi then [] else [StoreBackoff(StoreBackoffMs(lo))] + StoreSchedule(lo + 1, hi)
  }

  /** The k-th 429 answer (counting from 1) is followed by a sleep of `2 ** k` seconds. */
  lemma {:induction false} Schedule429Entries(lo: nat, hi: int)
    ensures |Schedule429(lo, hi)| == if lo >= hi then 0 else hi - lo
    ensures forall i :: 0 <= i < |Schedule429(lo, hi)| ==>
              Schedule429(lo, hi)[i] == RateLimitBackoff(1000 * Pow2(lo + i + 1))
    decreases hi - lo
  {
    if lo < hi {
      Schedule429Entries(lo + 1, hi);
    }
  }

  /** A storage fault on iteration `k` is followed by a sleep of `(k + 1) * 0.5` seconds. */
  lemma {:induction false} StoreScheduleEntries(lo: nat, hi: int)
    ensures |StoreSchedule(lo, hi)| == if lo >= hi then 0 else hi - lo
    ensures forall i :: 0 <= i < |StoreSchedule(lo, hi)| ==>
              StoreSchedule(lo, hi)[i] == StoreBackoff(500 * (lo + i + 1))
    decreases hi - lo
  {
    if lo < hi {
      StoreScheduleEntries(lo + 1, hi);
    }
  }

  /** The 429 budget runs out before the loop budget does. */
  predicate Budget429First(p: Policy, attempt: nat, hits: nat) {
    p.max429Retries - hits <= p.maxRetries - attempt
  }

  /**
   * Number of 429 backoffs a run of only 429 answers sleeps from iteration
   * `attempt` on, after `hits` earlier 429 answers.
   */
  function Stop429(p: Policy, attempt: nat, hits: nat): int {
    if Budget429First(p, attempt, hits) then p.max429Retries - hits else p.maxRetries + 1 - attempt
  }

  /** Number of the last 429 answer that is followed by a backoff (`rate_limit_attempts`). */
  function Last429(p: Policy, attempt: nat, hits: nat): int {
    hits + Stop429(p, attempt, hits)
  }

  /** The answer is HTTP 429. */
  predicate Is429(o: Outcome) {
    o.Response? && o.status == StatusTooManyRequests
  }

  /** Number of 429 answers among the first `n` session calls. */
  function Count429(session: Session, n: nat): nat {
    if n == 0 then 0 else Count429(session, n - 1) + (if Is429(session(n - 1)) then 1 else 0)
  }

  /**
   * The backoff slept when the loop continues after call `k`: `2 ** n`
   * seconds when that call was the n-th 429 answer, `(k + 1) * 0.5` seconds
   * when it raised a storage fault.
   */
  function BackoffAfter(session: Session, k: nat): SleepEntry {
    if session(k).Response? then RateLimitBackoff(RateLimitBackoffMs(Count429(session, k + 1)))
    else StoreBackoff(StoreBackoffMs(k))
  }

  /** The backoffs after calls `lo .. hi - 1`, in order. */
  function BackoffsBetween(session: Session, lo: nat, hi: int): seq<SleepEntry>
    decreases hi - lo
  {
    if lo >= hi then [] else [BackoffAfter(session, lo)] + BackoffsBetween(session, lo + 1, hi)
  }

  /** Number of calls of a run after which the loop continued: all but the last, or all of them when the loop ran out. */
  function Continued(r: Run): int {
    if r.result == Fail(MaxRetriesExceeded) then r.effects.calls else r.effects.calls - 1
  }

  /** Entry `i` of the schedule is the backoff after call `lo + i`. */
  lemma {:induction false} BackoffsBetweenEntries(session: Session, lo: nat, hi: int)
    ensures |BackoffsBetween(session, lo, hi)| == if lo >= hi then 0 else hi - lo
    ensures forall i :: 0 <= i < |BackoffsBetween(session, lo, hi)| ==>
              BackoffsBetween(session, lo, hi)[i] == BackoffAfter(session, lo + i)
    decreases hi - lo
  {
    if lo < hi {
      BackoffsBetweenEntries(session, lo + 1, hi);
    }
  }

  /** The backoff one iteration sleeps, whatever the outcome. */
  lemma StepBackoff(p: Policy, o: Outcome, attempt: nat, hits: nat, e: Effects)
    ensures var s := Iteration(p, o, attempt, hits, e);
      Backoffs(s.effects.sleeps) == Backoffs(e.sleeps) +
        (if s.Continue? then
           [if o.Response? then RateLimitBackoff(RateLimitBackoffMs(hits + 1)) else StoreBackoff(StoreBackoffMs(attempt))]
         else [])
  {
    var s := Iteration(p, o, attempt, hits, e);
    match o
    case Response(status, fromCache, body, at) =>
      assert s == OnResponse(p, status, fromCache, body, at, hits, e);
      var e' := AfterResponse(e, fromCache, at, p.requestsPerMinute);
      BackoffsIgnoreThrottles(e.sleeps, e'.sleeps);
      if s.Continue? {
        BackoffsAppend(e'.sleeps, [RateLimitBackoff(RateLimitBackoffMs(hits + 1))]);
      }
    case Raised(kind, message) =>
      assert s == OnRaised(p, kind, message, attempt, hits, e);
      if s.Continue? {
        BackoffsAppend(e.sleeps, [StoreBackoff(StoreBackoffMs(attempt))]);
      }
  }

  /** An iteration keeps `rate_limit_attempts` the number of 429 answers so far, and sleeps the backoff after its call when it continues. */
  lemma CountedStep(p: Policy, session: Session, attempt: nat, hits: nat, e: Effects)
    requires hits == Count429(session, attempt)
    ensures var s := Iteration(p, session(attempt), attempt, hits, e);
      && (s.Continue? ==> s.hits == Count429(session, attempt + 1))
      && Backoffs(s.effects.sleeps) == Backoffs(e.sleeps) + (if s.Continue? then [BackoffAfter(session, attempt)] else [])
  {
    StepBackoff(p, session(attempt), attempt, hits, e);
  }

  /**
   * From iteration `attempt`, with `hits` the number of 429 answers so far,
   * the loop keeps `rate_limit_attempts` equal to the number of 429 answers
   * and sleeps the backoff after each call it continues after.
   */
  lemma {:induction false} BackoffsFrom(p: Policy, session: Session, attempt: nat, hits: nat, e: Effects)
    requires e.calls == attempt
    requires e.recorded == FreshCount(session, attempt)
    requires hits == Count429(session, attempt)
    ensures var r := Loop(p, session, attempt, hits, e);
      Backoffs(r.effects.sleeps) == Backoffs(e.sleeps) + BackoffsBetween(session, attempt, Continued(r))
    decreases p.maxRetries + 1 - attempt
  {
    if attempt <= p.maxRetries {
      var s := Iteration(p, session(attempt), attempt, hits, e);
      CountedStep(p, session, attempt, hits, e);
      LoopStep(p, session, attempt, hits, e);
      if s.Continue? {
        BackoffsFrom(p, session, attempt + 1, s.hits, s.effects);
        LoopEnding(p, session, attempt + 1, s.hits, s.effects);
        PrependBackoffAfter(Loop(p, session, attempt, hits, e), Loop(p, session, attempt + 1, s.hits, s.effects),
                            Backoffs(e.sleeps), Backoffs(s.effects.sleeps), session, attempt);
      }
    }
  }

  /** Moving the first backoff of a run's schedule onto the log before it. */
  lemma PrependBackoffAfter(r: Run, next: Run, before: seq<SleepEntry>, middle: seq<SleepEntry>, session: Session, lo: nat)
    requires r == next
    requires middle == before + [BackoffAfter(session, lo)]
    requires Backoffs(next.effects.sleeps) == middle + BackoffsBetween(session, lo + 1, Continued(next))
    requires lo < Continued(next)
    ensures Backoffs(r.effects.sleeps) == before + BackoffsBetween(session, lo, Continued(r))
  {
    assert BackoffsBetween(session, lo, Continued(r)) == [BackoffAfter(session, lo)] + BackoffsBetween(session, lo + 1, Continued(r));
  }

  /**
   * The backoffs of any run of `_get`, in order: one after each call the
   * loop continued after, `2 ** n` seconds after the n-th 429 answer (storage
   * faults in between do not count) and `(k + 1) * 0.5` seconds after a
   * storage fault on call k.
   */
  lemma BackoffSchedule(p: Policy, session: Session, window: seq<int>)
    ensures var r := Get(p, session, window);
      && Backoffs(r.effects.sleeps) == BackoffsBetween(session, 0, Continued(r))
      && forall i :: 0 <= i < |Backoffs(r.effects.sleeps)| ==> Backoffs(r.effects.sleeps)[i] == BackoffAfter(session, i)
  {
    var e := Effects(window, [], 0, 0);
    assert Get(p, session, window) == Loop(p, session, 0, 0, e);
    BackoffsFrom(p, session, 0, 0, e);
    assert Backoffs(e.sleeps) == [];
    ScheduleEntries(Backoffs(Loop(p, session, 0, 0, e).effects.sleeps), session, Continued(Loop(p, session, 0, 0, e)));
  }

  /**
   * The loop may continue after call `k` of `session`: the answer is a 429
   * within the 429 budget (counting the 429 answers up to and including it)
   * or a transient storage fault with iterations left.
   */
  predicate ContinuesAt(p: Policy, session: Session, k: nat) {
    Continues(p, session(k), k, Count429(session, k))
  }

  /** An iteration with `rate_limit_attempts` counted correctly continues exactly when `ContinuesAt` holds. */
  lemma ContinuesAtStep(p: Policy, session: Session, attempt: nat, hits: nat, e: Effects)
    requires hits == Count429(session, attempt)
    ensures var s := Iteration(p, session(attempt), attempt, hits, e);
      && (s.Continue? <==> ContinuesAt(p, session, attempt))
      && (s.Continue? ==> s.hits == Count429(session, attempt + 1))
  {
    CountedStep(p, session, attempt, hits, e);
  }

  /** From iteration `attempt`, the loop continued after a call only where it was allowed to. */
  lemma {:induction false} ContinuedOnlyWhereAllowed(p: Policy, session: Session, attempt: nat, hits: nat, e: Effects)
    requires e.calls == attempt
    requires e.recorded == FreshCount(session, attempt)
    requires hits == Count429(session, attempt)
    ensures var r := Loop(p, session, attempt, hits, e);
      forall k :: attempt <= k < Continued(r) ==> ContinuesAt(p, session, k)
    decreases p.maxRetries + 1 - attempt
  {
    if attempt <= p.maxRetries {
      var s := Iteration(p, session(attempt), attempt, hits, e);
      ContinuesAtStep(p, session, attempt, hits, e);
      LoopStep(p, session, attempt, hits, e);
      if s.Continue? {
        ContinuedOnlyWhereAllowed(p, session, attempt + 1, s.hits, s.effects);
        LoopEnding(p, session, attempt + 1, s.hits, s.effects);
      }
    }
  }

  /** From iteration `attempt`, a run that ends inside the loop ends at a call it was not allowed to continue after. */
  lemma {:induction false} StopsWhereNotAllowed(p: Policy, session: Session, attempt: nat, hits: nat, e: Effects)
    requires e.calls == attempt
    requires e.recorded == FreshCount(session, attempt)
    requires hits == Count429(session, attempt)
    ensures var r := Loop(p, session, attempt, hits, e);
      r.result != Fail(MaxRetriesExceeded) ==> !ContinuesAt(p, session, r.effects.calls - 1)
    decreases p.maxRetries + 1 - attempt
  {
    if attempt <= p.maxRetries {
      var s := Iteration(p, session(attempt), attempt, hits, e);
      ContinuesAtStep(p, session, attempt, hits, e);
      LoopStep(p, session, attempt, hits, e);
      if s.Continue? {
        StopsWhereNotAllowed(p, session, attempt + 1, s.hits, s.effects);
      }
    }
  }

  /**
   * `_get` goes on exactly as long as it may: it continues after each call up
   * to the first one that is neither a 429 within the 429 budget nor a
   * transient storage fault with iterations left, and ends with that call's
   * result; it reaches the fallback only when every iteration continued.
   */
  lemma ContinuesWhileAllowed(p: Policy, session: Session, window: seq<int>)
    ensures var r := Get(p, session, window);
      && (forall k :: 0 <= k < Continued(r) ==> ContinuesAt(p, session, k))
      && (r.result != Fail(MaxRetriesExceeded) ==> !ContinuesAt(p, session, r.effects.calls - 1))
  {
    var e := Effects(window, [], 0, 0);
    assert Get(p, session, window) == Loop(p, session, 0, 0, e);
    ContinuedOnlyWhereAllowed(p, session, 0, 0, e);
    StopsWhereNotAllowed(p, session, 0, 0, e);
  }

  /** A log equal to the schedule of the first `n` calls holds the backoff after call `i` at position `i`. */
  lemma ScheduleEntries(b: seq<SleepEntry>, session: Session, n: int)
    requires b == BackoffsBetween(session, 0, n)
    ensures forall i :: 0 <= i < |b| ==> b[i] == BackoffAfter(session, i)
  {
    BackoffsBetweenEntries(session, 0, n);
  }

  /** A 429 answer, a locked database, another 429 answer, then 200. */
  function MixedAnswers(k: nat): Outcome {
    if k == 0 || k == 2 then Response(StatusTooManyRequests, false, "", 0)
    else if k == 1 then Raised(OtherRaised, "database is locked")
    else Response(StatusOk, false, "[]", 0)
  }

  /** The mixed run returns the body of its fourth call. */
  lemma MixedRunResult(rpm: int, window: seq<int>)
    ensures var r := Get(Policy(rpm, true, 3, 3), MixedAnswers, window);
      r.result == Ok("[]") && r.effects.calls == 4
  {
    var p := Policy(rpm, true, 3, 3);
    var session: Session := MixedAnswers;
    StorageFault.LockedDatabaseIsTransient();
    var e0 := Effects(window, [], 0, 0);
    var s0 := Iteration(p, session(0), 0, 0, e0);
    LoopStep(p, session, 0, 0, e0);
    assert s0.Continue? && s0.hits == 1;
    var s1 := Iteration(p, session(1), 1, 1, s0.effects);
    assert s1 == OnRaised(p, OtherRaised, "database is locked", 1, 1, s0.effects);
    LoopStep(p, session, 1, 1, s0.effects);
    assert s1.Continue? && s1.hits == 1;
    var s2 := Iteration(p, session(2), 2, 1, s1.effects);
    LoopStep(p, session, 2, 1, s1.effects);
    assert s2.Continue? && s2.hits == 2;
    var s3 := Iteration(p, session(3), 3, 2, s2.effects);
    LoopStep(p, session, 3, 2, s2.effects);
    assert s3.Stop? && s3.result == Ok("[]") && s3.effects.calls == 4;
  }

  /**
   * The two counters interact: after a 429 answer, a locked database and a
   * second 429 answer, the client sleeps 2, 1 and 4 seconds, and the fourth
   * call returns the body.
   */
  lemma MixedRun(rpm: int, window: seq<int>)
    ensures var r := Get(Policy(rpm, true, 3, 3), MixedAnswers, window);
      && r.result == Ok("[]")
      && r.effects.calls == 4
      && Backoffs(r.effects.sleeps) == [RateLimitBackoff(2000), StoreBackoff(1000), RateLimitBackoff(4000)]
  {
    var session: Session := MixedAnswers;
    MixedRunResult(rpm, window);
    BackoffSchedule(Policy(rpm, true, 3, 3), session, window);
    assert Count429(session, 1) == 1 && Count429(session, 3) == 2;
    assert BackoffsBetween(session, 0, 3) == [BackoffAfter(session, 0), BackoffAfter(session, 1), BackoffAfter(session, 2)];
  }

  /** Every session call from `attempt` on is answered with HTTP 429. */
  ghost predicate All429From(session: Session, attempt: nat) {
    forall k: nat :: attempt <= k ==> session(k).Response? && session(k).status == StatusTooManyRequests
  }

  /** One iteration on a 429 answer, with 429 retries enabled and `hits` earlier 429 answers. */
  lemma Step429(p: Policy, o: Outcome, attempt: nat, hits: nat, e: Effects)
    requires p.retryOn429
    requires o.Response? && o.status == StatusTooManyRequests
    ensures var s := Iteration(p, o, attempt, hits, e);
      && (s.Continue? <==> hits + 1 <= p.max429Retries)
      && (s.Stop? ==> s.result == Fail(TooManyRequests))
      && Backoffs(s.effects.sleeps) == Backoffs(e.sleeps) + (if s.Continue? then [RateLimitBackoff(RateLimitBackoffMs(hits + 1))] else [])
  {
    var s := Iteration(p, o, attempt, hits, e);
    assert s == OnResponse(p, o.status, o.fromCache, o.body, o.at, hits, e);
    var e' := AfterResponse(e, o.fromCache, o.at, p.requestsPerMinute);
    BackoffsIgnoreThrottles(e.sleeps, e'.sleeps);
    if s.Continue? {
      BackoffsAppend(e'.sleeps, [RateLimitBackoff(RateLimitBackoffMs(hits + 1))]);
    }
  }

  /**
   * From iteration `attempt`, with `hits` earlier 429 answers and 429 answers
   * from here on, the run ends with TooManyRequestsException when the 429
   * budget runs out first and with the fallback when the loop budget does.
   */
  lemma {:induction false} Only429sFrom(p: Policy, session: Session, attempt: nat, hits: nat, e: Effects)
    requires e.calls == attempt
    requires e.recorded == FreshCount(session, attempt)
    requires p.retryOn429
    requires session(attempt).Response? && session(attempt).status == StatusTooManyRequests
    requires All429From(session, attempt + 1)
    requires attempt <= p.maxRetries + 1 && hits <= p.max429Retries
    ensures var r := Loop(p, session, attempt, hits, e);
      && r.result == (if Budget429First(p, attempt, hits) then Fail(TooManyRequests) else Fail(MaxRetriesExceeded))
      && r.effects.calls == attempt + Stop429(p, attempt, hits) + (if Budget429First(p, attempt, hits) then 1 else 0)
    decreases p.maxRetries + 1 - attempt
  {
    if attempt <= p.maxRetries {
      var s := Iteration(p, session(attempt), attempt, hits, e);
      Step429(p, session(attempt), attempt, hits, e);
      LoopStep(p, session, attempt, hits, e);
      if s.Continue? {
        assert session(attempt + 1).Response? && session(attempt + 1).status == StatusTooManyRequests;
        assert All429From(session, attempt + 2);
        assert s.effects.recorded == FreshCount(session, attempt + 1);
        Only429sFrom(p, session, attempt + 1, hits + 1, s.effects);
      }
    }
  }

  /**
   * The backoffs the same run sleeps: one of `2 ** k` seconds after each
   * 429 answer `k = hits + 1 ..= Last429(p, attempt, hits)`.
   */
  lemma {:induction false} Only429sBackoffsFrom(p: Policy, session: Session, attempt: nat, hits: nat, e: Effects)
    requires e.calls == attempt
    requires e.recorded == FreshCount(session, attempt)
    requires p.retryOn429
    requires session(attempt).Response? && session(attempt).status == StatusTooManyRequests
    requires All429From(session, attempt + 1)
    requires attempt <= p.maxRetries + 1 && hits <= p.max429Retries
    ensures Backoffs(Loop(p, session, attempt, hits, e).effects.sleeps)
         == Backoffs(e.sleeps) + Schedule429(hits, Last429(p, attempt, hits))
    decreases p.maxRetries + 1 - attempt
  {
    if attempt <= p.maxRetries {
      var s := Iteration(p, session(attempt), attempt, hits, e);
      Step429(p, session(attempt), attempt, hits, e);
      LoopStep(p, session, attempt, hits, e);
      if s.Continue? {
        assert session(attempt + 1).Response? && session(attempt + 1).status == StatusTooManyRequests;
        assert All429From(session, attempt + 2);
        assert s.effects.recorded == FreshCount(session, attempt + 1);
        Stop429Step(p, attempt, hits);
        Only429sBackoffsFrom(p, session, attempt + 1, hits + 1, s.effects);
        PrependBackoff(Loop(p, session, attempt, hits, e), Loop(p, session, attempt + 1, hits + 1, s.effects),
                       Backoffs(e.sleeps), Backoffs(s.effects.sleeps), hits, Last429(p, attempt, hits));
      } else {
        assert Last429(p, attempt, hits) == hits;
      }
    } else {
      assert Last429(p, attempt, hits) == hits;
    }
  }

  /** A 429 answer that is retried spends one backoff of the remaining run. */
  lemma Stop429Step(p: Policy, attempt: nat, hits: nat)
    requires attempt <= p.maxRetries && hits + 1 <= p.max429Retries
    ensures Last429(p, attempt + 1, hits + 1) == Last429(p, attempt, hits)
    ensures hits < Last429(p, attempt, hits)
  {
  }

  /** Moving the first backoff of a schedule onto the log before it. */
  lemma PrependBackoff(r: Run, next: Run, before: seq<SleepEntry>, middle: seq<SleepEntry>, lo: nat, hi: int)
    requires r == next
    requires middle == before + [RateLimitBackoff(RateLimitBackoffMs(lo + 1))]
    requires Backoffs(next.effects.sleeps) == middle + Schedule429(lo + 1, hi)
    requires lo < hi
    ensures Backoffs(r.effects.sleeps) == before + Schedule429(lo, hi)
  {
  }

  /**
   * With 429 retries enabled and every answer a 429: when the 429 budget R is
   * within the loop budget N, the call raises TooManyRequestsException after
   * R backoffs and R + 1 calls; when R exceeds N, the loop runs out after
   * N + 1 calls and N + 1 backoffs and the "Max retries exceeded" fallback is
   * raised.
   */
  lemma Only429s(p: Policy, session: Session, window: seq<int>)
    requires p.retryOn429
    requires p.max429Retries >= 0 && p.maxRetries >= 0
    requires All429From(session, 0)
    ensures var r := Get(p, session, window);
      && r.result == (if p.max429Retries <= p.maxRetries then Fail(TooManyRequests) else Fail(MaxRetriesExceeded))
      && r.effects.calls == (if p.max429Retries <= p.maxRetries then p.max429Retries + 1 else p.maxRetries + 1)
      && Backoffs(r.effects.sleeps) == Schedule429(0, if p.max429Retries <= p.maxRetries then p.max429Retries else p.maxRetries + 1)
  {
    assert session(0).Response? && session(0).status == StatusTooManyRequests;
    assert All429From(session, 1);
    Only429sFrom(p, session, 0, 0, Effects(window, [], 0, 0));
    Only429sBackoffsFrom(p, session, 0, 0, Effects(window, [], 0, 0));
  }

  /**
   * With the default settings (3 retries of each kind) and only 429 answers,
   * the client sleeps 2, 4 and 8 seconds and then raises
   * TooManyRequestsException on the fourth call.
   */
  lemma DefaultsOn429s(rpm: int, session: Session, window: seq<int>)
    requires All429From(session, 0)
    ensures var r := Get(Policy(rpm, true, 3, 3), session, window);
      && r.result == Fail(TooManyRequests)
      && r.effects.calls == 4
      && Backoffs(r.effects.sleeps) == [RateLimitBackoff(2000), RateLimitBackoff(4000), RateLimitBackoff(8000)]
  {
    Only429s(Policy(rpm, true, 3, 3), session, window);
    assert Schedule429(0, 3) == [RateLimitBackoff(2000), RateLimitBackoff(4000), RateLimitBackoff(8000)];
  }

  /** Without 429 retries (disabled, or no budget) the first 429 answer raises at once. */
  lemma NoRetryOn429(p: Policy, session: Session, window: seq<int>)
    requires !p.retryOn429 || p.max429Retries < 1
    requires p.maxRetries >= 0
    requires session(0).Response? && session(0).status == StatusTooManyRequests
    ensures var r := Get(p, session, window);
      && r.result == Fail(TooManyRequests)
      && r.effects.calls == 1
      && Backoffs(r.effects.sleeps) == []
  {
    var e := Effects(window, [], 0, 0);
    var o := session(0);
    var e' := AfterResponse(e, o.fromCache, o.at, p.requestsPerMinute);
    assert Iteration(p, o, 0, 0, e) == OnResponse(p, o.status, o.fromCache, o.body, o.at, 0, e);
    BackoffsIgnoreThrottles([], e'.sleeps);
  }

  /** Every session call from `attempt` on raises the same non-HTTP exception. */
  ghost predicate AllRaiseFrom(session: Session, attempt: nat, message: string) {
    forall k: nat :: attempt <= k ==> session(k) == Raised(OtherRaised, message)
  }

  /**
   * From iteration `attempt` with the same transient storage fault on every
   * call, the loop sleeps the linear backoff after each iteration before the
   * last and re-raises the fault on the last.
   */
  lemma {:induction false} StoreFaultsFrom(p: Policy, session: Session, attempt: nat, hits: nat, e: Effects, message: string)
    requires e.calls == attempt
    requires e.recorded == FreshCount(session, attempt)
    requires StorageFault.IsTransient(message)
    requires session(attempt) == Raised(OtherRaised, message)
    requires AllRaiseFrom(session, attempt + 1, message)
    requires attempt <= p.maxRetries
    ensures var r := Loop(p, session, attempt, hits, e);
      && r.result == Fail(Unhandled(message))
      && r.effects.calls == p.maxRetries + 1
      && r.effects.sleeps == e.sleeps + StoreSchedule(attempt, p.maxRetries)
      && r.effects.window == e.window
    decreases p.maxRetries + 1 - attempt
  {
    var s := Iteration(p, session(attempt), attempt, hits, e);
    assert s == OnRaised(p, OtherRaised, message, attempt, hits, e);
    LoopStep(p, session, attempt, hits, e);
    if attempt < p.maxRetries {
      assert session(attempt + 1) == Raised(OtherRaised, message);
      assert AllRaiseFrom(session, attempt + 2, message);
      StoreFaultsFrom(p, session, attempt + 1, hits, s.effects, message);
      PrependStoreBackoff(Loop(p, session, attempt, hits, e), Loop(p, session, attempt + 1, hits, s.effects),
                          e.sleeps, attempt, p.maxRetries);
    }
  }

  /** Moving the first storage backoff of a schedule onto the log before it. */
  lemma PrependStoreBackoff(r: Run, next: Run, before: seq<SleepEntry>, lo: nat, hi: int)
    requires r == next
    requires lo < hi
    requires next.effects.sleeps == (before + [StoreBackoff(StoreBackoffMs(lo))]) + StoreSchedule(lo + 1, hi)
    ensures r.effects.sleeps == before + StoreSchedule(lo, hi)
  {
    assert StoreSchedule(lo, hi) == [StoreBackoff(StoreBackoffMs(lo))] + StoreSchedule(lo + 1, hi);
  }

  /**
   * A transient storage fault on every call is retried on each of the first N
   * iterations, sleeping 0.5, 1.0, ... seconds, and re-raised on the last:
   * N + 1 calls, and the rate window untouched.
   */
  lemma PersistentStoreFault(p: Policy, session: Session, window: seq<int>, message: string)
    requires StorageFault.IsTransient(message)
    requires AllRaiseFrom(session, 0, message)
    requires p.maxRetries >= 0
    ensures var r := Get(p, session, window);
      && r.result == Fail(Unhandled(message))
      && r.effects.calls == p.maxRetries + 1
      && r.effects.sleeps == StoreSchedule(0, p.maxRetries)
      && r.effects.window == window
  {
    assert session(0) == Raised(OtherRaised, message);
    assert AllRaiseFrom(session, 1, message);
    StoreFaultsFrom(p, session, 0, 0, Effects(window, [], 0, 0), message);
  }

  /** With the default loop budget a locked database is retried after 0.5, 1 and 1.5 seconds. */
  lemma DefaultsOnLockedDatabase(rpm: int, session: Session, window: seq<int>)
    requires AllRaiseFrom(session, 0, "database is locked")
    ensures var r := Get(Policy(rpm, true, 3, 3), session, window);
      && r.result == Fail(Unhandled("database is locked"))
      && r.effects.calls == 4
      && r.effects.sleeps == [StoreBackoff(500), StoreBackoff(1000), StoreBackoff(1500)]
  {
    StorageFault.LockedDatabaseIsTransient();
    PersistentStoreFault(Policy(rpm, true, 3, 3), session, window, "database is locked");
    assert StoreSchedule(0, 3) == [StoreBackoff(500), StoreBackoff(1000), StoreBackoff(1500)];
  }

  /** A locked database on the first call, then 429 answers. */
  function LockedThen429(k: nat): Outcome {
    if k == 0 then Raised(OtherRaised, "database is locked") else Response(StatusTooManyRequests, false, "", 0)
  }

  /**
   * The fallback after the loop, which the source expects never to reach, is
   * reached with the default settings: a locked database on the first call
   * and 429 answers on the next three leave no iteration to return from.
   */
  lemma MaxRetriesReachableWithDefaults(rpm: int, window: seq<int>)
    ensures Get(Policy(rpm, true, 3, 3), LockedThen429, window).result == Fail(MaxRetriesExceeded)
  {
    var p := Policy(rpm, true, 3, 3);
    var session: Session := LockedThen429;
    StorageFault.LockedDatabaseIsTransient();
    var e0 := Effects(window, [], 0, 0);
    var s0 := Iteration(p, session(0), 0, 0, e0);
    assert s0 == OnRaised(p, OtherRaised, "database is locked", 0, 0, e0);
    LoopStep(p, session, 0, 0, e0);
    assert All429From(session, 2);
    Only429sFrom(p, session, 1, 0, s0.effects);
  }

  /** A 200 answer on the first call returns its body at once, without any backoff. */
  lemma FirstAnswerOk(p: Policy, session: Session, window: seq<int>)
    requires p.maxRetries >= 0
    requires session(0).Response? && session(0).status == StatusOk
    ensures var r := Get(p, session, window);
      && r.result == Ok(session(0).body)
      && r.effects.calls == 1
      && Backoffs(r.effects.sleeps) == []
  {
    var e := Effects(window, [], 0, 0);
    var o := session(0);
    var e' := AfterResponse(e, o.fromCache, o.at, p.requestsPerMinute);
    assert Iteration(p, o, 0, 0, e) == OnResponse(p, o.status, o.fromCache, o.body, o.at, 0, e);
    BackoffsIgnoreThrottles([], e'.sleeps);
  }

  /**
   * Any status other than 200 and 429 raises RequestException on the call it
   * arrives on: no backoff sleep and no further call.
   */
  lemma NonRetryableStatus(p: Policy, session: Session, window: seq<int>, k: nat)
    requires k <= p.maxRetries
    requires session(k).Response? && session(k).status != StatusOk && session(k).status != StatusTooManyRequests
    ensures var r := Get(p, session, window);
      && r.effects.calls <= k + 1
      && (r.effects.calls == k + 1 ==> r.result == Fail(HttpError(session(k).status, session(k).body)))
  {
    var r := Get(p, session, window);
    assert !Retryable(session(k));
  }

  /** Without a non-cached response there is nothing to record. */
  lemma {:induction false} NoFreshResponses(session: Session, n: nat)
    requires forall k :: 0 <= k < n ==> !(session(k).Response? && !session(k).fromCache)
    ensures FreshCount(session, n) == 0
  {
    if n > 0 {
      NoFreshResponses(session, n - 1);
    }
  }

  /** A run in which every response came from the cache never touches the rate window. */
  lemma CachedRunLeavesWindow(p: Policy, session: Session, window: seq<int>)
    requires forall k: nat :: session(k).Response? ==> session(k).fromCache
    ensures var r := Get(p, session, window);
      && r.effects.recorded == 0
      && r.effects.window == window
      && forall i :: 0 <= i < |r.effects.sleeps| ==> !r.effects.sleeps[i].Throttle?
  {
    var r := Get(p, session, window);
    NoFreshResponses(session, r.effects.calls);
    var e := Effects(window, [], 0, 0);
    NoThrottleWithoutRecording(p, session, 0, 0, e);
    assert forall i :: 0 <= i < |Loop(p, session, 0, 0, e).effects.sleeps| ==> !Loop(p, session, 0, 0, e).effects.sleeps[i].Throttle?;
  }

  /** Throttle sleeps only follow recordings. */
  lemma {:induction false} NoThrottleWithoutRecording(p: Policy, session: Session, attempt: nat, hits: nat, e: Effects)
    requires e.calls == attempt
    requires e.recorded == FreshCount(session, attempt)
    requires forall i :: 0 <= i < |e.sleeps| ==> !e.sleeps[i].Throttle?
    requires forall k: nat :: session(k).Response? ==> session(k).fromCache
    ensures var r := Loop(p, session, attempt, hits, e);
      forall i :: 0 <= i < |r.effects.sleeps| ==> !r.effects.sleeps[i].Throttle?
    decreases p.maxRetries + 1 - attempt
  {
    if attempt <= p.maxRetries {
      var o := session(attempt);
      var s := Iteration(p, o, attempt, hits, e);
      if o.Response? {
        assert s == OnResponse(p, o.status, o.fromCache, o.body, o.at, hits, e);
      } else {
        assert s == OnRaised(p, o.kind, o.message, attempt, hits, e);
      }
      assert forall i :: 0 <= i < |s.effects.sleeps| ==> !s.effects.sleeps[i].Throttle?;
      LoopStep(p, session, attempt, hits, e);
      if s.Continue? {
        NoThrottleWithoutRecording(p, session, attempt + 1, s.hits, s.effects);
      }
    }
  }
}
