/**
 * The client's sliding-window rate limiter (`_check_rate_limit` and
 * `_record_request` in src/fmp_client/client.py).
 *
 * The window is the append-ordered deque of timestamps of real (non-cached)
 * API calls. Time is an integer number of milliseconds: the 60-second window
 * is 60000 and the 0.1-second jitter buffer is 100.
 */
module RateLimiter {

  /** Length of the sliding window, in milliseconds. */
  const WindowMs: int := 60000

  /** Buffer added to a computed wait, in milliseconds. */
  const BufferMs: int := 100

  /** What a rate-limit check decides after pruning the window. */
  datatype Verdict =
    | Proceed          // under the limit, or the computed wait was not positive
    | Sleep(ms: int)   // the caller sleeps this long
    | IndexFault       // the limit is not positive and the window is empty: `deque[0]` raises IndexError

  /** The window left by a check, together with its verdict. */
  datatype Check = Check(window: seq<int>, verdict: Verdict)

  /** Sleep time a verdict imposes on the caller (none for `Proceed`). */
  function Pause(v: Verdict): int {
    if v.Sleep? then v.ms else 0
  }

  ghost predicate Sorted(w: seq<int>) {
    forall i, j :: 0 <= i < j < |w| ==> w[i] <= w[j]
  }

  /** `r` is what is left of `w` after dropping some prefix. */
  ghost predicate IsSuffix(r: seq<int>, w: seq<int>) {
    |r| <= |w| && r == w[|w| - |r|..]
  }

  /**
   * The pruning loop: drops timestamps from the front of the window while the
   * front is older than `start`. It stops at the first timestamp that is not.
   */
  function Prune(w: seq<int>, start: int): (r: seq<int>)
    ensures |r| <= |w|
    ensures |r| > 0 ==> r[0] >= start
    ensures |w| > 0 && w[|w| - 1] >= start ==> |r| > 0 && r[|r| - 1] == w[|w| - 1]
  {
    if |w| > 0 && w[0] < start then Prune(w[1..], start) else w
  }

  /** Pruning removes a prefix, and only timestamps older than `start`. */
  lemma {:induction false} PruneDropsOldPrefix(w: seq<int>, start: int)
    ensures IsSuffix(Prune(w, start), w)
    ensures forall i :: 0 <= i < |w| - |Prune(w, start)| ==> w[i] < start
    decreases |w|
  {
    if |w| > 0 && w[0] < start {
      PruneDropsOldPrefix(w[1..], start);
      var r := Prune(w, start);
      assert w[1..][|w| - 1 - |r|..] == w[|w| - |r|..];
      forall i | 1 <= i < |w| - |r|
        ensures w[i] < start
      {
        assert w[i] == w[1..][i - 1];
      }
    }
  }

  /** On a window kept in time order, pruning keeps it in order and leaves only timestamps from `start` on. */
  lemma PruneSorted(w: seq<int>, start: int)
    requires Sorted(w)
    ensures Sorted(Prune(w, start))
    ensures forall i :: 0 <= i < |Prune(w, start)| ==> Prune(w, start)[i] >= start
  {
    PruneDropsOldPrefix(w, start);
    var r := Prune(w, start);
    forall i | 0 <= i < |r|
      ensures r[i] == w[|w| - |r| + i]
    {
    }
  }

  /**
   * `_check_rate_limit` at clock reading `now` with limit `rpm`: prune the
   * window to `[now - 60 s, ...]`; at or over the limit, sleep until 100 ms
   * after the oldest remaining call leaves the window.
   */
  function CheckRateLimit(w: seq<int>, now: int, rpm: int): (r: Check)
    ensures |r.window| <= |w|
    ensures |r.window| > 0 ==> r.window[0] >= now - WindowMs
    ensures r.verdict.Proceed? <==> |r.window| < rpm
    ensures r.verdict.IndexFault? <==> |r.window| == 0 && rpm <= 0
    ensures r.verdict.Sleep? ==>
              && |r.window| > 0
              && r.verdict.ms >= BufferMs
              && now + r.verdict.ms == r.window[0] + WindowMs + BufferMs
  {
    var windowStart := now - WindowMs;
    var kept := Prune(w, windowStart);
    if |kept| >= rpm then
      if |kept| == 0 then Check(kept, IndexFault)
      else
        var wait := kept[0] - windowStart + BufferMs;
        if wait > 0 then Check(kept, Sleep(wait)) else Check(kept, Proceed)
    else Check(kept, Proceed)
  }

  /**
   * A check only ever drops a prefix of the window, and only timestamps older
   * than 60 seconds; it never adds one.
   */
  lemma CheckRateLimitPrunes(w: seq<int>, now: int, rpm: int)
    ensures var r := CheckRateLimit(w, now, rpm);
      && IsSuffix(r.window, w)
      && forall i :: 0 <= i < |w| - |r.window| ==> w[i] < now - WindowMs
  {
    PruneDropsOldPrefix(w, now - WindowMs);
  }

  /**
   * `_record_request`: append the current time to the window, then run the
   * check, which throttles the caller's NEXT request.
   */
  function RecordRequest(w: seq<int>, now: int, rpm: int): (r: Check)
    ensures |r.window| > 0 && r.window[|r.window| - 1] == now
    ensures 1 <= |r.window| <= |w| + 1
    ensures !r.verdict.IndexFault?
    ensures r.verdict.Sleep? <==> |r.window| >= rpm
    ensures r.verdict.Sleep? ==> now + r.verdict.ms == r.window[0] + WindowMs + BufferMs
  {
    var r := CheckRateLimit(w + [now], now, rpm);
    // the appended stamp is inside the window, so pruning stops at or before it
    assert (w + [now])[|w|] == now;
    r
  }

  /** Recording leaves a suffix of the window with the new timestamp appended, losing only calls older than 60 seconds. */
  lemma RecordRequestPrunes(w: seq<int>, now: int, rpm: int)
    ensures var r := RecordRequest(w, now, rpm);
      && IsSuffix(r.window, w + [now])
      && forall i :: 0 <= i < |w| + 1 - |r.window| ==> (w + [now])[i] < now - WindowMs
  {
    CheckRateLimitPrunes(w + [now], now, rpm);
  }

  /**
   * On a window of past calls kept in time order, recording keeps it in order,
   * every remaining call lies in the last 60 seconds, and a throttle never
   * exceeds 60.1 seconds.
   */
  lemma RecordKeepsWindowRecent(w: seq<int>, now: int, rpm: int)
    requires Sorted(w)
    requires forall i :: 0 <= i < |w| ==> w[i] <= now
    ensures var r := RecordRequest(w, now, rpm);
      && Sorted(r.window)
      && (forall i :: 0 <= i < |r.window| ==> now - WindowMs <= r.window[i] <= now)
      && (r.verdict.Sleep? ==> r.verdict.ms <= WindowMs + BufferMs)
  {
    var appended := w + [now];
    SortedAppend(w, now);
    var kept := Prune(appended, now - WindowMs);
    PruneDropsOldPrefix(appended, now - WindowMs);
    PruneSorted(appended, now - WindowMs);
    assert RecordRequest(w, now, rpm).window == kept;
    forall i | 0 <= i < |kept|
      ensures kept[i] <= now
    {
      assert kept[i] == appended[|appended| - |kept| + i];
    }
  }

  /** Appending a timestamp no earlier than the last keeps a window in order. */
  lemma SortedAppend(h: seq<int>, t: int)
    requires Sorted(h)
    requires |h| > 0 ==> t >= h[|h| - 1]
    ensures Sorted(h + [t])
  {
    var h' := h + [t];
    forall i, j | 0 <= i < j < |h'| ensures h'[i] <= h'[j] {
      if j == |h| {
        assert h'[i] == h[i] <= h[|h| - 1];
      } else {
        assert h'[i] == h[i] && h'[j] == h[j];
      }
    }
  }
}
