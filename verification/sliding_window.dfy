/**
 * The bound the sliding-window limiter exists to keep: if every real API call
 * waits out the throttle the previous recording imposed, then no trailing
 * 60-second window ending at a call holds more than `requests_per_minute`
 * calls.
 */
module SlidingWindow {
  import opened RateLimiter

  /** Number of calls in the history `h` made at or after time `lo`. */
  function CountSince(h: seq<int>, lo: int): nat {
    if |h| == 0 then 0
    else CountSince(h[..|h| - 1], lo) + (if h[|h| - 1] >= lo then 1 else 0)
  }

  /**
   * `times` are the clock readings at which successive non-cached responses
   * are recorded, starting from window `w`: each is no earlier than the
   * previous reading plus the throttle that the previous recording slept.
   */
  ghost predicate Paced(w: seq<int>, times: seq<int>, rpm: int)
    decreases |times|
  {
    |times| <= 1 ||
    (var c := RecordRequest(w, times[0], rpm);
     && times[0] + Pause(c.verdict) <= times[1]
     && Paced(c.window, times[1..], rpm))
  }

  /**
   * The window `w` is exactly the calls of the time-ordered history `h` that
   * fall in the 60 seconds before the last one, and within the limit.
   */
  ghost predicate WindowOf(h: seq<int>, w: seq<int>, rpm: int) {
    && Sorted(h)
    && IsSuffix(w, h)
    && |w| <= rpm
    && (|h| > 0 ==>
          && (forall i :: 0 <= i < |h| - |w| ==> h[i] < h[|h| - 1] - WindowMs)
          && (forall i :: 0 <= i < |w| ==> w[i] >= h[|h| - 1] - WindowMs))
  }

  /** A next call at `t` respects the order of the history and the throttle owed at a full window. */
  ghost predicate Admissible(h: seq<int>, w: seq<int>, t: int, rpm: int) {
    && (|h| > 0 ==> t >= h[|h| - 1])
    && (|w| >= rpm && |w| > 0 ==> t >= w[0] + WindowMs + BufferMs)
  }

  /** Counting the calls at or after `lo` in a history split at `k` into older and newer calls. */
  lemma {:induction false} CountSplit(h: seq<int>, k: nat, lo: int)
    requires k <= |h|
    requires forall i :: 0 <= i < k ==> h[i] < lo
    requires forall i :: k <= i < |h| ==> h[i] >= lo
    ensures CountSince(h, lo) == |h| - k
    decreases |h|
  {
    if |h| > 0 {
      var init := h[..|h| - 1];
      if k == |h| {
        CountSplit(init, k - 1, lo);
      } else {
        CountSplit(init, k, lo);
      }
    }
  }

  /** The window of a time-ordered history is itself in order and no later than the last call. */
  lemma WindowSorted(h: seq<int>, w: seq<int>)
    requires Sorted(h)
    requires IsSuffix(w, h)
    ensures Sorted(w)
    ensures forall i :: 0 <= i < |w| ==> w[i] <= h[|h| - 1]
  {
    var older := |h| - |w|;
    forall i, j | 0 <= i < j < |w| ensures w[i] <= w[j] {
      assert w[i] == h[older + i] && w[j] == h[older + j];
    }
    forall i | 0 <= i < |w| ensures w[i] <= h[|h| - 1] {
      assert w[i] == h[older + i];
    }
  }

  /** Pruning `w + [t]` leaves a suffix of `h + [t]` whose dropped part is older than `lo`. */
  lemma SuffixAfterAppend(h: seq<int>, w: seq<int>, t: int, w': seq<int>, lo: int)
    requires IsSuffix(w, h)
    requires forall i :: 0 <= i < |h| - |w| ==> h[i] < lo
    requires IsSuffix(w', w + [t])
    requires forall i :: 0 <= i < |w| + 1 - |w'| ==> (w + [t])[i] < lo
    ensures IsSuffix(w', h + [t])
    ensures forall i :: 0 <= i < |h| + 1 - |w'| ==> (h + [t])[i] < lo
  {
    var h' := h + [t];
    var a := w + [t];
    var older := |h| - |w|;
    assert a == h'[older..];
    assert w' == h'[older + (|a| - |w'|)..];
    forall i | 0 <= i < |h'| - |w'|
      ensures h'[i] < lo
    {
      if i < older {
        assert h'[i] == h[i];
      } else {
        assert h'[i] == a[i - older];
      }
    }
  }

  /** One recording at an admissible time keeps the window the recent part of the history, within the limit. */
  lemma RecordStep(h: seq<int>, w: seq<int>, t: int, rpm: int)
    requires rpm >= 1
    requires WindowOf(h, w, rpm)
    requires Admissible(h, w, t, rpm)
    ensures WindowOf(h + [t], RecordRequest(w, t, rpm).window, rpm)
  {
    var c := RecordRequest(w, t, rpm);
    var w' := c.window;
    if |h| > 0 {
      WindowSorted(h, w);
      SortedAppend(h, t);
      assert forall i :: 0 <= i < |h| - |w| ==> h[i] < t - WindowMs;
    } else {
      assert Sorted(h + [t]);
    }
    RecordKeepsWindowRecent(w, t, rpm);
    RecordRequestPrunes(w, t, rpm);
    SuffixAfterAppend(h, w, t, w', t - WindowMs);
    if |w| == rpm {
      // the throttle owed at a full window pushes the oldest call out of it
      assert (w + [t])[0] < t - WindowMs;
    }
  }

  /** The recorded call at `t` sees at most `rpm` calls in its trailing window. */
  lemma CountAtRecord(h: seq<int>, w: seq<int>, t: int, rpm: int)
    requires rpm >= 1
    requires WindowOf(h, w, rpm)
    requires Admissible(h, w, t, rpm)
    ensures CountSince(h + [t], t - WindowMs) <= rpm
  {
    var w' := RecordRequest(w, t, rpm).window;
    RecordStep(h, w, t, rpm);
    var h' := h + [t];
    assert h'[|h'| - 1] == t;
    CountSplit(h', |h'| - |w'|, t - WindowMs);
  }

  /** The next call after an admissible one is admissible again when it honours the throttle. */
  lemma NextAdmissible(h: seq<int>, w: seq<int>, t: int, t': int, rpm: int)
    requires rpm >= 1
    requires WindowOf(h, w, rpm)
    requires Admissible(h, w, t, rpm)
    requires t + Pause(RecordRequest(w, t, rpm).verdict) <= t'
    ensures Admissible(h + [t], RecordRequest(w, t, rpm).window, t', rpm)
  {
    RecordStep(h, w, t, rpm);
  }

  /** Recording call `n` of the run `times` moves the history forward with every precondition intact. */
  lemma Advance(times: seq<int>, n: nat, w: seq<int>, rpm: int)
    requires rpm >= 1
    requires n + 1 < |times|
    requires WindowOf(times[..n], w, rpm)
    requires Admissible(times[..n], w, times[n], rpm)
    requires Paced(w, times[n..], rpm)
    ensures var w' := RecordRequest(w, times[n], rpm).window;
      && WindowOf(times[..n + 1], w', rpm)
      && Admissible(times[..n + 1], w', times[n + 1], rpm)
      && Paced(w', times[n + 1..], rpm)
  {
    assert times[..n] + [times[n]] == times[..n + 1];
    assert times[n..][1..] == times[n + 1..];
    RecordStep(times[..n], w, times[n], rpm);
    NextAdmissible(times[..n], w, times[n], times[n + 1], rpm);
  }

  /** The bound at call `i` of the run `times`, whose first `n` calls left window `w`. */
  lemma {:induction false} BoundAt(times: seq<int>, n: nat, w: seq<int>, rpm: int, i: nat)
    requires rpm >= 1
    requires n <= i < |times|
    requires WindowOf(times[..n], w, rpm)
    requires Admissible(times[..n], w, times[n], rpm)
    requires Paced(w, times[n..], rpm)
    ensures CountSince(times[..i + 1], times[i] - WindowMs) <= rpm
    decreases i - n
  {
    if i == n {
      CountAtRecord(times[..n], w, times[n], rpm);
      assert times[..n] + [times[n]] == times[..n + 1];
    } else {
      Advance(times, n, w, rpm);
      BoundAt(times, n + 1, RecordRequest(w, times[n], rpm).window, rpm, i);
    }
  }

  /**
   * Starting from the empty window of a new client, when each call honours the
   * previous throttle, every trailing 60-second window ending at a call holds
   * at most `rpm` calls.
   */
  lemma SlidingWindowBound(times: seq<int>, rpm: int)
    requires rpm >= 1
    requires Paced([], times, rpm)
    ensures forall k :: 0 <= k < |times| ==> CountSince(times[..k + 1], times[k] - WindowMs) <= rpm
  {
    forall k | 0 <= k < |times|
      ensures CountSince(times[..k + 1], times[k] - WindowMs) <= rpm
    {
      assert times[..0] == [] && times[0..] == times;
      BoundAt(times, 0, [], rpm, k);
    }
  }
}
