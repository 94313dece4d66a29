/**
 The circuit breaker over whole histories (internal/upstream/state.go).

 A failure window is anchored at its first failure, so what a trip means
 (soundness) and how many failures force one (completeness) are different
 statements; both are proved here for every history and every clock. Threshold and
 window are read from the live configuration at each failure, so a history may mix
 any of them.
 */
module Breaker {
  import opened Upstream

  datatype Event =
    | Failure(now: int, threshold: int, window: int)
    | Success
    | Recovered              // MarkHealthy
    | Forced(now: int)       // MarkUnhealthy
    | SlotTaken(max: int)    // IncActive
    | SlotFreed              // DecActive
    | Drain(on: bool)        // SetDrain

  function Apply(s: UpState, e: Event): UpState {
    match e
    case Failure(now, threshold, window) => s.RecordFailure(now, threshold, window).0
    case Success => s.RecordSuccess()
    case Recovered => s.MarkHealthy()
    case Forced(now) => s.MarkUnhealthy(now)
    case SlotTaken(max) => s.IncActive(max).0
    case SlotFreed => s.DecActive()
    case Drain(on) => s.(draining := on)
  }

  /** The state after history `h`, from a new upstream. */
  function After(h: seq<Event>): UpState {
    if h == [] then FRESH
    else Apply(After(h[..|h| - 1]), h[|h| - 1])
  }

  lemma AfterAppend(h: seq<Event>, e: Event)
    ensures After(h + [e]) == Apply(After(h), e)
  {
    assert (h + [e])[..|h|] == h;
  }

  /** What validation demands of thresholds and windows. */
  ghost predicate Validated(h: seq<Event>) {
    forall i :: 0 <= i < |h| && h[i].Failure? ==> h[i].threshold > 0 && h[i].window > 0
  }

  // --- What the flag and the counters mean, told by the events alone -----------

  predicate AllFailures(fs: seq<Event>) {
    forall k :: 0 <= k < |fs| ==> fs[k].Failure?
  }

  /** Which of the failures `fs` starts the window that the last one counts in. */
  function AnchorOf(fs: seq<Event>): (a: nat)
    requires fs != [] && AllFailures(fs)
    ensures a < |fs|
  {
    var n := |fs| - 1;
    if n == 0 then 0
    else
      var a := AnchorOf(fs[..n]);
      if fs[n].now - fs[a].now > fs[n].window then n else a
  }

  /** How many of the failures count in the current window. */
  function Counting(fs: seq<Event>): nat
    requires AllFailures(fs)
  {
    if fs == [] then 0 else |fs| - AnchorOf(fs)
  }

  /** Whether the upstream is out of rotation, and the failures that count against it. */
  datatype Tale = Tale(down: bool, since: seq<Event>)

  /** A success clears the failures, and so does a recovery that finds the upstream down. */
  function Told(h: seq<Event>): (t: Tale)
    ensures AllFailures(t.since)
  {
    if h == [] then Tale(false, []) else Tell(Told(h[..|h| - 1]), h[|h| - 1])
  }

  function Tell(t: Tale, e: Event): (t': Tale)
    requires AllFailures(t.since)
    ensures AllFailures(t'.since)
  {
    match e
    case Failure(_, threshold, _) =>
      var fs := t.since + [e];
      Tale(t.down || Counting(fs) >= threshold, fs)
    case Success => t.(since := [])
    case Recovered => if t.down then Tale(false, []) else t
    case Forced(_) => t.(down := true)
    case _ => t
  }

  function Since(h: seq<Event>): (fs: seq<Event>)
    ensures AllFailures(fs)
  {
    Told(h).since
  }

  /** Event `i` takes the upstream out of rotation: by force, or as a failure that reaches its threshold. */
  predicate TakesDown(h: seq<Event>, i: int) {
    && 0 <= i < |h|
    && (h[i].Forced? || (h[i].Failure? && Counting(Since(h[..i + 1])) >= h[i].threshold))
  }

  /** And no recovery came after it. */
  predicate KeepsDown(h: seq<Event>, i: int) {
    TakesDown(h, i) && forall j :: i < j < |h| ==> !h[j].Recovered?
  }

  /** The upstream is out of rotation. */
  ghost predicate Down(h: seq<Event>) {
    exists i :: KeepsDown(h, i)
  }

  lemma KeepsDownBefore(h: seq<Event>, i: int)
    requires h != [] && i < |h| - 1
    ensures KeepsDown(h, i) <==> KeepsDown(h[..|h| - 1], i) && !h[|h| - 1].Recovered?
  {
    var n := |h| - 1;
    if 0 <= i {
      assert h[..n][..i + 1] == h[..i + 1];
      assert forall j :: i < j < n ==> h[..n][j] == h[j];
    }
  }

  lemma DownNext(h: seq<Event>)
    requires h != []
    ensures Down(h) <==> TakesDown(h, |h| - 1) || (Down(h[..|h| - 1]) && !h[|h| - 1].Recovered?)
  {
    var n := |h| - 1;
    if i :| KeepsDown(h, i) && i != n {
      KeepsDownBefore(h, i);
    }
    if Down(h[..n]) && !h[n].Recovered? {
      var i :| KeepsDown(h[..n], i);
      KeepsDownBefore(h, i);
    }
    if TakesDown(h, n) {
      assert KeepsDown(h, n);
    }
  }

  lemma {:induction false} DownIsTold(h: seq<Event>)
    ensures Down(h) <==> Told(h).down
  {
    if h != [] {
      var n := |h| - 1;
      DownIsTold(h[..n]);
      DownNext(h);
      assert h[..n + 1] == h;
    }
  }

  /** The fields of `s` are what is told. */
  ghost predicate Matches(s: UpState, t: Tale)
    requires AllFailures(t.since)
  {
    && (s.healthy <==> !t.down)
    && s.consecutive == Counting(t.since)
    && s.firstFailure == if t.since == [] then ZERO_TIME else t.since[AnchorOf(t.since)].now
  }

  /** One more failure counts in the window, or starts a new one. */
  lemma WindowNext(fs: seq<Event>, f: Event)
    requires f.Failure? && AllFailures(fs)
    ensures AnchorOf(fs + [f]) ==
            if fs == [] || f.now - fs[AnchorOf(fs)].now > f.window then |fs| else AnchorOf(fs)
  {
    assert (fs + [f])[..|fs|] == fs;
  }

  lemma MatchesNext(s: UpState, t: Tale, e: Event)
    requires AllFailures(t.since) && Matches(s, t)
    ensures Matches(Apply(s, e), Tell(t, e))
  {
    if e.Failure? {
      WindowNext(t.since, e);
    }
  }

  lemma {:induction false} MatchesTold(h: seq<Event>)
    ensures Matches(After(h), Told(h))
  {
    if h != [] {
      MatchesTold(h[..|h| - 1]);
      MatchesNext(After(h[..|h| - 1]), Told(h[..|h| - 1]), h[|h| - 1]);
    }
  }

  /**
   After every history, with any clock and any thresholds: the upstream is out of
   rotation if and only if some event took it out, by force or as a failure that
   reached its threshold, and no recovery came after that; the counter is the number
   of failures in the current window; and its anchor is the first of them.
   */
  lemma HistoryTells(h: seq<Event>)
    ensures !After(h).healthy <==> exists i :: KeepsDown(h, i)
    ensures After(h).consecutive == Counting(Since(h))
    ensures After(h).firstFailure == if Since(h) == [] then ZERO_TIME else Since(h)[AnchorOf(Since(h))].now
  {
    MatchesTold(h);
    DownIsTold(h);
  }

  /** The events that are not about failures: slots move the active count only, and the drain flag is the last one set. */
  lemma OtherEvents(h: seq<Event>, max: int, on: bool)
    ensures var s := After(h);
            && After(h + [Drain(on)]) == s.(draining := on)
            && After(h + [SlotFreed]) == s.(active := if s.active > 0 then s.active - 1 else s.active)
            && After(h + [SlotTaken(max)]) ==
               s.(active := if s.healthy && !s.draining && s.active < max then s.active + 1 else s.active)
  {
    AfterAppend(h, Drain(on));
    AfterAppend(h, SlotFreed);
    AfterAppend(h, SlotTaken(max));
  }

  // --- Soundness -----------------------------------------------------------------

  /** The last `n` of the failures start at `anchor`, and each lies within its own window of it. */
  ghost predicate Burst(fs: seq<Event>, n: int, anchor: int) {
    && 0 <= n <= |fs|
    && (forall k :: |fs| - n <= k < |fs| ==> fs[k].Failure? && fs[k].now - anchor <= fs[k].window)
    && (n > 0 ==> fs[|fs| - n].Failure? && fs[|fs| - n].now == anchor)
  }

  /** A healthy upstream has no failure on its counter, or fewer than the last failure's threshold. */
  ghost predicate BelowLast(s: UpState, fs: seq<Event>) {
    s.healthy && s.consecutive > 0 ==>
      fs != [] && fs[|fs| - 1].Failure? && s.consecutive < fs[|fs| - 1].threshold
  }

  /** What the counters mean after any history. */
  lemma {:induction false} CountersMeanBurst(h: seq<Event>)
    requires Validated(h)
    ensures Burst(Since(h), After(h).consecutive, After(h).firstFailure)
    ensures BelowLast(After(h), Since(h))
  {
    if h != [] {
      CountersMeanBurst(h[..|h| - 1]);
      MatchesTold(h[..|h| - 1]);
      BurstStep(After(h[..|h| - 1]), Since(h[..|h| - 1]), h[|h| - 1]);
    }
  }

  /** One more event. */
  lemma BurstStep(s: UpState, fs: seq<Event>, e: Event)
    requires Burst(fs, s.consecutive, s.firstFailure) && BelowLast(s, fs) && Validated([e])
    ensures var s' := Apply(s, e);
            var fs' := match e
                       case Failure(_, _, _) => fs + [e]
                       case Success => []
                       case Recovered => if s.healthy then fs else []
                       case _ => fs;
            Burst(fs', s'.consecutive, s'.firstFailure) && BelowLast(s', fs')
  {
    assert [e][0] == e;
  }

  lemma FailureNext(h: seq<Event>, e: Event)
    requires e.Failure?
    ensures After(h + [e]) == Apply(After(h), e) && Since(h + [e]) == Since(h) + [e]
  {
    assert (h + [e])[..|h|] == h;
  }

  /** What the counter is when a failure comes: a window that is over counts for nothing. */
  function Base(s: UpState, now: int, window: int): int {
    if s.Expired(now, window) then 0 else s.consecutive
  }

  /**
   Soundness: whatever the clock and the configuration do, a failure that trips the
   breaker is the last of a burst of at least its threshold of failures since the last
   success or recovery; and of exactly so many if and only if the counter was below
   the threshold before, or its window was over.
   */
  lemma TripMeansBurst(h: seq<Event>, now: int, threshold: int, window: int)
    requires Validated(h) && threshold > 0 && window > 0
    requires After(h).RecordFailure(now, threshold, window).1
    ensures var h' := h + [Failure(now, threshold, window)];
            var fs, s' := Since(h'), After(h');
            && threshold <= s'.consecutive <= |fs| && !s'.healthy
            && fs[|fs| - 1] == Failure(now, threshold, window)
            && Burst(fs, s'.consecutive, s'.firstFailure)
            && (s'.consecutive == threshold <==> Base(After(h), now, window) < threshold)
  {
    CountersMeanBurst(h);
    FailureNext(h, Failure(now, threshold, window));
    BurstStep(After(h), Since(h), Failure(now, threshold, window));
  }

  /**
   The exact number can be missed: three failures at threshold 5 leave a healthy
   upstream above a threshold of 2, and the next failure trips at four.
   */
  lemma LoweredThreshold(window: int) returns (h: seq<Event>)
    requires window > 0
    ensures Validated(h) && After(h).healthy && After(h).consecutive == 3
    ensures var (s', tripped) := After(h).RecordFailure(0, 2, window); tripped && s'.consecutive == 4
  {
    var e := Failure(0, 5, window);
    h := [] + [e];
    AfterAppend([], e);
    AfterAppend(h, e);
    h := h + [e];
    AfterAppend(h, e);
    h := h + [e];
  }

  /** The configuration never changes the threshold or the window. */
  ghost predicate Constant(h: seq<Event>, threshold: int, window: int) {
    forall i :: 0 <= i < |h| && h[i].Failure? ==> h[i].threshold == threshold && h[i].window == window
  }

  lemma {:induction false} SinceIsConstant(h: seq<Event>, threshold: int, window: int)
    requires Constant(h, threshold, window)
    ensures Constant(Since(h), threshold, window)
  {
    if h != [] {
      SinceIsConstant(h[..|h| - 1], threshold, window);
    }
  }

  /** Then a healthy upstream always has fewer than `threshold` failures on its counter. */
  lemma HealthyBelowThreshold(h: seq<Event>, threshold: int, window: int)
    requires threshold > 0 && window > 0 && Constant(h, threshold, window)
    ensures After(h).healthy ==> 0 <= After(h).consecutive < threshold
  {
    CountersMeanBurst(h);
    SinceIsConstant(h, threshold, window);
  }

  /** And a trip comes at exactly `threshold` failures, all within the window of the first of them. */
  lemma TripAtThreshold(h: seq<Event>, now: int, threshold: int, window: int)
    requires threshold > 0 && window > 0 && Constant(h, threshold, window)
    requires After(h).RecordFailure(now, threshold, window).1
    ensures var h' := h + [Failure(now, threshold, window)];
            && After(h').consecutive == threshold && After(h).consecutive == threshold - 1
            && |Since(h')| >= threshold && Burst(Since(h'), threshold, After(h').firstFailure)
  {
    var h' := h + [Failure(now, threshold, window)];
    assert h'[..|h'| - 1] == h;
    HealthyBelowThreshold(h, threshold, window);
    TripMeansBurst(h, now, threshold, window);
  }

  // --- Completeness ---------------------------------------------------------

  /** The state after failures at the given times and nothing else. */
  function Fail(s: UpState, times: seq<int>, threshold: int, window: int): UpState
    decreases |times|
  {
    if times == [] then s
    else Fail(s.RecordFailure(times[0], threshold, window).0, times[1..], threshold, window)
  }

  ghost predicate Monotone(times: seq<int>) {
    forall i, j :: 0 <= i < j < |times| ==> times[i] <= times[j]
  }

  /** The times never go back and span at most the window. */
  ghost predicate Tight(times: seq<int>, window: int) {
    && Monotone(times)
    && (times != [] ==> times[|times| - 1] - times[0] <= window)
  }

  lemma {:induction false} FailKeepsUnhealthy(s: UpState, times: seq<int>, threshold: int, window: int)
    requires !s.healthy
    ensures !Fail(s, times, threshold, window).healthy
    decreases |times|
  {
    if times != [] {
      FailKeepsUnhealthy(s.RecordFailure(times[0], threshold, window).0, times[1..], threshold, window);
    }
  }

  /** Inside the anchor's window every failure counts. */
  lemma {:induction false} FailInsideWindow(s: UpState, times: seq<int>, threshold: int, window: int)
    requires s.consecutive > 0
    requires forall k :: 0 <= k < |times| ==> times[k] - s.firstFailure <= window
    requires times != [] && s.consecutive + |times| >= threshold
    ensures !Fail(s, times, threshold, window).healthy
    decreases |times|
  {
    var next := s.RecordFailure(times[0], threshold, window).0;
    if next.healthy && |times| > 1 {
      FailInsideWindow(next, times[1..], threshold, window);
    } else {
      FailKeepsUnhealthy(next, times[1..], threshold, window);
    }
  }

  /**
   A failure that starts a new window: `threshold` of them in a tight burst trip.
   */
  lemma FailFromRestart(s: UpState, times: seq<int>, threshold: int, window: int)
    requires threshold > 0 && window > 0 && s.consecutive >= 0
    requires Tight(times, window) && |times| >= threshold
    requires s.consecutive == 0 || s.Expired(times[0], window)
    ensures !Fail(s, times, threshold, window).healthy
  {
    var next := s.RecordFailure(times[0], threshold, window).0;
    if |times| == 1 || !next.healthy {
      FailKeepsUnhealthy(next, times[1..], threshold, window);
    } else {
      FailInsideWindow(next, times[1..], threshold, window);
    }
  }

  /** How many failures in one tight burst are enough from state `s`. */
  function Enough(s: UpState, threshold: int): int {
    if s.consecutive == 0 then threshold
    else if s.consecutive < threshold then 2 * threshold - 1 - s.consecutive
    else threshold
  }

  /**
   Completeness, exactly by state: from any state at all, with any earlier
   anchor, `Enough` failures in a tight burst leave the upstream unhealthy.
   */
  lemma {:induction false} EnoughFailuresTrip(s: UpState, times: seq<int>, threshold: int, window: int)
    requires threshold > 0 && window > 0 && s.consecutive >= 0
    requires Tight(times, window) && |times| >= Enough(s, threshold)
    ensures !Fail(s, times, threshold, window).healthy
    decreases |times|
  {
    if s.consecutive == 0 || s.Expired(times[0], window) {
      FailFromRestart(s, times, threshold, window);
    } else {
      var next := s.RecordFailure(times[0], threshold, window).0;
      if next.consecutive < threshold {
        EnoughFailuresTrip(next, times[1..], threshold, window);
      } else {
        FailKeepsUnhealthy(next, times[1..], threshold, window);
      }
    }
  }

  /** The least number of tight failures that trips the breaker from every state. */
  function Bound(threshold: int): int {
    if threshold == 1 then 1 else 2 * threshold - 2
  }

  /** Completeness, whatever the state before: `Bound` is never more than 2T - 1. */
  lemma BoundFailuresTrip(s: UpState, times: seq<int>, threshold: int, window: int)
    requires threshold > 0 && window > 0 && s.consecutive >= 0
    requires Tight(times, window) && |times| >= Bound(threshold)
    ensures Bound(threshold) <= 2 * threshold - 1
    ensures !Fail(s, times, threshold, window).healthy
  {
    EnoughFailuresTrip(s, times, threshold, window);
  }

  function Repeat(t: int, n: nat): (r: seq<int>)
    ensures |r| == n && forall k :: 0 <= k < n ==> r[k] == t
  {
    seq(n, _ => t)
  }

  /** Failures that do not reach the threshold leave a healthy upstream healthy. */
  lemma {:induction false} FailBelowThreshold(s: UpState, t: int, n: nat, threshold: int, window: int)
    requires s.healthy && s.consecutive > 0 && t - s.firstFailure <= window
    requires s.consecutive + n < threshold
    ensures Fail(s, Repeat(t, n), threshold, window) ==
            s.(consecutive := s.consecutive + n, lastFailure := if n == 0 then s.lastFailure else t)
    decreases n
  {
    if n > 0 {
      assert Repeat(t, n)[1..] == Repeat(t, n - 1);
      FailBelowThreshold(s.RecordFailure(t, threshold, window).0, t, n - 1, threshold, window);
    }
  }

  lemma {:induction false} FailConcat(s: UpState, a: seq<int>, b: seq<int>, threshold: int, window: int)
    ensures Fail(s, a + b, threshold, window) == Fail(Fail(s, a, threshold, window), b, threshold, window)
    decreases |a|
  {
    if a == [] {
      assert a + b == b;
    } else {
      assert (a + b)[1..] == a[1..] + b;
      FailConcat(s.RecordFailure(a[0], threshold, window).0, a[1..], b, threshold, window);
    }
  }

  /** One failure, then a burst astride the end of its window. */
  function Straddle(threshold: int, window: int): (r: seq<int>)
    requires threshold >= 2
    ensures |r| == 2 * threshold - 3
  {
    Repeat(window, threshold - 2) + Repeat(window + 1, threshold - 1)
  }

  /** A burst one failure shorter than `Bound` that leaves the upstream healthy. */
  lemma StraddleStaysHealthy(threshold: int, window: int)
    requires threshold >= 2 && window > 0
    ensures Tight(Straddle(threshold, window), window)
    ensures Fail(After([Failure(0, threshold, window)]), Straddle(threshold, window), threshold, window).healthy
  {
    var h := [Failure(0, threshold, window)];
    AfterAppend([], h[0]);
    assert [] + [h[0]] == h;
    var s := After(h);
    assert s == FRESH.RecordFailure(0, threshold, window).0;
    var early, late := Repeat(window, threshold - 2), Repeat(window + 1, threshold - 1);
    FailConcat(s, early, late, threshold, window);
    FailBelowThreshold(s, window, threshold - 2, threshold, window);
    var mid := Fail(s, early, threshold, window);
    var restarted := mid.RecordFailure(window + 1, threshold, window).0;
    assert late[1..] == Repeat(window + 1, threshold - 2);
    FailBelowThreshold(restarted, window + 1, threshold - 2, threshold, window);
  }

  lemma {:induction false} NeverNegative(h: seq<Event>)
    ensures After(h).consecutive >= 0
  {
    if h != [] {
      NeverNegative(h[..|h| - 1]);
    }
  }

  /** Every tight burst of `n` failures trips the breaker, after every history. */
  ghost predicate AlwaysTrips(n: nat, threshold: int, window: int) {
    forall h: seq<Event>, times: seq<int> ::
      |times| == n && Tight(times, window) ==>
        !Fail(After(h), times, threshold, window).healthy
  }

  /** A shorter start of that burst leaves it healthy too. */
  lemma StraddlePrefix(n: nat, threshold: int, window: int)
    requires threshold >= 2 && window > 0 && n <= 2 * threshold - 3
    ensures var few := Straddle(threshold, window)[..n];
            Tight(few, window) && Fail(After([Failure(0, threshold, window)]), few, threshold, window).healthy
  {
    var s, all := After([Failure(0, threshold, window)]), Straddle(threshold, window);
    StraddleStaysHealthy(threshold, window);
    TightPrefix(all, n, window);
    assert all == all[..n] + all[n..];
    FailConcat(s, all[..n], all[n..], threshold, window);
    if !Fail(s, all[..n], threshold, window).healthy {
      FailKeepsUnhealthy(Fail(s, all[..n], threshold, window), all[n..], threshold, window);
    }
  }

  lemma TightPrefix(times: seq<int>, n: nat, window: int)
    requires Tight(times, window) && n <= |times|
    ensures Tight(times[..n], window)
  {
  }

  /** Fewer failures than `Bound` can leave the upstream healthy. */
  lemma FewerMayNotTrip(n: nat, threshold: int, window: int)
    requires threshold > 0 && window > 0 && n < Bound(threshold)
    ensures !AlwaysTrips(n, threshold, window)
  {
    if threshold == 1 {
      NotAlways([], [], threshold, window);
    } else {
      StraddlePrefix(n, threshold, window);
      NotAlways([Failure(0, threshold, window)], Straddle(threshold, window)[..n], threshold, window);
    }
  }

  lemma NotAlways(h: seq<Event>, times: seq<int>, threshold: int, window: int)
    requires Tight(times, window) && Fail(After(h), times, threshold, window).healthy
    ensures !AlwaysTrips(|times|, threshold, window)
  {
  }

  /** The bound is exact: `Bound` failures always trip, and no smaller number does. */
  lemma AlwaysTripsIff(n: nat, threshold: int, window: int)
    requires threshold > 0 && window > 0
    ensures AlwaysTrips(n, threshold, window) <==> n >= Bound(threshold)
  {
    if n < Bound(threshold) {
      FewerMayNotTrip(n, threshold, window);
    } else {
      forall h: seq<Event>, times: seq<int> | |times| == n && Tight(times, window)
        ensures !Fail(After(h), times, threshold, window).healthy
      {
        NeverNegative(h);
        BoundFailuresTrip(After(h), times, threshold, window);
      }
    }
  }
}
