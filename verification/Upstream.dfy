/**
 The runtime state of one upstream (internal/upstream/state.go): the active-slot
 counter and the failure counters of the circuit breaker.

 `UpState` is the state as a value and the functions say what each method does to
 it; the class `State` updates its fields in place and is proved against them.
 The reading of the clock is a parameter.
 */
module Upstream {

  /** Go's zero `time.Time`. */
  const ZERO_TIME: int := 0

  datatype UpState = UpState(
    active: int,
    healthy: bool,
    draining: bool,
    lastFailure: int,
    firstFailure: int,
    consecutive: int)
  {
    function IncActive(max: int): (UpState, bool) {
      if healthy && !draining && active < max
      then (this.(active := active + 1), true)
      else (this, false)
    }

    function DecActive(): UpState {
      if active > 0 then this.(active := active - 1) else this
    }

    function MarkHealthy(): UpState {
      if healthy then this
      else this.(healthy := true, consecutive := 0, firstFailure := ZERO_TIME)
    }

    function MarkUnhealthy(now: int): UpState {
      if healthy then this.(healthy := false, lastFailure := now) else this
    }

    function RecordSuccess(): UpState {
      if consecutive > 0 then this.(consecutive := 0, firstFailure := ZERO_TIME) else this
    }

    /** Whether a failure at `now` finds the window of the current anchor over. */
    predicate Expired(now: int, window: int) {
      consecutive > 0 && now - firstFailure > window
    }

    function Counted(now: int, window: int): UpState {
      var restart := consecutive == 0 || Expired(now, window);
      this.(consecutive := if restart then 1 else consecutive + 1,
            firstFailure := if restart then now else firstFailure,
            lastFailure := now)
    }

    /** The new state, and whether this failure tripped the breaker. */
    function RecordFailure(now: int, threshold: int, window: int): (UpState, bool) {
      var c := Counted(now, window);
      var tripped := healthy && c.consecutive >= threshold;
      (c.(healthy := healthy && !tripped), tripped)
    }
  }

  /** The counters of sessions and failures are 64-bit. */
  const WRAP: nat := 0x1_0000_0000_0000_0000

  const FRESH: UpState := UpState(0, true, false, ZERO_TIME, ZERO_TIME, 0)

  class State {
    var active: int
    var healthy: bool
    var draining: bool
    var lastFailureTS: int
    var firstFailureTS: int
    var consecutiveFailures: int
    var totalSessions: nat
    var totalFailures: nat

    function View(): UpState
      reads this
    {
      UpState(active, healthy, draining, lastFailureTS, firstFailureTS, consecutiveFailures)
    }

    constructor ()
      ensures View() == FRESH && totalSessions == totalFailures == 0
      ensures active == consecutiveFailures == 0 && healthy && !draining && lastFailureTS == firstFailureTS == ZERO_TIME
    {
      active, healthy, draining := 0, true, false;
      lastFailureTS, firstFailureTS, consecutiveFailures := ZERO_TIME, ZERO_TIME, 0;
      totalSessions, totalFailures := 0, 0;
    }

    method IncActive(max: int) returns (ok: bool)
      modifies this`active, this`totalSessions
      ensures (View(), ok) == old(View()).IncActive(max)
      ensures ok <==> old(healthy) && !old(draining) && old(active) < max
      ensures active == old(active) + if ok then 1 else 0
      ensures totalSessions == if ok then (old(totalSessions) + 1) % WRAP else old(totalSessions)
    {
      if !healthy || draining {
        return false;
      }
      if active >= max {
        return false;
      }
      active := active + 1;
      totalSessions := (totalSessions + 1) % WRAP;
      return true;
    }

    method DecActive()
      modifies this`active
      ensures View() == old(View()).DecActive()
      ensures active == if old(active) > 0 then old(active) - 1 else old(active)
    {
      if active > 0 {
        active := active - 1;
      }
    }

    method MarkHealthy() returns (flipped: bool)
      modifies this`healthy, this`consecutiveFailures, this`firstFailureTS
      ensures View() == old(View()).MarkHealthy()
      ensures healthy && flipped == !old(healthy)
      ensures consecutiveFailures == (if flipped then 0 else old(consecutiveFailures))
      ensures firstFailureTS == (if flipped then ZERO_TIME else old(firstFailureTS))
    {
      if healthy {
        return false;
      }
      healthy := true;
      consecutiveFailures := 0;
      firstFailureTS := ZERO_TIME;
      return true;
    }

    method MarkUnhealthy(now: int) returns (flipped: bool)
      modifies this`healthy, this`lastFailureTS
      ensures View() == old(View()).MarkUnhealthy(now)
      ensures !healthy && flipped == old(healthy)
      ensures lastFailureTS == if flipped then now else old(lastFailureTS)
    {
      if !healthy {
        return false;
      }
      healthy := false;
      lastFailureTS := now;
      return true;
    }

    method RecordSuccess()
      modifies this`consecutiveFailures, this`firstFailureTS
      ensures View() == old(View()).RecordSuccess()
      ensures consecutiveFailures <= 0
      ensures old(consecutiveFailures) > 0 ==> consecutiveFailures == 0 && firstFailureTS == ZERO_TIME
      ensures old(consecutiveFailures) <= 0 ==> unchanged(this)
    {
      if consecutiveFailures > 0 {
        consecutiveFailures := 0;
        firstFailureTS := ZERO_TIME;
      }
    }

    method RecordFailure(now: int, threshold: int, window: int) returns (count: int, tripped: bool)
      modifies this`consecutiveFailures, this`firstFailureTS, this`lastFailureTS, this`healthy, this`totalFailures
      ensures (View(), tripped) == old(View()).RecordFailure(now, threshold, window)
      ensures count == consecutiveFailures && totalFailures == (old(totalFailures) + 1) % WRAP
      ensures var inside := old(consecutiveFailures) != 0 && (old(consecutiveFailures) < 0 || now <= old(firstFailureTS) + window);
              && consecutiveFailures == (if inside then old(consecutiveFailures) + 1 else 1)
              && firstFailureTS == (if inside then old(firstFailureTS) else now)
      ensures lastFailureTS == now
      ensures tripped <==> old(healthy) && consecutiveFailures >= threshold
      ensures healthy <==> old(healthy) && !tripped
    {
      totalFailures := (totalFailures + 1) % WRAP;
      if consecutiveFailures > 0 && now - firstFailureTS > window {
        consecutiveFailures := 0;
      }
      if consecutiveFailures == 0 {
        firstFailureTS := now;
      }
      consecutiveFailures := consecutiveFailures + 1;
      lastFailureTS := now;

      tripped := healthy && consecutiveFailures >= threshold;
      if tripped {
        healthy := false;
      }
      count := consecutiveFailures;
    }

    method SetDrain(drain: bool)
      modifies this`draining
      ensures View() == old(View()).(draining := drain) && draining == drain
    {
      draining := drain;
    }
  }
}
