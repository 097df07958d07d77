/** The breaker of app/infra/circuit_breaker.py, with the one `call` method split at its two lock
    regions: entering, and completing with a result or an exception.  Calls overlap freely. */
module CircuitBreaking {
  import opened Common

  datatype State = Closed | Open | HalfOpen

  datatype Outcome = Admitted(probe: bool) | RejectedOpen | RejectedHalfOpen

  /** The fields of the breaker object as a value. */
  datatype Breaker = Breaker(state: State, failures: nat, lastFailure: Option<real>, inFlight: bool)

  const FRESH := Breaker(Closed, 0, None, false)

  function Decide(b: Breaker, timeout: real, now: real): Outcome {
    match b.state
    case Open =>
      if b.lastFailure.Some? && now - b.lastFailure.value > timeout then Admitted(true) else RejectedOpen
    case HalfOpen => if b.inFlight then RejectedHalfOpen else Admitted(true)
    case Closed => Admitted(false)
  }

  function AfterEnter(b: Breaker, timeout: real, now: real): Breaker {
    match Decide(b, timeout, now)
    case Admitted(true) => b.(state := HalfOpen, inFlight := true)
    case _ => b
  }

  function AfterSuccess(b: Breaker): Breaker {
    Breaker(Closed, 0, b.lastFailure, false)
  }

  function AfterFailure(b: Breaker, threshold: int, now: real): Breaker {
    Breaker(if b.failures + 1 >= threshold then Open else b.state, b.failures + 1, Some(now), false)
  }

  class CircuitBreaker {
    const threshold: int
    const timeout: real
    var state: State
    var failureCount: nat
    var lastFailureTime: Option<real>
    var halfOpenInFlight: bool

    function Value(): Breaker
      reads this
    {
      Breaker(state, failureCount, lastFailureTime, halfOpenInFlight)
    }

    constructor (threshold: int, timeout: real)
      ensures this.threshold == threshold && this.timeout == timeout && Value() == FRESH
    {
      this.threshold, this.timeout := threshold, timeout;
      state, failureCount, lastFailureTime, halfOpenInFlight := Closed, 0, None, false;
    }

    method Enter(now: real) returns (outcome: Outcome)
      modifies this
      ensures outcome == Decide(old(Value()), timeout, now)
      ensures Value() == AfterEnter(old(Value()), timeout, now)
      ensures outcome == Admitted(false) <==> old(state) == Closed
      ensures outcome == Admitted(true) <==>
              || (old(state) == Open && lastFailureTime.Some? && now - lastFailureTime.value > timeout)
              || (old(state) == HalfOpen && !old(halfOpenInFlight))
      ensures outcome == RejectedHalfOpen <==> old(state) == HalfOpen && old(halfOpenInFlight)
      ensures state == (if outcome == Admitted(true) then HalfOpen else old(state))
      ensures halfOpenInFlight == (old(halfOpenInFlight) || outcome == Admitted(true))
      ensures failureCount == old(failureCount) && lastFailureTime == old(lastFailureTime)
    {
      if state == Open {
        var elapsedOk := lastFailureTime.Some? && now - lastFailureTime.value > timeout;
        if !elapsedOk { return RejectedOpen; }
        state := HalfOpen;
        halfOpenInFlight := true;
        return Admitted(true);
      } else if state == HalfOpen {
        if halfOpenInFlight { return RejectedHalfOpen; }
        halfOpenInFlight := true;
        return Admitted(true);
      }
      return Admitted(false);
    }

    method Succeed()
      modifies this
      ensures Value() == AfterSuccess(old(Value()))
      ensures state == Closed && failureCount == 0 && !halfOpenInFlight && lastFailureTime == old(lastFailureTime)
    {
      failureCount := 0;
      state := Closed;
      halfOpenInFlight := false;
    }

    method Fail(now: real)
      modifies this
      ensures Value() == AfterFailure(old(Value()), threshold, now)
      ensures failureCount == old(failureCount) + 1 && lastFailureTime == Some(now) && !halfOpenInFlight
      ensures state == if failureCount >= threshold then Open else old(state)
    {
      failureCount := failureCount + 1;
      lastFailureTime := Some(now);
      halfOpenInFlight := false;
      if failureCount >= threshold { state := Open; }
    }
  }

  // ---- histories ---------------------------------------------------------------------------

  type CallId = nat

  datatype Event =
    | Enter(call: CallId, now: real)
    | Success(call: CallId, now: real)
    | Failure(call: CallId, now: real)

  function Step(b: Breaker, threshold: int, timeout: real, e: Event): Breaker {
    match e
    case Enter(_, now) => AfterEnter(b, timeout, now)
    case Success(_, _) => AfterSuccess(b)
    case Failure(_, now) => AfterFailure(b, threshold, now)
  }

  /** The breaker after a history of overlapping calls. */
  function After(h: seq<Event>, threshold: int, timeout: real): Breaker {
    if h == [] then FRESH
    else Step(After(h[..|h| - 1], threshold, timeout), threshold, timeout, h[|h| - 1])
  }

  /** How many of the most recent completions failed in a row. */
  function TrailingFailures(h: seq<Event>): nat {
    if h == [] then 0
    else match h[|h| - 1]
      case Enter(_, _) => TrailingFailures(h[..|h| - 1])
      case Success(_, _) => 0
      case Failure(_, _) => TrailingFailures(h[..|h| - 1]) + 1
  }

  /** The breaker is a function of the trailing run of failures: closed exactly while that run is
      shorter than the threshold; and a probe is in flight exactly in HALF_OPEN. */
  lemma {:induction false} StateFromHistory(h: seq<Event>, threshold: int, timeout: real)
    requires threshold >= 1
    ensures var b := After(h, threshold, timeout);
            && b.failures == TrailingFailures(h)
            && (b.state == Closed <==> TrailingFailures(h) < threshold)
            && (b.inFlight <==> b.state == HalfOpen)
            && (b.failures > 0 ==> b.lastFailure.Some?)
  {
    if h != [] { StateFromHistory(h[..|h| - 1], threshold, timeout); }
  }

  /** The threshold must be positive: with a threshold of zero or less, the breaker starts closed
      although the (empty) run of failures already reaches it. */
  lemma ThresholdMustBePositive(threshold: int, timeout: real)
    ensures threshold >= 1 <==>
            forall h :: (After(h, threshold, timeout).state == Closed <==> TrailingFailures(h) < threshold)
  {
    if threshold >= 1 {
      forall h ensures After(h, threshold, timeout).state == Closed <==> TrailingFailures(h) < threshold {
        StateFromHistory(h, threshold, timeout);
      }
    } else {
      assert After([], threshold, timeout).state == Closed && TrailingFailures([]) == 0;
    }
  }

  /** In HALF_OPEN nobody is admitted: the branch that would start a second probe there is dead. */
  lemma HalfOpenAdmitsNobody(h: seq<Event>, threshold: int, timeout: real, now: real)
    requires threshold >= 1 && After(h, threshold, timeout).state == HalfOpen
    ensures Decide(After(h, threshold, timeout), timeout, now) == RejectedHalfOpen
  {
    StateFromHistory(h, threshold, timeout);
  }

  /** After fewer failures in a row than the threshold every call is admitted, as no probe. */
  lemma ClosedAdmits(h: seq<Event>, threshold: int, timeout: real, now: real)
    requires threshold >= 1
    ensures Decide(After(h, threshold, timeout), timeout, now) == Admitted(false) <==> TrailingFailures(h) < threshold
  {
    StateFromHistory(h, threshold, timeout);
  }

  /** After the last failure of a full run, at event `m`, some entry has come later than the timeout. */
  predicate ProbeIsOut(h: seq<Event>, m: nat, timeout: real)
    requires m < |h|
  {
    exists i :: m < i < |h| && h[i].now - h[m].now > timeout
  }

  /** Once the run is full, what a call is answered depends on the last failure alone: a probe is let
      through when it is more than the timeout ago, and one only. */
  lemma {:induction false} OpenAdmitsIff(h: seq<Event>, threshold: int, timeout: real, now: real, m: nat)
    requires threshold >= 1 && TrailingFailures(h) >= threshold
    requires m < |h| && h[m].Failure? && forall i :: m < i < |h| ==> h[i].Enter?
    ensures Decide(After(h, threshold, timeout), timeout, now) ==
            if ProbeIsOut(h, m, timeout) then RejectedHalfOpen
            else if now - h[m].now > timeout then Admitted(true) else RejectedOpen
    ensures After(h, threshold, timeout).lastFailure == Some(h[m].now)
    decreases |h|
  {
    var n := |h| - 1;
    StateFromHistory(h, threshold, timeout);
    if m == n {
      StateFromHistory(h[..n], threshold, timeout);
    } else {
      OpenAdmitsIff(h[..n], threshold, timeout, h[n].now, m);
      StateFromHistory(h[..n], threshold, timeout);
      assert ProbeIsOut(h, m, timeout) <==> ProbeIsOut(h[..n], m, timeout) || h[n].now - h[m].now > timeout by {
        if i :| m < i < |h| && h[i].now - h[m].now > timeout {
          if i < n { assert h[..n][i].now - h[..n][m].now > timeout; }
        }
        if i :| m < i < n && h[..n][i].now - h[..n][m].now > timeout { assert h[i].now - h[m].now > timeout; }
      }
    }
  }

  predicate Chronological(h: seq<Event>) {
    forall i, j :: 0 <= i < j < |h| ==> h[i].now <= h[j].now
  }

  /** Event `i` is a call let through to probe recovery. */
  predicate IsProbe(h: seq<Event>, i: nat, threshold: int, timeout: real)
    requires i < |h|
  {
    h[i].Enter? && Decide(After(h[..i], threshold, timeout), timeout, h[i].now) == Admitted(true)
  }

  /** What a probe at `i` leaves behind as long as nothing succeeds. */
  lemma {:induction false} AfterProbe(h: seq<Event>, threshold: int, timeout: real, i: nat, j: nat)
    requires threshold >= 1 && Chronological(h)
    requires i < j <= |h| && IsProbe(h, i, threshold, timeout)
    requires forall k :: i < k < j ==> !h[k].Success?
    ensures var b := After(h[..j], threshold, timeout);
            b.state == HalfOpen || (b.state == Open && b.lastFailure.Some? && b.lastFailure.value >= h[i].now)
  {
    assert h[..j][..j - 1] == h[..j - 1];
    StateFromHistory(h[..j - 1], threshold, timeout);
    if j - 1 > i { AfterProbe(h, threshold, timeout, i, j - 1); }
  }

  /** In a stretch without successes, successive probes are more than the recovery timeout apart. */
  lemma ProbesAreSpaced(h: seq<Event>, threshold: int, timeout: real, i: nat, j: nat)
    requires threshold >= 1 && Chronological(h)
    requires i < j < |h| && IsProbe(h, i, threshold, timeout) && IsProbe(h, j, threshold, timeout)
    requires forall k :: i < k < j ==> !h[k].Success?
    ensures h[j].now - h[i].now > timeout
  {
    AfterProbe(h, threshold, timeout, i, j);
    StateFromHistory(h[..j], threshold, timeout);
  }

  // ---- how many probes can run at once ---------------------------------------------------

  /** The calls that were let through and have not completed. */
  function Running(h: seq<Event>, threshold: int, timeout: real): set<CallId> {
    if h == [] then {}
    else
      var before := Running(h[..|h| - 1], threshold, timeout);
      match h[|h| - 1]
      case Enter(c, now) =>
        if Decide(After(h[..|h| - 1], threshold, timeout), timeout, now).Admitted? then before + {c} else before
      case Success(c, _) => before - {c}
      case Failure(c, _) => before - {c}
  }

  /** Only running calls complete, and call ids are not reused while running. */
  predicate WellFormed(h: seq<Event>, threshold: int, timeout: real) {
    forall i :: 0 <= i < |h| ==> (h[i].Enter? <==> h[i].call !in Running(h[..i], threshold, timeout))
  }

  /** One more event while the probe is the only running call and does not complete: it is a
      refused entry and changes nothing. */
  lemma AloneStep(h: seq<Event>, threshold: int, timeout: real, c: CallId)
    requires threshold >= 1 && h != []
    requires var init := h[..|h| - 1];
             && After(init, threshold, timeout).state == HalfOpen
             && Running(init, threshold, timeout) == {c}
    requires h[|h| - 1].Enter? <==> h[|h| - 1].call !in Running(h[..|h| - 1], threshold, timeout)
    requires h[|h| - 1].call == c ==> h[|h| - 1].Enter?
    ensures h[|h| - 1].Enter?
    ensures After(h, threshold, timeout) == After(h[..|h| - 1], threshold, timeout)
    ensures Running(h, threshold, timeout) == {c}
  {
    HalfOpenAdmitsNobody(h[..|h| - 1], threshold, timeout, h[|h| - 1].now);
  }

  /** The probe's own call does not complete strictly between `i` and `j`. */
  predicate StillProbing(h: seq<Event>, i: nat, j: nat)
    requires i < j <= |h|
  {
    forall k :: i < k < j && h[k].call == h[i].call ==> h[k].Enter?
  }

  /** A probe admitted while no other call is running is the only trial call: until it completes,
      nothing completes and nobody is let through. */
  lemma {:induction false} LoneProbeStaysAlone(h: seq<Event>, threshold: int, timeout: real, i: nat, j: nat)
    requires threshold >= 1 && WellFormed(h, threshold, timeout)
    requires i < j <= |h| && IsProbe(h, i, threshold, timeout)
    requires Running(h[..i], threshold, timeout) == {} && StillProbing(h, i, j)
    ensures Running(h[..j], threshold, timeout) == {h[i].call}
    ensures After(h[..j], threshold, timeout).state == HalfOpen
  {
    assert h[..j][..j - 1] == h[..j - 1];
    if j - 1 > i {
      LoneProbeStaysAlone(h, threshold, timeout, i, j - 1);
      AloneStep(h[..j], threshold, timeout, h[i].call);
    }
  }

  /** Two probes run at once only if some call from before the first probe was still running. */
  lemma SecondProbeNeedsStraggler(h: seq<Event>, threshold: int, timeout: real, i: nat, j: nat)
    requires threshold >= 1 && WellFormed(h, threshold, timeout)
    requires i < j < |h| && IsProbe(h, i, threshold, timeout) && IsProbe(h, j, threshold, timeout)
    requires StillProbing(h, i, j)
    ensures Running(h[..i], threshold, timeout) != {}
  {
    if Running(h[..i], threshold, timeout) == {} {
      LoneProbeStaysAlone(h, threshold, timeout, i, j);
      HalfOpenAdmitsNobody(h[..j], threshold, timeout, h[j].now);
    }
  }

  /** Right after the probe that ends `h`, the continuation `g` ends in a second probe while the first
      has not completed. */
  predicate AdmitsSecondProbe(h: seq<Event>, g: seq<Event>, threshold: int, timeout: real)
    requires h != []
  {
    var all := h + g;
    && g != [] && WellFormed(all, threshold, timeout) && Chronological(all)
    && IsProbe(all, |all| - 1, threshold, timeout) && StillProbing(all, |h| - 1, |all|)
  }

  lemma FreshCall(running: set<CallId>) returns (c: CallId)
    ensures forall d :: d in running ==> d < c
    decreases running
  {
    c := 0;
    if running != {} {
      var d :| d in running;
      var rest := FreshCall(running - {d});
      c := if d < rest then rest else d + 1;
      assert forall e :: e in running ==> e == d || e in running - {d};
    }
  }

  /** One more event at the end of a history. */
  lemma OneMoreEvent(h: seq<Event>, e: Event, threshold: int, timeout: real)
    ensures After(h + [e], threshold, timeout) == Step(After(h, threshold, timeout), threshold, timeout, e)
    ensures WellFormed(h, threshold, timeout) && (e.Enter? <==> e.call !in Running(h, threshold, timeout)) ==>
              WellFormed(h + [e], threshold, timeout)
    ensures e.Failure? ==> Running(h + [e], threshold, timeout) == Running(h, threshold, timeout) - {e.call}
  {
    var all := h + [e];
    assert all[..|h|] == h;
    if WellFormed(h, threshold, timeout) && (e.Enter? <==> e.call !in Running(h, threshold, timeout)) {
      forall i | 0 <= i < |all| ensures all[i].Enter? <==> all[i].call !in Running(all[..i], threshold, timeout) {
        if i < |h| { assert all[..i] == h[..i]; }
      }
    }
  }

  /** What a late failure of a call from before the probe leaves behind: an open breaker, and the
      probe still running. */
  lemma LateFailureReopens(h: seq<Event>, threshold: int, timeout: real, c: CallId, t: real)
    requires threshold >= 1 && h != [] && WellFormed(h, threshold, timeout)
    requires IsProbe(h, |h| - 1, threshold, timeout) && c in Running(h[..|h| - 1], threshold, timeout)
    ensures var h' := h + [Failure(c, t)];
            && After(h', threshold, timeout).state == Open && After(h', threshold, timeout).lastFailure == Some(t)
            && c != h[|h| - 1].call && h[|h| - 1].call in Running(h', threshold, timeout)
            && WellFormed(h', threshold, timeout)
  {
    StateFromHistory(h, threshold, timeout);
    OneMoreEvent(h, Failure(c, t), threshold, timeout);
  }

  lemma StragglerAdmitsSecond(h: seq<Event>, threshold: int, timeout: real, c: CallId) returns (g: seq<Event>)
    requires threshold >= 1 && h != [] && WellFormed(h, threshold, timeout) && Chronological(h)
    requires IsProbe(h, |h| - 1, threshold, timeout) && c in Running(h[..|h| - 1], threshold, timeout)
    ensures AdmitsSecondProbe(h, g, threshold, timeout)
  {
    var t := h[|h| - 1].now;
    var late := t + (if timeout > 0.0 then timeout else 0.0) + 1.0;
    var reopened := h + [Failure(c, t)];
    LateFailureReopens(h, threshold, timeout, c, t);
    var other := FreshCall(Running(reopened, threshold, timeout));
    g := [Failure(c, t), Enter(other, late)];
    var all := h + g;
    assert all == reopened + [Enter(other, late)];
    OneMoreEvent(reopened, Enter(other, late), threshold, timeout);
    EntersAsProbe(reopened, other, t, late, threshold, timeout);
    LaterStaysChronological(h, Failure(c, t));
    LaterStaysChronological(reopened, Enter(other, late));
    assert all[|h|] == Failure(c, t) && all[|h| + 1] == Enter(other, late);
  }

  lemma EntersAsProbe(h: seq<Event>, c: CallId, t: real, now: real, threshold: int, timeout: real)
    requires After(h, threshold, timeout).state == Open && After(h, threshold, timeout).lastFailure == Some(t)
    requires now - t > timeout
    ensures IsProbe(h + [Enter(c, now)], |h|, threshold, timeout)
  {
    assert (h + [Enter(c, now)])[..|h|] == h;
  }

  lemma LaterStaysChronological(h: seq<Event>, e: Event)
    requires Chronological(h) && h != [] && h[|h| - 1].now <= e.now
    ensures Chronological(h + [e])
  {
  }

  /** "Only one trial call probes recovery" holds from a probe on, whatever follows, exactly when no
      other call was running as the probe was let through. */
  lemma OneProbeIff(h: seq<Event>, threshold: int, timeout: real)
    requires threshold >= 1 && h != [] && WellFormed(h, threshold, timeout) && Chronological(h)
    requires IsProbe(h, |h| - 1, threshold, timeout)
    ensures Running(h[..|h| - 1], threshold, timeout) == {} <==>
            !exists g: seq<Event> :: AdmitsSecondProbe(h, g, threshold, timeout)
  {
    var n := |h| - 1;
    if c :| c in Running(h[..n], threshold, timeout) {
      var g := StragglerAdmitsSecond(h, threshold, timeout, c);
    } else {
      forall g: seq<Event> ensures !AdmitsSecondProbe(h, g, threshold, timeout) {
        if AdmitsSecondProbe(h, g, threshold, timeout) {
          var all := h + g;
          assert all[..n] == h[..n];
          SecondProbeNeedsStraggler(all, threshold, timeout, n, |all| - 1);
        }
      }
    }
  }

  /** Such a probe is reachable: with threshold 1, a call from before the trip fails late, reopens the
      breaker and lets a second probe start beside the first. */
  lemma StragglerAllowsTwoProbes()
    ensures var h := [Enter(0, 0.0), Enter(1, 0.0), Failure(0, 1.0), Enter(2, 12.0), Failure(1, 13.0), Enter(3, 24.0)];
            && WellFormed(h, 1, 10.0) && Chronological(h)
            && IsProbe(h, 3, 1, 10.0) && IsProbe(h, 5, 1, 10.0)
            && Running(h, 1, 10.0) == {2, 3}
  {
    var h := [Enter(0, 0.0), Enter(1, 0.0), Failure(0, 1.0), Enter(2, 12.0), Failure(1, 13.0), Enter(3, 24.0)];
    assert h[..6] == h && h[..6][..5] == h[..5] && h[..5][..4] == h[..4] && h[..4][..3] == h[..3];
    assert h[..3][..2] == h[..2] && h[..2][..1] == h[..1] && h[..1][..0] == [] && h[..0] == [];
    assert After(h[..1], 1, 10.0) == FRESH && Running(h[..1], 1, 10.0) == {0};
    assert After(h[..2], 1, 10.0) == FRESH && Running(h[..2], 1, 10.0) == {0, 1};
    assert After(h[..3], 1, 10.0) == Breaker(Open, 1, Some(1.0), false) && Running(h[..3], 1, 10.0) == {1};
    assert After(h[..4], 1, 10.0) == Breaker(HalfOpen, 1, Some(1.0), true) && Running(h[..4], 1, 10.0) == {1, 2};
    assert After(h[..5], 1, 10.0) == Breaker(Open, 2, Some(13.0), false) && Running(h[..5], 1, 10.0) == {2};
  }
}
