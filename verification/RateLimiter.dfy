/** The sliding-window limiter of app/infra/rate_limiter.py, `RateLimiter.acquire`.

    Callers serialise on an asyncio lock that is held across the sleep, so a run is a sequence of
    calls.  One call reads the clock at most three times: on entry, after the sleep, and when the
    grant is stamped.  Times are reals (seconds); the clock never goes back. */
module RateLimiting {

  /** The clock readings of one call; `woke` is only looked at when the call sleeps. */
  datatype Call = Call(entered: real, woke: real, granted: real)

  predicate Sorted(ts: seq<real>) {
    forall i, j :: 0 <= i < j < |ts| ==> ts[i] <= ts[j]
  }

  /** How many stamps at the left end of the deque have expired. */
  function Expired(ts: seq<real>, now: real, window: real): (e: nat)
    ensures e <= |ts|
    ensures forall i :: 0 <= i < e ==> now - ts[i] >= window
    ensures e < |ts| ==> now - ts[e] < window
  {
    if ts != [] && now - ts[0] >= window then 1 + Expired(ts[1..], now, window) else 0
  }

  /** The deque after the expired stamps at its left end were popped. */
  function Pruned(ts: seq<real>, now: real, window: real): seq<real> {
    ts[Expired(ts, now, window)..]
  }

  predicate Sleeps(ts: seq<real>, rpm: nat, window: real, c: Call) {
    |Pruned(ts, c.entered, window)| >= rpm
  }

  const MARGIN := 0.1

  /** How long a sleeping call asks to sleep. */
  function Wait(ts: seq<real>, window: real, c: Call): real
    requires Pruned(ts, c.entered, window) != []
  {
    window - (c.entered - Pruned(ts, c.entered, window)[0]) + MARGIN
  }

  /** The deque after one call. */
  function Acquired(ts: seq<real>, rpm: nat, window: real, c: Call): seq<real> {
    var first := Pruned(ts, c.entered, window);
    (if |first| >= rpm then Pruned(first, c.woke, window) else first) + [c.granted]
  }

  /** The readings of a call that starts at or after `since`.  A sleep may end late, and a clock
      stepped while sleeping may make it look short; `SleptEnough` is the contract of `sleep`. */
  predicate Ordered(since: real, c: Call) {
    since <= c.entered <= c.woke <= c.granted
  }

  predicate SleptEnough(ts: seq<real>, rpm: nat, window: real, c: Call)
    requires rpm >= 1
  {
    Sleeps(ts, rpm, window, c) ==> c.woke >= c.entered + Wait(ts, window, c)
  }

  class RateLimiter {
    const rpm: nat
    const window: real
    var timestamps: seq<real>

    constructor (rpm: nat)
      requires rpm >= 1
      ensures this.rpm == rpm && window == 60.0 && timestamps == []
    {
      this.rpm := rpm;
      window := 60.0;
      timestamps := [];
    }

    method DropExpired(now: real)
      modifies this
      ensures timestamps == Pruned(old(timestamps), now, window)
    {
      while timestamps != [] && now - timestamps[0] >= window
        invariant Pruned(timestamps, now, window) == Pruned(old(timestamps), now, window)
        decreases |timestamps|
      {
        timestamps := timestamps[1..];
      }
    }

    method Acquire(c: Call) returns (slept: bool, wait: real)
      requires rpm >= 1
      modifies this
      ensures timestamps == Acquired(old(timestamps), rpm, window, c)
      ensures slept == Sleeps(old(timestamps), rpm, window, c)
      ensures slept ==> wait == Wait(old(timestamps), window, c)
      ensures var ts := old(timestamps);
              var k := Expired(ts, c.entered, window);
              && (slept <==> |ts| - k >= rpm)
              && (slept ==> c.entered + wait == ts[k] + window + 0.1)
              && timestamps == ts[k + (if slept then Expired(ts[k..], c.woke, window) else 0)..] + [c.granted]
    {
      slept, wait := false, 0.0;
      DropExpired(c.entered);
      if |timestamps| >= rpm {
        slept, wait := true, window - (c.entered - timestamps[0]) + MARGIN;
        DropExpired(c.woke);
      }
      timestamps := timestamps + [c.granted];
    }
  }

  // ---- runs --------------------------------------------------------------------------------

  function Deque(calls: seq<Call>, rpm: nat, window: real): seq<real> {
    if calls == [] then []
    else Acquired(Deque(calls[..|calls| - 1], rpm, window), rpm, window, calls[|calls| - 1])
  }

  predicate Monotone(calls: seq<Call>) {
    && (forall i :: 0 <= i < |calls| ==> Ordered(calls[i].entered, calls[i]))
    && (forall i, j :: 0 <= i < j < |calls| ==> calls[i].granted <= calls[j].entered)
  }

  predicate Honest(calls: seq<Call>, rpm: nat, window: real)
    requires rpm >= 1
  {
    forall i :: 0 <= i < |calls| ==> SleptEnough(Deque(calls[..i], rpm, window), rpm, window, calls[i])
  }

  /** A run in which no sleep fell short, seen just before its last call. */
  lemma HonestPrefix(calls: seq<Call>, rpm: nat, window: real)
    requires rpm >= 1 && calls != [] && Monotone(calls) && Honest(calls, rpm, window)
    ensures var init := calls[..|calls| - 1];
            && Monotone(init) && Honest(init, rpm, window)
            && SleptEnough(Deque(init, rpm, window), rpm, window, calls[|calls| - 1])
  {
    var n := |calls| - 1;
    forall i | 0 <= i < n
      ensures SleptEnough(Deque(calls[..n][..i], rpm, window), rpm, window, calls[..n][i])
    {
      assert calls[..n][..i] == calls[..i];
    }
  }

  /** What stays after one call, and that whatever goes is a full window older than the grant. */
  lemma AcquireKeeps(ts: seq<real>, rpm: nat, window: real, c: Call) returns (dropped: nat)
    requires rpm >= 1 && window > 0.0 && |ts| <= rpm
    requires Ordered(c.entered, c) && SleptEnough(ts, rpm, window, c)
    ensures dropped <= |ts| && |ts| - dropped < rpm
    ensures Acquired(ts, rpm, window, c) == ts[dropped..] + [c.granted]
    ensures forall i :: 0 <= i < dropped ==> c.granted - ts[i] >= window
  {
    dropped := Expired(ts, c.entered, window);
    var first := ts[dropped..];
    if |first| >= rpm {
      assert first == ts;
      dropped := Expired(ts, c.woke, window);
    }
  }

  /** `d` is the tail of the grants, never longer than `rpm`, and every grant that left it lies
      at least one window before the newest grant. */
  predicate IsTail(calls: seq<Call>, d: seq<real>, rpm: nat, window: real) {
    && |d| <= rpm && |d| <= |calls| && (calls != [] ==> d != [])
    && (forall i :: 0 <= i < |d| ==> d[i] == calls[|calls| - |d| + i].granted)
    && (forall i :: 0 <= i < |calls| - |d| ==> calls[|calls| - 1].granted - calls[i].granted >= window)
  }

  predicate Invariant(calls: seq<Call>, rpm: nat, window: real) {
    IsTail(calls, Deque(calls, rpm, window), rpm, window)
  }

  lemma GrantsSorted(calls: seq<Call>, i: nat, j: nat)
    requires Monotone(calls) && i <= j < |calls|
    ensures calls[i].granted <= calls[j].granted
  {
    if i < j {
      assert calls[i].granted <= calls[j].entered;
      assert Ordered(calls[j].entered, calls[j]);
    }
  }

  lemma DequeSorted(calls: seq<Call>, rpm: nat, window: real)
    requires Monotone(calls) && Invariant(calls, rpm, window)
    ensures Sorted(Deque(calls, rpm, window))
  {
    var d := Deque(calls, rpm, window);
    forall i, j | 0 <= i < j < |d| ensures d[i] <= d[j] {
      GrantsSorted(calls, |calls| - |d| + i, |calls| - |d| + j);
    }
  }

  lemma TailStep(calls: seq<Call>, d: seq<real>, e: seq<real>, dropped: nat, rpm: nat, window: real)
    requires calls != [] && Monotone(calls) && rpm >= 1
    requires IsTail(calls[..|calls| - 1], d, rpm, window)
    requires dropped <= |d| && |d| - dropped < rpm
    requires e == d[dropped..] + [calls[|calls| - 1].granted]
    requires forall i :: 0 <= i < dropped ==> calls[|calls| - 1].granted - d[i] >= window
    ensures IsTail(calls, e, rpm, window)
  {
    var n := |calls| - 1;
    var init := calls[..n];
    forall i | 0 <= i < |calls| - |e| ensures calls[n].granted - calls[i].granted >= window {
      if i < n - |d| {
        assert init[n - 1].granted - init[i].granted >= window;
        GrantsSorted(calls, n - 1, n);
      } else {
        assert d[i - (n - |d|)] == init[i].granted;
      }
    }
    forall i | 0 <= i < |e| ensures e[i] == calls[|calls| - |e| + i].granted {
      if i < |e| - 1 { assert d[dropped + i] == init[n - |d| + (dropped + i)].granted; }
    }
  }

  lemma {:induction false} RunsKeepInvariant(calls: seq<Call>, rpm: nat, window: real)
    requires rpm >= 1 && window > 0.0
    requires Monotone(calls) && Honest(calls, rpm, window)
    ensures Invariant(calls, rpm, window)
  {
    if calls != [] {
      var init, c := calls[..|calls| - 1], calls[|calls| - 1];
      HonestPrefix(calls, rpm, window);
      RunsKeepInvariant(init, rpm, window);
      assert Ordered(c.entered, c);
      var d := Deque(init, rpm, window);
      var dropped := AcquireKeeps(d, rpm, window, c);
      TailStep(calls, d, Acquired(d, rpm, window, c), dropped, rpm, window);
    }
  }

  /** Grant `i + rpm` comes at least one window after grant `i`. */
  lemma {:induction false} GrantsAreSpaced(calls: seq<Call>, rpm: nat, window: real, i: nat)
    requires rpm >= 1 && window > 0.0
    requires Monotone(calls) && Honest(calls, rpm, window) && i + rpm < |calls|
    ensures calls[i + rpm].granted - calls[i].granted >= window
  {
    if i + rpm == |calls| - 1 {
      RunsKeepInvariant(calls, rpm, window);
      assert i < |calls| - |Deque(calls, rpm, window)|;
    } else {
      HonestPrefix(calls, rpm, window);
      GrantsAreSpaced(calls[..|calls| - 1], rpm, window, i);
    }
  }

  /** The grants that fall into the half-open window starting at `start`. */
  ghost function Inside(calls: seq<Call>, start: real, window: real): set<int> {
    set i | 0 <= i < |calls| && start <= calls[i].granted < start + window
  }

  lemma {:induction false} SpanSize(s: set<int>, lo: int, n: nat)
    requires forall i :: i in s ==> lo <= i < lo + n
    ensures |s| <= n
  {
    if n > 0 {
      SpanSize(s - {lo + n - 1}, lo, n - 1);
      assert s <= (s - {lo + n - 1}) + {lo + n - 1};
    } else {
      assert forall i :: i !in s;
    }
  }

  lemma FarApart(calls: seq<Call>, rpm: nat, window: real, lo: nat, i: nat)
    requires rpm >= 1 && window > 0.0
    requires Monotone(calls) && Honest(calls, rpm, window) && lo + rpm <= i < |calls|
    ensures calls[i].granted - calls[lo].granted >= window
  {
    GrantsAreSpaced(calls, rpm, window, lo);
    GrantsSorted(calls, lo + rpm, i);
  }

  /** No half-open window, wherever it starts, holds more than `rpm` grants. */
  lemma WindowHoldsAtMostRpm(calls: seq<Call>, rpm: nat, window: real, start: real)
    requires rpm >= 1 && window > 0.0
    requires Monotone(calls) && Honest(calls, rpm, window)
    ensures |Inside(calls, start, window)| <= rpm
  {
    var inside := Inside(calls, start, window);
    var lo := 0;
    while lo < |calls| && lo !in inside
      invariant 0 <= lo <= |calls|
      invariant forall i :: 0 <= i < lo ==> i !in inside
    {
      lo := lo + 1;
    }
    forall i: nat | lo + rpm <= i < |calls| ensures i !in inside || lo !in inside {
      FarApart(calls, rpm, window, lo, i);
    }
    SpanSize(inside, lo, rpm);
  }

  /** The next call sleeps exactly when `rpm` grants lie within the last window, and never asks
      for more than the window plus the safety margin. */
  lemma SleepsOnlyWhenFull(calls: seq<Call>, rpm: nat, window: real, c: Call)
    requires rpm >= 1 && window > 0.0
    requires Monotone(calls) && Honest(calls, rpm, window)
    requires Ordered(c.entered, c) && (calls != [] ==> calls[|calls| - 1].granted <= c.entered)
    ensures var d := Deque(calls, rpm, window);
            && (Sleeps(d, rpm, window, c) <==>
                |calls| >= rpm && c.entered - calls[|calls| - rpm].granted < window)
            && (Sleeps(d, rpm, window, c) ==> MARGIN < Wait(d, window, c) <= window + MARGIN)
  {
    RunsKeepInvariant(calls, rpm, window);
    var d := Deque(calls, rpm, window);
    if |d| == rpm {
      assert d[0] == calls[|calls| - rpm].granted;
      GrantsSorted(calls, |calls| - rpm, |calls| - 1);
    }
  }

  /** The sleep contract is what the bound rests on: with a full deque, the call keeps the deque
      within `rpm` exactly when the wake-up reading is a full window past the oldest stamp. */
  lemma BoundNeedsTheSleep(ts: seq<real>, rpm: nat, window: real, c: Call)
    requires rpm >= 1 && |ts| == rpm && Sleeps(ts, rpm, window, c)
    ensures |Acquired(ts, rpm, window, c)| <= rpm <==> c.woke - ts[0] >= window
  {
    assert Pruned(ts, c.entered, window) == ts;
  }
}
