/** The settings cache of app/domain/org_settings.py under arbitrary interleavings of readers,
    writers and invalidations.

    `get_org_settings` is three steps that others may come between: read the clock and look into
    the cache under its lock, read the row, put the value into the cache with the clock reading
    taken at the very start.  Writers change rows at any time and invalidate at any later time. */
module SettingsRace {
  import opened Common

  type Org = string

  /** A row's contents are an opaque number; an absent row stands for the defaults. */
  type Rows = map<Org, nat>

  const DEFAULTS: nat := 0

  function Resolve(rows: Rows, org: Org): nat {
    if org in rows then rows[org] else DEFAULTS
  }

  /** The table's contents from an instant on, until the next snapshot's instant. */
  datatype Snapshot = Snapshot(since: real, rows: Rows)

  datatype Reader =
    | Clocked(org: Org, start: real)
    | Missed(org: Org, start: real)
    | Fetched(org: Org, start: real, value: nat)
    | Done(org: Org, start: real, value: nat)

  datatype World = World(now: real, log: seq<Snapshot>, cache: map<Org, (real, nat)>, readers: seq<Reader>)

  const INIT := World(0.0, [Snapshot(0.0, map[])], map[], [])

  datatype Action =
    | Elapse(dt: real)
    | Start(org: Org)                      // a reader reads the clock
    | Lookup(r: nat) | Fetch(r: nat) | Publish(r: nat)
    | Write(org: Org, value: nat) | Delete(org: Org)
    | Invalidate(org: Org)

  function Current(w: World): Rows
    requires w.log != []
  {
    w.log[|w.log| - 1].rows
  }

  function Next(w: World, ttl: real, a: Action): World
    requires w.log != []
    ensures Next(w, ttl, a).log != []
  {
    match a
    case Elapse(dt) => if dt >= 0.0 then w.(now := w.now + dt) else w
    case Start(org) => w.(readers := w.readers + [Clocked(org, w.now)])
    case Lookup(r) =>
      if r < |w.readers| && w.readers[r].Clocked? then
        var c := w.readers[r];
        w.(readers := w.readers[r :=
          if c.org in w.cache && c.start - w.cache[c.org].0 < ttl then Done(c.org, c.start, w.cache[c.org].1)
          else Missed(c.org, c.start)])
      else w
    case Fetch(r) =>
      if r < |w.readers| && w.readers[r].Missed? then
        var c := w.readers[r];
        w.(readers := w.readers[r := Fetched(c.org, c.start, Resolve(Current(w), c.org))])
      else w
    case Publish(r) =>
      if r < |w.readers| && w.readers[r].Fetched? then
        var c := w.readers[r];
        w.(cache := w.cache[c.org := (c.start, c.value)], readers := w.readers[r := Done(c.org, c.start, c.value)])
      else w
    case Write(org, value) => w.(log := w.log + [Snapshot(w.now, Current(w)[org := value])])
    case Delete(org) => w.(log := w.log + [Snapshot(w.now, Current(w) - {org})])
    case Invalidate(org) => w.(cache := w.cache - {org})
  }

  function Run(actions: seq<Action>, ttl: real): (w: World)
    ensures w.log != []
  {
    if actions == [] then INIT else Next(Run(actions[..|actions| - 1], ttl), ttl, actions[|actions| - 1])
  }

  /** A reader is answered from the cache exactly while the entry is younger, at its start, than the time to
      live; any other reads the row and caches it under the clock reading of its start. */
  lemma ReaderStepsAre(w: World, ttl: real, r: nat)
    requires w.log != [] && r < |w.readers|
    ensures var c, looked := w.readers[r], Next(w, ttl, Lookup(r)).readers[r];
            c.Clocked? ==>
              if c.org in w.cache && c.start - w.cache[c.org].0 < ttl
              then looked == Done(c.org, c.start, w.cache[c.org].1) else looked == Missed(c.org, c.start)
    ensures var c, fetched, rows := w.readers[r], Next(w, ttl, Fetch(r)).readers[r], w.log[|w.log| - 1].rows;
            c.Missed? ==> fetched == Fetched(c.org, c.start, if c.org in rows then rows[c.org] else 0)
    ensures var c, after := w.readers[r], Next(w, ttl, Publish(r));
            c.Fetched? ==>
              after.cache == w.cache[c.org := (c.start, c.value)] && after.readers[r] == Done(c.org, c.start, c.value)
  {
  }

  /** Snapshot `i` was the table's contents at instant `d`. */
  predicate InForce(w: World, i: nat, d: real) {
    && i < |w.log| && w.log[i].since <= d <= w.now
    && (i + 1 < |w.log| ==> d <= w.log[i + 1].since)
  }

  /** At some instant no earlier than `from`, the stored (or default) value of `org` was `value`. */
  ghost predicate HeldSince(w: World, org: Org, value: nat, from: real) {
    exists i: nat, d: real :: InForce(w, i, d) && d >= from && Resolve(w.log[i].rows, org) == value
  }

  /** The same at an instant strictly after `from`. */
  ghost predicate HeldAfter(w: World, org: Org, value: nat, from: real) {
    exists i: nat, d: real :: InForce(w, i, d) && d > from && Resolve(w.log[i].rows, org) == value
  }

  ghost predicate Invariant(w: World, ttl: real) {
    && w.log != [] && w.log[|w.log| - 1].since <= w.now
    && (forall org :: org in w.cache ==> HeldSince(w, org, w.cache[org].1, w.cache[org].0))
    && (forall r :: 0 <= r < |w.readers| ==> ReaderInvariant(w, ttl, w.readers[r]))
  }

  ghost predicate ReaderInvariant(w: World, ttl: real, r: Reader) {
    && r.start <= w.now
    && match r
       case Fetched(org, start, value) => HeldSince(w, org, value, start)
       case Done(org, start, value) => HeldSince(w, org, value, start) || HeldAfter(w, org, value, start - ttl)
       case _ => true
  }

  /** What once held goes on having held. */
  lemma HeldPersists(w: World, ttl: real, a: Action, org: Org, value: nat, from: real)
    requires w.log != [] && w.log[|w.log| - 1].since <= w.now
    ensures HeldSince(w, org, value, from) ==> HeldSince(Next(w, ttl, a), org, value, from)
    ensures HeldAfter(w, org, value, from) ==> HeldAfter(Next(w, ttl, a), org, value, from)
  {
    var w' := Next(w, ttl, a);
    assert w.log <= w'.log && w.now <= w'.now;
    if HeldSince(w, org, value, from) {
      var i: nat, d: real :| InForce(w, i, d) && d >= from && Resolve(w.log[i].rows, org) == value;
      assert InForce(w', i, d) && w'.log[i] == w.log[i];
    }
    if HeldAfter(w, org, value, from) {
      var i: nat, d: real :| InForce(w, i, d) && d > from && Resolve(w.log[i].rows, org) == value;
      assert InForce(w', i, d) && w'.log[i] == w.log[i];
    }
  }

  lemma ReaderStaysSound(w: World, ttl: real, a: Action, r: Reader)
    requires w.log != [] && w.log[|w.log| - 1].since <= w.now && ReaderInvariant(w, ttl, r)
    ensures ReaderInvariant(Next(w, ttl, a), ttl, r)
  {
    if r.Fetched? || r.Done? {
      HeldPersists(w, ttl, a, r.org, r.value, r.start);
      HeldPersists(w, ttl, a, r.org, r.value, r.start - ttl);
    }
  }

  lemma FetchedHoldsNow(w: World, org: Org, from: real)
    requires w.log != [] && w.log[|w.log| - 1].since <= w.now && from <= w.now
    ensures HeldSince(w, org, Resolve(Current(w), org), from)
  {
    assert InForce(w, |w.log| - 1, w.now);
  }

  lemma HitIsFresh(w: World, org: Org, value: nat, since: real, from: real)
    requires HeldSince(w, org, value, since) && since > from
    ensures HeldAfter(w, org, value, from)
  {
    var i: nat, d: real :| InForce(w, i, d) && d >= since && Resolve(w.log[i].rows, org) == value;
    assert InForce(w, i, d) && d > from;
  }

  lemma StepKeepsInvariant(w: World, ttl: real, a: Action)
    requires Invariant(w, ttl)
    ensures Invariant(Next(w, ttl, a), ttl)
  {
    var w' := Next(w, ttl, a);
    forall org | org in w.cache ensures HeldSince(w', org, w.cache[org].1, w.cache[org].0) {
      HeldPersists(w, ttl, a, org, w.cache[org].1, w.cache[org].0);
    }
    forall r | 0 <= r < |w.readers| ensures ReaderInvariant(w', ttl, w.readers[r]) {
      ReaderStaysSound(w, ttl, a, w.readers[r]);
    }
    match a
    case Lookup(r) =>
      if w' != w {
        var c := w.readers[r];
        if w'.readers[r].Done? {
          HitIsFresh(w', c.org, w.cache[c.org].1, w.cache[c.org].0, c.start - ttl);
        }
      }
    case Fetch(r) =>
      if w' != w { FetchedHoldsNow(w', w.readers[r].org, w.readers[r].start); }
    case _ =>
  }

  lemma {:induction false} RunsKeepInvariant(actions: seq<Action>, ttl: real)
    ensures Invariant(Run(actions, ttl), ttl)
  {
    if actions != [] {
      RunsKeepInvariant(actions[..|actions| - 1], ttl);
      StepKeepsInvariant(Run(actions[..|actions| - 1], ttl), ttl, actions[|actions| - 1]);
    }
  }

  /** Bounded staleness: whatever the interleaving, a value returned by a read that started at
      `start` was the stored (or default) value at some instant after `start - ttl`. */
  lemma ReadsAreBoundedlyStale(actions: seq<Action>, ttl: real, r: nat)
    requires ttl > 0.0
    requires r < |Run(actions, ttl).readers| && Run(actions, ttl).readers[r].Done?
    ensures var w := Run(actions, ttl);
            HeldAfter(w, w.readers[r].org, w.readers[r].value, w.readers[r].start - ttl)
  {
    var w := Run(actions, ttl);
    RunsKeepInvariant(actions, ttl);
    var c := w.readers[r];
    assert ReaderInvariant(w, ttl, c);
    if HeldSince(w, c.org, c.value, c.start) { HitIsFresh(w, c.org, c.value, c.start, c.start - ttl); }
  }

  // ---- what invalidation does not give -------------------------------------------------------

  predicate Writes(a: Action, org: Org) {
    (a.Write? || a.Delete?) && a.org == org
  }

  /** A run that goes on from `w`. */
  function RunFrom(w: World, ttl: real, actions: seq<Action>): (w': World)
    requires w.log != []
    ensures w'.log != []
  {
    if actions == [] then w else Next(RunFrom(w, ttl, actions[..|actions| - 1]), ttl, actions[|actions| - 1])
  }

  /** However it goes on without a write to `org`, every reader of `org` that starts from now on
      returns what is stored now. */
  ghost predicate ReadersSeeCurrent(w: World, ttl: real, org: Org)
    requires w.log != []
  {
    forall actions: seq<Action>, r: nat | SeesAfter(w, ttl, org, actions, r) ::
      RunFrom(w, ttl, actions).readers[r].value == Resolve(Current(w), org)
  }

  /** Reader `r` starts in this continuation and returns a value for `org`. */
  predicate SeesAfter(w: World, ttl: real, org: Org, actions: seq<Action>, r: nat)
    requires w.log != []
  {
    var w' := RunFrom(w, ttl, actions);
    && (forall i :: 0 <= i < |actions| ==> !Writes(actions[i], org))
    && |w.readers| <= r < |w'.readers| && w'.readers[r].Done? && w'.readers[r].org == org
  }

  /** Reader `r` holds an outdated value that its clock reading still lets it publish as fresh. */
  predicate Lurks(w: World, ttl: real, org: Org, r: nat)
    requires w.log != []
  {
    && r < |w.readers| && w.readers[r].Fetched? && w.readers[r].org == org
    && w.readers[r].value != Resolve(Current(w), org) && w.now - w.readers[r].start < ttl
  }

  /** What a continuation from `w` keeps about one reader, when nothing lurked in `w`. */
  predicate ReaderHarmless(w: World, ttl: real, org: Org, value: nat, n: nat, r: nat, c: Reader) {
    && (r >= n ==> c.start >= w.now)
    && (c.org == org ==>
          && (c.Fetched? ==> c.value == value || (r < n && w.now - c.start >= ttl))
          && (c.Done? && r >= n ==> c.value == value))
  }

  predicate Harmless(w: World, ttl: real, org: Org, value: nat, w': World)
    requires w'.log != []
  {
    && w.now <= w'.now && Resolve(Current(w'), org) == value && |w.readers| <= |w'.readers|
    && (org in w'.cache ==> w'.cache[org].1 == value || w.now - w'.cache[org].0 >= ttl)
    && forall r: nat :: r < |w'.readers| ==> ReaderHarmless(w, ttl, org, value, |w.readers|, r, w'.readers[r])
  }

  lemma StepStaysHarmless(w: World, ttl: real, org: Org, value: nat, w': World, a: Action)
    requires w'.log != [] && Harmless(w, ttl, org, value, w') && !Writes(a, org)
    ensures Harmless(w, ttl, org, value, Next(w', ttl, a))
  {
    var w'' := Next(w', ttl, a);
    forall r: nat | r < |w''.readers| ensures ReaderHarmless(w, ttl, org, value, |w.readers|, r, w''.readers[r]) {
      if r < |w'.readers| { assert ReaderHarmless(w, ttl, org, value, |w.readers|, r, w'.readers[r]); }
    }
  }

  lemma {:induction false} RunStaysHarmless(w: World, ttl: real, org: Org, actions: seq<Action>)
    requires w.log != [] && Harmless(w, ttl, org, Resolve(Current(w), org), w)
    requires forall i :: 0 <= i < |actions| ==> !Writes(actions[i], org)
    ensures Harmless(w, ttl, org, Resolve(Current(w), org), RunFrom(w, ttl, actions))
  {
    if actions != [] {
      var init := actions[..|actions| - 1];
      RunStaysHarmless(w, ttl, org, init);
      StepStaysHarmless(w, ttl, org, Resolve(Current(w), org), RunFrom(w, ttl, init), actions[|actions| - 1]);
    }
  }

  /** A lurking reader publishes, and the next reader returns its outdated value. */
  lemma LurkerIsRead(w: World, ttl: real, org: Org, r: nat)
    requires w.log != [] && Lurks(w, ttl, org, r)
    ensures !ReadersSeeCurrent(w, ttl, org)
  {
    var s := [Publish(r), Start(org), Lookup(|w.readers|)];
    assert s[..3] == s && s[..3][..2] == s[..2] && s[..2][..1] == s[..1] && s[..1][..0] == [];
    var c := w.readers[r];
    var w1 := RunFrom(w, ttl, s[..1]);
    assert RunFrom(w, ttl, s[..1][..0]) == w && w1 == Next(w, ttl, Publish(r));
    assert w1 == w.(cache := w.cache[org := (c.start, c.value)],
        readers := w.readers[r := Done(org, c.start, c.value)]);
    var w2 := RunFrom(w, ttl, s[..2]);
    assert w2 == w1.(readers := w1.readers + [Clocked(org, w.now)]);
    assert w2.readers[|w.readers|] == Clocked(org, w.now) && w2.cache[org] == (c.start, c.value);
    assert RunFrom(w, ttl, s) == Next(w2, ttl, Lookup(|w.readers|));
    assert RunFrom(w, ttl, s).readers[|w.readers|] == Done(org, w.now, c.value);
    assert SeesAfter(w, ttl, org, s, |w.readers|);
  }

  /** An invalidation lasts exactly when no reader that fetched another value is still within its time
      to live: then every later reader sees the current value until the next write. */
  lemma InvalidationLastsIff(w: World, ttl: real, org: Org)
    requires w.log != []
    ensures var after := Next(w, ttl, Invalidate(org));
            ReadersSeeCurrent(after, ttl, org) <==> !exists r: nat :: Lurks(after, ttl, org, r)
  {
    var after := Next(w, ttl, Invalidate(org));
    if r: nat :| Lurks(after, ttl, org, r) {
      LurkerIsRead(after, ttl, org, r);
    } else {
      forall r: nat | r < |after.readers|
        ensures ReaderHarmless(after, ttl, org, Resolve(Current(after), org), |after.readers|, r, after.readers[r])
      {
        assert !Lurks(after, ttl, org, r);
      }
      forall actions: seq<Action>, r: nat | SeesAfter(after, ttl, org, actions, r)
        ensures RunFrom(after, ttl, actions).readers[r].value == Resolve(Current(after), org)
      {
        RunStaysHarmless(after, ttl, org, actions);
        var c := RunFrom(after, ttl, actions).readers[r];
        assert ReaderHarmless(after, ttl, org, Resolve(Current(after), org), |after.readers|, r, c);
      }
    }
  }

  /** Such a reader is reachable: it fetched before the write and publishes after the invalidation;
      the cache then holds the old value again. */
  lemma InvalidationCanBeUndone(org: Org)
    ensures var w := Run([Start(org), Lookup(0), Fetch(0), Write(org, 7), Invalidate(org), Publish(0),
                          Start(org), Lookup(1)], 60.0);
            && w.readers == [Done(org, 0.0, DEFAULTS), Done(org, 0.0, DEFAULTS)]
            && Resolve(Current(w), org) == 7
  {
    var s := [Start(org), Lookup(0), Fetch(0), Write(org, 7), Invalidate(org), Publish(0), Start(org), Lookup(1)];
    assert s[..8] == s && s[..8][..7] == s[..7] && s[..7][..6] == s[..6] && s[..6][..5] == s[..5];
    assert s[..5][..4] == s[..4] && s[..4][..3] == s[..3] && s[..3][..2] == s[..2] && s[..2][..1] == s[..1] &&
        s[..1][..0] == [];
    assert Run(s[..1], 60.0) == INIT.(readers := [Clocked(org, 0.0)]);
    assert Run(s[..2], 60.0) == INIT.(readers := [Missed(org, 0.0)]);
    assert Run(s[..3], 60.0) == INIT.(readers := [Fetched(org, 0.0, DEFAULTS)]);
    assert Run(s[..4], 60.0).log == INIT.log + [Snapshot(0.0, map[org := 7])];
    assert Run(s[..5], 60.0).cache == map[];
    assert Run(s[..6], 60.0).cache == map[org := (0.0, DEFAULTS)];
    assert Run(s[..7], 60.0).readers == [Done(org, 0.0, DEFAULTS), Clocked(org, 0.0)];
  }
}
