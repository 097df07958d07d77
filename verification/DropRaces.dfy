/** Drops of one vendor that overlap: `_ingest_received` inserts its row and supersedes the earlier ones
    in two transactions, and other drops may come between. */
module DropRaces {
  import opened Common
  import opened IngestionTables
  import opened IngestionRuns
  import opened IngestionLifecycle

  /** The two transactions of the `k`-th drop: insert its row, then link the others to it. */
  datatype DropStep = Put(k: nat) | Link(k: nat)

  /** The vendor and what the drops contain. */
  datatype Drops = Drops(r: RfpId, v: Vendor, content: nat -> Hash)

  /** The tables, and the ids the drops have got for their rows. */
  datatype Race = Race(db: Db, ids: map<nat, JobId>)

  function Do(race: Race, d: Drops, s: DropStep): Race {
    match s
    case Put(k) =>
      var (db, id) := Enqueue(race.db, d.r, d.v, d.content(k), Received);
      if id.Some? then Race(db, race.ids[k := id.value]) else race
    case Link(k) => if k in race.ids then race.(db := SupersedePrior(race.db, d.r, d.v, race.ids[k])) else race
  }

  function DoAll(db: Db, d: Drops, order: seq<DropStep>): Race {
    if order == [] then Race(db, map[]) else Do(DoAll(db, d, order[..|order| - 1]), d, order[|order| - 1])
  }

  /** These are the protocol's own steps, while no tick is queueing jobs. */
  lemma StepsOfTheProtocol(w: World, ids: map<nat, JobId>, d: Drops, k: nat)
    ensures Next(w, InsertJob(d.r, d.v, d.content(k), Received)).db == Do(Race(w.db, ids), d, Put(k)).db
    ensures w.sweeps == map[] && k in ids && OfVendor(w.db, d, ids[k]) ==>
              Next(w, Supersede(d.r, d.v, ids[k])).db == Do(Race(w.db, ids), d, Link(k)).db
  {
  }

  /** All drops bring content the folder does not have, each its own. */
  ghost predicate FreshContents(db: Db, d: Drops) {
    && (forall k :: !KeyTaken(db, d.r, d.v, d.content(k)))
    && (forall k, l :: d.content(k) == d.content(l) ==> k == l)
  }

  /** Each step once, and each drop inserts before it links. */
  predicate Ordered(order: seq<DropStep>) {
    && (forall i, j :: 0 <= i < j < |order| ==> order[i] != order[j])
    && (forall j :: 0 <= j < |order| && order[j].Link? ==> Put(order[j].k) in order[..j])
  }

  /** Another drop has linked since drop `k` inserted. */
  predicate Overtaken(order: seq<DropStep>, k: nat) {
    exists i, j :: 0 <= i < j < |order| && order[i] == Put(k) && order[j].Link? && order[j].k != k
  }

  predicate OfVendor(db: Db, d: Drops, j: JobId) {
    j in db.jobs && db.jobs[j].rfp == d.r && db.jobs[j].vendor == d.v
  }

  /** The row of drop `k`. */
  predicate RowOf(before: Db, race: Race, d: Drops, k: nat) {
    k in race.ids ==>
      var j := race.ids[k];
      && before.nextJob <= j && OfVendor(race.db, d, j) && race.db.jobs[j].content == d.content(k)
      && (race.db.jobs[j].status == Received || race.db.jobs[j].status == Superseded)
  }

  /** Every row is an old one under its old key, or a drop's. */
  ghost predicate Known(before: Db, race: Race, j: JobId) {
    j in race.db.jobs ==>
      || (j in before.jobs && SameKey(before.jobs[j], race.db.jobs[j]))
      || (exists k :: k in race.ids && race.ids[k] == j)
  }

  ghost predicate RaceSound(before: Db, race: Race, d: Drops) {
    && before.nextJob <= race.db.nextJob && (forall j :: j in race.db.jobs ==> j < race.db.nextJob)
    && (forall k :: RowOf(before, race, d, k))
    && (forall j :: Known(before, race, j))
  }

  lemma RowsTellDropsApart(before: Db, race: Race, d: Drops, k: nat, l: nat)
    requires FreshContents(before, d) && RaceSound(before, race, d)
    requires k in race.ids && l in race.ids && race.ids[k] == race.ids[l]
    ensures k == l
  {
    assert RowOf(before, race, d, k) && RowOf(before, race, d, l);
  }

  lemma ContentIsNew(before: Db, race: Race, d: Drops, k: nat)
    requires FreshContents(before, d) && RaceSound(before, race, d) && k !in race.ids
    ensures !KeyTaken(race.db, d.r, d.v, d.content(k))
  {
    forall l | l in race.ids ensures race.ids[l] in race.db.jobs &&
        race.db.jobs[race.ids[l]].content != d.content(k) { assert RowOf(before, race, d, l); }
    forall j | OfVendor(race.db, d, j) ensures race.db.jobs[j].content != d.content(k) {
      assert Known(before, race, j);
      if j in before.jobs && SameKey(before.jobs[j], race.db.jobs[j]) {
        assert !KeyTaken(before, d.r, d.v, d.content(k));
      }
    }
  }

  lemma PutStaysSound(before: Db, race: Race, d: Drops, k: nat)
    requires FreshContents(before, d) && RaceSound(before, race, d) && k !in race.ids
    ensures RaceSound(before, Do(race, d, Put(k)), d)
    ensures Do(race, d, Put(k)).ids == race.ids[k := race.db.nextJob]
    ensures forall j :: j in race.db.jobs ==> Do(race, d, Put(k)).db.jobs[j] == race.db.jobs[j]
    ensures Do(race, d, Put(k)).db.jobs.Keys == race.db.jobs.Keys + {race.db.nextJob}
    ensures Do(race, d, Put(k)).db.jobs[race.db.nextJob].status == Received
  {
    ContentIsNew(before, race, d, k);
    var after := Do(race, d, Put(k));
    forall l ensures RowOf(before, after, d, l) { assert RowOf(before, race, d, l); }
    forall j ensures Known(before, after, j) {
      assert Known(before, race, j);
      if l :| l in race.ids && race.ids[l] == j { assert l in after.ids && after.ids[l] == j; }
      if j == race.db.nextJob { assert after.ids[k] == j; }
    }
  }

  lemma LinkStaysSound(before: Db, race: Race, d: Drops, k: nat)
    requires RaceSound(before, race, d)
    ensures RaceSound(before, Do(race, d, Link(k)), d)
    ensures Do(race, d, Link(k)).ids == race.ids && Do(race, d, Link(k)).db.jobs.Keys == race.db.jobs.Keys
  {
    var after := Do(race, d, Link(k));
    forall l ensures RowOf(before, after, d, l) { assert RowOf(before, race, d, l); }
    forall j ensures Known(before, after, j) { assert Known(before, race, j); }
  }

  lemma OrderedPrefix(order: seq<DropStep>)
    requires Ordered(order) && order != []
    ensures var init, last := order[..|order| - 1], order[|order| - 1];
            && Ordered(init) && last !in init && (last.Link? ==> Put(last.k) in init)
            && (forall s :: s in order <==> s in init || s == last)
  {
    var init := order[..|order| - 1];
    forall j | 0 <= j < |init| && init[j].Link? ensures Put(init[j].k) in init[..j] { assert init[..j] == order[..j]; }
  }

  lemma {:induction false} RunStaysSound(db: Db, d: Drops, order: seq<DropStep>)
    requires RowsSound(db) && FreshContents(db, d) && Ordered(order)
    ensures RaceSound(db, DoAll(db, d, order), d)
    ensures forall k :: k in DoAll(db, d, order).ids <==> Put(k) in order
  {
    if order != [] {
      var init, last := order[..|order| - 1], order[|order| - 1];
      OrderedPrefix(order);
      RunStaysSound(db, d, init);
      match last
      case Put(k) => PutStaysSound(db, DoAll(db, d, init), d, k);
      case Link(k) => LinkStaysSound(db, DoAll(db, d, init), d, k);
    } else {
      forall j ensures Known(db, DoAll(db, d, order), j) { }
    }
  }

  lemma OvertakenStep(order: seq<DropStep>, k: nat)
    requires order != []
    ensures var init, last := order[..|order| - 1], order[|order| - 1];
            Overtaken(order, k) <==> Overtaken(init, k) || (Put(k) in init && last.Link? && last.k != k)
  {
    var init, last := order[..|order| - 1], order[|order| - 1];
    assert forall i :: 0 <= i < |init| ==> init[i] == order[i];
    if Put(k) in init && last.Link? && last.k != k {
      var i :| 0 <= i < |init| && init[i] == Put(k);
      assert order[i] == Put(k) && order[|order| - 1] == last;
    }
  }

  /** After any interleaving of any number of drops: a drop's row is superseded exactly when another
      drop has linked since it was inserted, and otherwise still received. */
  lemma {:induction false} SupersededIff(db: Db, d: Drops, order: seq<DropStep>, k: nat)
    requires RowsSound(db) && FreshContents(db, d) && Ordered(order) && Put(k) in order
    ensures var race := DoAll(db, d, order);
            && k in race.ids && race.ids[k] in race.db.jobs
            && race.db.jobs[race.ids[k]].status == if Overtaken(order, k) then Superseded else Received
  {
    var init, last := order[..|order| - 1], order[|order| - 1];
    OrderedPrefix(order);
    OvertakenStep(order, k);
    RunStaysSound(db, d, init);
    RunStaysSound(db, d, order);
    var race := DoAll(db, d, init);
    assert RowOf(db, DoAll(db, d, order), d, k);
    if last == Put(k) {
      PutStaysSound(db, race, d, k);
      assert !Overtaken(init, k);
    } else {
      SupersededIff(db, d, init, k);
      assert RowOf(db, race, d, k);
      match last
      case Put(l) => PutStaysSound(db, race, d, l);
      case Link(l) =>
        assert RowOf(db, race, d, l);
        if race.ids[l] == race.ids[k] { RowsTellDropsApart(db, race, d, k, l); }
    }
  }

  /** Once a drop has linked, the vendor's received rows are among those of the drops. */
  lemma {:induction false} OnlyDropsAreReceived(db: Db, d: Drops, order: seq<DropStep>, j: JobId)
    requires RowsSound(db) && FreshContents(db, d) && Ordered(order) && exists i :: 0 <= i < |order| && order[i].Link?
    requires OfVendor(DoAll(db, d, order).db, d, j) && DoAll(db, d, order).db.jobs[j].status == Received
    ensures exists k :: k in DoAll(db, d, order).ids && DoAll(db, d, order).ids[k] == j
  {
    var init, last := order[..|order| - 1], order[|order| - 1];
    OrderedPrefix(order);
    RunStaysSound(db, d, init);
    var race := DoAll(db, d, init);
    match last
    case Link(l) => LinkLeavesOne(race, d, l, j);
    case Put(l) =>
      PutStaysSound(db, race, d, l);
      if j != race.db.nextJob {
        assert exists i :: 0 <= i < |init| && init[i].Link?;
        OnlyDropsAreReceived(db, d, init, j);
      }
      ContentIsNew(db, race, d, l);
      PutKeepsIds(race, d, l, j);
  }

  lemma LinkLeavesOne(race: Race, d: Drops, l: nat, j: JobId)
    requires l in race.ids
    requires OfVendor(Do(race, d, Link(l)).db, d, j) && Do(race, d, Link(l)).db.jobs[j].status == Received
    ensures race.ids[l] == j && Do(race, d, Link(l)).ids == race.ids
  {
  }

  lemma PutKeepsIds(race: Race, d: Drops, l: nat, j: JobId)
    requires l !in race.ids && !KeyTaken(race.db, d.r, d.v, d.content(l))
    requires j == race.db.nextJob || exists k :: k in race.ids && race.ids[k] == j
    ensures exists k :: k in Do(race, d, Put(l)).ids && Do(race, d, Put(l)).ids[k] == j
  {
    var after := Do(race, d, Put(l));
    if j == race.db.nextJob {
      assert after.ids[l] == j;
    } else {
      var k :| k in race.ids && race.ids[k] == j;
      assert k in after.ids && after.ids[k] == j;
    }
  }

  /** Two drops whose steps are at the given places: both rows end superseded, and no received row of
      the vendor is left, exactly when both inserts precede both links. */
  lemma BothLostIff(db: Db, d: Drops, order: seq<DropStep>, p1: nat, l1: nat, p2: nat, l2: nat)
    requires RowsSound(db) && FreshContents(db, d) && Ordered(order) && |order| == 4
    requires p1 < l1 < 4 && p2 < l2 < 4
    requires order[p1] == Put(1) && order[l1] == Link(1) && order[p2] == Put(2) && order[l2] == Link(2)
    ensures var race := DoAll(db, d, order);
            && 1 in race.ids && race.ids[1] in race.db.jobs && 2 in race.ids && race.ids[2] in race.db.jobs
            && (p1 < l2 && p2 < l1 <==>
                  race.db.jobs[race.ids[1]].status == Superseded && race.db.jobs[race.ids[2]].status == Superseded)
            && (p1 < l2 && p2 < l1 <==>
                  !exists j :: OfVendor(race.db, d, j) && race.db.jobs[j].status == Received)
  {
    var race := DoAll(db, d, order);
    SupersededIff(db, d, order, 1);
    SupersededIff(db, d, order, 2);
    FourPlaces(order, p1, l1, p2, l2);
    RunStaysSound(db, d, order);
    assert RowOf(db, race, d, 1) && RowOf(db, race, d, 2);
    if j :| OfVendor(race.db, d, j) && race.db.jobs[j].status == Received {
      OnlyDropsAreReceived(db, d, order, j);
      var k :| k in race.ids && race.ids[k] == j;
      assert Put(k) in order;
      assert k == 1 || k == 2;
    }
  }

  lemma FourPlaces(order: seq<DropStep>, p1: nat, l1: nat, p2: nat, l2: nat)
    requires |order| == 4 && p1 < l1 < 4 && p2 < l2 < 4 && forall i, j :: 0 <= i < j < 4 ==> order[i] != order[j]
    requires order[p1] == Put(1) && order[l1] == Link(1) && order[p2] == Put(2) && order[l2] == Link(2)
    ensures Overtaken(order, 1) <==> p1 < l2
    ensures Overtaken(order, 2) <==> p2 < l1
    ensures forall k :: Put(k) in order ==> k == 1 || k == 2
  {
    forall j | 0 <= j < 4 ensures order[j] in {Put(1), Link(1), Put(2), Link(2)} {
      assert j in {p1, l1, p2, l2};
    }
  }
}
