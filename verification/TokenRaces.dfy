/** Creations of one-time tokens that overlap (app/auth/tokens.py, `create_onetime_token`): its UPDATE and
    its INSERT are two statements of the caller's transaction. */
module TokenRaces {
  import opened Common
  import opened AuthState

  /** What the `k`-th of several creations for one purpose and address does.  At READ COMMITTED an
      UPDATE sees the rows committed before it starts. */
  datatype Statement = Update(k: nat) | Insert(k: nat) | Commit(k: nat)

  datatype Creation = Creation(p: Purpose, e: Email, hash: nat -> Hash, expires: int, now: int)

  /** The table once everything has been committed, and the rows that are not committed yet.  A row two
      UPDATEs mark is marked by whichever gets its lock; for being used or not that makes no difference. */
  datatype Overlap = Overlap(db: Db, uncommitted: set<Hash>)

  function SupersedeVisible(o: Overlap, c: Creation): Db {
    o.db.(tokens := map h | h in o.db.tokens ::
            if Unused(o.db, h, c.p, c.e) && h !in o.uncommitted then o.db.tokens[h].(usedAt := Some(c.now))
                else o.db.tokens[h])
  }

  function Do(o: Overlap, c: Creation, s: Statement): Overlap {
    match s
    case Update(_) => o.(db := SupersedeVisible(o, c))
    case Insert(k) =>
      var inserted := InsertToken(o.db, c.hash(k), Token(c.p, c.e, None, c.expires, None));
      if inserted.Some? then Overlap(inserted.value, o.uncommitted + {c.hash(k)}) else o
    case Commit(k) => o.(uncommitted := o.uncommitted - {c.hash(k)})
  }

  function DoAll(db: Db, c: Creation, order: seq<Statement>): Overlap {
    if order == [] then Overlap(db, {}) else Do(DoAll(db, c, order[..|order| - 1]), c, order[|order| - 1])
  }

  /** With nobody in between it is the creation as one step. */
  lemma AloneItIsOneStep(db: Db, c: Creation, k: nat, ttl: int)
    requires c.hash(k) !in db.tokens && c.expires == c.now + ttl
    ensures DoAll(db, c, [Update(k), Insert(k), Commit(k)]) ==
            Overlap(CreateToken(db, c.hash(k), c.p, c.e, None, ttl, c.now), {})
  {
    var order := [Update(k), Insert(k), Commit(k)];
    assert order[..3] == order && order[..3][..2] == order[..2] && order[..2][..1] == order[..1] &&
        order[..1][..0] == [];
    assert SupersedeVisible(Overlap(db, {}), c).tokens == SupersedeTokens(db, c.p, c.e, c.now).tokens;
    assert DoAll(db, c, order[..0]) == Overlap(db, {});
    var updated := DoAll(db, c, order[..1]);
    assert updated == Do(Overlap(db, {}), c, Update(k));
    assert updated == Overlap(SupersedeTokens(db, c.p, c.e, c.now), {});
    var inserted := DoAll(db, c, order[..2]);
    assert inserted == Do(updated, c, Insert(k));
  }

  ghost predicate FreshHashes(db: Db, c: Creation) {
    && (forall k :: c.hash(k) !in db.tokens)
    && (forall k, l :: c.hash(k) == c.hash(l) ==> k == l)
  }

  /** Each statement once, and a creation commits after it has inserted. */
  predicate Ordered(order: seq<Statement>) {
    && (forall i, j :: 0 <= i < j < |order| ==> order[i] != order[j])
    && (forall j :: 0 <= j < |order| && order[j].Commit? ==> Insert(order[j].k) in order[..j])
  }

  /** The `k`-th creation has inserted, and no UPDATE has started after its commit. */
  predicate NotSuperseded(order: seq<Statement>, k: nat) {
    Insert(k) in order && forall i, j :: 0 <= i < j < |order| && order[i] == Commit(k) ==> !order[j].Update?
  }

  lemma OrderedPrefix(order: seq<Statement>)
    requires Ordered(order) && order != []
    ensures var init, last := order[..|order| - 1], order[|order| - 1];
            && Ordered(init) && last !in init && (last.Commit? ==> Insert(last.k) in init)
            && (forall s :: s in order <==> s in init || s == last)
  {
    var init := order[..|order| - 1];
    forall j | 0 <= j < |init| && init[j].Commit?
        ensures Insert(init[j].k) in init[..j] { assert init[..j] == order[..j]; }
  }

  lemma NotSupersededStep(order: seq<Statement>, k: nat)
    requires Ordered(order) && order != []
    ensures var init, last := order[..|order| - 1], order[|order| - 1];
            NotSuperseded(order, k) <==>
            last == Insert(k) || (NotSuperseded(init, k) && !(last.Update? && Commit(k) in init))
  {
    var init, last := order[..|order| - 1], order[|order| - 1];
    OrderedPrefix(order);
    assert forall i :: 0 <= i < |init| ==> init[i] == order[i];
    if last == Insert(k) { NoCommitBeforeInsert(order, k); }
    if last.Update? && Commit(k) in init {
      var i :| 0 <= i < |init| && init[i] == Commit(k);
      assert order[i] == Commit(k) && order[|order| - 1].Update?;
    }
  }

  lemma NoCommitBeforeInsert(order: seq<Statement>, k: nat)
    requires Ordered(order) && order != [] && order[|order| - 1] == Insert(k)
    ensures Commit(k) !in order
  {
    forall j | 0 <= j < |order| && order[j].Commit? ensures order[j] != Commit(k) {
      var i :| 0 <= i < j && order[i] == Insert(order[j].k);
      assert order[i] != order[|order| - 1];
    }
  }

  /** After any interleaving of any number of creations: a creation's token is live exactly when no
      creation's UPDATE has started after its COMMIT. */
  lemma {:induction false} LiveIff(db: Db, c: Creation, order: seq<Statement>, k: nat)
    requires FreshHashes(db, c) && Ordered(order)
    ensures var o := DoAll(db, c, order);
            && (c.hash(k) in o.db.tokens <==> Insert(k) in order)
            && (c.hash(k) in o.uncommitted <==> Insert(k) in order && Commit(k) !in order)
            && (Unused(o.db, c.hash(k), c.p, c.e) <==> NotSuperseded(order, k))
  {
    if order != [] {
      OrderedPrefix(order);
      LiveIff(db, c, order[..|order| - 1], k);
      NotSupersededStep(order, k);
    }
  }

  /** Two creations whose statements are at the given places leave two live links exactly when each
      creation's UPDATE starts before the other's COMMIT. */
  lemma OverlappingCreationsLeaveTwo(db: Db, c: Creation, order: seq<Statement>,
                                     u1: nat, i1: nat, c1: nat, u2: nat, i2: nat, c2: nat)
    requires FreshHashes(db, c) && Ordered(order) && |order| == 6
    requires u1 < i1 < c1 < 6 && u2 < i2 < c2 < 6
    requires order[u1] == Update(1) && order[i1] == Insert(1) && order[c1] == Commit(1)
    requires order[u2] == Update(2) && order[i2] == Insert(2) && order[c2] == Commit(2)
    ensures var after := DoAll(db, c, order).db;
            Unused(after, c.hash(1), c.p, c.e) && Unused(after, c.hash(2), c.p, c.e) <==> u1 < c2 && u2 < c1
    ensures u1 < c2 && u2 < c1 ==> !OneLive(DoAll(db, c, order).db)
  {
    var after := DoAll(db, c, order).db;
    LiveIff(db, c, order, 1);
    LiveIff(db, c, order, 2);
    SixPlaces(order, u1, i1, c1, u2, i2, c2);
    if u1 < c2 && u2 < c1 { assert Live(after, c.hash(1), c.hash(2)); }
  }

  lemma SixPlaces(order: seq<Statement>, u1: nat, i1: nat, c1: nat, u2: nat, i2: nat, c2: nat)
    requires Ordered(order) && |order| == 6 && u1 < i1 < c1 < 6 && u2 < i2 < c2 < 6
    requires order[u1] == Update(1) && order[i1] == Insert(1) && order[c1] == Commit(1)
    requires order[u2] == Update(2) && order[i2] == Insert(2) && order[c2] == Commit(2)
    ensures NotSuperseded(order, 1) <==> u2 < c1
    ensures NotSuperseded(order, 2) <==> u1 < c2
  {
    forall j | 0 <= j < 6 ensures order[j].Update? ==> j == u1 || j == u2 {
      assert j in {u1, i1, c1, u2, i2, c2};
    }
    assert forall i :: 0 <= i < 6 && order[i] == Commit(1) ==> i == c1;
    assert forall i :: 0 <= i < 6 && order[i] == Commit(2) ==> i == c2;
  }
}
