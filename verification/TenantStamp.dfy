/** The cached tenant stamp of app/db/session.py: `_apply_org_context` and the connect and checkout
    listeners of `install_org_listener`, over one pooled physical connection.

    The server's variable `app.current_org_id` has a committed value, a value in the current
    transaction, and possibly a SET LOCAL value; the empty string stands for no tenant. */
module TenantStamp {
  import opened Common

  type Org = string

  datatype Session = Session(committed: Org, current: Org, local: Option<Org>) {
    /** What a row-level policy reads. */
    function Visible(): Org { if local.Some? then local.value else current }
    function SetSession(org: Org): Session { this.(current := org, local := None) }
    function SetLocal(org: Org): Session { this.(local := Some(org)) }
    function Commit(): Session { Session(current, current, None) }
    function Rollback(): Session { Session(committed, committed, None) }
  }

  /** Where a stamp may break off; in both cases the server has not committed it. */
  datatype Fault = NoFault | BeforeSet | BeforeCommit

  /** A pool record: the connection's session, the marker cached in `conn_record.info`, and the
      org that was active when the present borrower checked it out. */
  datatype Record = Record(session: Session, marker: Option<Org>, borrower: Option<Org>)

  const CLEAN := Session("", "", None)
  const NEW_RECORD := Record(CLEAN, None, None)

  datatype Action =
    | Connect                           // the pool opens a new physical connection
    | Checkout(org: Org, fault: Fault)
    | SetLocal(org: Org)
    | Commit
    | Rollback
    | Return                            // reset on return: roll back

  /** `_apply_org_context`: set, then commit; a failure leaves the pool to roll back. */
  function Stamped(s: Session, org: Org, fault: Fault): Session {
    match fault
    case NoFault => s.SetSession(org).Commit()
    case BeforeSet => s.Rollback()
    case BeforeCommit => s.SetSession(org).Rollback()
  }

  /** Effects of a borrower's own statements, and of handing the connection back. */
  function Borrowed(s: Session, a: Action): Session {
    match a
    case SetLocal(org) => s.SetLocal(org)
    case Commit => s.Commit()
    case Rollback => s.Rollback()
    case _ => s
  }

  predicate Enabled(r: Record, a: Action) {
    match a
    case Connect => r.borrower.None?
    case Checkout(_, _) => r.borrower.None?
    case _ => r.borrower.Some?
  }

  /** One step of the cached implementation. */
  function Step(r: Record, a: Action): Record {
    if !Enabled(r, a) then r
    else match a
      case Connect => NEW_RECORD
      case Checkout(org, fault) =>
        if r.marker == Some(org) then r.(borrower := Some(org))
        else if fault == NoFault then Record(Stamped(r.session, org, fault), Some(org), Some(org))
        else r.(session := Stamped(r.session, org, fault))
      case Return => r.(session := r.session.Rollback(), borrower := None)
      case _ => r.(session := Borrowed(r.session, a))
  }

  class PooledConnection {
    var session: Session
    var appOrg: Option<Org>
    var borrower: Option<Org>

    function Value(): Record
      reads this
    {
      Record(session, appOrg, borrower)
    }

    constructor ()
      ensures Value() == NEW_RECORD
    {
      session, appOrg, borrower := CLEAN, None, None;
    }

    method OnConnect()
      requires borrower.None?
      modifies this
      ensures Value() == Step(old(Value()), Connect)
      ensures session == Session("", "", None) && appOrg == None
    {
      session := CLEAN;
      appOrg := None;
    }

    method OnCheckout(org: Org, fault: Fault) returns (ok: bool)
      requires borrower.None?
      modifies this
      ensures Value() == Step(old(Value()), Checkout(org, fault))
      ensures ok <==> borrower == Some(org)
      ensures ok <==> old(appOrg) == Some(org) || fault == NoFault
      ensures old(appOrg) == Some(org) ==> session == old(session) && appOrg == old(appOrg)
      ensures old(appOrg) != Some(org) && ok ==> session == Session(org, org, None) && appOrg == Some(org)
      ensures !ok ==> session == Session(old(session).committed, old(session).committed, None) && appOrg == old(appOrg)
    {
      if appOrg != Some(org) {
        ok := ApplyOrgContext(org, fault);
        if !ok { return; }
        appOrg := Some(org);
      }
      borrower := Some(org);
      ok := true;
    }

    method ApplyOrgContext(org: Org, fault: Fault) returns (ok: bool)
      modifies this`session
      ensures session == Stamped(old(session), org, fault) && ok == (fault == NoFault)
      ensures var value := if ok then org else old(session).committed; session == Session(value, value, None)
    {
      if fault == BeforeSet {
        session := session.Rollback();
        return false;
      }
      session := session.SetSession(org);
      if fault == BeforeCommit {
        session := session.Rollback();
        return false;
      }
      session := session.Commit();
      return true;
    }
  }

  // ---- runs of the cached implementation --------------------------------------------------

  function Run(actions: seq<Action>): Record {
    if actions == [] then NEW_RECORD
    else Step(Run(actions[..|actions| - 1]), actions[|actions| - 1])
  }

  /** Marker and variable in lock-step, and a pooled connection is clean. */
  predicate LockStep(r: Record) {
    && (r.marker.Some? ==> r.session.committed == r.marker.value)
    && r.session.current == r.session.committed
    && (r.borrower.Some? ==> r.marker == r.borrower)
    && (r.borrower.None? ==> r.session.local.None?)
  }

  lemma {:induction false} RunsStayInLockStep(actions: seq<Action>)
    ensures LockStep(Run(actions))
  {
    if actions != [] { RunsStayInLockStep(actions[..|actions| - 1]); }
  }

  /** A borrower outside any SET LOCAL scope reads the org that was active at its checkout, whatever
      happened on the connection before and however it has committed or rolled back since. */
  lemma BorrowerSeesItsOrg(actions: seq<Action>)
    requires Run(actions).borrower.Some? && Run(actions).session.local.None?
    ensures Run(actions).session.Visible() == Run(actions).borrower.value
  {
    RunsStayInLockStep(actions);
  }

  /** The SET LOCAL scope ends with the transaction. */
  lemma LocalScopeEnds(actions: seq<Action>, end: Action)
    requires Run(actions).borrower.Some? && (end == Commit || end == Rollback)
    ensures Run(actions + [end]).session.Visible() == Run(actions).borrower.value
  {
    assert (actions + [end])[..|actions|] == actions;
    RunsStayInLockStep(actions);
  }

  // ---- refinement of stamping at every checkout --------------------------------------------

  /** The reference keeps no marker: each checkout that reaches its borrower stamps. */
  datatype Reference = Reference(session: Session, borrower: Option<Org>)

  function ReferenceStep(r: Reference, a: Action): Reference {
    match a
    case Connect => if r.borrower.None? then Reference(CLEAN, None) else r
    case Checkout(org, fault) =>
      if r.borrower.Some? then r
      else Reference(Stamped(r.session, org, fault), if fault == NoFault then Some(org) else None)
    case Return => if r.borrower.Some? then Reference(r.session.Rollback(), None) else r
    case _ => if r.borrower.Some? then r.(session := Borrowed(r.session, a)) else r
  }

  /** A skipped stamp cannot fail, so the reference stamps without fault there. */
  function ReferenceAction(r: Record, a: Action): Action {
    if a.Checkout? && r.marker == Some(a.org) then a.(fault := NoFault) else a
  }

  function ReferenceRun(actions: seq<Action>): Reference {
    if actions == [] then Reference(CLEAN, None)
    else
      var init := actions[..|actions| - 1];
      ReferenceStep(ReferenceRun(init), ReferenceAction(Run(init), actions[|actions| - 1]))
  }

  /** The cached implementation is indistinguishable from always stamping: same session, hence the
      same answer to every query, and the same borrower, after every run. */
  lemma {:induction false} CachedRefinesAlwaysStamping(actions: seq<Action>)
    ensures ReferenceRun(actions) == Reference(Run(actions).session, Run(actions).borrower)
  {
    if actions != [] {
      var init := actions[..|actions| - 1];
      CachedRefinesAlwaysStamping(init);
      RunsStayInLockStep(init);
    }
  }

  // ---- why the stamp commits ----------------------------------------------------------------

  /** The same listener with the commit left out of the stamp. */
  function UncommittedStep(r: Record, a: Action): Record {
    if a.Checkout? && r.borrower.None? && r.marker != Some(a.org) && a.fault == NoFault
    then Record(r.session.SetSession(a.org), Some(a.org), Some(a.org))
    else Step(r, a)
  }

  function UncommittedRun(actions: seq<Action>): Record {
    if actions == [] then NEW_RECORD
    else UncommittedStep(UncommittedRun(actions[..|actions| - 1]), actions[|actions| - 1])
  }

  /** Without the commit, the next borrower of the same tenant reads no tenant at all. */
  lemma StampMustCommit(org: Org)
    requires org != ""
    ensures var actions := [Checkout(org, NoFault), Rollback, Return, Checkout(org, NoFault)];
            var r := UncommittedRun(actions);
            r.borrower == Some(org) && r.session.local.None? && r.session.Visible() == ""
  {
    var actions := [Checkout(org, NoFault), Rollback, Return, Checkout(org, NoFault)];
    assert actions[..3][..2] == actions[..2] && actions[..2][..1] == actions[..1] && actions[..1][..0] == [];
    assert UncommittedRun(actions[..1]) == Record(Session("", org, None), Some(org), Some(org));
    assert UncommittedRun(actions[..2]) == Record(CLEAN, Some(org), Some(org));
    assert UncommittedRun(actions[..3]) == Record(CLEAN, Some(org), None);
  }

  /** In that variant: step `i` is a checkout that stamps. */
  predicate StampsAt(actions: seq<Action>, i: nat)
    requires i < |actions|
  {
    var r := UncommittedRun(actions[..i]);
    actions[i].Checkout? && r.borrower.None? && r.marker != Some(actions[i].org) && actions[i].fault == NoFault
  }

  /** Step `i` ends the borrower's transaction by a commit, or by undoing it. */
  predicate CommitsAt(actions: seq<Action>, i: nat)
    requires i < |actions|
  {
    actions[i] == Commit && UncommittedRun(actions[..i]).borrower.Some?
  }

  predicate UndoesAt(actions: seq<Action>, i: nat)
    requires i < |actions|
  {
    (actions[i] == Rollback || actions[i] == Return) && UncommittedRun(actions[..i]).borrower.Some?
  }

  /** The stamp at `s` is the last one, on the same connection. */
  predicate LastStamp(actions: seq<Action>, s: nat) {
    && s < |actions| && StampsAt(actions, s)
    && forall i :: s < i < |actions| ==> !StampsAt(actions, i) && actions[i] != Connect
  }

  predicate CommittedSince(actions: seq<Action>, s: nat, n: nat)
    requires n <= |actions|
  {
    exists i :: s < i < n && CommitsAt(actions, i)
  }

  /** It was undone before it was ever committed. */
  predicate Undone(actions: seq<Action>, s: nat) {
    exists i :: s < i < |actions| && UndoesAt(actions, i) && !CommittedSince(actions, s, i)
  }

  /** A shorter run looks the same at each of its steps. */
  lemma PrefixAt(actions: seq<Action>, n: nat, i: nat)
    requires i < n <= |actions|
    ensures StampsAt(actions[..n], i) <==> StampsAt(actions, i)
    ensures CommitsAt(actions[..n], i) <==> CommitsAt(actions, i)
    ensures UndoesAt(actions[..n], i) <==> UndoesAt(actions, i)
  {
    assert actions[..n][..i] == actions[..i];
  }

  lemma PrefixCommitted(actions: seq<Action>, n: nat, s: nat, k: nat)
    requires k <= n <= |actions|
    ensures CommittedSince(actions[..n], s, k) <==> CommittedSince(actions, s, k)
  {
    forall i: nat | i < k ensures CommitsAt(actions[..n], i) <==> CommitsAt(actions, i) { PrefixAt(actions, n, i); }
  }

  lemma PrefixUndone(actions: seq<Action>, s: nat)
    requires actions != []
    ensures var n := |actions| - 1;
            Undone(actions, s) <==>
            Undone(actions[..n], s) || (s < n && UndoesAt(actions, n) && !CommittedSince(actions, s, n))
  {
    var n := |actions| - 1;
    forall i: nat | i < n
      ensures UndoesAt(actions[..n], i) && !CommittedSince(actions[..n], s, i) <==>
              UndoesAt(actions, i) && !CommittedSince(actions, s, i)
    {
      PrefixAt(actions, n, i);
      PrefixCommitted(actions, n, s, i);
    }
  }

  lemma PrefixStamp(actions: seq<Action>, s: nat)
    requires LastStamp(actions, s) && s < |actions| - 1
    ensures var init := actions[..|actions| - 1]; var n := |init|;
            && LastStamp(init, s)
            && (Undone(actions, s) <==> Undone(init, s) || (UndoesAt(actions, n) && !CommittedSince(init, s, n)))
            && (CommittedSince(actions, s, n + 1) <==> CommittedSince(init, s, n) || CommitsAt(actions, n))
  {
    var n := |actions| - 1;
    PrefixUndone(actions, s);
    PrefixCommitted(actions, n, s, n);
    forall i: nat | i < n ensures StampsAt(actions[..n], i) <==> StampsAt(actions, i) { PrefixAt(actions, n, i); }
  }

  /** Where the session stands after the last stamp: before it was settled, or settled one way or the
      other. */
  lemma {:induction false} AfterLastStamp(actions: seq<Action>, s: nat)
    requires LastStamp(actions, s)
    ensures var r := UncommittedRun(actions); var org := actions[s].org;
            var prior := UncommittedRun(actions[..s]).session.committed;
            && r.marker == Some(org) && (r.borrower.Some? ==> r.borrower == Some(org))
            && r.session.current == (if Undone(actions, s) then prior else org)
            && r.session.committed == (if Undone(actions, s) || !CommittedSince(actions, s, |actions|) then prior
                else org)
            && (!Undone(actions, s) && !CommittedSince(actions, s, |actions|) ==> r.borrower.Some?)
            && (Undone(actions, s) && prior != org ==> r.session.committed == prior)
    decreases |actions|
  {
    var n := |actions| - 1;
    if s < n {
      PrefixStamp(actions, s);
      AfterLastStamp(actions[..n], s);
      assert actions[..n][..s] == actions[..s];
      assert !StampsAt(actions, n) && actions[n] != Connect;
    }
  }

  /** Without the commit in the stamp, a borrower outside any SET LOCAL scope loses its org exactly when
      the last stamp was undone, by a rollback or a return with no commit before it, and the connection
      had another org committed. */
  lemma UncommittedStampIsLostIff(actions: seq<Action>, s: nat)
    requires LastStamp(actions, s)
    requires UncommittedRun(actions).borrower.Some? && UncommittedRun(actions).session.local.None?
    ensures UncommittedRun(actions).session.Visible() != UncommittedRun(actions).borrower.value <==>
            Undone(actions, s) && UncommittedRun(actions[..s]).session.committed != actions[s].org
  {
    AfterLastStamp(actions, s);
  }
}
