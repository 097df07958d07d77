/** All interleavings of the ingestion protocol: scheduler ticks, workers, file drops, deadline
    edits and administrators, each a sequence of steps that others may come between.

    A statement whose WHERE clause does not match does nothing, so a step is a total function.
    Values a caller read earlier and that may be stale by now are simply free parameters. */
module IngestionRuns {
  import opened Common
  import opened IngestionTables

  /** A tick inside `_finalize_completed_rfps`.  While scanning, its transaction has selected
      candidates, found some to have passed the job count, and holds the row lock of each RFP it
      has flipped (`winners`); after the commit it emits the events of its winners one by one. */
  datatype Tick =
    | Scanning(candidates: set<RfpId>, passed: set<RfpId>, winners: seq<RfpId>)
    | Emitting(winners: seq<RfpId>)

  /** An open transaction of `_queue_received_jobs`: the RFPs whose jobs it has updated so far, the jobs
      it found received and holds the row lock of, and those it found locked by another such
      transaction and has to wait for.  Until it commits everybody else reads the old statuses. */
  datatype Sweep = Sweep(swept: set<RfpId>, moved: set<JobId>, waits: set<JobId>)

  /** `locks` maps an RFP flipped by an uncommitted transaction to its tick: until that commits,
      everybody else reads the old status and waits to write.  `claimed` are the jobs a worker
      holds, `sweeps` the open queueing transactions. */
  datatype World = World(now: int, db: Db, ticks: seq<Tick>, locks: map<RfpId, nat>, claimed: set<JobId>,
                         sweeps: map<nat, Sweep>)

  const INIT := World(0, EMPTY, [], map[], {}, map[])

  datatype Action =
    | Elapse(dt: nat)
    | Create(r: RfpId, deadline: Option<int>, mode: Mode)
    | Invite(r: RfpId, v: Vendor)
    | MoveDeadline(r: RfpId, deadline: Option<int>)
    | CloseAll
    | QueueJobs(q: nat, r: RfpId)     // r was closed and not manual when the transaction selected it
    | CommitQueue(q: nat)
    | AbortQueue(q: nat)
    | Claim(j: JobId)
    | Finish(j: JobId, ok: bool)
    | Begin                           // a tick selects its candidates
    | Count(t: nat, r: RfpId)
    | Flip(t: nat, r: RfpId)
    | Commit(t: nat)
    | Abort(t: nat)
    | Emit(t: nat)
    | Drop(r: RfpId, vendor: Option<Vendor>, h: Hash)
    | AssignVendor(j: JobId, v: Vendor, inviteIfMissing: bool)
    | Accept(j: JobId)
    // the separate transactions of a drop and of an assignment, after stale reads
    | InsertJob(r: RfpId, v: Vendor, h: Hash, s: JobStatus)
    | Supersede(r: RfpId, v: Vendor, newJob: JobId)
    | WriteAssignment(j: JobId, v: Vendor, s: JobStatus)

  predicate IsScanning(w: World, t: nat) {
    t < |w.ticks| && w.ticks[t].Scanning?
  }

  function FlipOne(w: World, t: nat, r: RfpId): World
    requires IsScanning(w, t)
  {
    w.(ticks := w.ticks[t := w.ticks[t].(winners := w.ticks[t].winners + [r])], locks := w.locks[r := t])
  }

  function CommitFlips(w: World, t: nat): World
    requires IsScanning(w, t)
  {
    w.(db := w.db.(rfps := map r | r in w.db.rfps ::
         if r in w.locks && w.locks[r] == t then w.db.rfps[r].(status := FactsReady) else w.db.rfps[r]),
       ticks := w.ticks[t := Emitting(w.ticks[t].winners)],
       locks := map r | r in w.locks && w.locks[r] != t :: w.locks[r])
  }

  function EmitOne(w: World, t: nat): World
    requires t < |w.ticks| && w.ticks[t].Emitting? && w.ticks[t].winners != []
  {
    var r := w.ticks[t].winners[0];
    var mode := if r in w.db.rfps then w.db.rfps[r].mode else AutoToEvaluate;
    w.(db := w.db.(events := w.db.events + multiset{EventFor(r, mode)}),
       ticks := w.ticks[t := Emitting(w.ticks[t].winners[1..])])
  }

  /** A queueing transaction other than `q` holds the job's row. */
  predicate HeldByOther(w: World, q: nat, j: JobId) {
    exists p :: p in w.sweeps && p != q && j in w.sweeps[p].moved
  }

  predicate Held(w: World, j: JobId) {
    exists p :: p in w.sweeps && j in w.sweeps[p].moved
  }

  function SweepOf(w: World, q: nat): Sweep {
    if q in w.sweeps then w.sweeps[q] else Sweep({}, {}, {})
  }

  /** The UPDATE of the received jobs of `r`, in transaction `q`. */
  function SweepOne(w: World, q: nat, r: RfpId): Sweep {
    var tx := SweepOf(w, q);
    if r in tx.swept then tx
    else
      var found := set j | j in w.db.jobs && w.db.jobs[j].rfp == r && w.db.jobs[j].status == Received;
      Sweep(tx.swept + {r}, tx.moved + (set j | j in found && !Held(w, j)), tx.waits + (set j | j in found &&
          HeldByOther(w, q, j)))
  }

  /** The transaction waits for nobody. */
  predicate CanCommit(w: World, q: nat) {
    q in w.sweeps && forall j :: j in w.sweeps[q].waits ==> !HeldByOther(w, q, j)
  }

  /** The jobs that transaction `q` leaves queued: those it holds, and those it waited for that are still
      received because their holder rolled back. */
  predicate Queues(w: World, q: nat, j: JobId) {
    q in w.sweeps && (j in w.sweeps[q].moved || j in w.sweeps[q].waits)
  }

  /** The commit shows the jobs as queued and the RFPs that were still closed as processing. */
  function CommitSweep(w: World, q: nat): World
    requires q in w.sweeps
  {
    w.(db := w.db.(
         jobs := map j | j in w.db.jobs ::
                   if Queues(w, q, j) && w.db.jobs[j].status == Received then w.db.jobs[j].(status := Queued)
                       else w.db.jobs[j],
         rfps := map r | r in w.db.rfps ::
                   if r in w.sweeps[q].swept && w.db.rfps[r].status == Closed then w.db.rfps[r].(status := Processing)
                   else w.db.rfps[r]),
       sweeps := w.sweeps - {q})
  }

  /** Superseding while queueing transactions are open: a row one of them holds is queued once its lock
      is free, and then no longer matches. */
  function SupersedeFree(w: World, r: RfpId, v: Vendor, newJob: JobId): Db {
    w.db.(jobs := map j | j in w.db.jobs ::
            var job := w.db.jobs[j];
            if job.rfp == r && job.vendor == v && job.status == Received && j != newJob && !Held(w, j)
            then job.(status := Superseded, supersededBy := Some(newJob)) else job)
  }

  function Next(w: World, a: Action): World {
    match a
    case Elapse(dt) => w.(now := w.now + dt)
    case Create(r, deadline, mode) => w.(db := CreateRfp(w.db, r, deadline, mode))
    case Invite(r, v) => w.(db := InviteVendor(w.db, r, v))
    case MoveDeadline(r, deadline) => w.(db := SetDeadline(w.db, r, deadline))
    case CloseAll => w.(db := CloseExpired(w.db, w.now))
    case QueueJobs(q, r) =>
      if r in w.db.rfps && w.db.rfps[r].status != Open && w.db.rfps[r].mode != Manual
      then w.(sweeps := w.sweeps[q := SweepOne(w, q, r)]) else w
    case CommitQueue(q) => if CanCommit(w, q) then CommitSweep(w, q) else w
    case AbortQueue(q) => w.(sweeps := w.sweeps - {q})
    case Claim(j) =>
      if j in w.db.jobs && w.db.jobs[j].status == Queued
      then w.(db := SetJobStatus(w.db, j, Queued, Running), claimed := w.claimed + {j}) else w
    case Finish(j, ok) =>
      if j in w.claimed && j in w.db.jobs
      then w.(db := w.db.(jobs := w.db.jobs[j := w.db.jobs[j].(status := if ok then Ready else Failed)]),
              claimed := w.claimed - {j})
      else w
    case Begin =>
      w.(ticks := w.ticks + [Scanning(set r | r in w.db.rfps && w.db.rfps[r].status == Processing, {}, [])])
    case Count(t, r) =>
      if IsScanning(w, t) && r in w.ticks[t].candidates && !HasOpenJob(w.db, r) && HasReadyJob(w.db, r)
      then w.(ticks := w.ticks[t := w.ticks[t].(passed := w.ticks[t].passed + {r})]) else w
    case Flip(t, r) =>
      if IsScanning(w, t) && r in w.ticks[t].passed && r !in w.locks && HasStatus(w.db, r, Processing)
      then FlipOne(w, t, r) else w
    case Commit(t) => if IsScanning(w, t) then CommitFlips(w, t) else w
    case Abort(t) =>
      if IsScanning(w, t)
      then w.(ticks := w.ticks[t := Emitting([])], locks := map r | r in w.locks && w.locks[r] != t :: w.locks[r])
      else w
    case Emit(t) =>
      if t < |w.ticks| && w.ticks[t].Emitting? && w.ticks[t].winners != [] then EmitOne(w, t) else w
    case Drop(r, vendor, h) => w.(db := HandleDrop(w.db, w.now, r, vendor, h).0)
    case AssignVendor(j, v, inviteIfMissing) => w.(db := Assign(w.db, j, v, inviteIfMissing).0)
    case Accept(j) => w.(db := AcceptLate(w.db, j))
    case InsertJob(r, v, h, s) =>
      if s == Received || s == NeedsAttribution || s == RejectedLate
      then w.(db := Enqueue(w.db, r, v, h, s).0) else w
    case Supersede(r, v, newJob) =>
      if newJob in w.db.jobs && w.db.jobs[newJob].rfp == r && w.db.jobs[newJob].vendor == v
      then w.(db := SupersedeFree(w, r, v, newJob)) else w
    case WriteAssignment(j, v, s) =>
      if s == Received || s == Queued then w.(db := AssignWrite(w.db, j, v, s).0) else w
  }

  function Run(actions: seq<Action>): World {
    if actions == [] then INIT else Next(Run(actions[..|actions| - 1]), actions[|actions| - 1])
  }

  // ---- exactly one event ---------------------------------------------------------------------

  function Occurrences(s: seq<RfpId>, r: RfpId): nat {
    multiset(s)[r]
  }

  /** How many entries for `r` wait in committed ticks to be emitted. */
  function Pending(ticks: seq<Tick>, r: RfpId): nat {
    if ticks == [] then 0
    else
      var last := ticks[|ticks| - 1];
      Pending(ticks[..|ticks| - 1], r) + if last.Emitting? then Occurrences(last.winners, r) else 0
  }

  function Waiting(t: Tick, r: RfpId): nat {
    if t.Emitting? then Occurrences(t.winners, r) else 0
  }

  lemma {:induction false} PendingUpdate(ticks: seq<Tick>, t: nat, p: Tick, r: RfpId)
    requires t < |ticks|
    ensures Pending(ticks[t := p], r) + Waiting(ticks[t], r) == Pending(ticks, r) + Waiting(p, r)
  {
    var n := |ticks| - 1;
    if t == n {
      assert ticks[t := p][..n] == ticks[..n];
    } else {
      PendingUpdate(ticks[..n], t, p, r);
      assert ticks[t := p][..n] == ticks[..n][t := p];
    }
  }

  lemma {:induction false} OneOfPending(ticks: seq<Tick>, t: nat, r: RfpId)
    requires t < |ticks|
    ensures Waiting(ticks[t], r) <= Pending(ticks, r)
  {
    if t < |ticks| - 1 { OneOfPending(ticks[..|ticks| - 1], t, r); }
  }

  /** Events logged plus entries pending make one exactly for the flipped RFPs. */
  ghost predicate EventsAccounted(w: World) {
    forall r :: EventCount(w.db, r) + Pending(w.ticks, r) == if HasStatus(w.db, r, FactsReady) then 1 else 0
  }

  /** A lock is held by a scanning tick, on an RFP others still see in processing. */
  predicate LocksHeld(w: World) {
    forall r :: r in w.locks ==> IsScanning(w, w.locks[r]) && HasStatus(w.db, r, Processing)
  }

  /** An uncommitted winner is listed once, by the tick that holds its lock. */
  ghost predicate WinnersLocked(w: World) {
    forall t: nat, r :: IsScanning(w, t) ==>
      Occurrences(w.ticks[t].winners, r) == if r in w.locks && w.locks[r] == t then 1 else 0
  }

  ghost predicate Accounted(w: World) {
    EventsAccounted(w) && LocksHeld(w) && WinnersLocked(w)
  }

  /** What any step other than those of the finalisation does to the tables' relevant part. */
  lemma OtherStepsLeaveFinalisationAlone(w: World, a: Action)
    requires !(a.Begin? || a.Count? || a.Flip? || a.Commit? || a.Abort? || a.Emit?)
    ensures var w' := Next(w, a);
            && w'.ticks == w.ticks && w'.locks == w.locks && w'.db.events == w.db.events
            && (forall r :: HasStatus(w'.db, r, FactsReady) <==> HasStatus(w.db, r, FactsReady))
            && (forall r :: HasStatus(w.db, r, Processing) ==> HasStatus(w'.db, r, Processing))
  {
    forall r
      ensures HasStatus(Next(w, a).db, r, FactsReady) <==> HasStatus(w.db, r, FactsReady)
      ensures HasStatus(w.db, r, Processing) ==> HasStatus(Next(w, a).db, r, Processing)
    {
      OtherStepsLeaveStatusAlone(w, a, r);
    }
  }

  lemma OtherStepsLeaveStatusAlone(w: World, a: Action, r: RfpId)
    requires !(a.Begin? || a.Count? || a.Flip? || a.Commit? || a.Abort? || a.Emit?)
    ensures HasStatus(Next(w, a).db, r, FactsReady) <==> HasStatus(w.db, r, FactsReady)
    ensures HasStatus(w.db, r, Processing) ==> HasStatus(Next(w, a).db, r, Processing)
  {
  }

  lemma OtherStepsKeepAccounts(w: World, a: Action)
    requires Accounted(w)
    requires !(a.Begin? || a.Count? || a.Flip? || a.Commit? || a.Abort? || a.Emit?)
    ensures Accounted(Next(w, a))
  {
    OtherStepsLeaveFinalisationAlone(w, a);
    var w' := Next(w, a);
    assert forall r :: EventCount(w'.db, r) == EventCount(w.db, r);
    assert forall t: nat :: IsScanning(w', t) <==> IsScanning(w, t);
  }

  lemma FlipKeepsWinnersLocked(w: World, t: nat, r: RfpId)
    requires WinnersLocked(w) && IsScanning(w, t) && r !in w.locks
    ensures WinnersLocked(FlipOne(w, t, r))
  {
    var w' := FlipOne(w, t, r);
    forall u: nat, q | IsScanning(w', u)
      ensures Occurrences(w'.ticks[u].winners, q) == if q in w'.locks && w'.locks[q] == u then 1 else 0
    {
      assert IsScanning(w, u);
      if u == t { assert multiset(w'.ticks[t].winners) == multiset(w.ticks[t].winners) + multiset{r}; }
    }
  }

  lemma FlipKeepsAccounts(w: World, t: nat, r: RfpId)
    requires Accounted(w)
    requires IsScanning(w, t) && r !in w.locks && HasStatus(w.db, r, Processing)
    ensures Accounted(FlipOne(w, t, r))
  {
    var w' := FlipOne(w, t, r);
    FlipKeepsWinnersLocked(w, t, r);
    assert EventsAccounted(w') by {
      forall q ensures Pending(w'.ticks, q) == Pending(w.ticks, q) { PendingUpdate(w.ticks, t, w'.ticks[t], q); }
    }
    assert LocksHeld(w') by {
      forall q | q in w'.locks ensures IsScanning(w', w'.locks[q]) && HasStatus(w'.db, q, Processing) {
        if q != r { assert IsScanning(w, w.locks[q]); }
      }
    }
  }

  lemma CommitKeepsAccounts(w: World, t: nat)
    requires Accounted(w) && IsScanning(w, t)
    ensures Accounted(CommitFlips(w, t))
  {
    var w' := CommitFlips(w, t);
    forall r
      ensures EventCount(w'.db, r) + Pending(w'.ticks, r) == if HasStatus(w'.db, r, FactsReady) then 1 else 0
    {
      PendingUpdate(w.ticks, t, w'.ticks[t], r);
      assert Occurrences(w.ticks[t].winners, r) == if r in w.locks && w.locks[r] == t then 1 else 0;
    }
  }

  lemma AbortKeepsAccounts(w: World, t: nat)
    requires Accounted(w)
    ensures Accounted(Next(w, Abort(t)))
  {
    var w' := Next(w, Abort(t));
    if IsScanning(w, t) {
      forall r ensures Pending(w'.ticks, r) == Pending(w.ticks, r) { PendingUpdate(w.ticks, t, w'.ticks[t], r); }
    }
  }

  lemma EmitKeepsAccounts(w: World, t: nat)
    requires Accounted(w)
    requires t < |w.ticks| && w.ticks[t].Emitting? && w.ticks[t].winners != []
    ensures Accounted(EmitOne(w, t))
  {
    var w' := EmitOne(w, t);
    var winners := w.ticks[t].winners;
    assert winners == [winners[0]] + winners[1..];
    forall r
      ensures EventCount(w'.db, r) + Pending(w'.ticks, r) == if HasStatus(w'.db, r, FactsReady) then 1 else 0
    {
      PendingUpdate(w.ticks, t, w'.ticks[t], r);
      assert Occurrences(winners, r) == Occurrences(winners[1..], r) + if r == winners[0] then 1 else 0;
    }
  }

  lemma BeginKeepsAccounts(w: World)
    requires Accounted(w)
    ensures Accounted(Next(w, Begin))
  {
    var w' := Next(w, Begin);
    assert w'.ticks[..|w.ticks|] == w.ticks;
    forall t: nat, r | IsScanning(w', t)
      ensures Occurrences(w'.ticks[t].winners, r) == if r in w'.locks && w'.locks[r] == t then 1 else 0
    {
      if t < |w.ticks| { assert IsScanning(w, t); }
    }
  }

  lemma CountKeepsAccounts(w: World, t: nat, r: RfpId)
    requires Accounted(w)
    ensures Accounted(Next(w, Count(t, r)))
  {
    var w' := Next(w, Count(t, r));
    if w' != w {
      forall q ensures Pending(w'.ticks, q) == Pending(w.ticks, q) { PendingUpdate(w.ticks, t, w'.ticks[t], q); }
    }
  }

  lemma StepKeepsAccounts(w: World, a: Action)
    requires Accounted(w)
    ensures Accounted(Next(w, a))
  {
    match a
    case Begin => BeginKeepsAccounts(w);
    case Count(t, r) => CountKeepsAccounts(w, t, r);
    case Flip(t, r) => if Next(w, a) != w { FlipKeepsAccounts(w, t, r); }
    case Commit(t) => if IsScanning(w, t) { CommitKeepsAccounts(w, t); }
    case Abort(t) => AbortKeepsAccounts(w, t);
    case Emit(t) => if t < |w.ticks| && w.ticks[t].Emitting? && w.ticks[t].winners != [] { EmitKeepsAccounts(w, t); }
    case _ => OtherStepsKeepAccounts(w, a);
  }

  /** Over every interleaving: the events logged for an RFP plus the entries pending in all ticks
      make one if it has been flipped to facts_ready, and none otherwise. */
  lemma {:induction false} ExactlyOnce(actions: seq<Action>)
    ensures Accounted(Run(actions))
  {
    if actions != [] {
      ExactlyOnce(actions[..|actions| - 1]);
      StepKeepsAccounts(Run(actions[..|actions| - 1]), actions[|actions| - 1]);
    }
  }

  /** Never two events for one RFP, of whatever type. */
  lemma AtMostOneEvent(actions: seq<Action>, r: RfpId)
    ensures EventCount(Run(actions).db, r) <= 1
  {
    ExactlyOnce(actions);
  }

  /** A committed tick emits its next winner's event, and that is then the only one. */
  lemma WinnerEmitsOnce(actions: seq<Action>, t: nat)
    requires var w := Run(actions); t < |w.ticks| && w.ticks[t].Emitting? && w.ticks[t].winners != []
    ensures var r := Run(actions).ticks[t].winners[0];
            && EventCount(Run(actions).db, r) == 0
            && EventCount(Run(actions + [Emit(t)]).db, r) == 1
            && Pending(Run(actions + [Emit(t)]).ticks, r) == 0
  {
    var w := Run(actions);
    var r := w.ticks[t].winners[0];
    ExactlyOnce(actions);
    OneOfPending(w.ticks, t, r);
    assert w.ticks[t].winners[0] in multiset(w.ticks[t].winners);
    assert (actions + [Emit(t)])[..|actions|] == actions;
    ExactlyOnce(actions + [Emit(t)]);
  }

  /** When no tick has anything left to emit, exactly the flipped RFPs have their one event. */
  lemma QuiescentMeansDelivered(actions: seq<Action>, r: RfpId)
    requires forall t :: 0 <= t < |Run(actions).ticks| && Run(actions).ticks[t].Emitting? ==>
        Run(actions).ticks[t].winners == []
    ensures EventCount(Run(actions).db, r) == if HasStatus(Run(actions).db, r, FactsReady) then 1 else 0
  {
    ExactlyOnce(actions);
    NothingPending(Run(actions).ticks, r);
  }

  lemma {:induction false} NothingPending(ticks: seq<Tick>, r: RfpId)
    requires forall t :: 0 <= t < |ticks| && ticks[t].Emitting? ==> ticks[t].winners == []
    ensures Pending(ticks, r) == 0
  {
    if ticks != [] { NothingPending(ticks[..|ticks| - 1], r); }
  }
}
