/** Received jobs that their RFP moves on without.  A drop reads the RFP and inserts the job in separate
    transactions; `_queue_received_jobs` updates the jobs of every closed RFP and then the RFPs in one
    transaction, which others see only once it commits. */
module LateJobs {
  import opened Common
  import opened IngestionTables
  import opened IngestionRuns
  import opened IngestionLifecycle

  /** A received job whose RFP is neither open nor closed. */
  predicate LeftBehind(db: Db, j: JobId) {
    j in db.jobs && db.jobs[j].status == Received &&
    !(HasStatus(db, db.jobs[j].rfp, Open) || HasStatus(db, db.jobs[j].rfp, Closed))
  }

  /** Transaction `q` has been past the jobs of this job's RFP without seeing it. */
  predicate PassedOver(w: World, q: nat, j: JobId) {
    q in w.sweeps && j in w.db.jobs && w.db.jobs[j].status == Received && w.db.jobs[j].rfp in w.sweeps[q].swept &&
        !Queues(w, q, j)
  }

  /** Left behind now, or as soon as an open transaction commits. */
  ghost predicate Missed(w: World, j: JobId) {
    LeftBehind(w.db, j) || exists q :: PassedOver(w, q, j)
  }

  ghost predicate NoneMissed(w: World) {
    forall j :: !Missed(w, j)
  }

  /** Committing the transaction leaves behind every job it passed over. */
  lemma PassedOverIsLeftBehind(w: World, q: nat, j: JobId)
    requires JobsSound(w) && PassedOver(w, q, j) && CanCommit(w, q)
    ensures LeftBehind(Next(w, CommitQueue(q)).db, j)
  {
    assert SweepSound(w, w.sweeps[q]);
  }

  // ---- the guard ---------------------------------------------------------------------------------

  predicate Swept(w: World, r: RfpId) {
    exists q :: q in w.sweeps && r in w.sweeps[q].swept
  }

  /** The RFP can still take a received job: it is open, or closed and no open transaction has been past
      its jobs. */
  predicate TakesReceived(w: World, r: RfpId) {
    HasStatus(w.db, r, Open) || (HasStatus(w.db, r, Closed) && !Swept(w, r))
  }

  predicate AssignmentWrites(db: Db, j: JobId, v: Vendor) {
    && j in db.jobs && db.jobs[j].status == NeedsAttribution
    && !(db.jobs[j].vendor != v && KeyTaken(db, db.jobs[j].rfp, v, db.jobs[j].content))
  }

  /** The two writes that make a job received change nothing, or find their RFP able to take it. */
  predicate Guarded(w: World, a: Action) {
    match a
    case InsertJob(r, v, h, s) => s == Received ==> KeyTaken(w.db, r, v, h) || TakesReceived(w, r)
    case WriteAssignment(j, v, s) => s == Received && AssignmentWrites(w.db, j, v) ==>
        TakesReceived(w, w.db.jobs[j].rfp)
    case _ => true
  }

  lemma OpenIsNotSwept(w: World, r: RfpId)
    requires JobsSound(w) && HasStatus(w.db, r, Open)
    ensures !Swept(w, r)
  {
    forall q | q in w.sweeps ensures r !in w.sweeps[q].swept { assert SweepSound(w, w.sweeps[q]); }
  }

  lemma NewJobIsUnknown(w: World, q: nat)
    requires JobsSound(w) && q in w.sweeps
    ensures !Queues(w, q, w.db.nextJob)
  {
    assert SweepSound(w, w.sweeps[q]);
  }

  /** Whether a job that has just become received is missed depends on its RFP alone. */
  lemma FreshReceived(w: World, j: JobId)
    requires j in w.db.jobs && w.db.jobs[j].status == Received && forall q :: q in w.sweeps ==> !Queues(w, q, j)
    requires forall r, q :: HasStatus(w.db, r, Open) && q in w.sweeps ==> r !in w.sweeps[q].swept
    ensures Missed(w, j) <==> !TakesReceived(w, w.db.jobs[j].rfp)
  {
    var r := w.db.jobs[j].rfp;
    if q :| q in w.sweeps && r in w.sweeps[q].swept { assert PassedOver(w, q, j); }
  }

  lemma OtherJobsAsBefore(w: World, w': World, j: JobId)
    requires w'.sweeps == w.sweeps && w'.db.rfps == w.db.rfps
    requires j in w.db.jobs <==> j in w'.db.jobs
    requires j in w.db.jobs ==> w'.db.jobs[j] == w.db.jobs[j]
    ensures Missed(w', j) <==> Missed(w, j)
  {
    forall q ensures PassedOver(w', q, j) <==> PassedOver(w, q, j) { assert Queues(w', q, j) <==> Queues(w, q, j); }
  }

  lemma OpenNeverSwept(w: World)
    requires JobsSound(w)
    ensures forall r, q :: HasStatus(w.db, r, Open) && q in w.sweeps ==> r !in w.sweeps[q].swept
  {
    forall r, q | HasStatus(w.db, r, Open) && q in w.sweeps ensures r !in w.sweeps[q].swept { OpenIsNotSwept(w, r); }
  }

  lemma InsertMissesIff(w: World, r: RfpId, v: Vendor, h: Hash)
    requires JobsSound(w) && NoneMissed(w)
    ensures NoneMissed(Next(w, InsertJob(r, v, h, Received))) <==> KeyTaken(w.db, r, v, h) || TakesReceived(w, r)
  {
    var w' := Next(w, InsertJob(r, v, h, Received));
    if !KeyTaken(w.db, r, v, h) {
      var n := w.db.nextJob;
      OpenNeverSwept(w);
      forall q | q in w.sweeps ensures !Queues(w', q, n) { NewJobIsUnknown(w, q); }
      FreshReceived(w', n);
      assert TakesReceived(w', r) <==> TakesReceived(w, r);
      forall j | j != n ensures !Missed(w', j) { OtherJobsAsBefore(w, w', j); }
    }
  }

  lemma AssignmentMissesIff(w: World, j: JobId, v: Vendor)
    requires JobsSound(w) && NoneMissed(w)
    ensures NoneMissed(Next(w, WriteAssignment(j, v, Received))) <==> Guarded(w, WriteAssignment(j, v, Received))
  {
    var w' := Next(w, WriteAssignment(j, v, Received));
    if AssignmentWrites(w.db, j, v) {
      OpenNeverSwept(w);
      forall q | q in w.sweeps ensures !Queues(w', q, j) { assert SweepSound(w, w.sweeps[q]); }
      FreshReceived(w', j);
      assert TakesReceived(w', w.db.jobs[j].rfp) <==> TakesReceived(w, w.db.jobs[j].rfp);
      forall k | k != j ensures !Missed(w', k) { OtherJobsAsBefore(w, w', k); }
    } else {
      assert w'.db == w.db;
      forall k ensures !Missed(w', k) { OtherJobsAsBefore(w, w', k); }
    }
  }

  // ---- steps that cannot leave a job behind ----------------------------------------------------------

  /** The two guarded writes. */
  predicate MakesReceived(a: Action) {
    (a.InsertJob? || a.WriteAssignment?) && a.s == Received
  }

  lemma NewRowIsDropped(w: World, a: Action, j: JobId)
    requires JobsSound(w) && !MakesReceived(a) && j !in w.db.jobs
    requires j in Next(w, a).db.jobs && Next(w, a).db.jobs[j].status == Received
    ensures a.Drop? && HasStatus(w.db, Next(w, a).db.jobs[j].rfp, Open)
  {
    if !Inserts(a) { OtherRowsOnly(w, a); }
  }

  lemma OtherRowsOnly(w: World, a: Action)
    requires !Inserts(a)
    ensures Next(w, a).db.jobs.Keys == w.db.jobs.Keys
  {
    if !a.AssignVendor? && !a.WriteAssignment? { OtherStepsAddNoRow(w, a); }
  }

  lemma BecomesReceived(w: World, a: Action, j: JobId)
    requires !MakesReceived(a) && j in w.db.jobs && w.db.jobs[j].status == NeedsAttribution
    requires !Inserts(a) && (j in w.claimed ==> w.db.jobs[j].status == Running)
    requires j in Next(w, a).db.jobs && Next(w, a).db.jobs[j].status == Received
    ensures HasStatus(w.db, w.db.jobs[j].rfp, Open)
  {
  }

  lemma InsertsMakeNoneReceived(w: World, a: Action, j: JobId)
    requires JobsSound(w) && Inserts(a) && j in w.db.jobs && w.db.jobs[j].status != Received
    ensures j in Next(w, a).db.jobs && Next(w, a).db.jobs[j].status != Received
  {
  }

  lemma ReceivedBefore(w: World, a: Action, j: JobId)
    requires JobsSound(w) && !MakesReceived(a)
    requires j in Next(w, a).db.jobs && Next(w, a).db.jobs[j].status == Received
    ensures (j in w.db.jobs && w.db.jobs[j].status == Received && w.db.jobs[j].rfp == Next(w, a).db.jobs[j].rfp) ||
            HasStatus(w.db, Next(w, a).db.jobs[j].rfp, Open)
  {
    if j in w.db.jobs {
      StepMovesJobs(w, a);
      assert JobMove(w.db.jobs[j], Next(w, a).db.jobs[j]);
      if w.db.jobs[j].status != Received {
        if Inserts(a) { InsertsMakeNoneReceived(w, a, j); } else { BecomesReceived(w, a, j); }
      }
    } else {
      NewRowIsDropped(w, a, j);
    }
  }

  /** Only the commit of a queueing transaction moves a closed RFP on. */
  lemma StaysTaken(w: World, a: Action, r: RfpId)
    requires LocksHeld(w) && (HasStatus(w.db, r, Open) || HasStatus(w.db, r, Closed))
    requires !a.CommitQueue?
    ensures HasStatus(Next(w, a).db, r, Open) || HasStatus(Next(w, a).db, r, Closed)
    ensures HasStatus(w.db, r, Open) && !a.CloseAll? ==> HasStatus(Next(w, a).db, r, Open)
  {
  }

  lemma SweptJobIsSeen(w: World, q: nat, r: RfpId, j: JobId)
    requires j in w.db.jobs && w.db.jobs[j].status == Received && w.db.jobs[j].rfp == r && r !in SweepOf(w, q).swept
    ensures j in SweepOne(w, q, r).moved || j in SweepOne(w, q, r).waits
  {
    if Held(w, j) && !HeldByOther(w, q, j) {
      assert q in w.sweeps && j in w.sweeps[q].moved;
      assert j in SweepOne(w, q, r).moved;
    }
  }

  lemma StepPassesNoneOver(w: World, a: Action, q: nat, j: JobId)
    requires JobsSound(w) && NoneMissed(w) && !MakesReceived(a)
    ensures !PassedOver(Next(w, a), q, j)
  {
    var w' := Next(w, a);
    assert !Missed(w, j);
    assert !PassedOver(w, q, j);
    if PassedOver(w', q, j) {
      ReceivedBefore(w, a, j);
      SweepsStayPut(w, a, q);
      var r := w'.db.jobs[j].rfp;
      if HasStatus(w.db, r, Open) {
        OpenIsNotSwept(w, r);
      } else {
        SweptJobIsSeen(w, q, r, j);
      }
    }
  }

  lemma CommitLeavesWhatItSaw(w: World, q: nat, j: JobId)
    requires !LeftBehind(w.db, j) && !PassedOver(w, q, j)
    ensures !LeftBehind(Next(w, CommitQueue(q)).db, j)
  {
  }

  lemma StepLeavesNoneBehind(w: World, a: Action, j: JobId)
    requires JobsSound(w) && LocksHeld(w) && NoneMissed(w) && !MakesReceived(a)
    ensures !LeftBehind(Next(w, a).db, j)
  {
    var w' := Next(w, a);
    assert !Missed(w, j);
    if a.CommitQueue? {
      CommitLeavesWhatItSaw(w, a.q, j);
    } else if LeftBehind(w'.db, j) {
      ReceivedBefore(w, a, j);
      StaysTaken(w, a, w'.db.jobs[j].rfp);
    }
  }

  /** Whatever the step, no received job is missed exactly when the guard held. */
  lemma GuardIff(w: World, a: Action)
    requires LocksHeld(w) && JobsSound(w) && NoneMissed(w)
    ensures NoneMissed(Next(w, a)) <==> Guarded(w, a)
  {
    if a.InsertJob? && a.s == Received {
      InsertMissesIff(w, a.r, a.v, a.h);
    } else if a.WriteAssignment? && a.s == Received {
      AssignmentMissesIff(w, a.j, a.v);
    } else {
      forall j ensures !Missed(Next(w, a), j) {
        StepLeavesNoneBehind(w, a, j);
        forall q ensures !PassedOver(Next(w, a), q, j) { StepPassesNoneOver(w, a, q, j); }
      }
    }
  }

  // ---- runs ----------------------------------------------------------------------------------------

  predicate GuardedRun(actions: seq<Action>) {
    actions != [] ==>
      GuardedRun(actions[..|actions| - 1]) && Guarded(Run(actions[..|actions| - 1]), actions[|actions| - 1])
  }

  /** Over every run, at statement grain: no received job is missed at any point exactly when every insert
      and every assignment of a received job changed nothing or found its RFP open, or closed with no
      queueing transaction past its jobs. */
  lemma {:induction false} NoneLeftBehindIff(actions: seq<Action>)
    ensures GuardedRun(actions) <==> forall n :: 0 <= n <= |actions| ==> NoneMissed(Run(actions[..n]))
  {
    if actions == [] {
      assert Run(actions[..0]) == INIT;
    } else {
      var m := |actions| - 1;
      var init := actions[..m];
      NoneLeftBehindIff(init);
      assert forall n :: 0 <= n <= m ==> init[..n] == actions[..n];
      assert actions[..m + 1] == actions && init[..m] == init;
      ExactlyOnce(init);
      RunsKeepJobsSound(init);
      if NoneMissed(Run(init)) { GuardIff(Run(init), actions[m]); }
    }
  }

  /** With each drop and each assignment one transaction, a received job exists only while its RFP is open
      or closed: none is left behind when the RFP moves on. */
  lemma {:induction false} ReceivedOnlyWhileOpenOrClosed(actions: seq<Action>)
    requires AllAtomic(actions)
    ensures NoneMissed(Run(actions)) && forall j :: !LeftBehind(Run(actions).db, j)
  {
    AtomicRunsAreGuarded(actions);
    NoneLeftBehindIff(actions);
    assert actions[..|actions|] == actions;
    forall j ensures !LeftBehind(Run(actions).db, j) { assert !Missed(Run(actions), j); }
  }

  lemma {:induction false} AtomicRunsAreGuarded(actions: seq<Action>)
    requires AllAtomic(actions)
    ensures GuardedRun(actions)
  {
    if actions != [] { AtomicRunsAreGuarded(actions[..|actions| - 1]); }
  }
}
