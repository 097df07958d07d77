/** What every interleaving of the ingestion protocol keeps: legal status changes, legal job moves,
    and what a status says about deadlines, modes and jobs. */
module IngestionLifecycle {
  import opened Common
  import opened IngestionTables
  import opened IngestionRuns

  // ---- jobs --------------------------------------------------------------------------------

  /** Ids are fresh and no two rows share (rfp, vendor, content). */
  ghost predicate RowsSound(db: Db) {
    && (forall j :: j in db.jobs ==> j < db.nextJob)
    && (forall i, j :: i in db.jobs && j in db.jobs && i != j ==> !SameKey(db.jobs[i], db.jobs[j]))
  }

  /** A worker holds a job exactly while the job is running. */
  ghost predicate ClaimsRunning(w: World) {
    forall j :: j in w.claimed <==> j in w.db.jobs && w.db.jobs[j].status == Running
  }

  /** A queueing transaction has looked at RFPs that are no longer open, and at jobs of theirs. */
  predicate SweepSound(w: World, tx: Sweep) {
    && (forall r :: r in tx.swept ==> r in w.db.rfps && w.db.rfps[r].status != Open)
    && (forall j :: j in tx.moved + tx.waits ==>
          j in w.db.jobs && w.db.jobs[j].rfp in tx.swept && w.db.jobs[j].status != NeedsAttribution)
    && (forall j :: j in tx.moved ==> w.db.jobs[j].status == Received)
  }

  /** And no row is held twice. */
  ghost predicate SweepsSound(w: World) {
    && (forall q :: q in w.sweeps ==> SweepSound(w, w.sweeps[q]))
    && (forall q, p, j :: q in w.sweeps && p in w.sweeps && j in w.sweeps[q].moved && j in w.sweeps[p].moved ==> q == p)
  }

  ghost predicate JobsSound(w: World) {
    RowsSound(w.db) && ClaimsRunning(w) && SweepsSound(w)
  }

  predicate SameKey(a: Job, b: Job) {
    a.rfp == b.rfp && a.vendor == b.vendor && a.content == b.content
  }

  /** No step removes a job, and each job makes at most one legal move. */
  ghost predicate JobsMove(before: Db, after: Db) {
    forall j :: j in before.jobs ==> j in after.jobs && JobMove(before.jobs[j], after.jobs[j])
  }

  lemma EnqueueMoves(db: Db, r: RfpId, v: Vendor, h: Hash, s: JobStatus)
    requires forall j :: j in db.jobs ==> j < db.nextJob
    ensures JobsMove(db, Enqueue(db, r, v, h, s).0)
  {
  }

  lemma DropMoves(db: Db, now: int, r: RfpId, vendor: Option<Vendor>, h: Hash)
    requires forall j :: j in db.jobs ==> j < db.nextJob
    ensures JobsMove(db, HandleDrop(db, now, r, vendor, h).0)
  {
  }

  /** Steps that insert no row. */
  predicate Inserts(a: Action) {
    a.Drop? || a.InsertJob?
  }

  lemma CommitQueueMovesJob(w: World, q: nat, j: JobId)
    requires j in w.db.jobs
    ensures var w' := Next(w, CommitQueue(q)); j in w'.db.jobs && JobMove(w.db.jobs[j], w'.db.jobs[j])
  {
  }

  lemma SupersedeMovesJob(w: World, r: RfpId, v: Vendor, n: JobId, j: JobId)
    requires j in w.db.jobs
    ensures var w' := Next(w, Supersede(r, v, n)); j in w'.db.jobs && JobMove(w.db.jobs[j], w'.db.jobs[j])
  {
  }

  lemma AssignMovesJob(w: World, a: Action, j: JobId)
    requires j in w.db.jobs && (a.AssignVendor? || a.WriteAssignment?)
    ensures j in Next(w, a).db.jobs && JobMove(w.db.jobs[j], Next(w, a).db.jobs[j])
  {
  }

  lemma StepMovesJob(w: World, a: Action, j: JobId)
    requires !Inserts(a) && j in w.db.jobs && (j in w.claimed ==> w.db.jobs[j].status == Running)
    ensures j in Next(w, a).db.jobs && JobMove(w.db.jobs[j], Next(w, a).db.jobs[j])
  {
    match a
    case CommitQueue(q) => CommitQueueMovesJob(w, q, j);
    case Supersede(r, v, n) => SupersedeMovesJob(w, r, v, n, j);
    case AssignVendor(_, _, _) => AssignMovesJob(w, a, j);
    case WriteAssignment(_, _, _) => AssignMovesJob(w, a, j);
    case Claim(k) => ClaimMovesJob(w, k, j);
    case Finish(k, ok) => FinishMovesJob(w, k, ok, j);
    case Accept(k) => AcceptMovesJob(w, k, j);
    case _ => OthersMoveNoJob(w, a);
  }

  lemma ClaimMovesJob(w: World, k: JobId, j: JobId)
    requires j in w.db.jobs
    ensures j in Next(w, Claim(k)).db.jobs && JobMove(w.db.jobs[j], Next(w, Claim(k)).db.jobs[j])
  {
  }

  lemma FinishMovesJob(w: World, k: JobId, ok: bool, j: JobId)
    requires j in w.db.jobs && (j in w.claimed ==> w.db.jobs[j].status == Running)
    ensures j in Next(w, Finish(k, ok)).db.jobs && JobMove(w.db.jobs[j], Next(w, Finish(k, ok)).db.jobs[j])
  {
  }

  lemma AcceptMovesJob(w: World, k: JobId, j: JobId)
    requires j in w.db.jobs
    ensures j in Next(w, Accept(k)).db.jobs && JobMove(w.db.jobs[j], Next(w, Accept(k)).db.jobs[j])
  {
  }

  lemma OthersMoveNoJob(w: World, a: Action)
    requires !Inserts(a) && !a.CommitQueue? && !a.Supersede? && !a.AssignVendor? && !a.WriteAssignment?
    requires !a.Claim? && !a.Finish? && !a.Accept?
    ensures Next(w, a).db.jobs == w.db.jobs
  {
  }

  lemma OtherStepsMoveJobs(w: World, a: Action)
    requires !Inserts(a) && ClaimsRunning(w)
    ensures JobsMove(w.db, Next(w, a).db)
  {
    forall j | j in w.db.jobs ensures j in Next(w, a).db.jobs && JobMove(w.db.jobs[j], Next(w, a).db.jobs[j]) {
      assert j in w.claimed ==> w.db.jobs[j].status == Running;
      StepMovesJob(w, a, j);
    }
  }

  lemma StepMovesJobs(w: World, a: Action)
    requires JobsSound(w)
    ensures JobsMove(w.db, Next(w, a).db)
  {
    if a.Drop? {
      DropMoves(w.db, w.now, a.r, a.vendor, a.h);
    } else if a.InsertJob? {
      EnqueueMoves(w.db, a.r, a.v, a.h, a.s);
    } else {
      OtherStepsMoveJobs(w, a);
    }
  }

  lemma SameKeysStaySound(before: Db, after: Db)
    requires RowsSound(before) && after.jobs.Keys == before.jobs.Keys && after.nextJob == before.nextJob
    requires forall j :: j in before.jobs ==> SameKey(before.jobs[j], after.jobs[j])
    ensures RowsSound(after)
  {
    forall i, j | i in after.jobs && j in after.jobs && i != j ensures !SameKey(after.jobs[i], after.jobs[j]) {
      assert !SameKey(before.jobs[i], before.jobs[j]);
    }
  }

  lemma EnqueueStaysSound(db: Db, r: RfpId, v: Vendor, h: Hash, s: JobStatus)
    requires RowsSound(db)
    ensures RowsSound(Enqueue(db, r, v, h, s).0)
  {
  }

  lemma AssignStaysSound(db: Db, j: JobId, v: Vendor, s: JobStatus)
    requires RowsSound(db)
    ensures RowsSound(AssignWrite(db, j, v, s).0)
  {
  }

  lemma DropStaysSound(db: Db, now: int, r: RfpId, vendor: Option<Vendor>, h: Hash)
    requires RowsSound(db)
    ensures RowsSound(HandleDrop(db, now, r, vendor, h).0)
  {
    var (after, result) := HandleDrop(db, now, r, vendor, h);
    forall v: Vendor, s ensures RowsSound(Enqueue(db, r, v, h, s).0) { EnqueueStaysSound(db, r, v, h, s); }
    if result.Accepted? {
      SameKeysStaySound(Enqueue(db, r, vendor.value, h, Received).0, after);
    }
  }

  /** The steps that neither insert a job nor reassign one keep every job's key. */
  lemma OtherStepsKeepKeys(w: World, a: Action)
    requires RowsSound(w.db)
    requires !a.Drop? && !a.InsertJob? && !a.AssignVendor? && !a.WriteAssignment?
    ensures RowsSound(Next(w, a).db)
  {
    OtherStepsAddNoRow(w, a);
    forall j | j in w.db.jobs ensures SameKey(w.db.jobs[j], Next(w, a).db.jobs[j]) { OtherStepsKeepKey(w, a, j); }
    SameKeysStaySound(w.db, Next(w, a).db);
  }

  lemma OtherStepsAddNoRow(w: World, a: Action)
    requires !a.Drop? && !a.InsertJob? && !a.AssignVendor? && !a.WriteAssignment?
    ensures Next(w, a).db.jobs.Keys == w.db.jobs.Keys && Next(w, a).db.nextJob == w.db.nextJob
  {
    if a.CommitQueue? && CanCommit(w, a.q) { assert CommitSweep(w, a.q).db.jobs.Keys == w.db.jobs.Keys; }
    if a.Supersede? { assert SupersedeFree(w, a.r, a.v, a.newJob).jobs.Keys == w.db.jobs.Keys; }
  }

  lemma OtherStepsKeepKey(w: World, a: Action, j: JobId)
    requires !a.Drop? && !a.InsertJob? && !a.AssignVendor? && !a.WriteAssignment? && j in w.db.jobs
    ensures j in Next(w, a).db.jobs && SameKey(w.db.jobs[j], Next(w, a).db.jobs[j])
  {
    match a
    case CommitQueue(q) => CommitKeepsKey(w, q, j);
    case Supersede(r, v, n) => SupersedeKeepsKey(w, r, v, n, j);
    case Claim(_) =>
    case Finish(_, _) =>
    case Accept(_) =>
    case _ => OthersMoveNoJob(w, a);
  }

  lemma CommitKeepsKey(w: World, q: nat, j: JobId)
    requires j in w.db.jobs
    ensures var w' := Next(w, CommitQueue(q)); j in w'.db.jobs && SameKey(w.db.jobs[j], w'.db.jobs[j])
  {
  }

  lemma SupersedeKeepsKey(w: World, r: RfpId, v: Vendor, n: JobId, j: JobId)
    requires j in w.db.jobs
    ensures var w' := Next(w, Supersede(r, v, n)); j in w'.db.jobs && SameKey(w.db.jobs[j], w'.db.jobs[j])
  {
  }

  lemma StepKeepsRowsSound(w: World, a: Action)
    requires RowsSound(w.db)
    ensures RowsSound(Next(w, a).db)
  {
    if a.Drop? {
      DropStaysSound(w.db, w.now, a.r, a.vendor, a.h);
    } else if a.InsertJob? {
      EnqueueStaysSound(w.db, a.r, a.v, a.h, a.s);
    } else if a.WriteAssignment? {
      AssignStaysSound(w.db, a.j, a.v, a.s);
    } else if a.AssignVendor? {
      if a.j in w.db.jobs {
        var r := w.db.jobs[a.j].rfp;
        AssignStaysSound(InviteVendor(w.db, r, a.v), a.j, a.v, if HasStatus(w.db, r, Open) then Received else Queued);
      }
    } else {
      OtherStepsKeepKeys(w, a);
    }
  }

  predicate IsRunning(db: Db, j: JobId) {
    j in db.jobs && db.jobs[j].status == Running
  }

  lemma DropStartsNothing(db: Db, now: int, r: RfpId, vendor: Option<Vendor>, h: Hash, j: JobId)
    requires RowsSound(db)
    ensures IsRunning(HandleDrop(db, now, r, vendor, h).0, j) <==> IsRunning(db, j)
  {
  }

  lemma OtherStepsStartNothing(w: World, a: Action, j: JobId)
    requires RowsSound(w.db) && !a.Claim? && !a.Finish?
    ensures Next(w, a).claimed == w.claimed && (IsRunning(Next(w, a).db, j) <==> IsRunning(w.db, j))
  {
    if a.Drop? { DropStartsNothing(w.db, w.now, a.r, a.vendor, a.h, j); }
  }

  /** Only the worker steps start or end a run of a job. */
  lemma StepKeepsClaimsRunning(w: World, a: Action)
    requires JobsSound(w)
    ensures ClaimsRunning(Next(w, a))
  {
    if !a.Claim? && !a.Finish? {
      forall j ensures j in Next(w, a).claimed <==> IsRunning(Next(w, a).db, j) {
        OtherStepsStartNothing(w, a, j);
      }
    }
  }

  /** A job held by a queueing transaction stays received: everybody else leaves its row alone. */
  lemma HeldStaysReceived(w: World, a: Action, j: JobId)
    requires RowsSound(w.db) && Held(w, j) && j in w.db.jobs && w.db.jobs[j].status == Received && j !in w.claimed
    requires w.db.jobs[j].rfp in w.db.rfps && w.db.rfps[w.db.jobs[j].rfp].status != Open
    requires a.CommitQueue? ==> !Queues(w, a.q, j)
    ensures j in Next(w, a).db.jobs && Next(w, a).db.jobs[j] == w.db.jobs[j]
  {
    match a
    case Drop(_, _, _) => HeldDrop(w, a, j);
    case InsertJob(_, _, _, _) => HeldInsert(w, a, j);
    case CommitQueue(q) => HeldCommit(w, q, j);
    case Supersede(r, v, n) => HeldSupersede(w, r, v, n, j);
    case _ => HeldOther(w, a, j);
  }

  lemma HeldInsert(w: World, a: Action, j: JobId)
    requires RowsSound(w.db) && a.InsertJob? && j in w.db.jobs
    ensures j in Next(w, a).db.jobs && Next(w, a).db.jobs[j] == w.db.jobs[j]
  {
  }

  lemma HeldCommit(w: World, q: nat, j: JobId)
    requires j in w.db.jobs && !Queues(w, q, j)
    ensures j in Next(w, CommitQueue(q)).db.jobs && Next(w, CommitQueue(q)).db.jobs[j] == w.db.jobs[j]
  {
  }

  lemma HeldSupersede(w: World, r: RfpId, v: Vendor, n: JobId, j: JobId)
    requires j in w.db.jobs && Held(w, j)
    ensures j in Next(w, Supersede(r, v, n)).db.jobs && Next(w, Supersede(r, v, n)).db.jobs[j] == w.db.jobs[j]
  {
  }

  lemma HeldOther(w: World, a: Action, j: JobId)
    requires !Inserts(a) && !a.CommitQueue? && !a.Supersede? && j in w.db.jobs && w.db.jobs[j].status == Received &&
        j !in w.claimed
    ensures j in Next(w, a).db.jobs && Next(w, a).db.jobs[j] == w.db.jobs[j]
  {
  }

  lemma HeldDrop(w: World, a: Action, j: JobId)
    requires RowsSound(w.db) && a.Drop? && j in w.db.jobs && w.db.jobs[j].status == Received
    requires w.db.jobs[j].rfp in w.db.rfps && w.db.rfps[w.db.jobs[j].rfp].status != Open
    ensures j in Next(w, a).db.jobs && Next(w, a).db.jobs[j] == w.db.jobs[j]
  {
  }

  lemma StaysNotOpen(w: World, a: Action, r: RfpId)
    requires r in w.db.rfps && w.db.rfps[r].status != Open
    ensures r in Next(w, a).db.rfps && Next(w, a).db.rfps[r].status != Open
  {
  }

  lemma StepKeepsRfpOfJob(w: World, a: Action, j: JobId)
    requires JobsSound(w) && j in w.db.jobs
    ensures j in Next(w, a).db.jobs && Next(w, a).db.jobs[j].rfp == w.db.jobs[j].rfp
    ensures w.db.jobs[j].status != NeedsAttribution ==> Next(w, a).db.jobs[j].status != NeedsAttribution
  {
    StepMovesJobs(w, a);
    assert JobMove(w.db.jobs[j], Next(w, a).db.jobs[j]);
  }

  lemma StepKeepsSweep(w: World, a: Action, q: nat)
    requires JobsSound(w) && q in w.sweeps && !(a.CommitQueue? && a.q == q)
    ensures SweepSound(Next(w, a), w.sweeps[q])
  {
    var tx := w.sweeps[q];
    forall r | r in tx.swept ensures r in Next(w, a).db.rfps &&
        Next(w, a).db.rfps[r].status != Open { StaysNotOpen(w, a, r); }
    forall j | j in tx.moved + tx.waits
      ensures j in Next(w, a).db.jobs && Next(w, a).db.jobs[j].rfp in tx.swept &&
          Next(w, a).db.jobs[j].status != NeedsAttribution
    {
      StepKeepsRfpOfJob(w, a, j);
    }
    forall j | j in tx.moved ensures Next(w, a).db.jobs[j].status == Received {
      if a.CommitQueue? && CanCommit(w, a.q) { assert HeldByOther(w, a.q, j) && j !in w.sweeps[a.q].waits; }
      assert j !in w.claimed;
      if !(a.CommitQueue? && !CanCommit(w, a.q)) { HeldStaysReceived(w, a, j); }
    }
  }

  lemma SweptSound(w: World, q: nat, r: RfpId)
    requires JobsSound(w) && r in w.db.rfps && w.db.rfps[r].status != Open
    ensures SweepSound(w, SweepOne(w, q, r))
    ensures forall p, j :: p in w.sweeps && p != q && j in w.sweeps[p].moved ==> j !in SweepOne(w, q, r).moved
  {
    if q in w.sweeps { assert SweepSound(w, w.sweeps[q]); }
  }

  lemma SweepsStayPut(w: World, a: Action, q: nat)
    requires q in Next(w, a).sweeps
    ensures q in w.sweeps || a.QueueJobs?
    ensures Next(w, a).sweeps[q] == if a.QueueJobs? && a.q == q && Next(w, a) != w then SweepOne(w, q, a.r)
        else SweepOf(w, q)
    ensures q in w.sweeps && a.CommitQueue? && a.q == q ==> !CanCommit(w, q)
  {
  }

  lemma StepKeepsOneSweep(w: World, a: Action, q: nat)
    requires JobsSound(w) && q in Next(w, a).sweeps
    ensures SweepSound(Next(w, a), Next(w, a).sweeps[q])
  {
    SweepsStayPut(w, a, q);
    if a.QueueJobs? && a.q == q && Next(w, a) != w {
      SweptSound(w, q, a.r);
    } else if !(a.CommitQueue? && a.q == q) {
      StepKeepsSweep(w, a, q);
    }
  }

  lemma StepHoldsNoneTwice(w: World, a: Action, q: nat, p: nat, j: JobId)
    requires JobsSound(w) && q in Next(w, a).sweeps && p in Next(w, a).sweeps
    requires j in Next(w, a).sweeps[q].moved && j in Next(w, a).sweeps[p].moved
    ensures q == p
  {
    SweepsStayPut(w, a, q);
    SweepsStayPut(w, a, p);
    if a.QueueJobs? && Next(w, a) != w { SweptSound(w, a.q, a.r); }
  }

  lemma StepKeepsSweepsSound(w: World, a: Action)
    requires JobsSound(w)
    ensures SweepsSound(Next(w, a))
  {
    var w' := Next(w, a);
    forall q | q in w'.sweeps ensures SweepSound(w', w'.sweeps[q]) { StepKeepsOneSweep(w, a, q); }
    forall q, p, j | q in w'.sweeps && p in w'.sweeps && j in w'.sweeps[q].moved && j in w'.sweeps[p].moved
        ensures q == p {
      StepHoldsNoneTwice(w, a, q, p, j);
    }
  }

  lemma StepKeepsJobsSound(w: World, a: Action)
    requires JobsSound(w)
    ensures JobsSound(Next(w, a))
  {
    StepKeepsRowsSound(w, a);
    StepKeepsClaimsRunning(w, a);
    StepKeepsSweepsSound(w, a);
  }

  lemma {:induction false} RunsKeepJobsSound(actions: seq<Action>)
    ensures JobsSound(Run(actions))
  {
    if actions != [] {
      RunsKeepJobsSound(actions[..|actions| - 1]);
      StepKeepsJobsSound(Run(actions[..|actions| - 1]), actions[|actions| - 1]);
    }
  }

  /** Over every interleaving each job only ever makes the legal moves: in particular a job that is
      superseded, ready or failed stays so. */
  lemma JobsOnlyMoveLegally(actions: seq<Action>, a: Action)
    ensures JobsMove(Run(actions).db, Run(actions + [a]).db)
  {
    assert (actions + [a])[..|actions|] == actions;
    RunsKeepJobsSound(actions);
    StepMovesJobs(Run(actions), a);
  }

  // ---- RFPs --------------------------------------------------------------------------------

  ghost predicate RfpsMove(before: Db, after: Db) {
    forall r :: r in before.rfps ==> RfpMoves(before, after, r)
  }

  predicate RfpMoves(before: Db, after: Db, r: RfpId)
    requires r in before.rfps
  {
    && r in after.rfps
    && after.rfps[r].mode == before.rfps[r].mode
    && (after.rfps[r].status == before.rfps[r].status || CanTransition(before.rfps[r].status, after.rfps[r].status))
    && (before.rfps[r].status != Open ==> after.rfps[r].deadline == before.rfps[r].deadline)
  }

  lemma StepMovesRfps(w: World, a: Action)
    requires LocksHeld(w)
    ensures RfpsMove(w.db, Next(w, a).db)
  {
    forall r | r in w.db.rfps ensures RfpMoves(w.db, Next(w, a).db, r) { RfpChangesIff(w, a, r); }
  }

  /** An RFP that has left `open` has a deadline, it has passed, and the RFP is not manual. */
  ghost predicate ClosedForGood(w: World) {
    forall r :: r in w.db.rfps && w.db.rfps[r].status != Open ==>
      && w.db.rfps[r].deadline.Some? && w.db.rfps[r].deadline.value < w.now
      && w.db.rfps[r].mode != Manual
  }

  lemma StepKeepsClosedForGood(w: World, a: Action)
    requires LocksHeld(w) && ClosedForGood(w)
    ensures ClosedForGood(Next(w, a))
  {
    StepMovesRfps(w, a);
    var w' := Next(w, a);
    assert w.now <= w'.now;
    forall r | r in w'.db.rfps && w'.db.rfps[r].status != Open
      ensures w'.db.rfps[r].deadline.Some? && w'.db.rfps[r].deadline.value < w'.now && w'.db.rfps[r].mode != Manual
    {
      assert r in w.db.rfps;
      if w.db.rfps[r].status == Open { assert a.CloseAll?; }
    }
  }

  lemma {:induction false} RunsKeepClosedForGood(actions: seq<Action>)
    ensures ClosedForGood(Run(actions))
  {
    if actions != [] {
      var init := actions[..|actions| - 1];
      RunsKeepClosedForGood(init);
      ExactlyOnce(init);
      StepKeepsClosedForGood(Run(init), actions[|actions| - 1]);
    }
  }

  /** Over all interleaved steps, every committed status change is one `can_transition` allows; a
      deadline moves only while its RFP is open; and a non-open RFP has a past deadline and is never
      manual, although finalisation never looks at the mode. */
  lemma LifecycleHolds(actions: seq<Action>, a: Action)
    ensures RfpsMove(Run(actions).db, Run(actions + [a]).db)
    ensures ClosedForGood(Run(actions))
  {
    assert (actions + [a])[..|actions|] == actions;
    ExactlyOnce(actions);
    StepMovesRfps(Run(actions), a);
    RunsKeepClosedForGood(actions);
  }

  /** The legal changes are the four of one chain, and no others. */
  lemma OneChain(current: Status, target: Status)
    ensures CanTransition(current, target) <==>
            || (current == Open && target == Closed) || (current == Closed && target == Processing)
            || (current == Processing && target == FactsReady) || (current == FactsReady && target == Evaluated)
  {
  }

  /** Which step changes an RFP, and how: nothing but these three changes a status, and only an edit of an
      open RFP moves its deadline. */
  lemma RfpChangesIff(w: World, a: Action, r: RfpId)
    requires LocksHeld(w) && r in w.db.rfps
    ensures r in Next(w, a).db.rfps
    ensures var was, after := w.db.rfps[r], Next(w, a).db.rfps[r];
            var closes := a.CloseAll? && was.mode != Manual && was.deadline.Some? && was.deadline.value < w.now;
            var queues := a.CommitQueue? && a.q in w.sweeps && r in w.sweeps[a.q].swept &&
                forall p, j :: p in w.sweeps && p != a.q && j in w.sweeps[p].moved ==> j !in w.sweeps[a.q].waits;
            var flips := a.Commit? && a.t < |w.ticks| && w.ticks[a.t].Scanning? && r in w.locks && w.locks[r] == a.t;
            && after.mode == was.mode
            && after.deadline == (if a.MoveDeadline? && a.r == r && was.status == Open then a.deadline
                else was.deadline)
            && after.status ==
                 match was.status
                 case Open => if closes then Closed else Open
                 case Closed => if queues then Processing else Closed
                 case Processing => if flips then FactsReady else Processing
                 case _ => was.status
  {
    if a.CommitQueue? { QueuesIff(w, a.q); }
  }

  lemma QueuesIff(w: World, q: nat)
    ensures CanCommit(w, q) <==>
            && q in w.sweeps
            && forall p, j :: p in w.sweeps && p != q && j in w.sweeps[p].moved ==> j !in w.sweeps[q].waits
  {
  }

  /** An RFP passes the count of a tick exactly if it was a candidate, none of its jobs is received, queued
      or running, and one is ready. */
  lemma CountPassesIff(w: World, t: nat, r: RfpId)
    requires t < |w.ticks| && w.ticks[t].Scanning? && r !in w.ticks[t].passed
    ensures var after := Next(w, Count(t, r));
            && |after.ticks| == |w.ticks| && after.ticks[t].Scanning?
            && (r in after.ticks[t].passed <==>
                  && r in w.ticks[t].candidates
                  && (forall j :: j in w.db.jobs && w.db.jobs[j].rfp == r ==>
                        w.db.jobs[j].status !in {Received, Queued, Running})
                  && exists j :: j in w.db.jobs && w.db.jobs[j].rfp == r && w.db.jobs[j].status == Ready)
  {
  }

  /** Which steps of workers and administrators move a job, and when a queueing transaction does. */
  lemma JobChangesIff(w: World, a: Action, j: JobId)
    requires JobsSound(w) && j in w.db.jobs
    ensures j in Next(w, a).db.jobs
    ensures var was, after := w.db.jobs[j].status, Next(w, a).db.jobs[j].status;
            var queues := a.CommitQueue? && a.q in w.sweeps && j in w.sweeps[a.q].moved + w.sweeps[a.q].waits &&
                forall p, k :: p in w.sweeps && p != a.q && k in w.sweeps[p].moved ==> k !in w.sweeps[a.q].waits;
            && (was == Received ==> (after == Queued <==> queues))
            && (was != Received && was != NeedsAttribution ==>
                  after == if was == Queued && a == Claim(j) then Running
                           else if was == Running && a == Finish(j, true) then Ready
                           else if was == Running && a == Finish(j, false) then Failed
                           else if was == RejectedLate && a == Accept(j) then Queued
                           else was)
  {
    StepMovesJobs(w, a);
    assert j in Next(w, a).db.jobs;
    if a.CommitQueue? { QueuesIff(w, a.q); }
    assert j in w.claimed <==> w.db.jobs[j].status == Running;
    if a.Drop? {
      DropLeaves(w.db, w.now, a.r, a.vendor, a.h, j);
    } else if a.InsertJob? {
      HeldInsert(w, a, j);
    } else {
      OtherJobChanges(w, a, j);
    }
  }

  lemma DropLeaves(db: Db, now: int, r: RfpId, vendor: Option<Vendor>, h: Hash, j: JobId)
    requires RowsSound(db) && j in db.jobs
    ensures var after := HandleDrop(db, now, r, vendor, h).0;
            j in after.jobs && (after.jobs[j] == db.jobs[j] ||
                (db.jobs[j].status == Received && after.jobs[j].status == Superseded))
  {
  }

  lemma OtherJobChanges(w: World, a: Action, j: JobId)
    requires !Inserts(a) && j in w.db.jobs && (j in w.claimed <==> w.db.jobs[j].status == Running)
    ensures j in Next(w, a).db.jobs
    ensures var was, after := w.db.jobs[j].status, Next(w, a).db.jobs[j].status;
            && (was == Received ==> (after == Queued <==> a.CommitQueue? && CanCommit(w, a.q) && Queues(w, a.q, j)))
            && (was != Received && was != NeedsAttribution ==>
                  after == if was == Queued && a == Claim(j) then Running
                           else if was == Running && a == Finish(j, true) then Ready
                           else if was == Running && a == Finish(j, false) then Failed
                           else if was == RejectedLate && a == Accept(j) then Queued
                           else was)
  {
    if !a.CommitQueue? && !a.Supersede? && !a.AssignVendor? && !a.WriteAssignment? && !a.Claim? && !a.Finish? &&
       !a.Accept? {
      OthersMoveNoJob(w, a);
    }
  }

  /** What the UPDATE of a queueing transaction finds: the RFP's received jobs, of which it holds those
      nobody holds and waits for those another transaction holds.  It looks at an RFP once, and only if the
      RFP has been closed and is not manual. */
  lemma SweepFindsIff(w: World, q: nat, r: RfpId, j: JobId)
    requires JobsSound(w)
    ensures var looks := r in w.db.rfps && w.db.rfps[r].status != Open && w.db.rfps[r].mode != Manual &&
                !(q in w.sweeps && r in w.sweeps[q].swept);
            var found := j in w.db.jobs && w.db.jobs[j].rfp == r && w.db.jobs[j].status == Received;
            var held := exists p :: p in w.sweeps && j in w.sweeps[p].moved;
            var heldByOther := exists p :: p in w.sweeps && p != q && j in w.sweeps[p].moved;
            var before, after := SweepOf(w, q), SweepOf(Next(w, QueueJobs(q, r)), q);
            && after.swept == (if looks then before.swept + {r} else before.swept)
            && (j in after.moved <==> j in before.moved || (looks && found && !held))
            && (j in after.waits <==> j in before.waits || (looks && found && heldByOther))
            && Next(w, QueueJobs(q, r)).db == w.db
  {
  }

  // ---- facts_ready means facts -------------------------------------------------------------

  /** Whatever has passed the job count, is being flipped or has been flipped has a successful job. */
  ghost predicate Backed(w: World) {
    && (forall r :: HasStatus(w.db, r, FactsReady) ==> HasReadyJob(w.db, r))
    && (forall t: nat, r :: IsScanning(w, t) && r in w.ticks[t].passed ==> HasReadyJob(w.db, r))
    && (forall r :: r in w.locks ==> HasReadyJob(w.db, r))
  }

  lemma ReadyJobsStay(before: Db, after: Db, r: RfpId)
    requires JobsMove(before, after) && HasReadyJob(before, r)
    ensures HasReadyJob(after, r)
  {
    var j :| j in before.jobs && before.jobs[j].rfp == r && before.jobs[j].status == Ready;
    assert j in after.jobs;
  }

  lemma StepBacksItsFlips(w: World, a: Action, r: RfpId)
    requires Backed(w)
    ensures HasStatus(Next(w, a).db, r, FactsReady) || r in Next(w, a).locks ==> HasReadyJob(w.db, r)
  {
    if a.Flip? && Next(w, a) != w { assert IsScanning(w, a.t) && a.r in w.ticks[a.t].passed; }
  }

  lemma StepBacksItsCounts(w: World, a: Action, t: nat, r: RfpId)
    requires Backed(w)
    requires IsScanning(Next(w, a), t) && r in Next(w, a).ticks[t].passed
    ensures HasReadyJob(w.db, r)
  {
    if t < |w.ticks| && IsScanning(w, t) && r in w.ticks[t].passed {
    } else {
      assert a == Count(t, r);
    }
  }

  lemma StepKeepsBacked(w: World, a: Action)
    requires JobsSound(w) && Backed(w)
    ensures Backed(Next(w, a))
  {
    var w' := Next(w, a);
    StepMovesJobs(w, a);
    forall r | HasStatus(w'.db, r, FactsReady) || r in w'.locks ensures HasReadyJob(w'.db, r) {
      StepBacksItsFlips(w, a, r);
      ReadyJobsStay(w.db, w'.db, r);
    }
    forall t: nat, r | IsScanning(w', t) && r in w'.ticks[t].passed ensures HasReadyJob(w'.db, r) {
      StepBacksItsCounts(w, a, t, r);
      ReadyJobsStay(w.db, w'.db, r);
    }
  }

  /** No RFP reaches facts_ready, by whatever interleaving and stale count, without at least one of
      its jobs having succeeded. */
  lemma {:induction false} FactsReadyIsBacked(actions: seq<Action>)
    ensures Backed(Run(actions))
  {
    if actions != [] {
      var init := actions[..|actions| - 1];
      FactsReadyIsBacked(init);
      RunsKeepJobsSound(init);
      StepKeepsBacked(Run(init), actions[|actions| - 1]);
    }
  }

  /** Every logged event is of the type its RFP's mode calls for. */
  ghost predicate EventsTyped(db: Db) {
    forall r :: r in db.rfps ==> EventTyped(db, r)
  }

  predicate EventTyped(db: Db, r: RfpId)
    requires r in db.rfps
  {
    if db.rfps[r].mode == AutoToReport then db.events[FactsReadyEvent(r)] == 0
        else db.events[EvaluationFailedEvent(r)] == 0
  }

  lemma EmitKeepsEventTyped(w: World, t: nat, r: RfpId)
    requires Accounted(w) && r in w.db.rfps && EventTyped(w.db, r)
    ensures r in Next(w, Emit(t)).db.rfps && EventTyped(Next(w, Emit(t)).db, r)
  {
    if t < |w.ticks| && w.ticks[t].Emitting? && w.ticks[t].winners != [] { EmitsKnown(w, t); }
  }

  lemma OnlyEmitLogs(w: World, a: Action)
    requires !a.Emit?
    ensures Next(w, a).db.events == w.db.events
  {
  }

  lemma StepKeepsEventTyped(w: World, a: Action, r: RfpId)
    requires Accounted(w) && EventsTyped(w.db) && r in Next(w, a).db.rfps
    ensures EventTyped(Next(w, a).db, r)
  {
    StepMovesRfps(w, a);
    if r in w.db.rfps { assert EventTyped(w.db, r); } else { assert EventCount(w.db, r) + Pending(w.ticks, r) == 0; }
    if a.Emit? {
      if r in w.db.rfps { EmitKeepsEventTyped(w, a.t, r); }
    } else {
      OnlyEmitLogs(w, a);
    }
  }

  lemma StepKeepsEventsTyped(w: World, a: Action)
    requires Accounted(w) && EventsTyped(w.db)
    ensures EventsTyped(Next(w, a).db)
  {
    forall r | r in Next(w, a).db.rfps ensures EventTyped(Next(w, a).db, r) { StepKeepsEventTyped(w, a, r); }
  }

  lemma EmitsKnown(w: World, t: nat)
    requires Accounted(w) && t < |w.ticks| && w.ticks[t].Emitting? && w.ticks[t].winners != []
    ensures w.ticks[t].winners[0] in w.db.rfps
  {
    var r := w.ticks[t].winners[0];
    OneOfPending(w.ticks, t, r);
    assert w.ticks[t].winners[0] in multiset(w.ticks[t].winners);
    assert EventCount(w.db, r) + Pending(w.ticks, r) >= 1;
  }

  /** Over every run an RFP that is to be reported gets no facts_ready event and any other RFP no
      failure event. */
  lemma {:induction false} EventsHaveTheirType(actions: seq<Action>)
    ensures EventsTyped(Run(actions).db)
  {
    if actions != [] {
      EventsHaveTheirType(actions[..|actions| - 1]);
      ExactlyOnce(actions[..|actions| - 1]);
      StepKeepsEventsTyped(Run(actions[..|actions| - 1]), actions[|actions| - 1]);
    }
  }

  // ---- received jobs, with drops and assignments atomic --------------------------------------

  /** Drops and assignments happen as one step each. */
  predicate Atomic(a: Action) {
    !a.InsertJob? && !a.Supersede? && !a.WriteAssignment?
  }

  predicate AllAtomic(actions: seq<Action>) {
    forall i :: 0 <= i < |actions| ==> Atomic(actions[i])
  }
}
