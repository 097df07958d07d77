/** Which of a vendor's submissions is the live one: supersession over any run whose drops are
    atomic and in which no administrator reassigns jobs, and what races do to it. */
module Supersession {
  import opened Common
  import opened IngestionTables
  import opened IngestionRuns
  import opened IngestionLifecycle

  /** Job `j` is a submission of vendor `v` that the watcher accepted. */
  predicate AcceptedFor(db: Db, r: RfpId, v: Vendor, j: JobId) {
    j in db.jobs && db.jobs[j].rfp == r && db.jobs[j].vendor == v && db.jobs[j].arrivedAs == Received
  }

  /** `k` is the next submission accepted from the vendor after `j`. */
  predicate NextAccepted(db: Db, r: RfpId, v: Vendor, j: JobId, k: JobId) {
    && j < k && AcceptedFor(db, r, v, k)
    && forall m :: m in db.jobs && j < m < k ==> !AcceptedFor(db, r, v, m)
  }

  predicate Newest(db: Db, r: RfpId, v: Vendor, j: JobId) {
    AcceptedFor(db, r, v, j) && forall m :: m in db.jobs && m > j ==> !AcceptedFor(db, r, v, m)
  }

  /** Every accepted submission but the newest is superseded by its direct successor; nothing else
      is superseded; and while the RFP is open the newest one is still `received`. */
  predicate ChainedAt(db: Db, j: JobId)
    requires j in db.jobs
  {
    var job := db.jobs[j];
    && j < db.nextJob && job.rfp in db.rfps
    && (job.status == Received ==> job.arrivedAs == Received)
    && (if job.arrivedAs == Received && !Newest(db, job.rfp, job.vendor, j) then
          && job.status == Superseded && job.supersededBy.Some?
          && NextAccepted(db, job.rfp, job.vendor, j, job.supersededBy.value)
        else
          job.status != Superseded && job.supersededBy.None?)
    && (db.rfps[job.rfp].status == Open && job.arrivedAs == Received && Newest(db, job.rfp, job.vendor, j) ==>
          job.status == Received)
  }

  predicate Chained(db: Db) {
    forall j :: j in db.jobs ==> ChainedAt(db, j)
  }

  /** A job that stays the same submission with the same link, in an RFP that does not reopen. */
  predicate SameSubmission(before: Db, after: Db, j: JobId)
    requires j in before.jobs && j in after.jobs
  {
    var b, a := before.jobs[j], after.jobs[j];
    && a.rfp == b.rfp && a.vendor == b.vendor && a.arrivedAs == b.arrivedAs && a.supersededBy == b.supersededBy
    && (a.status == Superseded <==> b.status == Superseded)
    && (a.status == Received ==> b.status == Received)
    && (HasStatus(after, b.rfp, Open) && b.rfp in before.rfps ==>
          HasStatus(before, b.rfp, Open) && (b.status == Received ==> a.status == Received))
  }

  predicate SameSubmissions(before: Db, after: Db) {
    && after.jobs.Keys == before.jobs.Keys && after.nextJob == before.nextJob
    && before.rfps.Keys <= after.rfps.Keys
    && forall j :: j in before.jobs ==> SameSubmission(before, after, j)
  }

  lemma SameSubmissionsStayChained(before: Db, after: Db)
    requires Chained(before) && SameSubmissions(before, after)
    ensures Chained(after)
  {
    assert forall r, v, j :: AcceptedFor(after, r, v, j) <==> AcceptedFor(before, r, v, j);
    forall j | j in after.jobs ensures ChainedAt(after, j) {
      assert ChainedAt(before, j);
      var job := before.jobs[j];
      assert Newest(after, job.rfp, job.vendor, j) <==> Newest(before, job.rfp, job.vendor, j);
    }
  }

  /** Steps that insert no job. */
  predicate InsertsNothing(a: Action) {
    Atomic(a) && !a.Drop? && !a.AssignVendor?
  }

  lemma OtherStepsKeepRow(w: World, a: Action, j: JobId)
    requires InsertsNothing(a) && j in w.db.jobs && (j in w.claimed ==> w.db.jobs[j].status == Running)
    ensures j in Next(w, a).db.jobs
    ensures var b, n := w.db.jobs[j], Next(w, a).db.jobs[j];
            && n.rfp == b.rfp && n.vendor == b.vendor && n.arrivedAs == b.arrivedAs && n.supersededBy == b.supersededBy
            && (n.status == Superseded <==> b.status == Superseded) && (n.status == Received ==> b.status == Received)
            && (b.status == Received && n.status != Received ==> a.CommitQueue? && Queues(w, a.q, j))
  {
  }

  lemma OtherStepsKeepSubmission(w: World, a: Action, j: JobId)
    requires InsertsNothing(a) && LocksHeld(w) && JobsSound(w) && j in w.db.jobs
    ensures j in Next(w, a).db.jobs && SameSubmission(w.db, Next(w, a).db, j)
  {
    OtherStepsKeepRow(w, a, j);
    if w.db.jobs[j].rfp in w.db.rfps { NoneReopens(w, a, w.db.jobs[j].rfp); }
    if a.CommitQueue? && Queues(w, a.q, j) { QueuedIsNotOpen(w, a.q, j); }
  }

  lemma NoneReopens(w: World, a: Action, r: RfpId)
    requires r in w.db.rfps
    ensures HasStatus(Next(w, a).db, r, Open) ==> HasStatus(w.db, r, Open)
  {
  }

  lemma QueuedIsNotOpen(w: World, q: nat, j: JobId)
    requires JobsSound(w) && Queues(w, q, j)
    ensures j in w.db.jobs && !HasStatus(w.db, w.db.jobs[j].rfp, Open)
  {
    assert SweepSound(w, w.sweeps[q]);
  }

  lemma OtherStepsKeepSubmissions(w: World, a: Action)
    requires InsertsNothing(a) && LocksHeld(w) && JobsSound(w) && Chained(w.db)
    ensures SameSubmissions(w.db, Next(w, a).db)
  {
    var after := Next(w, a).db;
    assert after.jobs.Keys == w.db.jobs.Keys && after.nextJob == w.db.nextJob;
    assert w.db.rfps.Keys <= after.rfps.Keys;
    forall j | j in w.db.jobs ensures SameSubmission(w.db, after, j) {
      OtherStepsKeepSubmission(w, a, j);
    }
  }

  /** A rejected or unattributed file adds a row that is no submission. */
  lemma TerminalRowStaysChained(db: Db, r: RfpId, v: Vendor, h: Hash, s: JobStatus)
    requires Chained(db) && r in db.rfps && (s == RejectedLate || s == NeedsAttribution)
    ensures Chained(Enqueue(db, r, v, h, s).0)
  {
    var (after, id) := Enqueue(db, r, v, h, s);
    if id.Some? {
      assert forall q, u, j :: AcceptedFor(after, q, u, j) <==> AcceptedFor(db, q, u, j);
      forall j | j in after.jobs ensures ChainedAt(after, j) {
        if j in db.jobs {
          assert ChainedAt(db, j);
          var job := db.jobs[j];
          assert Newest(after, job.rfp, job.vendor, j) <==> Newest(db, job.rfp, job.vendor, j);
        }
      }
    }
  }

  /** Accepting a new submission in an open RFP links the vendor's previous one to it. */
  lemma AcceptedRowStaysChained(db: Db, r: RfpId, v: Vendor, h: Hash)
    requires Chained(db) && HasStatus(db, r, Open) && !KeyTaken(db, r, v, h)
    ensures Chained(SupersedePrior(Enqueue(db, r, v, h, Received).0, r, v, db.nextJob))
  {
    var n := db.nextJob;
    var after := SupersedePrior(Enqueue(db, r, v, h, Received).0, r, v, n);
    assert forall j :: j in db.jobs ==> ChainedAt(db, j);
    assert forall q, u, j :: AcceptedFor(after, q, u, j) <==> AcceptedFor(db, q, u, j) || (q == r && u == v && j == n);
    forall j | j in after.jobs ensures ChainedAt(after, j) {
      if j != n {
        var job := db.jobs[j];
        if job.rfp == r && job.vendor == v {
          if Newest(db, r, v, j) { assert NextAccepted(after, r, v, j, n); }
        } else {
          assert Newest(after, job.rfp, job.vendor, j) <==> Newest(db, job.rfp, job.vendor, j);
        }
      }
    }
  }

  lemma DropStaysChained(db: Db, now: int, r: RfpId, vendor: Option<Vendor>, h: Hash)
    requires Chained(db)
    ensures Chained(HandleDrop(db, now, r, vendor, h).0)
  {
    if r in db.rfps {
      forall v, s | s == RejectedLate || s == NeedsAttribution ensures Chained(Enqueue(db, r, v, h, s).0) {
        TerminalRowStaysChained(db, r, v, h, s);
      }
      if HandleDrop(db, now, r, vendor, h).1.Accepted? { AcceptedRowStaysChained(db, r, vendor.value, h); }
    }
  }

  predicate NoReassignment(actions: seq<Action>) {
    AllAtomic(actions) && forall i :: 0 <= i < |actions| ==> !actions[i].AssignVendor?
  }

  lemma {:induction false} RunsStayChained(actions: seq<Action>)
    requires NoReassignment(actions)
    ensures Chained(Run(actions).db)
  {
    if actions != [] {
      var init, a := actions[..|actions| - 1], actions[|actions| - 1];
      RunsStayChained(init);
      ExactlyOnce(init);
      RunsKeepJobsSound(init);
      var w := Run(init);
      if a.Drop? {
        DropStaysChained(w.db, w.now, a.r, a.vendor, a.h);
      } else {
        OtherStepsKeepSubmissions(w, a);
        SameSubmissionsStayChained(w.db, Next(w, a).db);
      }
    }
  }

  /** Each (rfp, vendor) has at most one received job, and it is the newest accepted submission. */
  lemma OneReceivedTheNewest(actions: seq<Action>, i: JobId, j: JobId)
    requires NoReassignment(actions)
    requires var db := Run(actions).db;
             && i in db.jobs && db.jobs[i].status == Received && j in db.jobs && j >= i
             && db.jobs[j].rfp == db.jobs[i].rfp && db.jobs[j].vendor == db.jobs[i].vendor
             && (db.jobs[j].status == Received || db.jobs[j].arrivedAs == Received)
    ensures i == j
  {
    RunsStayChained(actions);
    var db := Run(actions).db;
    assert ChainedAt(db, i) && ChainedAt(db, j);
    assert AcceptedFor(db, db.jobs[i].rfp, db.jobs[i].vendor, j);
  }

  /** Where the supersession links lead from `j`. */
  function ChainEnd(db: Db, j: JobId): JobId
    requires Chained(db) && j in db.jobs
    decreases db.nextJob - j
  {
    assert ChainedAt(db, j);
    if db.jobs[j].supersededBy.Some? then ChainEnd(db, db.jobs[j].supersededBy.value) else j
  }

  /** Links strictly increase the insertion order, so chains are acyclic; and from any accepted
      submission they end at the vendor's newest one, which is not superseded. */
  lemma {:induction false} ChainEndsAtNewest(db: Db, j: JobId)
    requires Chained(db) && j in db.jobs && db.jobs[j].arrivedAs == Received
    ensures var e := ChainEnd(db, j);
            && e in db.jobs && Newest(db, db.jobs[j].rfp, db.jobs[j].vendor, e)
            && db.jobs[e].status != Superseded
            && (db.jobs[j].supersededBy.Some? ==> j < db.jobs[j].supersededBy.value <= e)
    decreases db.nextJob - j
  {
    assert ChainedAt(db, j);
    if db.jobs[j].supersededBy.Some? {
      var k := db.jobs[j].supersededBy.value;
      ChainEndsAtNewest(db, k);
      assert ChainedAt(db, k);
    }
  }

  /** Dropping content that the same folder already has changes no row, whatever became of it. */
  lemma RedropChangesNothing(db: Db, now: int, r: RfpId, v: Vendor, h: Hash)
    requires KeyTaken(db, r, v, h) && v != ""
    ensures HandleDrop(db, now, r, Some(v), h).0 == db
    ensures HandleDrop(db, now, r, Some(v), h).1 in {Orphan, Late(None), Unattributed(None), DuplicateContent}
  {
  }

  // ---- where it breaks -----------------------------------------------------------------------

  /** An assignment in an open RFP keeps a vendor's received job unique exactly when the vendor has
      none yet: unlike the watcher, the route supersedes nothing. */
  lemma AssignmentKeepsUniquenessIff(db: Db, j: JobId, v: Vendor)
    requires j in db.jobs && db.jobs[j].status == NeedsAttribution && HasStatus(db, db.jobs[j].rfp, Open)
    requires AssignWrite(db, j, v, Received).1
    ensures var after := AssignWrite(db, j, v, Received).0;
            (exists i :: i in after.jobs && i != j && after.jobs[i].rfp == after.jobs[j].rfp &&
                         after.jobs[i].vendor == v && after.jobs[i].status == Received) <==>
            (exists i :: i in db.jobs && db.jobs[i].rfp == db.jobs[j].rfp &&
                         db.jobs[i].vendor == v && db.jobs[i].status == Received)
  {
    var after := AssignWrite(db, j, v, Received).0;
    assert forall i :: i in db.jobs && i != j ==> after.jobs[i] == db.jobs[i];
    if i :|
      i in db.jobs && db.jobs[i].rfp == db.jobs[j].rfp && db.jobs[i].vendor == v && db.jobs[i].status == Received {
      assert i != j && after.jobs[i] == db.jobs[i];
    }
  }

  // ---- the stuck RFP -------------------------------------------------------------------------

  /** An RFP in processing that still has a received job and has not passed anybody's count. */
  ghost predicate Stuck(w: World, r: RfpId) {
    && HasStatus(w.db, r, Processing) && r !in w.locks
    && (exists j :: IsReceivedOf(w.db, r, j))
    && forall t: nat :: IsScanning(w, t) ==> r !in w.ticks[t].passed
  }

  predicate IsReceivedOf(db: Db, r: RfpId, j: JobId) {
    j in db.jobs && db.jobs[j].rfp == r && db.jobs[j].status == Received
  }

  /** A drop that read "open" before the deadline leaves such an RFP behind exactly when its insert finds
      the content new and the RFP already in processing, with no flip of it under way. */
  lemma LateInsertGetsStuck(w: World, r: RfpId, v: Vendor, h: Hash)
    requires forall j :: !IsReceivedOf(w.db, r, j)
    ensures Stuck(Next(w, InsertJob(r, v, h, Received)), r) <==>
            && !KeyTaken(w.db, r, v, h) && HasStatus(w.db, r, Processing) && r !in w.locks
            && forall t: nat :: IsScanning(w, t) ==> r !in w.ticks[t].passed
  {
    var w' := Next(w, InsertJob(r, v, h, Received));
    assert forall t: nat :: IsScanning(w', t) <==> IsScanning(w, t);
    if KeyTaken(w.db, r, v, h) {
      assert w'.db == w.db;
    } else {
      assert IsReceivedOf(w'.db, r, w.db.nextJob);
    }
  }

  /** A queueing transaction past the jobs of a closed RFP: a drop that inserts now gets stuck when that
      transaction commits, exactly when its content is new. */
  lemma SweptInsertGetsStuck(w: World, q: nat, r: RfpId, v: Vendor, h: Hash)
    requires JobsSound(w) && CanCommit(w, q) && r in w.sweeps[q].swept && HasStatus(w.db, r, Closed) && LocksHeld(w)
    requires forall j :: IsReceivedOf(w.db, r, j) ==> Queues(w, q, j)
    requires forall t: nat :: IsScanning(w, t) ==> r !in w.ticks[t].passed
    ensures Stuck(Next(Next(w, InsertJob(r, v, h, Received)), CommitQueue(q)), r) <==> !KeyTaken(w.db, r, v, h)
  {
    var inserted := Next(w, InsertJob(r, v, h, Received));
    var after := Next(inserted, CommitQueue(q));
    assert SweepSound(w, w.sweeps[q]);
    assert CanCommit(inserted, q);
    assert forall t: nat :: IsScanning(after, t) <==> IsScanning(w, t);
    if KeyTaken(w.db, r, v, h) {
      forall j ensures !IsReceivedOf(after.db, r, j) { assert !(IsReceivedOf(w.db, r, j) && !Queues(w, q, j)); }
    } else {
      assert !Queues(w, q, w.db.nextJob);
      assert IsReceivedOf(after.db, r, w.db.nextJob);
    }
  }

  /** The steps that end it: the commit of a queueing transaction that has come to the RFP late and seen
      all its received jobs, or a link of a drop that supersedes all of them. */
  ghost predicate Releases(w: World, a: Action, r: RfpId) {
    match a
    case CommitQueue(q) => CanCommit(w, q) && forall j :: IsReceivedOf(w.db, r, j) ==> Queues(w, q, j)
    case Supersede(q, v, n) =>
      && q == r && n in w.db.jobs && w.db.jobs[n].rfp == r && w.db.jobs[n].vendor == v
      && forall j :: IsReceivedOf(w.db, r, j) ==> w.db.jobs[j].vendor == v && j != n && !Held(w, j)
    case _ => false
  }

  lemma StuckStepKeepsReceived(w: World, r: RfpId, a: Action, j: JobId)
    requires HasStatus(w.db, r, Processing) && IsReceivedOf(w.db, r, j) && w.db.nextJob !in w.db.jobs
    requires j in w.claimed ==> w.db.jobs[j].status == Running
    requires !a.Supersede? && !a.CommitQueue? && !a.Drop?
    ensures IsReceivedOf(Next(w, a).db, r, j)
  {
  }

  lemma StuckDropKeepsReceived(w: World, r: RfpId, a: Action, j: JobId)
    requires HasStatus(w.db, r, Processing) && IsReceivedOf(w.db, r, j) && w.db.nextJob !in w.db.jobs && a.Drop?
    ensures IsReceivedOf(Next(w, a).db, r, j)
  {
  }

  lemma StuckLinkKeepsSome(w: World, r: RfpId, a: Action, j: JobId)
    requires IsReceivedOf(w.db, r, j) && a.Supersede? && !Releases(w, a, r)
    ensures exists k :: IsReceivedOf(Next(w, a).db, r, k)
  {
    if Next(w, a) != w && a.r == r {
      var k :| IsReceivedOf(w.db, r, k) && !(w.db.jobs[k].vendor == a.v && k != a.newJob && !Held(w, k));
      assert IsReceivedOf(Next(w, a).db, r, k);
    } else {
      assert IsReceivedOf(Next(w, a).db, r, j);
    }
  }

  lemma StuckCommitKeepsSome(w: World, r: RfpId, q: nat, j: JobId)
    requires IsReceivedOf(w.db, r, j) && !Releases(w, CommitQueue(q), r)
    ensures exists k :: IsReceivedOf(Next(w, CommitQueue(q)).db, r, k)
  {
    if CanCommit(w, q) {
      var k :| IsReceivedOf(w.db, r, k) && !Queues(w, q, k);
      assert IsReceivedOf(Next(w, CommitQueue(q)).db, r, k);
    } else {
      assert IsReceivedOf(Next(w, CommitQueue(q)).db, r, j);
    }
  }

  lemma ReleaseLeavesNone(w: World, r: RfpId, a: Action)
    requires Releases(w, a, r)
    ensures forall k :: !IsReceivedOf(Next(w, a).db, r, k)
  {
    forall k ensures !IsReceivedOf(Next(w, a).db, r, k) {
      if k in w.db.jobs { assert IsReceivedOf(w.db, r, k) || w.db.jobs[k].rfp != r || w.db.jobs[k].status != Received; }
    }
  }

  lemma UnlockedStaysProcessing(w: World, r: RfpId, a: Action)
    requires HasStatus(w.db, r, Processing) && r !in w.locks
    ensures HasStatus(Next(w, a).db, r, Processing)
  {
  }

  lemma StuckIsNeverFlipped(w: World, r: RfpId, a: Action)
    requires Stuck(w, r)
    ensures r !in Next(w, a).locks
    ensures HasStatus(Next(w, a).db, r, Processing)
  {
    UnlockedStaysProcessing(w, r, a);
    if a.Flip? { assert IsScanning(w, a.t) ==> r !in w.ticks[a.t].passed; }
  }

  lemma StuckIsNeverCounted(w: World, r: RfpId, a: Action, t: nat)
    requires Stuck(w, r) && IsScanning(Next(w, a), t)
    ensures r !in Next(w, a).ticks[t].passed
  {
    var j :| IsReceivedOf(w.db, r, j);
    assert HasOpenJob(w.db, r);
    if t < |w.ticks| && IsScanning(w, t) { assert r !in w.ticks[t].passed; }
  }

  /** From there exactly those steps lead out: no deadline edit, tick, worker, new drop or administrator
      moves the RFP or its received jobs. */
  lemma ReleasedIff(w: World, r: RfpId, a: Action)
    requires Accounted(w) && JobsSound(w) && Stuck(w, r)
    ensures Stuck(Next(w, a), r) <==> !Releases(w, a, r)
  {
    if Releases(w, a, r) {
      ReleaseLeavesNone(w, r, a);
    } else {
      var j :| IsReceivedOf(w.db, r, j);
      if a.Supersede? {
        StuckLinkKeepsSome(w, r, a, j);
      } else if a.CommitQueue? {
        StuckCommitKeepsSome(w, r, a.q, j);
      } else if a.Drop? {
        StuckDropKeepsReceived(w, r, a, j);
      } else {
        StuckStepKeepsReceived(w, r, a, j);
      }
      StuckIsNeverFlipped(w, r, a);
      forall t: nat | IsScanning(Next(w, a), t) ensures r !in Next(w, a).ticks[t].passed {
        StuckIsNeverCounted(w, r, a, t);
      }
    }
  }

  function RunFrom(w: World, actions: seq<Action>): World
    decreases |actions|
  {
    if actions == [] then w else RunFrom(Next(w, actions[0]), actions[1..])
  }

  /** No step of the run releases the RFP. */
  ghost predicate NeverReleased(w: World, r: RfpId, actions: seq<Action>)
    decreases |actions|
  {
    actions != [] ==> !Releases(w, actions[0], r) && NeverReleased(Next(w, actions[0]), r, actions[1..])
  }

  /** Over every further run, at transaction grain: the RFP is stuck throughout exactly when no step
      releases it; it then stays in processing and no event is ever logged for it. */
  lemma {:induction false} StuckForever(w: World, r: RfpId, actions: seq<Action>)
    requires Accounted(w) && JobsSound(w) && Stuck(w, r)
    ensures NeverReleased(w, r, actions) <==> forall n :: 0 <= n <= |actions| ==> Stuck(RunFrom(w, actions[..n]), r)
    ensures NeverReleased(w, r, actions) ==>
              HasStatus(RunFrom(w, actions).db, r, Processing) && EventCount(RunFrom(w, actions).db, r) == 0
    decreases |actions|
  {
    if actions == [] {
      assert actions[..0] == actions;
    } else {
      var next, rest := Next(w, actions[0]), actions[1..];
      ReleasedIff(w, r, actions[0]);
      StepKeepsAccounts(w, actions[0]);
      StepKeepsJobsSound(w, actions[0]);
      assert RunFrom(w, actions[..0]) == w;
      forall n: nat | n < |actions| ensures RunFrom(w, actions[..n + 1]) == RunFrom(next, rest[..n]) {
        assert actions[..n + 1][1..] == rest[..n];
      }
      if Stuck(next, r) {
        StuckForever(next, r, rest);
        StuckThroughout(w, r, actions);
      } else {
        assert rest[..0] == [] && RunFrom(next, rest[..0]) == next;
        assert RunFrom(w, actions[..1]) == next;
      }
    }
  }

  lemma StuckThroughout(w: World, r: RfpId, actions: seq<Action>)
    requires actions != [] && Stuck(w, r)
    requires forall n: nat :: n < |actions| ==>
        RunFrom(w, actions[..n + 1]) == RunFrom(Next(w, actions[0]), actions[1..][..n])
    ensures (forall n :: 0 <= n <= |actions| ==> Stuck(RunFrom(w, actions[..n]), r)) <==>
            (forall n :: 0 <= n <= |actions[1..]| ==> Stuck(RunFrom(Next(w, actions[0]), actions[1..][..n]), r))
  {
    var next, rest := Next(w, actions[0]), actions[1..];
    assert RunFrom(w, actions[..0]) == w;
    if forall n :: 0 <= n <= |actions| ==> Stuck(RunFrom(w, actions[..n]), r) {
      forall n | 0 <= n <= |rest| ensures Stuck(RunFrom(next, rest[..n]), r) {
        assert RunFrom(w, actions[..n + 1]) == RunFrom(next, rest[..n]);
      }
    }
    if forall n :: 0 <= n <= |rest| ==> Stuck(RunFrom(next, rest[..n]), r) {
      forall n | 0 <= n <= |actions| ensures Stuck(RunFrom(w, actions[..n]), r) {
        if n > 0 { assert RunFrom(w, actions[..n - 1 + 1]) == RunFrom(next, rest[..n - 1]); }
      }
    }
  }
}
