/** One undisturbed scheduler iteration of app/jobs/deadline_processor.py: `tick` and its four
    phases, run on the tables with nobody in between.

    What the agents make of a job is a parameter: `outcome(j)` says whether processing job `j`
    succeeds. */
module DeadlineTick {
  import opened Common
  import opened IngestionTables
  import opened FactStore
  import IngestionRuns

  // ---- the phases as functions ---------------------------------------------------------------

  function ClosedRfps(db: Db): set<RfpId> {
    set r | r in db.rfps && db.rfps[r].status == Closed && db.rfps[r].mode != Manual
  }

  function QueueSome(db: Db, rs: set<RfpId>): Db {
    db.(jobs := map j | j in db.jobs ::
                  if db.jobs[j].rfp in rs && db.jobs[j].status == Received then db.jobs[j].(status := Queued)
                      else db.jobs[j],
        rfps := map r | r in db.rfps ::
                  if r in rs && db.rfps[r].status == Closed then db.rfps[r].(status := Processing) else db.rfps[r])
  }

  function QueuedJobs(db: Db): set<JobId> {
    set j | j in db.jobs && db.jobs[j].status == Queued
  }

  function ProcessSome(db: Db, js: set<JobId>, outcome: JobId -> bool): Db {
    db.(jobs := map j | j in db.jobs ::
                  if j in js && db.jobs[j].status == Queued then db.jobs[j].(status := if outcome(j) then Ready
                      else Failed)
                  else db.jobs[j])
  }

  function Succeeding(js: set<JobId>, outcome: JobId -> bool): set<JobId> {
    set j | j in js && outcome(j)
  }

  /** `done` of the jobs succeeded and `failed` did not. */
  predicate Counted(js: set<JobId>, outcome: JobId -> bool, done: nat, failed: nat) {
    done == |Succeeding(js, outcome)| && done + failed == |js|
  }

  predicate Finalizable(db: Db, r: RfpId) {
    HasStatus(db, r, Processing) && !HasOpenJob(db, r) && HasReadyJob(db, r)
  }

  function InProcessing(db: Db): set<RfpId> {
    set r | r in db.rfps && db.rfps[r].status == Processing
  }

  function CompleteAmong(db: Db, rs: set<RfpId>): set<RfpId> {
    set r | r in rs && Finalizable(db, r)
  }

  function Winners(db: Db): set<RfpId> {
    set r | r in db.rfps && Finalizable(db, r)
  }

  function FlipSome(db: Db, rs: set<RfpId>): Db {
    db.(rfps := map r | r in db.rfps ::
                  if r in rs && Finalizable(db, r) then db.rfps[r].(status := FactsReady) else db.rfps[r])
  }

  function EventsOf(db: Db, rs: set<RfpId>): multiset<Event> {
    multiset(set r | r in rs && r in db.rfps :: EventFor(r, db.rfps[r].mode))
  }

  function AfterQueueing(db: Db, now: int): Db {
    var closed := CloseExpired(db, now);
    QueueSome(closed, ClosedRfps(closed))
  }

  function Processed(db: Db, now: int, outcome: JobId -> bool): Db {
    var queued := AfterQueueing(db, now);
    ProcessSome(queued, QueuedJobs(queued), outcome)
  }

  /** The tables after one whole tick. */
  function Ticked(db: Db, now: int, outcome: JobId -> bool): Db {
    var processed := Processed(db, now, outcome);
    var won := Winners(processed);
    FlipSome(processed, won).(events := processed.events + EventsOf(processed, won))
  }

  /** Past its deadline and still open, or closed, and not left to the customer. */
  predicate TakenOn(rfp: Rfp, now: int) {
    rfp.mode != Manual && (rfp.status == Closed ||
      (rfp.status == Open && rfp.deadline.Some? && rfp.deadline.value < now))
  }

  /** The job waits for a worker, or is received for an RFP that is taken on. */
  predicate Due(db: Db, j: JobId, now: int) {
    j in db.jobs && (db.jobs[j].status == Queued ||
      (db.jobs[j].status == Received && db.jobs[j].rfp in db.rfps && TakenOn(db.rfps[db.jobs[j].rfp], now)))
  }

  datatype Report = Report(closed: nat, queued: nat, processed: nat, failed: nat, factsReady: nat, events: nat)

  // ---- the tick as the source runs it -----------------------------------------------------------

  method CloseExpiredRfps(store: Store, now: int) returns (n: nat)
    modifies store`rfps
    ensures store.State() == CloseExpired(old(store.State()), now)
    ensures store.rfps.Keys == old(store.rfps).Keys
    ensures forall r :: r in old(store.rfps) ==>
              var was, after := old(store.rfps)[r], store.rfps[r];
              && after.deadline == was.deadline && after.mode == was.mode
              && after.status ==
                   if was.status == Open && was.mode != Manual && was.deadline.Some? && was.deadline.value < now
                   then Closed else was.status
    ensures n == |set r | r in old(store.rfps) && old(store.rfps)[r].status == Open && store.rfps[r].status == Closed|
  {
    ghost var before := store.rfps;
    n := |set r | r in store.rfps && Expired(store.rfps[r], now)|;
    store.rfps := map r | r in store.rfps :: if Expired(store.rfps[r], now) then store.rfps[r].(status := Closed)
        else store.rfps[r];
    assert (set r | r in before && before[r].status == Open && store.rfps[r].status == Closed) ==
           (set r | r in before && Expired(before[r], now));
  }

  method QueueReceivedJobs(store: Store) returns (advanced: nat)
    modifies store`rfps, store`jobs
    ensures store.State() == QueueSome(old(store.State()), ClosedRfps(old(store.State())))
    ensures advanced == |ClosedRfps(old(store.State()))|
  {
    ghost var before := store.State();
    var todo := ClosedRfps(store.State());
    ghost var done: set<RfpId> := {};
    advanced := 0;
    NoneIsNothing(before);
    while todo != {}
      invariant done + todo == ClosedRfps(before) && done !! todo
      invariant advanced == |done|
      invariant store.State() == QueueSome(before, done)
      decreases todo
    {
      var r :| r in todo;
      QueueNext(store, before, done, r);
      advanced := advanced + 1;
      todo, done := todo - {r}, done + {r};
    }
    assert todo == {} && done == ClosedRfps(before);
  }

  /** One round of the loop. */
  method QueueNext(store: Store, ghost before: Db, ghost done: set<RfpId>, r: RfpId)
    requires store.State() == QueueSome(before, done)
    modifies store`rfps, store`jobs
    ensures store.State() == QueueSome(before, done + {r})
  {
    QueueOne(store, r);
    OneMoreQueued(before, done, r);
  }

  /** The body of the loop: the two UPDATEs for one RFP. */
  method QueueOne(store: Store, r: RfpId)
    modifies store`rfps, store`jobs
    ensures store.State() == QueueSome(old(store.State()), {r})
  {
    store.jobs := map j | j in store.jobs ::
      if store.jobs[j].rfp == r && store.jobs[j].status == Received then store.jobs[j].(status := Queued)
          else store.jobs[j];
    if r in store.rfps && store.rfps[r].status == Closed {
      store.rfps := store.rfps[r := store.rfps[r].(status := Processing)];
    }
    assert store.jobs == QueueSome(old(store.State()), {r}).jobs;
    assert store.rfps == QueueSome(old(store.State()), {r}).rfps;
  }

  /** `process_job`: claim, then mark; a job that cannot be claimed reports a failure. */
  method ProcessJob(store: Store, j: JobId, outcome: JobId -> bool) returns (ok: bool)
    modifies store`jobs
    ensures store.State() == ProcessSome(old(store.State()), {j}, outcome)
    ensures ok == (j in old(store.jobs) && old(store.jobs)[j].status == Queued && outcome(j))
  {
    if j !in store.jobs || store.jobs[j].status != Queued {
      assert store.jobs == ProcessSome(store.State(), {j}, outcome).jobs;
      return false;
    }
    store.jobs := store.jobs[j := store.jobs[j].(status := Running)];
    ok := outcome(j);
    store.jobs := store.jobs[j := store.jobs[j].(status := if ok then Ready else Failed)];
    assert store.jobs == ProcessSome(old(store.State()), {j}, outcome).jobs;
  }

  /** One of the workers: its job is still queued, whatever the others have done. */
  method ProcessNext(store: Store, ghost before: Db, ghost handled: set<JobId>, j: JobId, outcome: JobId -> bool,
      done: nat, failed: nat)
    returns (done': nat, failed': nat)
    requires store.State() == ProcessSome(before, handled, outcome) && j in QueuedJobs(before) && j !in handled
    requires Counted(handled, outcome, done, failed)
    modifies store`jobs
    ensures store.State() == ProcessSome(before, handled + {j}, outcome)
    ensures Counted(handled + {j}, outcome, done', failed')
  {
    StillQueued(before, handled, j, outcome);
    var ok := ProcessJob(store, j, outcome);
    OneMoreProcessed(before, handled, j, outcome);
    if ok { done', failed' := done + 1, failed; } else { done', failed' := done, failed + 1; }
  }

  /** The workers still to run. */
  method ProcessRest(store: Store, ghost before: Db, ghost handled: set<JobId>, todo: set<JobId>,
      outcome: JobId -> bool, done: nat, failed: nat)
    returns (done': nat, failed': nat)
    requires store.State() == ProcessSome(before, handled, outcome) && Counted(handled, outcome, done, failed)
    requires todo <= QueuedJobs(before) && todo !! handled
    modifies store`jobs
    ensures store.State() == ProcessSome(before, handled + todo, outcome) &&
        Counted(handled + todo, outcome, done', failed')
    decreases todo
  {
    if todo == {} {
      assert handled + todo == handled;
      return done, failed;
    }
    var j :| j in todo;
    done', failed' := ProcessNext(store, before, handled, j, outcome, done, failed);
    assert handled + {j} + (todo - {j}) == handled + todo;
    done', failed' := ProcessRest(store, before, handled + {j}, todo - {j}, outcome, done', failed');
  }

  method ProcessJobs(store: Store, ids: set<JobId>, outcome: JobId -> bool) returns (done: nat, failed: nat)
    requires ids <= QueuedJobs(store.State())
    modifies store`jobs
    ensures store.State() == ProcessSome(old(store.State()), ids, outcome)
    ensures Counted(ids, outcome, done, failed)
  {
    NoneProcessed(store.State(), outcome);
    assert {} + ids == ids;
    done, failed := ProcessRest(store, store.State(), {}, ids, outcome, 0, 0);
  }

  method FinalizeCompletedRfps(store: Store) returns (finalized: nat, emitted: nat)
    modifies store`rfps, store`events
    ensures var before := old(store.State());
            store.State() == FlipSome(before, Winners(before)).(events := before.events + EventsOf(before,
                Winners(before)))
    ensures finalized == emitted == |Winners(old(store.State()))|
  {
    ghost var before := store.State();
    var winners := FlipCompleted(store);
    finalized := |winners|;
    emitted := EmitAll(store, winners, before);
  }

  /** The first half: count each RFP's jobs, flip it, remember the winner. */
  method FlipCompleted(store: Store) returns (winners: set<RfpId>)
    modifies store`rfps
    ensures winners == Winners(old(store.State()))
    ensures store.State() == FlipSome(old(store.State()), winners)
  {
    ghost var before := store.State();
    NoneIsNothing(before);
    var todo := InProcessing(store.State());
    ghost var seen: set<RfpId> := {};
    winners := {};
    while todo != {}
      invariant seen + todo == InProcessing(before) && seen !! todo
      invariant store.State() == FlipSome(before, seen)
      invariant winners == CompleteAmong(before, seen)
      decreases todo
    {
      var r :| r in todo;
      OneMoreFlipped(before, seen, r);
      var won := FinalizeRfp(store, r);
      if won { winners := winners + {r}; }
      todo, seen := todo - {r}, seen + {r};
    }
    OnlyWinnersFlip(before, seen);
  }

  /** The body of the loop: count, then flip if the status still allows it. */
  method FinalizeRfp(store: Store, r: RfpId) returns (won: bool)
    requires r in store.rfps
    modifies store`rfps
    ensures store.State() == FlipSome(old(store.State()), {r}) && won == Finalizable(old(store.State()), r)
  {
    won := !HasOpenJob(store.State(), r) && HasReadyJob(store.State(), r) && store.rfps[r].status == Processing;
    if won { store.rfps := store.rfps[r := store.rfps[r].(status := FactsReady)]; }
    assert store.rfps == FlipSome(old(store.State()), {r}).rfps;
  }

  method EmitAll(store: Store, winners: set<RfpId>, ghost before: Db) returns (emitted: nat)
    requires winners <= store.rfps.Keys && store.rfps.Keys == before.rfps.Keys
    requires forall r :: r in store.rfps ==> store.rfps[r].mode == before.rfps[r].mode
    modifies store`events
    ensures store.events == old(store.events) + EventsOf(before, winners) && emitted == |winners|
  {
    emitted := 0;
    var todo := winners;
    ghost var done: set<RfpId> := {};
    while todo != {}
      invariant done + todo == winners && done !! todo
      invariant store.events == old(store.events) + EventsOf(before, done) && emitted == |done|
      decreases todo
    {
      var r :| r in todo;
      store.EmitEvent(EventFor(r, store.rfps[r].mode));
      emitted := emitted + 1;
      OneMoreEvent(before, done, r);
      todo, done := todo - {r}, done + {r};
    }
    assert done == winners;
  }

  method Tick(store: Store, now: int, outcome: JobId -> bool) returns (report: Report)
    modifies store`rfps, store`jobs, store`events
    ensures store.State() == Ticked(old(store.State()), now, outcome)
    ensures report.closed == |set r | r in old(store.rfps) && old(store.rfps)[r].status == Open &&
              old(store.rfps)[r].mode != Manual && old(store.rfps)[r].deadline.Some? &&
              old(store.rfps)[r].deadline.value < now|
    ensures report.queued == |set r | r in old(store.rfps) && TakenOn(old(store.rfps)[r], now)|
    ensures var jobs := old(store.jobs);
            && report.processed == |set j | j in jobs && Due(old(store.State()), j, now) && outcome(j)|
            && report.processed + report.failed == |set j | j in jobs && Due(old(store.State()), j, now)|
    ensures report.events == report.factsReady ==
            |set r | r in old(store.rfps) && old(store.rfps)[r].status != FactsReady &&
              HasStatus(store.State(), r, FactsReady)|
  {
    ghost var before := store.rfps;
    var closed := CloseExpiredRfps(store, now);
    assert (set r | r in before && before[r].status == Open && store.rfps[r].status == Closed) ==
           (set r | r in before && before[r].status == Open && before[r].mode != Manual && before[r].deadline.Some? &&
                    before[r].deadline.value < now);
    var queued := QueueReceivedJobs(store);
    var ids := QueuedJobs(store.State());
    var ok, failed := 0, 0;
    if ids != {} {
      ok, failed := ProcessJobs(store, ids, outcome);
    } else {
      NoneProcessed(store.State(), outcome);
    }
    assert store.State() == Processed(old(store.State()), now, outcome);
    var factsReady, emitted := FinalizeCompletedRfps(store);
    report := Report(closed, queued, ok, failed, factsReady, emitted);
    CountsAre(old(store.State()), now, outcome);
  }

  /** The sets the report counts, read off the tables before the tick. */
  lemma CountsAre(db: Db, now: int, outcome: JobId -> bool)
    ensures ClosedRfps(CloseExpired(db, now)) == set r | r in db.rfps && TakenOn(db.rfps[r], now)
    ensures QueuedJobs(AfterQueueing(db, now)) == set j | j in db.jobs && Due(db, j, now)
    ensures Succeeding(QueuedJobs(AfterQueueing(db, now)), outcome) ==
            set j | j in db.jobs && Due(db, j, now) && outcome(j)
    ensures Winners(Processed(db, now, outcome)) ==
            set r | r in db.rfps && db.rfps[r].status != FactsReady &&
              HasStatus(Ticked(db, now, outcome), r, FactsReady)
  {
    assert forall j :: j in QueuedJobs(AfterQueueing(db, now)) <==> j in db.jobs && Due(db, j, now);
    var processed := Processed(db, now, outcome);
    var after := Ticked(db, now, outcome);
    forall r
      ensures r in Winners(processed) <==>
              r in db.rfps && db.rfps[r].status != FactsReady && HasStatus(after, r, FactsReady)
    {
      if r in db.rfps { TakenIffFinalizable(db, now, outcome, r); }
    }
  }

  lemma NoneIsNothing(db: Db)
    ensures QueueSome(db, {}) == db && FlipSome(db, {}) == db
  {
    assert QueueSome(db, {}).jobs == db.jobs && QueueSome(db, {}).rfps == db.rfps;
    assert FlipSome(db, {}).rfps == db.rfps;
  }

  lemma NoneProcessed(db: Db, outcome: JobId -> bool)
    ensures ProcessSome(db, {}, outcome) == db && Counted({}, outcome, 0, 0)
  {
    assert Succeeding({}, outcome) == {};
    assert ProcessSome(db, {}, outcome).jobs == db.jobs;
  }

  lemma StillQueued(db: Db, done: set<JobId>, j: JobId, outcome: JobId -> bool)
    requires j in QueuedJobs(db) && j !in done
    ensures var after := ProcessSome(db, done, outcome); j in after.jobs && after.jobs[j].status == Queued
  {
  }

  lemma OneMoreQueued(db: Db, done: set<RfpId>, r: RfpId)
    ensures QueueSome(QueueSome(db, done), {r}) == QueueSome(db, done + {r})
  {
    var twice, once := QueueSome(QueueSome(db, done), {r}), QueueSome(db, done + {r});
    assert twice.jobs == once.jobs;
    assert twice.rfps == once.rfps;
  }

  lemma OneMoreProcessed(db: Db, done: set<JobId>, j: JobId, outcome: JobId -> bool)
    requires j !in done
    ensures ProcessSome(ProcessSome(db, done, outcome), {j}, outcome) == ProcessSome(db, done + {j}, outcome)
    ensures |Succeeding(done + {j}, outcome)| == |Succeeding(done, outcome)| + (if outcome(j) then 1 else 0)
  {
    assert Succeeding(done + {j}, outcome) == Succeeding(done, outcome) + if outcome(j) then {j} else {};
    assert ProcessSome(ProcessSome(db, done, outcome), {j}, outcome).jobs == ProcessSome(db, done + {j}, outcome).jobs;
  }

  // ---- the queueing transaction, statement by statement ------------------------------------------

  /** The job UPDATEs of one transaction, RFP after RFP. */
  function SweepAll(w: IngestionRuns.World, q: nat, rs: seq<RfpId>): IngestionRuns.World {
    if rs == [] then w
    else IngestionRuns.Next(SweepAll(w, q, rs[..|rs| - 1]), IngestionRuns.QueueJobs(q, rs[|rs| - 1]))
  }

  function ReceivedIn(db: Db, rs: seq<RfpId>): set<JobId> {
    set j | j in db.jobs && db.jobs[j].status == Received && db.jobs[j].rfp in rs
  }

  lemma {:induction false} SweepAllHolds(w: IngestionRuns.World, q: nat, rs: seq<RfpId>)
    requires w.sweeps == map[] && forall i :: 0 <= i < |rs| ==> rs[i] in ClosedRfps(w.db)
    ensures var w' := SweepAll(w, q, rs);
            && w'.db == w.db
            && w'.sweeps == if rs == [] then map[]
                else map[q := IngestionRuns.Sweep((set r | r in rs), ReceivedIn(w.db, rs), {})]
  {
    if rs != [] {
      var init, last := rs[..|rs| - 1], rs[|rs| - 1];
      SweepAllHolds(w, q, init);
      var w1 := SweepAll(w, q, init);
      OneMoreSwept(w1, q, init, last);
      assert forall r :: r in rs <==> r in init || r == last;
      assert (set r | r in rs) == (set r | r in init) + {last};
      assert ReceivedIn(w.db, rs) == ReceivedIn(w.db, init) + ReceivedIn(w.db, [last]);
      assert last in ClosedRfps(w.db);
      assert SweepAll(w, q, rs) == w1.(sweeps := w1.sweeps[q := IngestionRuns.SweepOne(w1, q, last)]);
      assert w1.sweeps[q := IngestionRuns.SweepOne(w1, q, last)] == map[q := IngestionRuns.SweepOne(w1, q, last)];
    }
  }

  lemma OneMoreSwept(w: IngestionRuns.World, q: nat, rs: seq<RfpId>, r: RfpId)
    requires w.sweeps == if rs == [] then map[]
        else map[q := IngestionRuns.Sweep((set x | x in rs), ReceivedIn(w.db, rs), {})]
    ensures var tx := IngestionRuns.SweepOne(w, q, r);
            && tx.swept == (set x | x in rs) + {r} && tx.moved == ReceivedIn(w.db, rs) + ReceivedIn(w.db, [r]) &&
                tx.waits == {}
  {
    var tx := IngestionRuns.SweepOne(w, q, r);
    forall j | j in ReceivedIn(w.db, [r]) ensures j in tx.moved {
      if IngestionRuns.Held(w, j) { assert j in ReceivedIn(w.db, rs); }
    }
  }

  /** With nobody in between, the transaction does what `QueueReceivedJobs` states. */
  lemma SweepAloneIsOneStep(w: IngestionRuns.World, q: nat, rs: seq<RfpId>)
    requires w.sweeps == map[] && rs != [] && forall i :: 0 <= i < |rs| ==> rs[i] in ClosedRfps(w.db)
    ensures IngestionRuns.Next(SweepAll(w, q, rs), IngestionRuns.CommitQueue(q)).db == QueueSome(w.db, set r | r in rs)
  {
    SweepAllHolds(w, q, rs);
    var w' := SweepAll(w, q, rs);
    var after := IngestionRuns.Next(w', IngestionRuns.CommitQueue(q)).db;
    assert IngestionRuns.CanCommit(w', q);
    assert after.jobs == QueueSome(w.db, set r | r in rs).jobs;
    assert after.rfps == QueueSome(w.db, set r | r in rs).rfps;
  }

  // ---- workers that overlap ----------------------------------------------------------------------

  /** The two writes of one worker; others may come between.  The claim is conditional, the mark is not. */
  datatype WorkerStep = Claim(j: JobId) | Mark(j: JobId)

  function Worked(db: Db, outcome: JobId -> bool, s: WorkerStep): Db {
    match s
    case Claim(j) => SetJobStatus(db, j, Queued, Running)
    case Mark(j) =>
      if j in db.jobs then db.(jobs := db.jobs[j := db.jobs[j].(status := if outcome(j) then Ready else Failed)])
          else db
  }

  function WorkedAll(db: Db, outcome: JobId -> bool, steps: seq<WorkerStep>): Db {
    if steps == [] then db else Worked(WorkedAll(db, outcome, steps[..|steps| - 1]), outcome, steps[|steps| - 1])
  }

  /** Each worker marks its own job after claiming it, and only then. */
  predicate MarksFollowClaims(steps: seq<WorkerStep>) {
    forall i :: 0 <= i < |steps| && steps[i].Mark? ==> Claim(steps[i].j) in steps[..i]
  }

  /** After any interleaving of the workers' writes a job that was queued is where its own worker has
      got to, and every other job is untouched. */
  lemma {:induction false} WorkersDoNotInterfere(db: Db, outcome: JobId -> bool, steps: seq<WorkerStep>, j: JobId)
    requires MarksFollowClaims(steps) && j in db.jobs
    requires forall i :: 0 <= i < |steps| ==> steps[i].j in QueuedJobs(db)
    ensures var after := WorkedAll(db, outcome, steps);
            && after.jobs.Keys == db.jobs.Keys && after.(jobs := db.jobs) == db
            && after.jobs[j] == db.jobs[j].(status :=
                 if Mark(j) in steps then (if outcome(j) then Ready else Failed)
                 else if Claim(j) in steps then Running else db.jobs[j].status)
  {
    if steps != [] {
      var init, last := steps[..|steps| - 1], steps[|steps| - 1];
      PrefixFollowsClaims(steps);
      WorkersDoNotInterfere(db, outcome, init, j);
      if last == Mark(j) { MarkedWasClaimed(steps, j); }
      if Mark(j) in init { MarkedWasClaimed(init, j); }
      WorkedRow(WorkedAll(db, outcome, init), outcome, last, j);
    }
  }

  /** What one write does to the row of job `j`. */
  lemma WorkedRow(db: Db, outcome: JobId -> bool, s: WorkerStep, j: JobId)
    requires j in db.jobs
    ensures var after := Worked(db, outcome, s);
            && after.jobs.Keys == db.jobs.Keys && after.(jobs := db.jobs) == db
            && after.jobs[j] == db.jobs[j].(status :=
                 if s == Mark(j) then (if outcome(j) then Ready else Failed)
                 else if s == Claim(j) && db.jobs[j].status == Queued then Running else db.jobs[j].status)
  {
  }

  lemma PrefixFollowsClaims(steps: seq<WorkerStep>)
    requires MarksFollowClaims(steps) && steps != []
    ensures var init, last := steps[..|steps| - 1], steps[|steps| - 1];
            && MarksFollowClaims(init) && (forall s :: s in steps <==> s in init || s == last)
  {
    var init := steps[..|steps| - 1];
    forall i | 0 <= i < |init| && init[i].Mark?
      ensures Claim(init[i].j) in init[..i]
    {
      assert init[..i] == steps[..i];
    }
  }

  lemma MarkedWasClaimed(steps: seq<WorkerStep>, j: JobId)
    requires MarksFollowClaims(steps) && Mark(j) in steps
    ensures Claim(j) in steps
  {
    var i :| 0 <= i < |steps| && steps[i] == Mark(j);
    assert Claim(j) in steps[..i];
  }

  /** So workers run in parallel come to what they come to one after another. */
  lemma OverlapMakesNoDifference(db: Db, outcome: JobId -> bool, ids: set<JobId>, steps: seq<WorkerStep>)
    requires ids <= QueuedJobs(db) && MarksFollowClaims(steps)
    requires forall i :: 0 <= i < |steps| ==> steps[i].j in ids
    requires forall j :: j in ids ==> Mark(j) in steps
    ensures WorkedAll(db, outcome, steps) == ProcessSome(db, ids, outcome)
  {
    var after := WorkedAll(db, outcome, steps);
    forall j | j in db.jobs ensures j in after.jobs && after.jobs[j] == ProcessSome(db, ids, outcome).jobs[j] {
      WorkersDoNotInterfere(db, outcome, steps, j);
      if j !in ids { NotMentioned(steps, ids, j); }
    }
    SameOtherwise(db, outcome, steps);
    assert after.jobs == ProcessSome(db, ids, outcome).jobs;
  }

  lemma NotMentioned(steps: seq<WorkerStep>, ids: set<JobId>, j: JobId)
    requires j !in ids && forall i :: 0 <= i < |steps| ==> steps[i].j in ids
    ensures Mark(j) !in steps && Claim(j) !in steps
  {
  }

  lemma {:induction false} SameOtherwise(db: Db, outcome: JobId -> bool, steps: seq<WorkerStep>)
    ensures var after := WorkedAll(db, outcome, steps); after.jobs.Keys == db.jobs.Keys && after.(jobs := db.jobs) == db
  {
    if steps != [] { SameOtherwise(db, outcome, steps[..|steps| - 1]); }
  }

  lemma FlipsAreIndependent(db: Db, done: set<RfpId>, r: RfpId)
    requires r in db.rfps && r !in done
    ensures Finalizable(FlipSome(db, done), r) <==> Finalizable(db, r)
  {
    var after := FlipSome(db, done);
    assert after.jobs == db.jobs && r in after.rfps && after.rfps[r] == db.rfps[r];
  }

  lemma OneMoreFlipped(db: Db, done: set<RfpId>, r: RfpId)
    requires r in db.rfps && r !in done
    ensures FlipSome(FlipSome(db, done), {r}) == FlipSome(db, done + {r})
    ensures Finalizable(FlipSome(db, done), r) <==> Finalizable(db, r)
    ensures CompleteAmong(db, done + {r}) == CompleteAmong(db, done) + (if Finalizable(db, r) then {r} else {})
  {
    FlipsAreIndependent(db, done, r);
    var half := FlipSome(db, done);
    assert FlipSome(half, {r}).rfps == FlipSome(db, done + {r}).rfps;
  }

  lemma OnlyWinnersFlip(db: Db, seen: set<RfpId>)
    requires seen == InProcessing(db)
    ensures CompleteAmong(db, seen) == Winners(db)
    ensures FlipSome(db, seen) == FlipSome(db, Winners(db))
  {
    assert FlipSome(db, seen).rfps == FlipSome(db, Winners(db)).rfps;
  }

  lemma OneMoreEvent(db: Db, done: set<RfpId>, r: RfpId)
    requires r in db.rfps && r !in done && done <= db.rfps.Keys
    ensures EventsOf(db, done + {r}) == EventsOf(db, done) + multiset{EventFor(r, db.rfps[r].mode)}
  {
    var earlier := set q | q in done && q in db.rfps :: EventFor(q, db.rfps[q].mode);
    var e := EventFor(r, db.rfps[r].mode);
    assert e !in earlier;
    assert (set q | q in done + {r} && q in db.rfps :: EventFor(q, db.rfps[q].mode)) == earlier + {e};
  }

  // ---- what a tick achieves --------------------------------------------------------------------

  /** The tick takes this RFP up to the job count: it is expired, or was closed before and is not
      manual, or is in processing with no received job left behind. */
  predicate TakenUp(db: Db, r: RfpId, now: int) {
    && r in db.rfps
    && (Expired(db.rfps[r], now) || (db.rfps[r].status == Closed && db.rfps[r].mode != Manual)
        || (db.rfps[r].status == Processing && !HasJobIn(db, r, Received)))
  }

  predicate HasJobIn(db: Db, r: RfpId, s: JobStatus) {
    exists j :: j in db.jobs && db.jobs[j].rfp == r && db.jobs[j].status == s
  }

  /** Some job of the RFP has succeeded or will in this tick. */
  predicate HasSuccess(db: Db, r: RfpId, outcome: JobId -> bool) {
    exists j :: j in db.jobs && db.jobs[j].rfp == r &&
      (db.jobs[j].status == Ready || ((db.jobs[j].status == Received || db.jobs[j].status == Queued) && outcome(j)))
  }

  /** What becomes of one job in the first three phases. */
  lemma JobAfterProcessing(db: Db, now: int, outcome: JobId -> bool, j: JobId)
    requires j in db.jobs
    ensures var after := Processed(db, now, outcome); var r := db.jobs[j].rfp;
            && j in after.jobs && after.jobs[j].rfp == r
            && after.jobs[j].status ==
               (if db.jobs[j].status == Queued || (db.jobs[j].status == Received &&
                   r in ClosedRfps(CloseExpired(db, now)))
                then (if outcome(j) then Ready else Failed) else db.jobs[j].status)
  {
  }

  lemma RfpAfterProcessing(db: Db, now: int, outcome: JobId -> bool, r: RfpId)
    requires r in db.rfps
    ensures var after := Processed(db, now, outcome);
            && r in after.rfps && after.rfps[r].mode == db.rfps[r].mode
            && after.rfps[r].status ==
               (if Expired(db.rfps[r], now) || (db.rfps[r].status == Closed && db.rfps[r].mode != Manual)
                then Processing else db.rfps[r].status)
            && (r in ClosedRfps(CloseExpired(db, now)) <==>
                Expired(db.rfps[r], now) || (db.rfps[r].status == Closed && db.rfps[r].mode != Manual))
  {
  }

  lemma OpenJobsAfterProcessing(db: Db, now: int, outcome: JobId -> bool, r: RfpId)
    requires r in db.rfps && HasStatus(Processed(db, now, outcome), r, Processing)
    ensures !HasOpenJob(Processed(db, now, outcome), r) <==> TakenUp(db, r, now) && !HasJobIn(db, r, Running)
  {
    var after := Processed(db, now, outcome);
    RfpAfterProcessing(db, now, outcome, r);
    forall j | j in db.jobs && db.jobs[j].rfp == r
      ensures j in after.jobs && after.jobs[j].rfp == r
      ensures InOpenState(after.jobs[j].status) <==>
              db.jobs[j].status == Running || (db.jobs[j].status == Received && r !in ClosedRfps(CloseExpired(db, now)))
    {
      JobAfterProcessing(db, now, outcome, j);
    }
    assert after.jobs.Keys == db.jobs.Keys;
    forall j | j in after.jobs && after.jobs[j].rfp == r ensures db.jobs[j].rfp == r {
      JobAfterProcessing(db, now, outcome, j);
    }
  }

  lemma ReadyJobsAfterProcessing(db: Db, now: int, outcome: JobId -> bool, r: RfpId)
    requires TakenUp(db, r, now)
    ensures HasReadyJob(Processed(db, now, outcome), r) <==> HasSuccess(db, r, outcome)
  {
    var after := Processed(db, now, outcome);
    RfpAfterProcessing(db, now, outcome, r);
    assert after.jobs.Keys == db.jobs.Keys;
    forall j | j in db.jobs
      ensures j in after.jobs && after.jobs[j].rfp == db.jobs[j].rfp
      ensures db.jobs[j].rfp == r ==>
                (after.jobs[j].status == Ready <==>
                 db.jobs[j].status == Ready || ((db.jobs[j].status == Received || db.jobs[j].status == Queued) &&
                     outcome(j)))
    {
      JobAfterProcessing(db, now, outcome, j);
    }
  }

  /** What a tick makes of an RFP.  Past its deadline and open, or closed, it is taken on unless it is
      manual; it is facts_ready afterwards exactly if it was, or if it was taken on, or in processing with
      no job left behind as received, and no worker holds one of its jobs, and one of its jobs is ready or
      is processed now with success. */
  lemma TickOutcome(db: Db, now: int, outcome: JobId -> bool, r: RfpId)
    requires r in db.rfps
    ensures var was, after := db.rfps[r], Ticked(db, now, outcome);
            var takenOn := was.mode != Manual && (was.status == Closed ||
                (was.status == Open && was.deadline.Some? && was.deadline.value < now));
            var noneLeft := was.status == Processing &&
                forall j :: j in db.jobs && db.jobs[j].rfp == r ==> db.jobs[j].status != Received;
            var noneHeld := forall j :: j in db.jobs && db.jobs[j].rfp == r ==> db.jobs[j].status != Running;
            var good := set j | j in db.jobs && (db.jobs[j].status == Ready ||
                ((db.jobs[j].status == Received || db.jobs[j].status == Queued) && outcome(j)));
            var succeeds := exists j :: j in good && db.jobs[j].rfp == r;
            && r in after.rfps && after.rfps[r].deadline == was.deadline && after.rfps[r].mode == was.mode
            && after.rfps[r].status ==
                 if (takenOn || noneLeft) && noneHeld && succeeds then FactsReady
                 else if takenOn then Processing else was.status
  {
    StatusAfterTick(db, now, outcome, r);
  }

  lemma StatusAfterTick(db: Db, now: int, outcome: JobId -> bool, r: RfpId)
    requires r in db.rfps
    ensures var was, after := db.rfps[r], Ticked(db, now, outcome);
            && r in after.rfps && after.rfps[r].deadline == was.deadline && after.rfps[r].mode == was.mode
            && after.rfps[r].status ==
                 if TakenUp(db, r, now) && !HasJobIn(db, r, Running) && HasSuccess(db, r, outcome) then FactsReady
                 else if TakenOn(was, now) then Processing else was.status
  {
    RfpAfterProcessing(db, now, outcome, r);
    if HasStatus(Processed(db, now, outcome), r, Processing) {
      OpenJobsAfterProcessing(db, now, outcome, r);
      if TakenUp(db, r, now) { ReadyJobsAfterProcessing(db, now, outcome, r); }
    }
  }

  /** What a tick makes of a job: one that waits to be processed, or is received for an RFP the tick takes
      on, is processed; every other job keeps its row. */
  lemma TickJobs(db: Db, now: int, outcome: JobId -> bool, j: JobId)
    requires j in db.jobs
    ensures var was, r, after := db.jobs[j], db.jobs[j].rfp, Ticked(db, now, outcome);
            var takenOn := r in db.rfps && db.rfps[r].mode != Manual && (db.rfps[r].status == Closed ||
                (db.rfps[r].status == Open && db.rfps[r].deadline.Some? && db.rfps[r].deadline.value < now));
            && after.jobs.Keys == db.jobs.Keys && after.invited == db.invited && after.nextJob == db.nextJob
            && after.jobs[j] == was.(status :=
                 if was.status == Queued || (was.status == Received && takenOn)
                 then (if outcome(j) then Ready else Failed) else was.status)
  {
    JobAfterProcessing(db, now, outcome, j);
    if db.jobs[j].rfp in db.rfps { RfpAfterProcessing(db, now, outcome, db.jobs[j].rfp); }
  }

  /** With no job in processing, one undisturbed tick takes every open RFP past its deadline that is not
      manual, and has a job that is ready or is processed with success, all the way. */
  lemma OneTickIsEnough(db: Db, now: int, outcome: JobId -> bool, r: RfpId, j: JobId)
    requires r in db.rfps && db.rfps[r].status == Open && db.rfps[r].mode != Manual
    requires db.rfps[r].deadline.Some? && db.rfps[r].deadline.value < now
    requires j in db.jobs && db.jobs[j].rfp == r
    requires db.jobs[j].status == Ready || (db.jobs[j].status in {Received, Queued} && outcome(j))
    requires forall k :: k in db.jobs ==> db.jobs[k].status != Running
    ensures Ticked(db, now, outcome).rfps[r] == db.rfps[r].(status := FactsReady)
  {
    TickOutcome(db, now, outcome, r);
  }

  /** A tick logs one event for each RFP it takes to facts_ready, of the type its mode calls for,
      and none for any other. */
  lemma TickEvents(db: Db, now: int, outcome: JobId -> bool, r: RfpId)
    requires r in db.rfps
    ensures var after := Ticked(db, now, outcome);
            var taken := HasStatus(after, r, FactsReady) && db.rfps[r].status != FactsReady;
            && after.events[FactsReadyEvent(r)] ==
                 db.events[FactsReadyEvent(r)] + (if taken && db.rfps[r].mode != AutoToReport then 1 else 0)
            && after.events[EvaluationFailedEvent(r)] ==
                 db.events[EvaluationFailedEvent(r)] + (if taken && db.rfps[r].mode == AutoToReport then 1 else 0)
  {
    RfpAfterProcessing(db, now, outcome, r);
    WinnerEvents(Processed(db, now, outcome), r);
    TakenIffFinalizable(db, now, outcome, r);
  }

  lemma TakenIffFinalizable(db: Db, now: int, outcome: JobId -> bool, r: RfpId)
    requires r in db.rfps
    ensures HasStatus(Ticked(db, now, outcome), r, FactsReady) && db.rfps[r].status != FactsReady <==>
            Finalizable(Processed(db, now, outcome), r)
  {
    RfpAfterProcessing(db, now, outcome, r);
  }

  lemma WinnerEvents(db: Db, r: RfpId)
    requires r in db.rfps
    ensures var added := EventsOf(db, Winners(db));
            && added[FactsReadyEvent(r)] == (if Finalizable(db, r) && db.rfps[r].mode != AutoToReport then 1 else 0)
            && added[EvaluationFailedEvent(r)] == (if Finalizable(db, r) && db.rfps[r].mode == AutoToReport
                then 1 else 0)
  {
    var won := Winners(db);
    var s := set q | q in won && q in db.rfps :: EventFor(q, db.rfps[q].mode);
    assert EventsOf(db, won) == multiset(s);
    assert r in won ==> EventFor(r, db.rfps[r].mode) in s;
  }

  /** Manual RFPs that are open are skipped altogether: status and received jobs stay. */
  lemma ManualIsSkipped(db: Db, now: int, outcome: JobId -> bool, r: RfpId, j: JobId)
    requires HasStatus(db, r, Open) && db.rfps[r].mode == Manual
    requires j in db.jobs && db.jobs[j].rfp == r && db.jobs[j].status == Received
    ensures Ticked(db, now, outcome).rfps[r] == db.rfps[r] && Ticked(db, now, outcome).jobs[j] == db.jobs[j]
  {
    RfpAfterProcessing(db, now, outcome, r);
    JobAfterProcessing(db, now, outcome, j);
  }

  lemma TickLeavesNothingToDo(db: Db, now: int, outcome: JobId -> bool)
    ensures var after := Ticked(db, now, outcome);
            && (forall r :: r in after.rfps ==> !Expired(after.rfps[r], now))
            && ClosedRfps(after) == {} && QueuedJobs(after) == {} && Winners(after) == {}
  {
    var processed := Processed(db, now, outcome);
    var after := Ticked(db, now, outcome);
    forall r | r in db.rfps
      ensures !Expired(after.rfps[r], now) && r !in ClosedRfps(after) && r !in Winners(after)
    {
      RfpAfterProcessing(db, now, outcome, r);
      assert HasOpenJob(after, r) <==> HasOpenJob(processed, r);
      assert HasReadyJob(after, r) <==> HasReadyJob(processed, r);
    }
    forall j | j in db.jobs ensures j !in QueuedJobs(after) { JobAfterProcessing(db, now, outcome, j); }
    assert after.rfps.Keys == db.rfps.Keys && after.jobs.Keys == db.jobs.Keys;
  }

  /** A second tick at the same instant changes nothing, whatever the agents would answer. */
  lemma SecondTickChangesNothing(db: Db, now: int, outcome: JobId -> bool, outcome': JobId -> bool)
    ensures var after := Ticked(db, now, outcome); Ticked(after, now, outcome') == after
  {
    TickLeavesNothingToDo(db, now, outcome);
    IdleTick(Ticked(db, now, outcome), now, outcome');
  }

  lemma IdleTick(db: Db, now: int, outcome: JobId -> bool)
    requires forall r :: r in db.rfps ==> !Expired(db.rfps[r], now)
    requires ClosedRfps(db) == {} && QueuedJobs(db) == {} && Winners(db) == {}
    ensures Ticked(db, now, outcome) == db
  {
    assert CloseExpired(db, now).rfps == db.rfps;
    assert CloseExpired(db, now) == db;
    assert QueueSome(db, {}).rfps == db.rfps && QueueSome(db, {}).jobs == db.jobs;
    assert ProcessSome(db, {}, outcome).jobs == db.jobs;
    assert Processed(db, now, outcome) == db;
    assert FlipSome(db, {}).rfps == db.rfps;
    assert EventsOf(db, {}) == multiset{};
  }
}
