/** The tables of the RFP ingestion protocol and the statements run against them: app/domain/rfp.py,
    the Phase 5 helpers of app/db/fact_store.py, app/jobs/ingestion_watcher.py, the job claims of
    app/pipeline/ingestion_graph.py and the re-queue routes of app/api/admin_routes.py.

    A statement or transaction is a function from the tables to the tables. */
module IngestionTables {
  import opened Common

  type RfpId = string
  type Vendor = string
  type Hash = string
  type JobId = nat          // fresh ids grow, so they also give the insertion order

  datatype Status = Open | Closed | Processing | FactsReady | Evaluated

  function Allowed(s: Status): set<Status> {
    match s
    case Open => {Closed}
    case Closed => {Processing}
    case Processing => {FactsReady}
    case FactsReady => {Evaluated}
    case Evaluated => {}
  }

  predicate CanTransition(current: Status, target: Status) {
    target in Allowed(current)
  }

  datatype Mode = Manual | AutoToEvaluate | AutoToReport

  datatype Rfp = Rfp(status: Status, deadline: Option<int>, mode: Mode)

  datatype JobStatus =
    | Received | Superseded | Queued | Running | Ready | Failed | Duplicate | NeedsAttribution | RejectedLate

  /** `arrivedAs` remembers the status the row was inserted with. */
  datatype Job = Job(rfp: RfpId, vendor: Vendor, content: Hash, status: JobStatus, supersededBy: Option<JobId>,
                     arrivedAs: JobStatus)

  datatype Event = FactsReadyEvent(rfp: RfpId) | EvaluationFailedEvent(rfp: RfpId)

  datatype Db = Db(rfps: map<RfpId, Rfp>, jobs: map<JobId, Job>, nextJob: JobId,
                   invited: set<(RfpId, Vendor)>, events: multiset<Event>)

  const EMPTY := Db(map[], map[], 0, {}, multiset{})

  const UNKNOWN_VENDOR := "_unknown_"

  predicate InOpenState(s: JobStatus) {
    s == Received || s == Queued || s == Running
  }

  predicate HasStatus(db: Db, r: RfpId, s: Status) {
    r in db.rfps && db.rfps[r].status == s
  }

  predicate HasOpenJob(db: Db, r: RfpId) {
    exists j :: j in db.jobs && db.jobs[j].rfp == r && InOpenState(db.jobs[j].status)
  }

  predicate HasReadyJob(db: Db, r: RfpId) {
    exists j :: j in db.jobs && db.jobs[j].rfp == r && db.jobs[j].status == Ready
  }

  predicate KeyTaken(db: Db, r: RfpId, v: Vendor, h: Hash) {
    exists j :: j in db.jobs && db.jobs[j].rfp == r && db.jobs[j].vendor == v && db.jobs[j].content == h
  }

  function EventCount(db: Db, r: RfpId): nat {
    db.events[FactsReadyEvent(r)] + db.events[EvaluationFailedEvent(r)]
  }

  // ---- rfps ----------------------------------------------------------------------------------

  function CreateRfp(db: Db, r: RfpId, deadline: Option<int>, mode: Mode): Db {
    if r in db.rfps then db else db.(rfps := db.rfps[r := Rfp(Open, deadline, mode)])
  }

  function InviteVendor(db: Db, r: RfpId, v: Vendor): Db {
    if r in db.rfps then db.(invited := db.invited + {(r, v)}) else db
  }

  function SetDeadline(db: Db, r: RfpId, deadline: Option<int>): Db {
    if HasStatus(db, r, Open) then db.(rfps := db.rfps[r := db.rfps[r].(deadline := deadline)]) else db
  }

  predicate Expired(rfp: Rfp, now: int) {
    rfp.status == Open && rfp.deadline.Some? && rfp.deadline.value < now && rfp.mode != Manual
  }

  function CloseExpired(db: Db, now: int): Db {
    db.(rfps := map r | r in db.rfps :: if Expired(db.rfps[r], now) then db.rfps[r].(status := Closed) else db.rfps[r])
  }

  function EventFor(r: RfpId, mode: Mode): Event {
    if mode == AutoToReport then EvaluationFailedEvent(r) else FactsReadyEvent(r)
  }

  // ---- jobs ----------------------------------------------------------------------------------

  /** Inserts a job unless its (rfp, vendor, content) is there; answers the new id, if any. */
  function Enqueue(db: Db, r: RfpId, v: Vendor, h: Hash, s: JobStatus): (Db, Option<JobId>) {
    if KeyTaken(db, r, v, h) then (db, None)
    else (db.(jobs := db.jobs[db.nextJob := Job(r, v, h, s, None, s)], nextJob := db.nextJob + 1), Some(db.nextJob))
  }

  function SupersedePrior(db: Db, r: RfpId, v: Vendor, newJob: JobId): Db {
    db.(jobs := map j | j in db.jobs ::
                  var job := db.jobs[j];
                  if job.rfp == r && job.vendor == v && job.status == Received && j != newJob
                  then job.(status := Superseded, supersededBy := Some(newJob)) else job)
  }

  function SetJobStatus(db: Db, j: JobId, from: JobStatus, to: JobStatus): Db {
    if j in db.jobs && db.jobs[j].status == from then db.(jobs := db.jobs[j := db.jobs[j].(status := to)]) else db
  }

  datatype DropResult =
    | Orphan
    | Late(job: Option<JobId>)
    | Unattributed(job: Option<JobId>)
    | DuplicateContent
    | Accepted(id: JobId)

  /** `handle_dropped_file` for a file under a known drop folder: `vendor` is absent for a file at
      the RFP's root. */
  function HandleDrop(db: Db, now: int, r: RfpId, vendor: Option<Vendor>, h: Hash): (Db, DropResult) {
    if r !in db.rfps then (db, Orphan)
    else
      var rfp := db.rfps[r];
      var folder := if vendor.Some? && vendor.value != "" then vendor.value else UNKNOWN_VENDOR;
      if rfp.status != Open || (rfp.deadline.Some? && rfp.deadline.value < now) then
        var (db', job) := Enqueue(db, r, folder, h, RejectedLate);
        (db', Late(job))
      else if vendor.None? then
        var (db', job) := Enqueue(db, r, UNKNOWN_VENDOR, h, NeedsAttribution);
        (db', Unattributed(job))
      else if (r, vendor.value) !in db.invited then
        var (db', job) := Enqueue(db, r, vendor.value, h, NeedsAttribution);
        (db', Unattributed(job))
      else
        var (db', job) := Enqueue(db, r, vendor.value, h, Received);
        if job.None? then (db', DuplicateContent)
        else (SupersedePrior(db', r, vendor.value, job.value), Accepted(job.value))
  }

  datatype AssignResult = Assigned(status: JobStatus) | NotFound | Conflict

  /** The final UPDATE of `assign_attribution`; the table's unique key makes it fail if the vendor
      already has a row with the same content. */
  function AssignWrite(db: Db, j: JobId, v: Vendor, s: JobStatus): (Db, bool) {
    if j in db.jobs && db.jobs[j].status == NeedsAttribution then
      if db.jobs[j].vendor != v && KeyTaken(db, db.jobs[j].rfp, v, db.jobs[j].content) then (db, false)
      else (db.(jobs := db.jobs[j := db.jobs[j].(vendor := v, status := s)]), true)
    else (db, true)
  }

  function Assign(db: Db, j: JobId, v: Vendor, inviteIfMissing: bool): (Db, AssignResult) {
    if j !in db.jobs then (db, NotFound)
    else if db.jobs[j].status != NeedsAttribution then (db, Conflict)
    else if db.jobs[j].rfp !in db.rfps then (db, Conflict)
    else
      var r := db.jobs[j].rfp;
      if (r, v) !in db.invited && !inviteIfMissing then (db, Conflict)
      else
        var s := if db.rfps[r].status == Open then Received else Queued;
        var (db', ok) := AssignWrite(InviteVendor(db, r, v), j, v, s);
        (db', if ok then Assigned(s) else Conflict)
  }

  function AcceptLate(db: Db, j: JobId): Db {
    SetJobStatus(db, j, RejectedLate, Queued)
  }

  /** What any statement may do to one job. */
  predicate JobMove(before: Job, after: Job) {
    && after.rfp == before.rfp && after.content == before.content && after.arrivedAs == before.arrivedAs
    && (after.vendor != before.vendor ==> before.status == NeedsAttribution)
    && (after.supersededBy != before.supersededBy ==> before.status == Received && after.status == Superseded)
    && (after.status != before.status ==>
          match before.status
          case Received => after.status == Superseded || after.status == Queued
          case Queued => after.status == Running
          case Running => after.status == Ready || after.status == Failed
          case NeedsAttribution => after.status == Received || after.status == Queued
          case RejectedLate => after.status == Queued
          case _ => false)
  }
}
