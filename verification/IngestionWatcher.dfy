/** A dropped file (app/jobs/ingestion_watcher.py) and an administrator's decision about one
    (app/api/admin_routes.py), each run with nobody in between. */
module IngestionWatcher {
  import opened Common
  import opened IngestionTables
  import opened FactStore

  /** `handle_dropped_file` for a file under a known drop folder; `now` is its clock reading. */
  method HandleDroppedFile(store: Store, now: int, r: RfpId, vendor: Option<Vendor>,
      h: Hash) returns (result: DropResult)
    modifies store
    ensures (store.State(), result) == HandleDrop(old(store.State()), now, r, vendor, h)
  {
    var rfp := store.GetLifecycle(r);
    if rfp.None? { return Orphan; }
    var folder := if vendor.Some? && vendor.value != "" then vendor.value else UNKNOWN_VENDOR;
    if rfp.value.status != Open {
      var id := store.EnqueueJob(r, folder, h, RejectedLate);
      return Late(id);
    }
    if rfp.value.deadline.Some? && rfp.value.deadline.value < now {
      var id := store.EnqueueJob(r, folder, h, RejectedLate);
      return Late(id);
    }
    if vendor.Some? {
      var yes := store.IsInvited(r, vendor.value);
      if !yes {
        var id := store.EnqueueJob(r, vendor.value, h, NeedsAttribution);
        return Unattributed(id);
      }
      result := IngestReceived(store, r, vendor.value, h);
      return;
    }
    var id := store.EnqueueJob(r, UNKNOWN_VENDOR, h, NeedsAttribution);
    return Unattributed(id);
  }

  method IngestReceived(store: Store, r: RfpId, v: Vendor, h: Hash) returns (result: DropResult)
    modifies store
    ensures var (db, id) := Enqueue(old(store.State()), r, v, h, Received);
            (store.State(), result) ==
            if id.None? then (db, DuplicateContent) else (SupersedePrior(db, r, v, id.value), Accepted(id.value))
  {
    var id := store.EnqueueJob(r, v, h, Received);
    if id.None? { return DuplicateContent; }
    var superseded := store.SupersedePriorReceived(r, v, id.value);
    return Accepted(id.value);
  }

  /** The final UPDATE of the assignment; false if the table's unique key refuses it. */
  method WriteAssignment(store: Store, j: JobId, v: Vendor, s: JobStatus) returns (ok: bool)
    modifies store`jobs
    ensures (store.State(), ok) == AssignWrite(old(store.State()), j, v, s)
  {
    if j !in store.jobs || store.jobs[j].status != NeedsAttribution { return true; }
    var job := store.jobs[j];
    if job.vendor != v && KeyTaken(store.State(), job.rfp, v, job.content) { return false; }
    store.jobs := store.jobs[j := job.(vendor := v, status := s)];
    return true;
  }

  method AssignAttribution(store: Store, j: JobId, v: Vendor, inviteIfMissing: bool) returns (result: AssignResult)
    modifies store
    ensures (store.State(), result) == Assign(old(store.State()), j, v, inviteIfMissing)
  {
    if j !in store.jobs { return NotFound; }
    var job := store.jobs[j];
    if job.status != NeedsAttribution { return Conflict; }
    var rfp := store.GetLifecycle(job.rfp);
    if rfp.None? { return Conflict; }
    var yes := store.IsInvited(job.rfp, v);
    if !yes {
      if !inviteIfMissing { return Conflict; }
      var invited := store.Invite(job.rfp, v);
    }
    assert store.State() == InviteVendor(old(store.State()), job.rfp, v);
    var s := if rfp.value.status == Open then Received else Queued;
    var ok := WriteAssignment(store, j, v, s);
    return if ok then Assigned(s) else Conflict;
  }

  method AcceptLateAddendum(store: Store, j: JobId) returns (ok: bool)
    modifies store`jobs
    ensures store.State() == AcceptLate(old(store.State()), j)
    ensures ok == (j in old(store.jobs) && old(store.jobs)[j].status == RejectedLate)
    ensures store.jobs == if ok then old(store.jobs)[j := old(store.jobs)[j].(status := Queued)] else old(store.jobs)
  {
    ok := j in store.jobs && store.jobs[j].status == RejectedLate;
    if ok { store.jobs := store.jobs[j := store.jobs[j].(status := Queued)]; }
  }

  /** Exactly what each drop is answered. */
  lemma DropAnswer(db: Db, now: int, r: RfpId, vendor: Option<Vendor>, h: Hash)
    ensures var result := HandleDrop(db, now, r, vendor, h).1;
            var known := r in db.rfps;
            var live := known && db.rfps[r].status == Open &&
                (db.rfps[r].deadline.None? || now <= db.rfps[r].deadline.value);
            var invited := vendor.Some? && (r, vendor.value) in db.invited;
            var folder := if vendor.Some? && (vendor.value != "" || live) then vendor.value else "_unknown_";
            var row := if KeyTaken(db, r, folder, h) then None else Some(db.nextJob);
            && (!known ==> result == Orphan)
            && (known && !live ==> result == Late(row))
            && (live && !invited ==> result == Unattributed(row))
            && (live && invited ==> result == if row.None? then DuplicateContent else Accepted(db.nextJob))
  {
  }

  /** What a drop leaves in the tables: at most one new row, with the status the answer names.  An accepted
      one links the vendor's received jobs to it; no other drop touches an existing row. */
  lemma DropOutcome(db: Db, now: int, r: RfpId, vendor: Option<Vendor>, h: Hash)
    requires forall j :: j in db.jobs ==> j < db.nextJob
    ensures var (after, result) := HandleDrop(db, now, r, vendor, h);
            && (result.Accepted? <==>
                  && r in db.rfps && db.rfps[r].status == Open
                  && (db.rfps[r].deadline.Some? ==> db.rfps[r].deadline.value >= now)
                  && vendor.Some? && (r, vendor.value) in db.invited && !KeyTaken(db, r, vendor.value, h))
            && after.rfps == db.rfps && after.invited == db.invited && after.events == db.events
            && (forall j :: j in db.jobs ==>
                  var was, linked := db.jobs[j], result.Accepted? && db.jobs[j].rfp == r &&
                      db.jobs[j].vendor == vendor.value && db.jobs[j].status == Received;
                  j in after.jobs && after.jobs[j] ==
                    (if linked then was.(status := Superseded, supersededBy := Some(result.id)) else was))
            && (forall j :: j in after.jobs && j !in db.jobs ==>
                  && j == db.nextJob && after.nextJob == j + 1
                  && after.jobs[j].rfp == r && after.jobs[j].content == h && after.jobs[j].supersededBy.None?
                  && after.jobs[j].arrivedAs == after.jobs[j].status
                  && after.jobs[j].status == (match result case Late(_) => RejectedLate
                                                           case Unattributed(_) => NeedsAttribution
                                                           case _ => Received))
  {
  }

  /** Exactly what an assignment is answered and does: it needs a job that waits for one and an RFP, and a
      vendor who is invited or is to be; the job is received while the RFP is open and queued afterwards,
      unless the vendor has another row with its content. */
  lemma AssignOutcome(db: Db, j: JobId, v: Vendor, inviteIfMissing: bool)
    ensures var (after, result) := Assign(db, j, v, inviteIfMissing);
            && (result == NotFound <==> j !in db.jobs)
            && (result.Assigned? <==>
                  && j in db.jobs && db.jobs[j].status == NeedsAttribution && db.jobs[j].rfp in db.rfps
                  && (inviteIfMissing || (db.jobs[j].rfp, v) in db.invited)
                  && (db.jobs[j].vendor == v || !KeyTaken(db, db.jobs[j].rfp, v, db.jobs[j].content)))
            && (result.Assigned? ==>
                  && result.status == (if db.rfps[db.jobs[j].rfp].status == Open then Received else Queued)
                  && after == db.(jobs := db.jobs[j := db.jobs[j].(vendor := v, status := result.status)],
                                  invited := db.invited + {(db.jobs[j].rfp, v)}))
  {
    if j in db.jobs && (db.jobs[j].rfp, v) in db.invited { assert db.invited + {(db.jobs[j].rfp, v)} == db.invited; }
  }
}
