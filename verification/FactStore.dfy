/** The database as the ingestion code sees it: the Phase 5 helpers of app/db/fact_store.py over
    tables that are updated in place. */
module FactStore {
  import opened Common
  import opened IngestionTables

  class Store {
    var rfps: map<RfpId, Rfp>
    var jobs: map<JobId, Job>
    var nextJob: JobId
    var invited: set<(RfpId, Vendor)>
    var events: multiset<Event>

    function State(): Db
      reads this
    {
      Db(rfps, jobs, nextJob, invited, events)
    }

    constructor (db: Db)
      ensures State() == db
    {
      rfps, jobs, nextJob, invited, events := db.rfps, db.jobs, db.nextJob, db.invited, db.events;
    }

    /** False: the primary key exists and the INSERT raises. */
    method InsertRfp(r: RfpId, deadline: Option<int>, mode: Mode) returns (ok: bool)
      modifies this`rfps
      ensures State() == CreateRfp(old(State()), r, deadline, mode) && ok == (r !in old(rfps))
      ensures rfps == if ok then old(rfps)[r := Rfp(Open, deadline, mode)] else old(rfps)
    {
      ok := r !in rfps;
      if ok { rfps := rfps[r := Rfp(Open, deadline, mode)]; }
    }

    /** Adds the invitation unless it is there.  False: the RFP is unknown, and the foreign key makes the
        INSERT raise. */
    method Invite(r: RfpId, v: Vendor) returns (ok: bool)
      modifies this`invited
      ensures State() == InviteVendor(old(State()), r, v) && ok == (r in rfps)
      ensures invited == if ok then old(invited) + {(r, v)} else old(invited)
    {
      ok := r in rfps;
      if ok { invited := invited + {(r, v)}; }
    }

    method MoveDeadline(r: RfpId, deadline: Option<int>) returns (updated: bool)
      modifies this`rfps
      ensures State() == SetDeadline(old(State()), r, deadline)
      ensures updated == (r in old(rfps) && old(rfps)[r].status == Open)
      ensures rfps == if updated then old(rfps)[r := Rfp(Open, deadline, old(rfps)[r].mode)] else old(rfps)
    {
      updated := r in rfps && rfps[r].status == Open;
      if updated { rfps := rfps[r := rfps[r].(deadline := deadline)]; }
    }

    method GetLifecycle(r: RfpId) returns (rfp: Option<Rfp>)
      ensures rfp == if r in rfps then Some(rfps[r]) else None
    {
      rfp := if r in rfps then Some(rfps[r]) else None;
    }

    method IsInvited(r: RfpId, v: Vendor) returns (yes: bool)
      ensures yes == ((r, v) in invited)
    {
      yes := (r, v) in invited;
    }

    method EnqueueJob(r: RfpId, v: Vendor, h: Hash, s: JobStatus) returns (id: Option<JobId>)
      modifies this`jobs, this`nextJob
      ensures (State(), id) == Enqueue(old(State()), r, v, h, s)
      ensures id.None? <==> exists j :: j in old(jobs) && old(jobs)[j].rfp == r && old(jobs)[j].vendor == v &&
                                old(jobs)[j].content == h
      ensures id.None? ==> jobs == old(jobs)
      ensures id.Some? ==> id.value == old(nextJob) && jobs == old(jobs)[id.value := Job(r, v, h, s, None, s)]
    {
      if KeyTaken(State(), r, v, h) { return None; }
      id := Some(nextJob);
      jobs := jobs[nextJob := Job(r, v, h, s, None, s)];
      nextJob := nextJob + 1;
    }

    method SupersedePriorReceived(r: RfpId, v: Vendor, newJob: JobId) returns (n: nat)
      modifies this`jobs
      ensures State() == SupersedePrior(old(State()), r, v, newJob)
      ensures n == |set j | j in old(jobs) && old(jobs)[j].status == Received && old(jobs)[j].rfp == r &&
                old(jobs)[j].vendor == v && j != newJob|
      ensures jobs.Keys == old(jobs).Keys
      ensures forall j :: j in old(jobs) ==>
                var was := old(jobs)[j];
                jobs[j] == if was.status == Received && was.rfp == r && was.vendor == v && j != newJob
                           then was.(status := Superseded, supersededBy := Some(newJob)) else was
    {
      n := |OtherReceived(jobs, r, v, newJob)|;
      jobs := map j | j in jobs ::
        if j in OtherReceived(jobs, r, v, newJob)
            then jobs[j].(status := Superseded, supersededBy := Some(newJob)) else jobs[j];
      assert OtherReceived(old(jobs), r, v, newJob) ==
             set j | j in old(jobs) && old(jobs)[j].status == Received && old(jobs)[j].rfp == r &&
               old(jobs)[j].vendor == v && j != newJob;
    }

    method EmitEvent(e: Event)
      modifies this`events
      ensures State() == old(State()).(events := old(events) + multiset{e})
    {
      events := events + multiset{e};
    }
  }

  function OtherReceived(jobs: map<JobId, Job>, r: RfpId, v: Vendor, newJob: JobId): set<JobId> {
    set j | j in jobs && jobs[j].rfp == r && jobs[j].vendor == v && jobs[j].status == Received && j != newJob
  }
}
