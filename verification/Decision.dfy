/** The decision agent (app/agents/decision.py): who is rejected, who is shortlisted in which order,
    and what the decision critic makes of it. */
module Decision {
  import opened Common
  import opened StableSort
  import opened Schemas
  import opened Critic
  import opened Governance
  import opened Ranking
  import Compliance
  import Scoring

  datatype Evaluation = Evaluation(vendor: Vendor, decisions: seq<ComplianceDecision>, card: Scoring.Card)

  // ---- rejection ---------------------------------------------------------------------------------

  predicate HasContradiction(ds: seq<ComplianceDecision>) {
    exists d :: d in ds && d.contradictions != []
  }

  predicate Rejecting(d: ComplianceDecision, contradicted: bool) {
    d.decision == Fail || (d.decision == InsufficientEvidence && d.contradictions == [] && !contradicted)
  }

  function RejectingAmong(ds: seq<ComplianceDecision>, contradicted: bool): seq<ComplianceDecision> {
    if ds == [] then [] else
      var last := ds[|ds| - 1];
      RejectingAmong(ds[..|ds| - 1], contradicted) + if Rejecting(last, contradicted) then [last] else []
  }

  /** The decisions that reject the vendor. */
  function RejectingOf(ds: seq<ComplianceDecision>): seq<ComplianceDecision> {
    RejectingAmong(ds, HasContradiction(ds))
  }

  method RejectingDecisions(ds: seq<ComplianceDecision>) returns (rejecting: seq<ComplianceDecision>)
    ensures rejecting == RejectingOf(ds)
  {
    var contradicted := HasContradiction(ds);
    rejecting := [];
    for i := 0 to |ds|
      invariant rejecting == RejectingAmong(ds[..i], contradicted)
    {
      assert ds[..i + 1][..i] == ds[..i];
      if ds[i].decision == Fail {
        rejecting := rejecting + [ds[i]];
      } else if ds[i].decision == InsufficientEvidence && ds[i].contradictions == [] && !contradicted {
        rejecting := rejecting + [ds[i]];
      }
    }
    assert ds[..|ds|] == ds;
  }

  lemma {:induction false} RejectingAre(ds: seq<ComplianceDecision>, contradicted: bool)
    ensures forall d :: d in RejectingAmong(ds, contradicted) <==> d in ds && Rejecting(d, contradicted)
  {
    if ds != [] {
      var init, last := ds[..|ds| - 1], ds[|ds| - 1];
      RejectingAre(init, contradicted);
      assert forall d :: d in ds <==> d in init || d == last;
    }
  }

  /** A vendor is rejected exactly on an explicit FAIL, or on missing evidence with no contradiction
      anywhere in the submission. */
  lemma RejectedIff(ds: seq<ComplianceDecision>)
    ensures RejectingOf(ds) != [] <==>
            || (exists d :: d in ds && d.decision == Fail)
            || ((forall d :: d in ds ==> d.contradictions == []) &&
                exists d :: d in ds && d.decision == InsufficientEvidence)
  {
    RejectingAre(ds, HasContradiction(ds));
    if RejectingOf(ds) != [] { assert RejectingOf(ds)[0] in RejectingOf(ds); }
  }

  /** With any contradiction, only explicit FAILs reject; on the evaluation agent's own output these
      are checks with no contradiction of their own. */
  lemma ContradictedVendorNeedsFail(cases: seq<Compliance.Case>, ds: seq<ComplianceDecision>, d: ComplianceDecision)
    requires exists c :: c in ds && c.contradictions != []
    ensures d in RejectingOf(ds) <==> d in ds && d.decision == Fail
    ensures Compliance.AgentOutput(cases, ds) && d in RejectingOf(ds) ==> d.contradictions == []
  {
    RejectingAre(ds, true);
    if Compliance.AgentOutput(cases, ds) && d in ds && d.contradictions != [] {
      Compliance.ContradictedEndsInsufficient(cases, ds, d);
    }
  }

  // ---- the rejection notice ----------------------------------------------------------------------

  function Reason(d: ComplianceDecision): (r: string)
    ensures r != ""
  {
    if d.reasoning != "" then d.reasoning
    else "Mandatory requirement " + d.checkId + " not demonstrated (no supporting evidence found in the proposal)."
  }

  function Reasons(ds: seq<ComplianceDecision>): (rs: seq<string>)
    ensures |rs| == |ds| && forall i :: 0 <= i < |ds| ==> rs[i] == Reason(ds[i])
  {
    seq(|ds|, i requires 0 <= i < |ds| => Reason(ds[i]))
  }

  function CheckIds(ds: seq<ComplianceDecision>): (ids: seq<string>)
    ensures |ids| == |ds| && forall i :: 0 <= i < |ds| ==> ids[i] == ds[i].checkId
  {
    seq(|ds|, i requires 0 <= i < |ds| => ds[i].checkId)
  }

  function EvidenceOf(ds: seq<ComplianceDecision>): seq<string> {
    if ds == [] then [] else EvidenceOf(ds[..|ds| - 1]) + ds[|ds| - 1].evidence
  }

  /** `derived` is what the model makes of the reasons when no decision carries evidence; None if the
      call or the parsing raised. */
  function NoticeFor(e: Evaluation, derived: Option<seq<string>>): Notice {
    var failed := RejectingOf(e.decisions);
    var reasons, evidence := Reasons(failed), EvidenceOf(failed);
    var citations :=
      if evidence != [] || failed == [] then evidence
      else if derived.Some? && derived.value != [] then derived.value
      else reasons[..if |reasons| < 3 then |reasons| else 3];
    Notice(e.vendor, CheckIds(failed), reasons, citations)
  }

  /** The positions, in order, of the decisions that reject the vendor: explicit failures, and missing
      evidence if nothing in the submission is contradicted. */
  ghost predicate RejectsAt(ds: seq<ComplianceDecision>, at: seq<nat>) {
    && Rising(at)
    && forall i :: 0 <= i < |ds| ==>
         (i in at <==> (ds[i].decision == Fail ||
           (ds[i].decision == InsufficientEvidence && forall d :: d in ds ==> d.contradictions == [])))
  }

  lemma {:induction false} RejectingPlaces(ds: seq<ComplianceDecision>, contradicted: bool) returns (at: seq<nat>)
    ensures Rising(at) && |at| == |RejectingAmong(ds, contradicted)|
    ensures forall k :: 0 <= k < |at| ==> at[k] < |ds| && RejectingAmong(ds, contradicted)[k] == ds[at[k]]
    ensures forall i :: 0 <= i < |ds| ==> (i in at <==> Rejecting(ds[i], contradicted))
  {
    if ds == [] { return []; }
    var n := |ds| - 1;
    at := RejectingPlaces(ds[..n], contradicted);
    assert n !in at;
    if Rejecting(ds[n], contradicted) { at := at + [n]; }
  }

  /** Whatever the model answers, a rejection cites something, and names each check that rejects, in order,
      with that decision's reasoning or, if it has none, a sentence of its own.  The citations are all the
      evidence of the rejecting decisions; without any they are what the model derives, and without that the
      first three reasons. */
  lemma NoticeIsGrounded(e: Evaluation, derived: Option<seq<string>>) returns (at: seq<nat>)
    requires RejectingOf(e.decisions) != []
    ensures RejectsAt(e.decisions, at) && at != [] && forall k :: 0 <= k < |at| ==> at[k] < |e.decisions|
    ensures var n, ds := NoticeFor(e, derived), e.decisions;
            && n.citations != [] && n.vendor == e.vendor && |n.reasons| == |n.failedChecks| == |at|
            && (forall k :: 0 <= k < |at| ==>
                  && n.failedChecks[k] == ds[at[k]].checkId && n.reasons[k] != ""
                  && (ds[at[k]].reasoning != "" ==> n.reasons[k] == ds[at[k]].reasoning)
                  && (ds[at[k]].reasoning != "" || n.reasons[k] == "Mandatory requirement " + ds[at[k]].checkId +
                      " not demonstrated (no supporting evidence found in the proposal)."))
            && ((exists k :: 0 <= k < |at| && ds[at[k]].evidence != []) ==>
                  forall c :: c in n.citations <==> exists k :: 0 <= k < |at| && c in ds[at[k]].evidence)
            && ((forall k :: 0 <= k < |at| ==> ds[at[k]].evidence == []) ==>
                  n.citations == if derived.Some? && derived.value != [] then derived.value
                                 else n.reasons[..if |at| < 3 then |at| else 3])
  {
    var ds, failed := e.decisions, RejectingOf(e.decisions);
    at := RejectingPlaces(ds, HasContradiction(ds));
    ReasonsByPlace(ds, at, failed);
    CitationsByPlace(e, derived, at);
  }

  lemma CitationsByPlace(e: Evaluation, derived: Option<seq<string>>, at: seq<nat>)
    requires RejectingOf(e.decisions) != [] && |at| == |RejectingOf(e.decisions)|
    requires forall k :: 0 <= k < |at| ==> at[k] < |e.decisions| && RejectingOf(e.decisions)[k] == e.decisions[at[k]]
    ensures var n, ds := NoticeFor(e, derived), e.decisions;
            && n.citations != []
            && ((exists k :: 0 <= k < |at| && ds[at[k]].evidence != []) ==>
                  forall c :: c in n.citations <==> exists k :: 0 <= k < |at| && c in ds[at[k]].evidence)
            && ((forall k :: 0 <= k < |at| ==> ds[at[k]].evidence == []) ==>
                  n.citations == if derived.Some? && derived.value != [] then derived.value
                                 else n.reasons[..if |at| < 3 then |at| else 3])
  {
    EvidenceByPlace(e.decisions, at, RejectingOf(e.decisions));
  }

  lemma ReasonsByPlace(ds: seq<ComplianceDecision>, at: seq<nat>, failed: seq<ComplianceDecision>)
    requires |at| == |failed| && forall k :: 0 <= k < |at| ==> at[k] < |ds| && failed[k] == ds[at[k]]
    ensures forall k :: 0 <= k < |at| ==>
              && CheckIds(failed)[k] == ds[at[k]].checkId && Reasons(failed)[k] != ""
              && (ds[at[k]].reasoning != "" ==> Reasons(failed)[k] == ds[at[k]].reasoning)
              && (ds[at[k]].reasoning != "" || Reasons(failed)[k] == "Mandatory requirement " + ds[at[k]].checkId +
                  " not demonstrated (no supporting evidence found in the proposal).")
  {
  }

  lemma EvidenceByPlace(ds: seq<ComplianceDecision>, at: seq<nat>, failed: seq<ComplianceDecision>)
    requires |at| == |failed| && forall k :: 0 <= k < |at| ==> at[k] < |ds| && failed[k] == ds[at[k]]
    ensures forall c :: c in EvidenceOf(failed) <==> exists k :: 0 <= k < |at| && c in ds[at[k]].evidence
    ensures EvidenceOf(failed) == [] <==> forall k :: 0 <= k < |at| ==> ds[at[k]].evidence == []
  {
    EvidenceIsFrom(failed);
    forall c ensures c in EvidenceOf(failed) <==> exists k :: 0 <= k < |at| && c in ds[at[k]].evidence {
      if d :| d in failed && c in d.evidence {
        var k :| 0 <= k < |failed| && failed[k] == d;
        assert c in ds[at[k]].evidence;
      }
      if k :| 0 <= k < |at| && c in ds[at[k]].evidence { assert failed[k] in failed; }
    }
    if k :| 0 <= k < |at| && ds[at[k]].evidence != [] { assert ds[at[k]].evidence[0] in EvidenceOf(failed); }
    if EvidenceOf(failed) != [] { assert EvidenceOf(failed)[0] in EvidenceOf(failed); }
  }

  lemma {:induction false} EvidenceIsFrom(ds: seq<ComplianceDecision>)
    ensures forall c :: c in EvidenceOf(ds) <==> exists d :: d in ds && c in d.evidence
    ensures EvidenceOf(ds) == [] ==> forall d :: d in ds ==> d.evidence == []
  {
    if ds != [] {
      var init, last := ds[..|ds| - 1], ds[|ds| - 1];
      EvidenceIsFrom(init);
      assert forall d :: d in ds <==> d in init || d == last;
    }
  }

  // ---- rejected and shortlisted ------------------------------------------------------------------

  function Notices(evals: seq<Evaluation>, derive: Vendor -> Option<seq<string>>): seq<Notice> {
    if evals == [] then [] else
      var e := evals[|evals| - 1];
      Notices(evals[..|evals| - 1], derive) + if RejectingOf(e.decisions) != []
          then [NoticeFor(e, derive(e.vendor))] else []
  }

  function Shortlisted(evals: seq<Evaluation>): seq<Evaluation> {
    if evals == [] then [] else
      var e := evals[|evals| - 1];
      Shortlisted(evals[..|evals| - 1]) + if RejectingOf(e.decisions) == [] then [e] else []
  }

  method Split(evals: seq<Evaluation>, derive: Vendor -> Option<seq<string>>)
    returns (rejected: seq<Notice>, shortlisted: seq<Evaluation>)
    ensures rejected == Notices(evals, derive) && shortlisted == Shortlisted(evals)
  {
    rejected, shortlisted := [], [];
    for i := 0 to |evals|
      invariant rejected == Notices(evals[..i], derive) && shortlisted == Shortlisted(evals[..i])
    {
      assert evals[..i + 1][..i] == evals[..i];
      var reasons := RejectingDecisions(evals[i].decisions);
      if reasons != [] {
        rejected := rejected + [NoticeFor(evals[i], derive(evals[i].vendor))];
      } else {
        shortlisted := shortlisted + [evals[i]];
      }
    }
    assert evals[..|evals|] == evals;
  }

  lemma {:induction false} ShortlistedAre(evals: seq<Evaluation>)
    ensures forall e :: e in Shortlisted(evals) <==> e in evals && RejectingOf(e.decisions) == []
  {
    if evals != [] {
      var init, last := evals[..|evals| - 1], evals[|evals| - 1];
      ShortlistedAre(init);
      assert forall e :: e in evals <==> e in init || e == last;
    }
  }

  /** Notice `n` is the one for the rejected evaluation `e`. */
  predicate NoticeOf(n: Notice, e: Evaluation, derive: Vendor -> Option<seq<string>>) {
    RejectingOf(e.decisions) != [] && n == NoticeFor(e, derive(e.vendor))
  }

  lemma {:induction false} NoticesAre(evals: seq<Evaluation>, derive: Vendor -> Option<seq<string>>, n: Notice)
    ensures n in Notices(evals, derive) <==> exists e :: e in evals && NoticeOf(n, e, derive)
  {
    if evals != [] {
      var init, last := evals[..|evals| - 1], evals[|evals| - 1];
      NoticesAre(init, derive, n);
      NoticesStep(evals, derive, n);
      assert forall e :: e in evals <==> e in init || e == last;
      assert (exists e :: e in evals && NoticeOf(n, e, derive)) <==>
             (exists e :: e in init && NoticeOf(n, e, derive)) || NoticeOf(n, last, derive);
    }
  }

  lemma NoticesStep(evals: seq<Evaluation>, derive: Vendor -> Option<seq<string>>, n: Notice)
    requires evals != []
    ensures n in Notices(evals, derive) <==>
            n in Notices(evals[..|evals| - 1], derive) || NoticeOf(n, evals[|evals| - 1], derive)
  {
  }

  lemma {:induction false} SplitCounts(evals: seq<Evaluation>, derive: Vendor -> Option<seq<string>>)
    ensures |Notices(evals, derive)| + |Shortlisted(evals)| == |evals|
  {
    if evals != [] { SplitCounts(evals[..|evals| - 1], derive); }
  }

  /** Rejected and shortlisted vendors partition the evaluated ones. */
  lemma SplitIsPartition(evals: seq<Evaluation>, derive: Vendor -> Option<seq<string>>)
    ensures |Notices(evals, derive)| + |Shortlisted(evals)| == |evals|
    ensures forall e :: e in Shortlisted(evals) <==> e in evals && RejectingOf(e.decisions) == []
    ensures forall n :: n in Notices(evals, derive) <==> exists e :: e in evals && NoticeOf(n, e, derive)
  {
    SplitCounts(evals, derive);
    ShortlistedAre(evals);
    forall n ensures n in Notices(evals, derive) <==> exists e :: e in evals && NoticeOf(n, e, derive) {
      NoticesAre(evals, derive, n);
    }
  }

  /** The notices stand in the order of the evaluations, at the positions `at`. */
  lemma {:induction false} NoticesInOrder(evals: seq<Evaluation>, derive: Vendor -> Option<seq<string>>)
    returns (at: seq<nat>)
    ensures Rising(at) && |at| == |Notices(evals, derive)|
    ensures forall k :: 0 <= k < |at| ==> at[k] < |evals| && NoticeOf(Notices(evals, derive)[k], evals[at[k]], derive)
  {
    if evals == [] { return []; }
    var n := |evals| - 1;
    at := NoticesInOrder(evals[..n], derive);
    AppendPlace(at, n);
    if RejectingOf(evals[n].decisions) != [] {
      assert NoticeOf(NoticeFor(evals[n], derive(evals[n].vendor)), evals[n], derive);
      at := at + [n];
    }
  }

  lemma {:induction false} ShortlistedInOrder(evals: seq<Evaluation>) returns (at: seq<nat>)
    ensures Rising(at) && |at| == |Shortlisted(evals)|
    ensures forall k :: 0 <= k < |at| ==> at[k] < |evals| && Shortlisted(evals)[k] == evals[at[k]]
  {
    if evals == [] { return []; }
    var n := |evals| - 1;
    at := ShortlistedInOrder(evals[..n]);
    AppendPlace(at, n);
    if RejectingOf(evals[n].decisions) == [] { at := at + [n]; }
  }

  lemma CitationsEverywhere(evals: seq<Evaluation>, derive: Vendor -> Option<seq<string>>, n: Notice)
    requires n in Notices(evals, derive)
    ensures n.citations != []
  {
    NoticesAre(evals, derive, n);
    var e :| e in evals && NoticeOf(n, e, derive);
    var at := NoticeIsGrounded(e, derive(e.vendor));
  }

  // ---- the shortlist -----------------------------------------------------------------------------

  /** The sort key of a shortlisted vendor; 999 stands for "not ranked". */
  function Place(ranking: seq<Vendor>, v: Vendor): Key {
    Finite(if v in ranking then IndexOf(ranking, v) as real else 999.0)
  }

  function ByPlace(ranking: seq<Vendor>): Evaluation -> Key {
    (e: Evaluation) => Place(ranking, e.vendor)
  }

  function InOrder(evals: seq<Evaluation>, ranking: seq<Vendor>): seq<Evaluation> {
    Sort(Shortlisted(evals), ByPlace(ranking))
  }

  datatype Entry = Entry(vendor: Vendor, rank: nat, total: real, coverage: real, normalised: real,
      recommendation: string)

  datatype Output = Output(
    rejected: seq<Notice>,
    shortlist: seq<Entry>,
    tier: Tier,
    escalation: Option<ReviewReason>,
    needsReview: bool,
    reasons: seq<ReviewReason>)

  /** What `id` says of the items that `keep` keeps, in order. */
  function Picked<T>(xs: seq<T>, keep: T -> bool, id: T -> string): seq<string> {
    if xs == [] then [] else
      var last := xs[|xs| - 1];
      Picked(xs[..|xs| - 1], keep, id) + if keep(last) then [id(last)] else []
  }

  function Undecided(): ComplianceDecision -> bool {
    (d: ComplianceDecision) => d.decision == InsufficientEvidence
  }

  function IdOfCheck(): ComplianceDecision -> string {
    (d: ComplianceDecision) => d.checkId
  }

  function Unassessed(): Scoring.Score -> bool {
    (s: Scoring.Score) => s.insufficient
  }

  function IdOfCriterion(): Scoring.Score -> string {
    (s: Scoring.Score) => s.id
  }

  function Unresolved(ds: seq<ComplianceDecision>): seq<string> {
    Picked(ds, Undecided(), IdOfCheck())
  }

  function Unscored(scores: seq<Scoring.Score>): seq<string> {
    Picked(scores, Unassessed(), IdOfCriterion())
  }

  function ReviewOf(e: Evaluation, lowCoverage: set<Vendor>): seq<ReviewReason> {
    (if Unresolved(e.decisions) != [] then [UnresolvedChecks(e.vendor, Unresolved(e.decisions))] else []) +
    (if Unscored(e.card.scores) != [] then [UnscoredCriteria(e.vendor, Unscored(e.card.scores))] else []) +
    (if e.vendor in lowCoverage then [LowCoverage(e.vendor)] else [])
  }

  function ReviewAll(evals: seq<Evaluation>, lowCoverage: set<Vendor>): seq<ReviewReason> {
    if evals == [] then [] else ReviewAll(evals[..|evals| - 1], lowCoverage) + ReviewOf(evals[|evals| - 1], lowCoverage)
  }

  // ---- when a human has to look --------------------------------------------------------------------

  /** `ids` are those of the kept items, which are at the positions `at`. */
  ghost predicate PickedAt<T>(xs: seq<T>, keep: T -> bool, id: T -> string, ids: seq<string>, at: seq<nat>) {
    && Rising(at) && |at| == |ids|
    && (forall k :: 0 <= k < |at| ==> at[k] < |xs| && ids[k] == id(xs[at[k]]))
    && (forall i :: 0 <= i < |xs| ==> (i in at <==> keep(xs[i])))
  }

  lemma {:induction false} PickedPlaces<T>(xs: seq<T>, keep: T -> bool, id: T -> string) returns (at: seq<nat>)
    ensures PickedAt(xs, keep, id, Picked(xs, keep, id), at)
  {
    if xs == [] { return []; }
    var n := |xs| - 1;
    at := PickedPlaces(xs[..n], keep, id);
    PickedStep(xs, keep, id, Picked(xs[..n], keep, id), at);
    if keep(xs[n]) { at := at + [n]; }
  }

  lemma PickedStep<T>(xs: seq<T>, keep: T -> bool, id: T -> string, ids: seq<string>, at: seq<nat>)
    requires xs != [] && PickedAt(xs[..|xs| - 1], keep, id, ids, at)
    ensures var n := |xs| - 1;
            if keep(xs[n]) then PickedAt(xs, keep, id, ids + [id(xs[n])], at + [n]) else PickedAt(xs, keep, id, ids, at)
  {
    var n := |xs| - 1;
    AppendPlace(at, n);
    assert forall i :: 0 <= i < n ==> (i in at <==> keep(xs[..n][i]));
  }

  lemma {:induction false} PickedIsUnique<T>(xs: seq<T>, keep: T -> bool, id: T -> string, ids: seq<string>,
      at: seq<nat>)
    requires PickedAt(xs, keep, id, ids, at)
    ensures ids == Picked(xs, keep, id)
  {
    RisingFits(at, |xs|);
    if xs != [] {
      var n, m := |xs| - 1, |at| - 1;
      if keep(xs[n]) {
        LastKept(xs, keep, id, ids, at);
        PickedIsUnique(xs[..n], keep, id, ids[..m], at[..m]);
      } else {
        LastNotKept(xs, keep, id, ids, at);
        PickedIsUnique(xs[..n], keep, id, ids, at);
      }
    }
  }

  lemma LastKept<T>(xs: seq<T>, keep: T -> bool, id: T -> string, ids: seq<string>, at: seq<nat>)
    requires xs != [] && PickedAt(xs, keep, id, ids, at) && keep(xs[|xs| - 1])
    ensures var n, m := |xs| - 1, |at| - 1;
            m >= 0 && PickedAt(xs[..n], keep, id, ids[..m], at[..m]) && ids == ids[..m] + [id(xs[n])]
  {
    var n, m := |xs| - 1, |at| - 1;
    LastIsLast(at, n);
    assert at == at[..m] + [n];
    assert forall i :: i in at <==> i in at[..m] || i == n;
    assert n !in at[..m];
    forall i | 0 <= i < n ensures i in at[..m] <==> keep(xs[..n][i]) { assert i in at <==> keep(xs[i]); }
  }

  lemma LastNotKept<T>(xs: seq<T>, keep: T -> bool, id: T -> string, ids: seq<string>, at: seq<nat>)
    requires xs != [] && PickedAt(xs, keep, id, ids, at) && !keep(xs[|xs| - 1])
    ensures PickedAt(xs[..|xs| - 1], keep, id, ids, at)
  {
    var n := |xs| - 1;
    forall k | 0 <= k < |at| ensures at[k] < n { assert at[k] in at; }
    forall i | 0 <= i < n ensures i in at <==> keep(xs[..n][i]) { assert i in at <==> keep(xs[i]); }
  }

  lemma LastIsLast(at: seq<nat>, n: nat)
    requires Rising(at) && n in at && forall k :: 0 <= k < |at| ==> at[k] <= n
    ensures at[|at| - 1] == n
  {
    var k :| 0 <= k < |at| && at[k] == n;
  }

  /** `ids` are the checks left with insufficient evidence, in order. */
  ghost predicate ListsUnresolved(ds: seq<ComplianceDecision>, ids: seq<string>) {
    exists at: seq<nat> ::
      && Rising(at) && |at| == |ids|
      && (forall k :: 0 <= k < |at| ==> at[k] < |ds| && ids[k] == ds[at[k]].checkId)
      && (forall i :: 0 <= i < |ds| ==> (i in at <==> ds[i].decision == InsufficientEvidence))
  }

  /** `ids` are the criteria scored without evidence, in order. */
  ghost predicate ListsUnscored(scores: seq<Scoring.Score>, ids: seq<string>) {
    exists at: seq<nat> ::
      && Rising(at) && |at| == |ids|
      && (forall k :: 0 <= k < |at| ==> at[k] < |scores| && ids[k] == scores[at[k]].id)
      && (forall i :: 0 <= i < |scores| ==> (i in at <==> scores[i].insufficient))
  }

  lemma UnresolvedAre(ds: seq<ComplianceDecision>, ids: seq<string>)
    ensures ids == Unresolved(ds) <==> ListsUnresolved(ds, ids)
    ensures Unresolved(ds) != [] <==> exists d :: d in ds && d.decision == InsufficientEvidence
  {
    var keep, id := Undecided(), IdOfCheck();
    if ListsUnresolved(ds, ids) {
      var at: seq<nat> :|
        && Rising(at) && |at| == |ids|
        && (forall k :: 0 <= k < |at| ==> at[k] < |ds| && ids[k] == ds[at[k]].checkId)
        && (forall i :: 0 <= i < |ds| ==> (i in at <==> ds[i].decision == InsufficientEvidence));
      PickedIsUnique(ds, keep, id, ids, at);
    }
    SomePicked(ds, keep, id);
    var at := PickedPlaces(ds, keep, id);
  }

  lemma UnscoredAre(scores: seq<Scoring.Score>, ids: seq<string>)
    ensures ids == Unscored(scores) <==> ListsUnscored(scores, ids)
    ensures Unscored(scores) != [] <==> exists s :: s in scores && s.insufficient
  {
    var keep, id := Unassessed(), IdOfCriterion();
    if ListsUnscored(scores, ids) {
      var at: seq<nat> :|
        && Rising(at) && |at| == |ids|
        && (forall k :: 0 <= k < |at| ==> at[k] < |scores| && ids[k] == scores[at[k]].id)
        && (forall i :: 0 <= i < |scores| ==> (i in at <==> scores[i].insufficient));
      PickedIsUnique(scores, keep, id, ids, at);
    }
    SomePicked(scores, keep, id);
    var at := PickedPlaces(scores, keep, id);
  }

  lemma {:induction false} SomePicked<T>(xs: seq<T>, keep: T -> bool, id: T -> string)
    ensures Picked(xs, keep, id) != [] <==> exists x :: x in xs && keep(x)
  {
    if xs != [] {
      SomePicked(xs[..|xs| - 1], keep, id);
      assert forall x :: x in xs <==> x in xs[..|xs| - 1] || x == xs[|xs| - 1];
    }
  }

  /** Reason `r` is one of this vendor's: it lists the unresolved checks or the unscored criteria, all of
      them and nothing else, or says that the vendor's coverage is low. */
  ghost predicate ReasonOf(e: Evaluation, lowCoverage: set<Vendor>, r: ReviewReason) {
    match r
    case UnresolvedChecks(v, ids) => v == e.vendor && ids != [] && ListsUnresolved(e.decisions, ids)
    case UnscoredCriteria(v, ids) => v == e.vendor && ids != [] && ListsUnscored(e.card.scores, ids)
    case LowCoverage(v) => v == e.vendor && v in lowCoverage
    case AllRejected => false
  }

  lemma ReviewOfIs(e: Evaluation, lowCoverage: set<Vendor>, r: ReviewReason)
    ensures r in ReviewOf(e, lowCoverage) <==> ReasonOf(e, lowCoverage, r)
  {
    match r
    case UnresolvedChecks(v, ids) => UnresolvedAre(e.decisions, ids);
    case UnscoredCriteria(v, ids) => UnscoredAre(e.card.scores, ids);
    case _ =>
  }

  lemma {:induction false} ReviewAre(order: seq<Evaluation>, lowCoverage: set<Vendor>, r: ReviewReason)
    ensures r in ReviewAll(order, lowCoverage) <==> exists e :: e in order && ReasonOf(e, lowCoverage, r)
  {
    if order != [] {
      var init, last := order[..|order| - 1], order[|order| - 1];
      ReviewAre(init, lowCoverage, r);
      ReviewOfIs(last, lowCoverage, r);
      assert forall e :: e in order <==> e in init || e == last;
    }
  }

  /** Something in the evaluation calls for a human. */
  predicate Questionable(e: Evaluation, lowCoverage: set<Vendor>) {
    || e.vendor in lowCoverage
    || (exists s :: s in e.card.scores && s.insufficient)
    || exists d :: d in e.decisions && d.decision == InsufficientEvidence
  }

  lemma ReviewOfNeeded(e: Evaluation, lowCoverage: set<Vendor>)
    ensures ReviewOf(e, lowCoverage) != [] <==> Questionable(e, lowCoverage)
  {
    UnresolvedAre(e.decisions, []);
    UnscoredAre(e.card.scores, []);
  }

  lemma {:induction false} ReviewNeededIff(order: seq<Evaluation>, lowCoverage: set<Vendor>)
    ensures ReviewAll(order, lowCoverage) != [] <==> exists e :: e in order && Questionable(e, lowCoverage)
  {
    if order != [] {
      var init, last := order[..|order| - 1], order[|order| - 1];
      ReviewNeededIff(init, lowCoverage);
      ReviewOfNeeded(last, lowCoverage);
      assert forall e :: e in order <==> e in init || e == last;
    }
  }

  /** Entry `k` describes `e` at rank k + 1, with the band its normalised score reaches. */
  ghost predicate Describes(entry: Entry, e: Evaluation, k: nat, table: seq<Band>) {
    && entry.vendor == e.vendor && entry.rank == k + 1
    && entry.total == e.card.total && entry.coverage == e.card.coverage && entry.normalised == e.card.normalised
    && Labelled(table, e.card.normalised, entry.recommendation)
  }

  /** None: there is no approval tier at all and looking one up raises. */
  method RunDecision(evals: seq<Evaluation>, ranking: seq<Vendor>, lowCoverage: set<Vendor>, contract: real,
                     table: seq<Band>, tiers: seq<Tier>,
                         derive: Vendor -> Option<seq<string>>) returns (out: Option<Output>)
    ensures out.None? <==> tiers == []
    ensures out.Some? ==> out.value.rejected == Notices(evals, derive) && Routed(tiers, contract, out.value.tier)
    ensures out.Some? ==>
              var order, o := InOrder(evals, ranking), out.value;
              && |o.shortlist| == |order| && (forall k :: 0 <= k < |order| ==>
                  Describes(o.shortlist[k], order[k], k, table))
              && o.reasons == ReviewAll(order, lowCoverage) + (if order == [] && o.rejected != []
                  then [AllRejected] else [])
              && (o.needsReview <==> o.reasons != [])
              && o.escalation == if order == [] && o.rejected != [] then Some(AllRejected) else None
    ensures out.Some? ==>
              forall k :: 0 <= k < |out.value.shortlist| ==>
                var entry, card := out.value.shortlist[k], InOrder(evals, ranking)[k].card;
                && entry.vendor == InOrder(evals, ranking)[k].vendor && entry.rank == k + 1
                && entry.total == card.total && entry.coverage == card.coverage && entry.normalised == card.normalised
                && BestLabel(table, card.normalised, entry.recommendation)
    ensures out.Some? ==>
              var allRejected := evals != [] && forall e :: e in evals ==> RejectingOf(e.decisions) != [];
              && (out.value.needsReview <==>
                    (allRejected ||
                     exists e :: e in evals && RejectingOf(e.decisions) == [] &&
                       (e.vendor in lowCoverage || (exists s :: s in e.card.scores && s.insufficient) ||
                        exists d :: d in e.decisions && d.decision == InsufficientEvidence)))
              && out.value.escalation == (if allRejected then Some(AllRejected) else None)
              && (forall r :: r in out.value.reasons <==>
                    (r == AllRejected && allRejected) ||
                    exists e :: e in evals && RejectingOf(e.decisions) == [] && ReasonOf(e, lowCoverage, r))
  {
    var rejected, shortlisted := Split(evals, derive);
    var order := Sort(shortlisted, ByPlace(ranking));
    var shortlist, reasons := Enter(order, lowCoverage, table);
    var tier := RouteToTier(tiers, contract);
    if tier.None? { return None; }
    var all := |shortlist| == 0 && |rejected| > 0;
    var needsReview := all || reasons != [];
    if all { reasons := reasons + [AllRejected]; }
    ReviewMeans(evals, ranking, lowCoverage, derive);
    forall k | 0 <= k < |shortlist| ensures BestLabel(table, order[k].card.normalised, shortlist[k].recommendation) {
      LabelledIsBest(table, order[k].card.normalised, shortlist[k].recommendation);
    }
    out := Some(Output(rejected, shortlist, tier.value, if all then Some(reasons[0]) else None, needsReview, reasons));
  }

  /** The reasons for review, in terms of the evaluations. */
  lemma ReviewMeans(evals: seq<Evaluation>, ranking: seq<Vendor>, lowCoverage: set<Vendor>,
                    derive: Vendor -> Option<seq<string>>)
    ensures var order := InOrder(evals, ranking);
            && (order == [] && Notices(evals, derive) != [] <==>
                  evals != [] && forall e :: e in evals ==> RejectingOf(e.decisions) != [])
            && (ReviewAll(order, lowCoverage) != [] <==>
                  exists e :: e in evals && RejectingOf(e.decisions) == [] && Questionable(e, lowCoverage))
            && (forall r :: r in ReviewAll(order, lowCoverage) <==>
                  exists e :: e in evals && RejectingOf(e.decisions) == [] && ReasonOf(e, lowCoverage, r))
  {
    var order := InOrder(evals, ranking);
    ShortlistHolds(evals, ranking);
    SplitCounts(evals, derive);
    ReviewNeededIff(order, lowCoverage);
    forall r ensures r in ReviewAll(order, lowCoverage) <==>
        exists e :: e in order && ReasonOf(e, lowCoverage, r) { ReviewAre(order, lowCoverage, r); }
    if order == [] {
      assert forall e :: e in evals ==> e !in order;
    } else {
      assert order[0] in order;
    }
  }

  lemma ReviewStep(order: seq<Evaluation>, i: nat, lowCoverage: set<Vendor>)
    requires i < |order|
    ensures ReviewAll(order[..i + 1], lowCoverage) == ReviewAll(order[..i], lowCoverage) + ReviewOf(order[i],
        lowCoverage)
  {
    assert order[..i + 1][..i] == order[..i];
  }

  method EntryFor(e: Evaluation, k: nat, table: seq<Band>) returns (entry: Entry)
    ensures Describes(entry, e, k, table)
  {
    var band, at := Recommend(table, e.card.normalised);
    assert Labelled(table, e.card.normalised, band);
    entry := Entry(e.vendor, k + 1, e.card.total, e.card.coverage, e.card.normalised, band);
  }

  /** The next entry of the shortlist. */
  method AddEntry(order: seq<Evaluation>, shortlist: seq<Entry>, table: seq<Band>) returns (longer: seq<Entry>)
    requires |shortlist| < |order|
    requires forall k :: 0 <= k < |shortlist| ==> Describes(shortlist[k], order[k], k, table)
    ensures |longer| == |shortlist| + 1 && forall k :: 0 <= k < |longer| ==> Describes(longer[k], order[k], k, table)
  {
    var entry := EntryFor(order[|shortlist|], |shortlist|, table);
    longer := shortlist + [entry];
  }

  /** The loop over the sorted shortlist: ranks, bands and reasons for review. */
  method Enter(order: seq<Evaluation>, lowCoverage: set<Vendor>, table: seq<Band>)
    returns (shortlist: seq<Entry>, reasons: seq<ReviewReason>)
    ensures |shortlist| == |order| && forall k :: 0 <= k < |order| ==> Describes(shortlist[k], order[k], k, table)
    ensures reasons == ReviewAll(order, lowCoverage)
  {
    shortlist, reasons := [], [];
    for i := 0 to |order|
      invariant |shortlist| == i && forall k :: 0 <= k < i ==> Describes(shortlist[k], order[k], k, table)
      invariant reasons == ReviewAll(order[..i], lowCoverage)
    {
      ReviewStep(order, i, lowCoverage);
      shortlist := AddEntry(order, shortlist, table);
      reasons := reasons + ReviewOf(order[i], lowCoverage);
    }
    assert order[..|order|] == order;
  }

  /** The critic never blocks a decision of the agent, and escalates exactly when every evaluated
      vendor is rejected. */
  lemma CriticOnDecision(evals: seq<Evaluation>, ranking: seq<Vendor>, derive: Vendor -> Option<seq<string>>,
                         needsReview: bool, reasons: seq<ReviewReason>)
    ensures var v := AfterDecision(Notices(evals, derive), |InOrder(evals, ranking)|, needsReview, reasons);
            && v != Blocked
            && (v == Escalated <==> evals != [] && forall e :: e in evals ==> RejectingOf(e.decisions) != [])
  {
    var rejected, k := Notices(evals, derive), |InOrder(evals, ranking)|;
    DecisionVerdict(rejected, k, needsReview, reasons);
    SortIsPermutation(Shortlisted(evals), ByPlace(ranking));
    SplitCounts(evals, derive);
    ShortlistedAre(evals);
    forall n | n in rejected ensures n.citations != [] { CitationsEverywhere(evals, derive, n); }
    if k == 0 {
      assert Shortlisted(evals) == [];
      assert forall e :: e in evals ==> e !in Shortlisted(evals);
    } else {
      assert Shortlisted(evals)[0] in Shortlisted(evals);
    }
  }

  /** The shortlist holds the vendors that are not rejected, each once. */
  lemma ShortlistHolds(evals: seq<Evaluation>, ranking: seq<Vendor>)
    ensures forall e :: e in InOrder(evals, ranking) <==> e in evals && RejectingOf(e.decisions) == []
    ensures |InOrder(evals, ranking)| == |Shortlisted(evals)|
    ensures Distinct(evals) ==> Distinct(InOrder(evals, ranking))
  {
    ShortlistedAre(evals);
    SortIsPermutation(Shortlisted(evals), ByPlace(ranking));
    SortKeepsDistinct(Shortlisted(evals), ByPlace(ranking));
    forall e ensures e in InOrder(evals, ranking) <==> e in Shortlisted(evals) {
      SortHasSameMembers(Shortlisted(evals), ByPlace(ranking), e);
    }
    if Distinct(evals) { ShortlistedDistinct(evals); }
  }

  lemma {:induction false} ShortlistedDistinct(evals: seq<Evaluation>)
    requires Distinct(evals)
    ensures Distinct(Shortlisted(evals)) && forall e :: e in Shortlisted(evals) ==> e in evals
  {
    if evals != [] {
      var init, last := evals[..|evals| - 1], evals[|evals| - 1];
      assert forall i :: 0 <= i < |init| ==> init[i] == evals[i];
      assert last !in init;
      ShortlistedDistinct(init);
      assert last !in Shortlisted(init);
    }
  }

  /** Ranked vendors stand in the order of the ranking; one that is not ranked stands as if at place 999. */
  lemma OrderIsByRanking(evals: seq<Evaluation>, ranking: seq<Vendor>, i: nat, j: nat)
    requires i < j < |InOrder(evals, ranking)|
    ensures var a, b := InOrder(evals, ranking)[i].vendor, InOrder(evals, ranking)[j].vendor;
            && (a in ranking && b in ranking ==> IndexOf(ranking, a) <= IndexOf(ranking, b))
            && (a in ranking && b !in ranking ==> IndexOf(ranking, a) <= 999)
            && (a !in ranking && b in ranking ==> IndexOf(ranking, b) >= 999)
  {
    SortAscends(Shortlisted(evals), ByPlace(ranking));
    var order, key := InOrder(evals, ranking), ByPlace(ranking);
    assert AtMost(key(order[i]), key(order[j]));
  }

  // ---- the order of the shortlist ----------------------------------------------------------------

  function VendorsOf(evals: seq<Evaluation>): (vs: seq<Vendor>)
    ensures |vs| == |evals| && forall i :: 0 <= i < |evals| ==> vs[i] == evals[i].vendor
  {
    seq(|evals|, i requires 0 <= i < |evals| => evals[i].vendor)
  }

  function RankingFor(evals: seq<Evaluation>, requested: seq<Vendor>, score: Vendor -> real): seq<Vendor> {
    OverallRanking(VendorsOf(evals), requested, score)
  }

  /** Scores fall down the shortlist when vendors score as `score` says. */
  ghost predicate Falls(evals: seq<Evaluation>, requested: seq<Vendor>, score: Vendor -> real) {
    var order := InOrder(evals, RankingFor(evals, requested, score));
    forall i, j :: 0 <= i < j < |order| ==> score(order[i].vendor) >= score(order[j].vendor)
  }

  ghost predicate AllRequested(evals: seq<Evaluation>, requested: seq<Vendor>) {
    forall e :: e in Shortlisted(evals) ==> e.vendor in requested
  }

  lemma RankedIff(evals: seq<Evaluation>, requested: seq<Vendor>, score: Vendor -> real, e: Evaluation)
    requires Distinct(VendorsOf(evals)) && e in evals
    ensures e.vendor in RankingFor(evals, requested, score) <==> e.vendor in requested
  {
    RankingIsSound(VendorsOf(evals), requested, score);
    var i :| 0 <= i < |evals| && evals[i] == e;
    assert VendorsOf(evals)[i] == e.vendor;
  }

  lemma RequestedFall(evals: seq<Evaluation>, requested: seq<Vendor>, score: Vendor -> real)
    requires Distinct(VendorsOf(evals)) && AllRequested(evals, requested)
    ensures Falls(evals, requested, score)
  {
    var ranking := RankingFor(evals, requested, score);
    var order, key := InOrder(evals, ranking), ByPlace(ranking);
    RankingIsSound(VendorsOf(evals), requested, score);
    ShortlistHolds(evals, ranking);
    ShortlistedAre(evals);
    SortAscends(Shortlisted(evals), key);
    forall i, j | 0 <= i < j < |order| ensures score(order[i].vendor) >= score(order[j].vendor) {
      assert order[i] in order && order[j] in order;
      RankedIff(evals, requested, score, order[i]);
      RankedIff(evals, requested, score, order[j]);
      assert AtMost(key(order[i]), key(order[j]));
      var a, b := IndexOf(ranking, order[i].vendor), IndexOf(ranking, order[j].vendor);
      assert a <= b;
    }
  }

  /** Sorting by a key that is the same for all changes nothing. */
  lemma {:induction false} SortByConstant<T>(xs: seq<T>, key: T -> Key, k: Key)
    requires forall x :: x in xs ==> key(x) == k
    ensures Sort(xs, key) == xs
  {
    if xs != [] {
      SortByConstant(xs[..|xs| - 1], key, k);
      assert xs[|xs| - 1] in xs;
      assert xs[..|xs| - 1] + [xs[|xs| - 1]] == xs;
    }
  }

  /** Vendor `u` alone scores, or everybody but `u` does. */
  function OnlyFor(u: Vendor): Vendor -> real {
    w => if w == u then 1.0 else 0.0
  }

  function AllBut(u: Vendor): Vendor -> real {
    w => if w == u then 0.0 else 1.0
  }

  /** If `u` was not requested, both scorings rank the others alike. */
  lemma SameRanking(evals: seq<Evaluation>, requested: seq<Vendor>, u: Vendor)
    requires u !in requested
    ensures RankingFor(evals, requested, OnlyFor(u)) == RankingFor(evals, requested, AllBut(u))
  {
    var cs := Candidates(VendorsOf(evals), requested);
    CandidatesAre(VendorsOf(evals), requested);
    SortByConstant(cs, ByScore(OnlyFor(u)), Finite(-0.0));
    SortByConstant(cs, ByScore(AllBut(u)), Finite(-1.0));
  }

  /** Someone is listed before a vendor that scores more. */
  lemma Rises(evals: seq<Evaluation>, requested: seq<Vendor>, score: Vendor -> real, ranking: seq<Vendor>, i: nat,
      j: nat)
    requires ranking == RankingFor(evals, requested, score) && i < j < |InOrder(evals, ranking)|
    requires score(InOrder(evals, ranking)[i].vendor) < score(InOrder(evals, ranking)[j].vendor)
    ensures !Falls(evals, requested, score)
  {
  }

  /** The shortlist falls by score for every possible scoring exactly when every shortlisted vendor
      was requested (and therefore ranked), or there is at most one to list. */
  lemma ShortlistFallsIff(evals: seq<Evaluation>, requested: seq<Vendor>)
    requires Distinct(VendorsOf(evals))
    ensures (forall score :: Falls(evals, requested, score)) <==>
            |Shortlisted(evals)| <= 1 || AllRequested(evals, requested)
  {
    if |Shortlisted(evals)| <= 1 {
      forall score ensures Falls(evals, requested, score) { ShortlistHolds(evals,
          RankingFor(evals, requested, score)); }
    } else if AllRequested(evals, requested) {
      forall score ensures Falls(evals, requested, score) { RequestedFall(evals, requested, score); }
    } else {
      var u :| u in Shortlisted(evals) && u.vendor !in requested;
      UnrequestedBreaks(evals, requested, u);
    }
  }

  /** Wherever an unrequested vendor is listed, it is listed there under both scorings; one of them makes
      its neighbour above or below score wrongly. */
  lemma UnrequestedBreaks(evals: seq<Evaluation>, requested: seq<Vendor>, u: Evaluation)
    requires Distinct(VendorsOf(evals)) && |Shortlisted(evals)| > 1
    requires u in Shortlisted(evals) && u.vendor !in requested
    ensures !Falls(evals, requested, OnlyFor(u.vendor)) || !Falls(evals, requested, AllBut(u.vendor))
  {
    var ranking := RankingFor(evals, requested, OnlyFor(u.vendor));
    SameRanking(evals, requested, u.vendor);
    var k := PlaceIn(evals, ranking, u);
    if k > 0 {
      OthersDiffer(evals, InOrder(evals, ranking), k, k - 1);
      Rises(evals, requested, OnlyFor(u.vendor), ranking, k - 1, k);
    } else {
      OthersDiffer(evals, InOrder(evals, ranking), 0, 1);
      Rises(evals, requested, AllBut(u.vendor), ranking, 0, 1);
    }
  }

  lemma PlaceIn(evals: seq<Evaluation>, ranking: seq<Vendor>, u: Evaluation) returns (k: nat)
    requires Distinct(VendorsOf(evals)) && u in Shortlisted(evals)
    ensures var order := InOrder(evals, ranking);
            && k < |order| && order[k] == u && |order| == |Shortlisted(evals)|
            && Distinct(order) && (forall e :: e in order ==> e in evals)
  {
    VendorsDistinctSo(evals);
    ShortlistHolds(evals, ranking);
    ShortlistedAre(evals);
    assert u in InOrder(evals, ranking);
    k :| k < |InOrder(evals, ranking)| && InOrder(evals, ranking)[k] == u;
  }

  lemma OthersDiffer(evals: seq<Evaluation>, order: seq<Evaluation>, k: nat, l: nat)
    requires Distinct(VendorsOf(evals)) && Distinct(order) && (forall e :: e in order ==> e in evals)
    requires k < |order| && l < |order| && k != l
    ensures order[k].vendor != order[l].vendor
  {
    assert order[k] in order && order[l] in order;
    if order[k].vendor == order[l].vendor { SameVendorSame(evals, order[k], order[l]); }
  }

  lemma SameVendorSame(evals: seq<Evaluation>, a: Evaluation, b: Evaluation)
    requires Distinct(VendorsOf(evals)) && a in evals && b in evals && a.vendor == b.vendor
    ensures a == b
  {
    var i, j :| 0 <= i < |evals| && 0 <= j < |evals| && evals[i] == a && evals[j] == b;
    assert VendorsOf(evals)[i] == VendorsOf(evals)[j];
  }

  lemma VendorsDistinctSo(evals: seq<Evaluation>)
    requires Distinct(VendorsOf(evals))
    ensures Distinct(evals)
  {
    forall i, j | 0 <= i < j < |evals|
        ensures evals[i] != evals[j] { assert VendorsOf(evals)[i] != VendorsOf(evals)[j]; }
  }

  /** From evaluation to decision: when every evaluated vendor was requested, normalised scores fall
      down the shortlist, and neither does a later vendor reach a better band nor, with a table that
      keeps "marginal" lowest, get a better label. */
  lemma BandsFallDownTheShortlist(evals: seq<Evaluation>, requested: seq<Vendor>, score: Vendor -> real,
      table: seq<Band>,
                                  i: nat, j: nat, a: nat, b: nat, labelA: string, labelB: string)
    requires Distinct(VendorsOf(evals)) && AllRequested(evals, requested)
    requires forall e :: e in evals ==> score(e.vendor) == e.card.normalised && e.card.normalised >= 0.0
    requires i < j < |InOrder(evals, RankingFor(evals, requested, score))|
    requires var order := InOrder(evals, RankingFor(evals, requested, score));
             && Reaches(Bands(table), order[i].card.normalised, a) && Reaches(Bands(table), order[j].card.normalised, b)
             && Labelled(table, order[i].card.normalised, labelA) && Labelled(table, order[j].card.normalised, labelB)
    ensures var order := InOrder(evals, RankingFor(evals, requested, score));
            order[i].card.normalised >= order[j].card.normalised && a <= b
    ensures DistinctLabels(table) && FallbackIsLowest(table) ==> !Better(table, labelB, labelA)
  {
    var order := InOrder(evals, RankingFor(evals, requested, score));
    RequestedFall(evals, requested, score);
    ShortlistHolds(evals, RankingFor(evals, requested, score));
    assert order[i] in order && order[j] in order;
    PositionNeverImproves(table, order[i].card.normalised, order[j].card.normalised, a, b);
    if DistinctLabels(table) && FallbackIsLowest(table) {
      LabelOrder(table, order[i].card.normalised, order[j].card.normalised, labelA, labelB);
    }
  }
}
