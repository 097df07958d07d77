/** The critic's verdict over flags (app/agents/critic.py, `_verdict`) and its four consumers
    modelled here.

    A flag keeps its severity and its recommendation.  The recommendation texts are constants of
    the source; each is one constructor of `Advice`, and `MentionsEscalate` says whether its text,
    lower-cased, contains "escalate". */
module Critic {
  import opened Schemas
  import Scoring

  datatype Severity = Hard | Soft | Log

  datatype Verdict = Approved | ApprovedWithWarnings | Blocked | Escalated

  datatype Advice =
    | ProvideVendors | PlanGenerationFailed | FixSetup
    | NeedExplicitConfirmation | ResolvedToInsufficient | CannotDecideReliably | NoteVariance
    | RankingNeeded | EscalateIncompleteRanking | NoteLowConfidence | NoteUnstableRanking
    | CannotRejectWithoutEvidence | ConfirmUnresolvedChecks | EscalateAllRejected

  predicate MentionsEscalate(a: Advice) {
    a == EscalateIncompleteRanking || a == EscalateAllRejected
  }

  datatype Flag = Flag(severity: Severity, advice: Advice)

  function VerdictOf(flags: seq<Flag>): (v: Verdict)
    ensures v == Escalated <==> exists f :: f in flags && f.severity == Hard && MentionsEscalate(f.advice)
    ensures v == Escalated || v == Blocked <==> exists f :: f in flags && f.severity == Hard
    ensures v == Approved <==> forall f :: f in flags ==> f.severity == Log
  {
    var hard := exists f :: f in flags && f.severity == Hard;
    var escalated := exists f :: f in flags && f.severity == Hard && MentionsEscalate(f.advice);
    var soft := exists f :: f in flags && f.severity == Soft;
    if escalated then Escalated
    else if hard then Blocked
    else if soft then ApprovedWithWarnings
    else Approved
  }

  /** One flag for each of `n` items. */
  function Repeated(f: Flag, n: nat): (r: seq<Flag>)
    ensures |r| == n && forall x :: x in r ==> x == f
  {
    seq(n, _ => f)
  }

  function PlannerFlags(vendors: nat, tasks: nat, errors: nat): seq<Flag> {
    (if vendors == 0 then [Flag(Hard, ProvideVendors)] else []) +
    (if tasks == 0 then [Flag(Hard, PlanGenerationFailed)] else []) +
    Repeated(Flag(Hard, FixSetup), errors)
  }

  function AfterPlanner(vendors: nat, tasks: nat, errors: nat): Verdict {
    VerdictOf(PlannerFlags(vendors, tasks, errors))
  }

  /** The planner critic never escalates: it approves or it blocks. */
  lemma PlannerVerdict(vendors: nat, tasks: nat, errors: nat)
    ensures AfterPlanner(vendors, tasks, errors) ==
            if vendors > 0 && tasks > 0 && errors == 0 then Approved else Blocked
  {
    var flags := PlannerFlags(vendors, tasks, errors);
    if errors > 0 { assert Repeated(Flag(Hard, FixSetup), errors)[0] in flags; }
    if vendors == 0 { assert Flag(Hard, ProvideVendors) in flags; }
    if tasks == 0 { assert Flag(Hard, PlanGenerationFailed) in flags; }
  }

  // ---- after the evaluation agent ----------------------------------------------------------------

  function CheckFlags(d: ComplianceDecision): seq<Flag> {
    (if d.decision == Pass && d.basis == ImplicitConfirmation then [Flag(Soft, NeedExplicitConfirmation)] else []) +
    (if d.contradictions == [] then []
     else if d.decision == InsufficientEvidence then [Flag(Soft, ResolvedToInsufficient)]
     else [Flag(Hard, CannotDecideReliably)])
  }

  function AllCheckFlags(ds: seq<ComplianceDecision>): seq<Flag> {
    if ds == [] then [] else AllCheckFlags(ds[..|ds| - 1]) + CheckFlags(ds[|ds| - 1])
  }

  function VarianceFlags(scores: seq<Scoring.Score>): seq<Flag> {
    if scores == [] then [] else
      VarianceFlags(scores[..|scores| - 1]) +
      if scores[|scores| - 1].variance >= 2.0 then [Flag(Soft, NoteVariance)] else []
  }

  function AfterEvaluation(ds: seq<ComplianceDecision>, scores: seq<Scoring.Score>): Verdict {
    VerdictOf(AllCheckFlags(ds) + VarianceFlags(scores))
  }

  lemma {:induction false} CheckFlagsCollected(ds: seq<ComplianceDecision>, f: Flag)
    ensures f in AllCheckFlags(ds) <==> exists d :: d in ds && f in CheckFlags(d)
  {
    if ds != [] {
      var init, last := ds[..|ds| - 1], ds[|ds| - 1];
      CheckFlagsCollected(init, f);
      assert forall d :: d in ds <==> d in init || d == last;
    }
  }

  lemma {:induction false} VarianceFlagsCollected(scores: seq<Scoring.Score>, f: Flag)
    ensures f in VarianceFlags(scores) <==>
            f == Flag(Soft, NoteVariance) && exists s :: s in scores && s.variance >= 2.0
  {
    if scores != [] {
      var init, last := scores[..|scores| - 1], scores[|scores| - 1];
      VarianceFlagsCollected(init, f);
      assert forall s :: s in scores <==> s in init || s == last;
    }
  }

  /** For any output: the critic never escalates, blocks exactly when a contradicted check was nevertheless
      decided, and has nothing to say exactly if there is no contradiction, no pass that is only implied, and
      no score that varies by two or more. */
  lemma EvaluationVerdict(ds: seq<ComplianceDecision>, scores: seq<Scoring.Score>)
    ensures AfterEvaluation(ds, scores) != Escalated
    ensures AfterEvaluation(ds, scores) == Blocked <==>
            exists d :: d in ds && d.contradictions != [] && d.decision != InsufficientEvidence
    ensures AfterEvaluation(ds, scores) == Approved <==>
            && (forall d :: d in ds ==>
                  d.contradictions == [] && (d.decision == Pass ==> d.basis != ImplicitConfirmation))
            && (forall s :: s in scores ==> s.variance < 2.0)
  {
    var flags := AllCheckFlags(ds) + VarianceFlags(scores);
    ApprovedIff(ds, scores);
    forall f | f in flags && f.severity == Hard
      ensures f == Flag(Hard, CannotDecideReliably) && f in AllCheckFlags(ds)
    {
      VarianceFlagsCollected(scores, f);
      CheckFlagsCollected(ds, f);
    }
    CheckFlagsCollected(ds, Flag(Hard, CannotDecideReliably));
    assert Flag(Hard, CannotDecideReliably) in flags <==> Flag(Hard, CannotDecideReliably) in AllCheckFlags(ds) by {
      VarianceFlagsCollected(scores, Flag(Hard, CannotDecideReliably));
    }
  }

  lemma ApprovedIff(ds: seq<ComplianceDecision>, scores: seq<Scoring.Score>)
    ensures AfterEvaluation(ds, scores) == Approved <==>
            && (forall d :: d in ds ==>
                  d.contradictions == [] && (d.decision == Pass ==> d.basis != ImplicitConfirmation))
            && (forall s :: s in scores ==> s.variance < 2.0)
  {
    var flags := AllCheckFlags(ds) + VarianceFlags(scores);
    forall f | f in flags ensures f.severity != Log {
      CheckFlagsCollected(ds, f);
      VarianceFlagsCollected(scores, f);
    }
    NoCheckFlags(ds);
    NoVarianceFlags(scores);
    if flags != [] { assert flags[0] in flags; }
    assert flags == [] <==> AllCheckFlags(ds) == [] && VarianceFlags(scores) == [];
  }

  lemma {:induction false} NoCheckFlags(ds: seq<ComplianceDecision>)
    ensures AllCheckFlags(ds) == [] <==>
            forall d :: d in ds ==> d.contradictions == [] && (d.decision == Pass ==> d.basis != ImplicitConfirmation)
  {
    if ds != [] {
      NoCheckFlags(ds[..|ds| - 1]);
      assert forall d :: d in ds <==> d in ds[..|ds| - 1] || d == ds[|ds| - 1];
    }
  }

  lemma {:induction false} NoVarianceFlags(scores: seq<Scoring.Score>)
    ensures VarianceFlags(scores) == [] <==> forall s :: s in scores ==> s.variance < 2.0
  {
    if scores != [] {
      NoVarianceFlags(scores[..|scores| - 1]);
      assert forall s :: s in scores <==> s in scores[..|scores| - 1] || s == scores[|scores| - 1];
    }
  }

  // ---- after the comparator ----------------------------------------------------------------------

  function ComparatorFlags(requested: set<string>, ranking: seq<string>, confidence: real, unstable: bool): seq<Flag> {
    (if ranking == [] then [Flag(Hard, RankingNeeded)] else []) +
    (if exists v :: v in requested && v !in ranking then [Flag(Hard, EscalateIncompleteRanking)] else []) +
    (if confidence < 0.5 then [Flag(Soft, NoteLowConfidence)] else []) +
    (if unstable then [Flag(Soft, NoteUnstableRanking)] else [])
  }

  function AfterComparator(requested: set<string>, ranking: seq<string>, confidence: real, unstable: bool): Verdict {
    VerdictOf(ComparatorFlags(requested, ranking, confidence, unstable))
  }

  lemma ComparatorVerdict(requested: set<string>, ranking: seq<string>, confidence: real, unstable: bool)
    ensures var v := AfterComparator(requested, ranking, confidence, unstable);
            && (v == Escalated <==> exists r :: r in requested && r !in ranking)
            && (v == Blocked <==> ranking == [] && requested == {})
            && (v == Approved <==>
                  ranking != [] && (forall r :: r in requested ==> r in ranking) && confidence >= 0.5 && !unstable)
  {
    var flags := ComparatorFlags(requested, ranking, confidence, unstable);
    if ranking == [] {
      assert Flag(Hard, RankingNeeded) in flags;
      if r :| r in requested { assert r !in ranking; }
    }
    if exists r :: r in requested && r !in ranking { assert Flag(Hard, EscalateIncompleteRanking) in flags; }
    if confidence < 0.5 { assert Flag(Soft, NoteLowConfidence) in flags; }
    if unstable { assert Flag(Soft, NoteUnstableRanking) in flags; }
  }

  // ---- after the decision agent ------------------------------------------------------------------

  function NoticeFlags(rejected: seq<Notice>): seq<Flag> {
    if rejected == [] then [] else
      NoticeFlags(rejected[..|rejected| - 1]) +
      if rejected[|rejected| - 1].citations == [] then [Flag(Hard, CannotRejectWithoutEvidence)] else []
  }

  /** The reason's text says "insufficient evidence". */
  predicate SaysInsufficient(r: ReviewReason) {
    r.UnresolvedChecks? || r.UnscoredCriteria?
  }

  function ReasonFlags(reasons: seq<ReviewReason>): seq<Flag> {
    if reasons == [] then [] else
      ReasonFlags(reasons[..|reasons| - 1]) +
      if SaysInsufficient(reasons[|reasons| - 1]) then [Flag(Soft, ConfirmUnresolvedChecks)] else []
  }

  function DecisionFlags(rejected: seq<Notice>, shortlisted: nat, needsReview: bool,
      reasons: seq<ReviewReason>): seq<Flag> {
    NoticeFlags(rejected) +
    (if needsReview then ReasonFlags(reasons) else []) +
    (if shortlisted == 0 && rejected != [] then [Flag(Hard, EscalateAllRejected)] else [])
  }

  function AfterDecision(rejected: seq<Notice>, shortlisted: nat, needsReview: bool,
      reasons: seq<ReviewReason>): Verdict {
    VerdictOf(DecisionFlags(rejected, shortlisted, needsReview, reasons))
  }

  lemma {:induction false} NoticeFlagsCollected(rejected: seq<Notice>, f: Flag)
    ensures f in NoticeFlags(rejected) <==>
            f == Flag(Hard, CannotRejectWithoutEvidence) && exists n :: n in rejected && n.citations == []
  {
    if rejected != [] {
      var init, last := rejected[..|rejected| - 1], rejected[|rejected| - 1];
      NoticeFlagsCollected(init, f);
      assert forall n :: n in rejected <==> n in init || n == last;
    }
  }

  lemma {:induction false} ReasonFlagsCollected(reasons: seq<ReviewReason>, f: Flag)
    ensures f in ReasonFlags(reasons) <==>
            f == Flag(Soft, ConfirmUnresolvedChecks) && exists r :: r in reasons && SaysInsufficient(r)
  {
    if reasons != [] {
      var init, last := reasons[..|reasons| - 1], reasons[|reasons| - 1];
      ReasonFlagsCollected(init, f);
      assert forall r :: r in reasons <==> r in init || r == last;
    }
  }

  lemma DecisionVerdict(rejected: seq<Notice>, shortlisted: nat, needsReview: bool, reasons: seq<ReviewReason>)
    ensures var v := AfterDecision(rejected, shortlisted, needsReview, reasons);
            && (v == Escalated <==> shortlisted == 0 && rejected != [])
            && (v == Blocked <==> shortlisted > 0 && exists n :: n in rejected && n.citations == [])
            && (v == Approved <==>
                  && (shortlisted > 0 || rejected == []) && (forall n :: n in rejected ==> n.citations != [])
                  && !(needsReview && exists r :: r in reasons && (r.UnresolvedChecks? || r.UnscoredCriteria?)))
  {
    var flags := DecisionFlags(rejected, shortlisted, needsReview, reasons);
    forall f ensures f in flags <==>
        || f in NoticeFlags(rejected) || (needsReview && f in ReasonFlags(reasons))
        || (shortlisted == 0 && rejected != [] && f == Flag(Hard, EscalateAllRejected)) {
    }
    forall f ensures f in NoticeFlags(rejected) <==>
               f == Flag(Hard, CannotRejectWithoutEvidence) && exists n :: n in rejected && n.citations == []
             ensures f in ReasonFlags(reasons) <==>
               f == Flag(Soft, ConfirmUnresolvedChecks) && exists r :: r in reasons && SaysInsufficient(r) {
      NoticeFlagsCollected(rejected, f);
      ReasonFlagsCollected(reasons, f);
    }
    assert Flag(Hard, CannotRejectWithoutEvidence) in flags <==> exists n :: n in rejected && n.citations == [];
    assert Flag(Hard, EscalateAllRejected) in flags <==> shortlisted == 0 && rejected != [];
    assert Flag(Soft, ConfirmUnresolvedChecks) in flags <==>
           needsReview && exists r :: r in reasons && SaysInsufficient(r);
  }
}
