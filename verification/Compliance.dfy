/** How one mandatory check ends (app/agents/evaluation.py, the part of `_evaluate_mandatory_check`
    behind the vote), and what the evaluation critic makes of the whole output.

    The answer the vote hands on and the answers about retrieved chunks are arbitrary inputs. */
module Compliance {
  import opened Common
  import opened Schemas
  import opened Voting
  import opened Critic
  import Scoring

  datatype Chunk = Chunk(satisfies: bool, evidence: string)

  datatype Check = Check(id: string, orgKnown: bool, hasFacts: bool, retried: bool, chunks: seq<Chunk>)

  /** The answer lists a contradiction: the field holds something Python takes for true. */
  predicate Contradicted(p: Parsed) {
    p.contradictions.Malformed? || (p.contradictions.Value? && p.contradictions.value != [])
  }

  predicate FallsBack(c: Check, proposed: Status) {
    c.orgKnown && ((!c.hasFacts && proposed == InsufficientEvidence) || (c.hasFacts && proposed == Fail && !c.retried))
  }

  function ChunkEvidence(chunks: seq<Chunk>): seq<string> {
    if chunks == [] then [] else
      var last := chunks[|chunks| - 1];
      ChunkEvidence(chunks[..|chunks| - 1]) + if last.satisfies && last.evidence != "" then [last.evidence] else []
  }

  lemma {:induction false} SomeChunkVerifies(chunks: seq<Chunk>)
    ensures ChunkEvidence(chunks) != [] <==> exists c :: c in chunks && c.satisfies && c.evidence != ""
  {
    if chunks != [] {
      var init, last := chunks[..|chunks| - 1], chunks[|chunks| - 1];
      SomeChunkVerifies(init);
      assert forall c :: c in chunks <==> c in init || c == last;
    }
  }

  /** The evidence found is that of the satisfying passages that quote any, in their order. */
  lemma {:induction false} EvidenceInOrder(chunks: seq<Chunk>) returns (at: seq<nat>)
    ensures Rising(at) && |at| == |ChunkEvidence(chunks)|
    ensures forall k :: 0 <= k < |at| ==> at[k] < |chunks| && ChunkEvidence(chunks)[k] == chunks[at[k]].evidence
    ensures forall i :: 0 <= i < |chunks| ==> (i in at <==> chunks[i].satisfies && chunks[i].evidence != "")
  {
    if chunks == [] { return []; }
    var n := |chunks| - 1;
    at := EvidenceInOrder(chunks[..n]);
    AppendPlace(at, n);
    assert forall i :: 0 <= i < n ==> chunks[..n][i] == chunks[i];
    if chunks[n].satisfies && chunks[n].evidence != "" { at := at + [n]; }
  }

  /** Evidence found in the document stands in for the answer. */
  predicate Verified(c: Check, p: Parsed) {
    !Contradicted(p) && FallsBack(c, Normalise(p)) && ChunkEvidence(c.chunks) != []
  }

  predicate InUnit(x: real) {
    0.0 <= x <= 1.0
  }

  /** The answer can be turned into a decision record; otherwise the exception drops the check. */
  predicate Buildable(c: Check, p: Parsed) {
    && (p.contradictions.Absent? || p.contradictions.Value?)
    && (Verified(c, p) ||
        (&& (p.confidence.Absent? || (p.confidence.Value? && InUnit(p.confidence.value)))
         && (p.reasoning.Absent? || p.reasoning.Value?)
         && !p.evidence.Malformed?))
  }

  /** What the check should come to. */
  function Outcome(c: Check, p: Parsed): Status {
    if Contradicted(p) then InsufficientEvidence else if Verified(c, p) then Pass else Normalise(p)
  }

  /** `float(...)`, which raises on null and on what is no number. */
  function AsConfidence(f: Field<real>): Option<real> {
    match f
    case Absent => Some(0.5)
    case Value(x) => if InUnit(x) then Some(x) else None
    case _ => None
  }

  function AsText(f: Field<string>): Option<string> {
    match f
    case Absent => Some("")
    case Value(t) => Some(t)
    case _ => None
  }

  function VerifiedText(evidence: string): string {
    "Verified in source document: " + if |evidence| <= 120 then evidence else evidence[..120]
  }

  method EvaluateCheck(c: Check, answer: Parsed) returns (r: Option<ComplianceDecision>)
    ensures r.Some? <==> Buildable(c, answer)
    ensures r.Some? ==>
              && r.value.checkId == c.id && r.value.decision == Outcome(c, answer) && InUnit(r.value.confidence)
              && (r.value.contradictions != [] <==> Contradicted(answer))
              && (answer.contradictions.Value? ==> r.value.contradictions == answer.contradictions.value)
    ensures r.Some? && Verified(c, answer) ==>
              && r.value.evidence == ChunkEvidence(c.chunks) && r.value.confidence == 0.75
              && r.value.basis == ExplicitConfirmation
              && r.value.reasoning == VerifiedText(ChunkEvidence(c.chunks)[0])
              && r.value.reasoning == "Verified in source document: " +
                   (if |r.value.evidence[0]| <= 120 then r.value.evidence[0] else r.value.evidence[0][..120])
    ensures r.Some? && !Verified(c, answer) ==>
              && r.value.evidence == (if answer.evidence.Value? then answer.evidence.value else [])
              && Some(r.value.confidence) == AsConfidence(answer.confidence)
              && Some(r.value.reasoning) == AsText(answer.reasoning)
              && r.value.basis == (if answer.basis.Value? then answer.basis.value else NotAddressed)
    ensures var contradicted := answer.contradictions.Malformed? ||
                (answer.contradictions.Value? && answer.contradictions.value != []);
            var verified := FoundInDocument(c, answer) && !contradicted;
            && (r.Some? <==>
                  && (answer.contradictions.Absent? || answer.contradictions.Value?)
                  && (verified ||
                      ((answer.confidence.Absent? ||
                        (answer.confidence.Value? && 0.0 <= answer.confidence.value <= 1.0)) &&
                       (answer.reasoning.Absent? || answer.reasoning.Value?) && !answer.evidence.Malformed?)))
            && (r.Some? ==>
                  && r.value.decision == (if contradicted then InsufficientEvidence else if verified then Pass
                       else if answer.decision == Value("pass") then Pass
                       else if answer.decision == Value("fail") then Fail else InsufficientEvidence)
                  && r.value.confidence == (if verified then 0.75
                       else if answer.confidence.Value? then answer.confidence.value else 0.5)
                  && (verified || r.value.reasoning ==
                        (if answer.reasoning.Value? then answer.reasoning.value else "")))
  {
    SaysWhat(c, answer);
    var p := answer;
    var decision := Normalise(p);
    var contradictions := Contradicted(p);
    if contradictions { decision := InsufficientEvidence; }
    var found: seq<string> := [];
    if !contradictions && FallsBack(c, decision) {
      for i := 0 to |c.chunks|
        invariant found == ChunkEvidence(c.chunks[..i])
      {
        assert c.chunks[..i + 1][..i] == c.chunks[..i];
        if c.chunks[i].satisfies && c.chunks[i].evidence != "" { found := found + [c.chunks[i].evidence]; }
      }
      assert c.chunks[..|c.chunks|] == c.chunks;
      if found != [] {
        decision := Pass;
        p := p.(confidence := Value(0.75), reasoning := Value(VerifiedText(found[0])),
                basis := Value(ExplicitConfirmation));
      }
    }
    var basis := if p.basis.Value? then p.basis.value else NotAddressed;
    var confidence, reasoning := AsConfidence(p.confidence), AsText(p.reasoning);
    if confidence.None? || reasoning.None? || p.contradictions.Null? || p.contradictions.Malformed?
       || (found == [] && p.evidence.Malformed?) {
      return None;
    }
    var evidence := if found != [] then found else if p.evidence.Value? then p.evidence.value else [];
    r := Some(ComplianceDecision(c.id, decision, confidence.value, reasoning.value, evidence,
                                 if p.contradictions.Value? then p.contradictions.value else [], basis));
  }

  /** For a known organisation, a retrieved passage satisfies the requirement, and the answer is one to look
      further at: nothing definite without facts, or a failure on facts nobody has extracted again. */
  predicate FoundInDocument(c: Check, p: Parsed) {
    && c.orgKnown
    && (if c.hasFacts then p.decision == Value("fail") && !c.retried
        else p.decision != Value("pass") && p.decision != Value("fail"))
    && exists k :: k in c.chunks && k.satisfies && k.evidence != ""
  }

  lemma SaysWhat(c: Check, p: Parsed)
    ensures Normalise(p) == Pass <==> p.decision == Value("pass")
    ensures Normalise(p) == Fail <==> p.decision == Value("fail")
    ensures Verified(c, p) <==> FoundInDocument(c, p) && !Contradicted(p)
  {
    SomeChunkVerifies(c.chunks);
  }

  /** Exactly when a check passes, and exactly when it fails.  A contradiction rules out both; evidence in
      the document turns into a pass what is undecided without facts, and a failure on facts that were not
      extracted again. */
  lemma WhenItPasses(c: Check, p: Parsed)
    ensures var contradicted := p.contradictions.Malformed? ||
                (p.contradictions.Value? && p.contradictions.value != []);
            var found := c.orgKnown && exists k :: k in c.chunks && k.satisfies && k.evidence != "";
            && (contradicted ==> Outcome(c, p) == InsufficientEvidence)
            && (Outcome(c, p) == Pass <==>
                  !contradicted &&
                  (p.decision == Value("pass") ||
                   (found && !c.hasFacts && p.decision != Value("fail")) ||
                   (found && c.hasFacts && p.decision == Value("fail") && !c.retried)))
            && (Outcome(c, p) == Fail <==>
                  !contradicted && p.decision == Value("fail") && !(found && c.hasFacts && !c.retried))
  {
    SaysWhat(c, p);
  }

  /** A voted check counts as contradicted exactly when the one sample that represents the vote lists
      a contradiction: those found by the other samples are not seen. */
  lemma VotedContradictionIff(samples: seq<Parsed>, rep: Parsed, i: int)
    requires Represents(samples, rep) && MostConfident(samples, Winner(multiset(Decisions(samples))), i)
    ensures Contradicted(rep) <==> Contradicted(samples[i])
    ensures rep.contradictions == samples[i].contradictions
  {
    var w := Winner(multiset(Decisions(samples)));
    InTally(samples, w);
    if k :| MostConfident(samples, w, k) && rep == samples[k].(decision := rep.decision, confidence := rep.confidence) {
      assert k == i;
    }
  }

  // ---- all checks of a vendor --------------------------------------------------------------------

  /** One check with the answer the vote handed on; `None` if there is no extraction target for it or
      the vote raised. */
  datatype Case = Case(check: Check, answer: Option<Parsed>)

  /** The decision `d` is what the agent may have recorded for the case. */
  predicate Records(k: Case, d: ComplianceDecision) {
    && k.answer.Some? && Buildable(k.check, k.answer.value)
    && d.checkId == k.check.id && d.decision == Outcome(k.check, k.answer.value)
    && (d.contradictions != [] <==> Contradicted(k.answer.value))
  }

  function Kept(cases: seq<Case>): seq<Case> {
    if cases == [] then [] else
      var k := cases[|cases| - 1];
      Kept(cases[..|cases| - 1]) + if k.answer.Some? && Buildable(k.check, k.answer.value) then [k] else []
  }

  method EvaluateChecks(cases: seq<Case>) returns (ds: seq<ComplianceDecision>)
    ensures |ds| == |Kept(cases)| && forall i :: 0 <= i < |ds| ==> Records(Kept(cases)[i], ds[i])
  {
    ds := [];
    for i := 0 to |cases|
      invariant |ds| == |Kept(cases[..i])| && forall j :: 0 <= j < |ds| ==> Records(Kept(cases[..i])[j], ds[j])
    {
      assert cases[..i + 1][..i] == cases[..i];
      var k := cases[i];
      if k.answer.Some? {
        var d := EvaluateCheck(k.check, k.answer.value);
        if d.Some? { ds := ds + [d.value]; }
      }
    }
    assert cases[..|cases|] == cases;
  }

  /** Exactly the cases with an answer a record can be built from are kept, in their order. */
  lemma {:induction false} KeptInOrder(cases: seq<Case>) returns (at: seq<nat>)
    ensures Rising(at) && |at| == |Kept(cases)|
    ensures forall k :: 0 <= k < |at| ==> at[k] < |cases| && Kept(cases)[k] == cases[at[k]]
    ensures forall i :: 0 <= i < |cases| ==>
              (i in at <==> cases[i].answer.Some? && Buildable(cases[i].check, cases[i].answer.value))
  {
    if cases == [] { return []; }
    var n := |cases| - 1;
    at := KeptInOrder(cases[..n]);
    AppendPlace(at, n);
    assert forall i :: 0 <= i < n ==> cases[..n][i] == cases[i];
    if cases[n].answer.Some? && Buildable(cases[n].check, cases[n].answer.value) { at := at + [n]; }
  }

  /** The evaluation agent's own output. */
  ghost predicate AgentOutput(cases: seq<Case>, ds: seq<ComplianceDecision>) {
    |ds| == |Kept(cases)| && forall i :: 0 <= i < |ds| ==> Records(Kept(cases)[i], ds[i])
  }

  /** Every contradicted check of the output ends as insufficient evidence. */
  lemma ContradictedEndsInsufficient(cases: seq<Case>, ds: seq<ComplianceDecision>, d: ComplianceDecision)
    requires AgentOutput(cases, ds) && d in ds && d.contradictions != []
    ensures d.decision == InsufficientEvidence
  {
  }

  /** The evaluation critic never raises a HARD flag on the agent's own output. */
  lemma CriticNeverBlocksEvaluation(cases: seq<Case>, ds: seq<ComplianceDecision>, scores: seq<Scoring.Score>)
    requires AgentOutput(cases, ds)
    ensures AfterEvaluation(ds, scores) == Approved || AfterEvaluation(ds, scores) == ApprovedWithWarnings
  {
    EvaluationVerdict(ds, scores);
    forall d | d in ds && d.contradictions != [] ensures d.decision == InsufficientEvidence {
      ContradictedEndsInsufficient(cases, ds, d);
    }
  }
}
