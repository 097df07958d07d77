/** What the language model may answer about one mandatory check, and the records the agents hand to
    each other. */
module Schemas {
  import opened Common

  datatype Status = Pass | Fail | InsufficientEvidence

  /** The word a status is written as. */
  function Word(s: Status): string {
    match s case Pass => "pass" case Fail => "fail" case InsufficientEvidence => "insufficient_evidence"
  }

  datatype Basis = ExplicitConfirmation | ImplicitConfirmation | PartialCompliance | ExplicitDenial | NotAddressed

  /** One key of a parsed JSON object.  `Malformed` is a value of the wrong type or outside the
      vocabulary; one of the wrong type that Python takes for false behaves like null everywhere and
      is counted as `Null`. */
  datatype Field<+T> = Absent | Null | Value(value: T) | Malformed

  datatype Parsed = Parsed(
    decision: Field<string>,
    confidence: Field<real>,
    reasoning: Field<string>,
    evidence: Field<seq<string>>,
    contradictions: Field<seq<string>>,
    basis: Field<Basis>)

  /** One answer: text that is not JSON, JSON that is no object (reading it raises), or an object. */
  datatype Response = NotJson | NotAnObject | Object(parsed: Parsed)

  datatype ComplianceDecision = ComplianceDecision(
    checkId: string,
    decision: Status,
    confidence: real,
    reasoning: string,
    evidence: seq<string>,
    contradictions: seq<string>,
    basis: Basis)

  datatype Notice = Notice(vendor: string, failedChecks: seq<string>, reasons: seq<string>, citations: seq<string>)

  /** The kinds of text in `review_reasons`. */
  datatype ReviewReason =
    | UnresolvedChecks(vendor: string, checks: seq<string>)
    | UnscoredCriteria(vendor: string, criteria: seq<string>)
    | LowCoverage(vendor: string)
    | AllRejected
}
