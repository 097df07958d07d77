/** Self-consistency voting on one mandatory check (app/agents/evaluation.py,
    `_decide_check_with_voting`). */
module Voting {
  import opened Common
  import opened Schemas

  /** `_parse_check_response`; None when the answer is no object, on which every later read raises. */
  function ParseResponse(r: Response): Option<Parsed> {
    match r
    case NotJson => Some(Parsed(Value(Word(InsufficientEvidence)), Value(0.0), Value("LLM returned invalid JSON"),
                                Value([]), Value([]), Value(NotAddressed)))
    case NotAnObject => None
    case Object(p) => Some(p)
  }

  /** `_normalise_decision`: whatever is not exactly one of the three words counts as insufficient
      evidence. */
  function Normalise(p: Parsed): (s: Status)
    ensures s != InsufficientEvidence ==> p.decision == Value(Word(s))
    ensures forall t :: p.decision == Value(Word(t)) ==> s == t
  {
    WordsDiffer();
    if p.decision == Value(Word(Pass)) then Pass
    else if p.decision == Value(Word(Fail)) then Fail
    else InsufficientEvidence
  }

  lemma WordsDiffer()
    ensures forall s, t :: Word(s) == Word(t) ==> s == t
  {
    assert Word(Pass)[0] == 'p' && Word(Fail)[0] == 'f' && Word(InsufficientEvidence)[0] == 'i';
  }

  function Decisions(samples: seq<Parsed>): (ds: seq<Status>)
    ensures |ds| == |samples|
  {
    seq(|samples|, i requires 0 <= i < |samples| => Normalise(samples[i]))
  }

  // ---- the vote as it should be: on the collection of votes, without order -----------------------

  predicate StrictMajority(votes: multiset<Status>, s: Status) {
    2 * votes[s] > |votes|
  }

  function Winner(votes: multiset<Status>): Status {
    if StrictMajority(votes, Pass) then Pass
    else if StrictMajority(votes, Fail) then Fail
    else InsufficientEvidence
  }

  function Agreement(votes: multiset<Status>): real
    requires |votes| > 0
  {
    votes[Winner(votes)] as real / |votes| as real
  }

  lemma VotesAddUp(votes: multiset<Status>)
    ensures |votes| == votes[Pass] + votes[Fail] + votes[InsufficientEvidence]
  {
    var p, f, i := multiset{}[Pass := votes[Pass]], multiset{}[Fail := votes[Fail]],
                   multiset{}[InsufficientEvidence := votes[InsufficientEvidence]];
    forall s ensures votes[s] == (p + f + i)[s] {
      match s { case Pass => case Fail => case InsufficientEvidence => }
    }
    assert votes == p + f + i;
    CountOfOne(p, Pass);
    CountOfOne(f, Fail);
    CountOfOne(i, InsufficientEvidence);
  }

  lemma CountOfOne(votes: multiset<Status>, s: Status)
    requires forall t :: t != s ==> votes[t] == 0
    ensures |votes| == votes[s]
    decreases votes[s]
  {
    if votes[s] > 0 {
      CountOfOne(votes - multiset{s}, s);
    } else {
      assert votes == multiset{};
    }
  }

  /** A strict majority, if there is one, is unique and wins; with none the vote fails safe. */
  lemma MajorityWins(votes: multiset<Status>, s: Status)
    ensures 2 * votes[s] > |votes| ==> Winner(votes) == s
    ensures Winner(votes) == s ==> 2 * votes[s] > |votes| || s == InsufficientEvidence
  {
    VotesAddUp(votes);
  }

  /** Any other winner has the agreement of more than half the samples. */
  lemma OtherWinnerIsAgreed(votes: multiset<Status>)
    requires |votes| > 0 && Winner(votes) != InsufficientEvidence
    ensures Agreement(votes) == votes[Winner(votes)] as real / |votes| as real && 0.5 < Agreement(votes) <= 1.0
  {
    MajorityWins(votes, Winner(votes));
    VotesAddUp(votes);
    HalfOf(votes[Winner(votes)], |votes|);
  }

  lemma HalfOf(k: nat, n: nat)
    requires n < 2 * k <= 2 * n
    ensures 0.5 < k as real / n as real <= 1.0
  {
    var q := k as real / n as real;
    assert q * n as real == k as real;
    assert q <= 0.5 ==> q * n as real <= 0.5 * n as real;
    assert q > 1.0 ==> q * n as real > n as real;
  }

  // ---- the representative ------------------------------------------------------------------------

  /** The confidence a matching sample is compared by; None when `float` raises. */
  function Weight(p: Parsed): Option<real> {
    match p.confidence
    case Value(c) => Some(c)
    case Malformed => None
    case _ => Some(0.0)
  }

  predicate Matches(samples: seq<Parsed>, w: Status, i: int) {
    0 <= i < |samples| && Normalise(samples[i]) == w
  }

  /** Sample `i` is the first of the most confident samples that voted for `w`. */
  ghost predicate MostConfident(samples: seq<Parsed>, w: Status, i: int) {
    MostConfidentUpTo(samples, w, i, |samples|)
  }

  ghost predicate MostConfidentUpTo(samples: seq<Parsed>, w: Status, i: int, n: int) {
    && i < n && Matches(samples, w, i) && Weight(samples[i]).Some?
    && forall j :: Matches(samples, w, j) && j < n && Weight(samples[j]).Some? ==>
         Weight(samples[j]).value <= Weight(samples[i]).value &&
             (j < i ==> Weight(samples[j]).value < Weight(samples[i]).value)
  }

  function NoMajority(): Parsed {
    Parsed(Absent, Absent,
           Value("No majority across self-consistency samples \U{2014} fail-safe insufficient_evidence."),
           Value([]), Value([]), Value(NotAddressed))
  }

  /** What the vote hands on: it carries the winning decision and the agreement ratio, and otherwise
      is the most confident sample that voted for the winner, or a minimal record if none did. */
  ghost predicate Represents(samples: seq<Parsed>, rep: Parsed) {
    var votes := multiset(Decisions(samples));
    && |samples| > 0 && |votes| > 0
    && rep.decision == Value(Word(Winner(votes))) && rep.confidence == Value(Agreement(votes))
    && ((exists i :: MostConfident(samples, Winner(votes), i) &&
                     rep == samples[i].(decision := rep.decision, confidence := rep.confidence))
        || (Winner(votes) !in votes && rep == NoMajority().(decision := rep.decision, confidence := rep.confidence)))
  }

  lemma InTally(samples: seq<Parsed>, s: Status)
    ensures s in multiset(Decisions(samples)) <==> exists i :: Matches(samples, s, i)
  {
    var ds := Decisions(samples);
    if s in multiset(ds) {
      assert s in ds;
      var i :| 0 <= i < |ds| && ds[i] == s;
      assert Matches(samples, s, i);
    }
    if i :| Matches(samples, s, i) { assert ds[i] == s; }
  }

  /** Some sample that voted for the winner has a confidence that is no number. */
  ghost predicate Unreadable(samples: seq<Parsed>) {
    exists i :: Matches(samples, Winner(multiset(Decisions(samples))), i) && samples[i].confidence.Malformed?
  }

  /** Counts the votes, takes the largest entry of the tally (any of them: `:|` leaves the choice
      open), applies the strict-majority rule, and picks the representative. */
  method Vote(samples: seq<Parsed>) returns (rep: Option<Parsed>)
    requires |samples| > 0
    ensures rep.None? <==> Unreadable(samples)
    ensures rep.Some? ==> Represents(samples, rep.value)
  {
    var ds := Decisions(samples);
    var tally := CountVotes(ds);
    ghost var votes := multiset(ds);
    assert ds[0] in tally.Keys;
    var leader := Largest(tally);
    var winner, won := leader, tally[leader];
    VotesAddUp(votes);
    MajorityWins(votes, leader);
    if 2 * won <= |samples| {
      winner := InsufficientEvidence;
      won := if winner in tally then tally[winner] else 0;
      assert Winner(votes) == InsufficientEvidence by {
        assert forall s :: votes[s] <= votes[leader];
        MajorityWins(votes, Winner(votes));
      }
    }
    assert winner == Winner(votes) && won == votes[winner];
    var ok, best := Best(samples, winner);
    if !ok { return None; }
    InTally(samples, winner);
    var record := if best.Some? then samples[best.value] else NoMajority();
    var result := record.(decision := Value(Word(winner)), confidence := Value(won as real / |samples| as real));
    assert Represents(samples, result);
    rep := Some(result);
  }

  method CountVotes(ds: seq<Status>) returns (tally: map<Status, nat>)
    ensures tally.Keys == set s | s in ds
    ensures forall s :: s in tally ==> tally[s] == multiset(ds)[s]
  {
    tally := map[];
    for i := 0 to |ds|
      invariant forall s :: s in tally <==> s in ds[..i]
      invariant forall s :: s in tally ==> tally[s] == multiset(ds[..i])[s]
    {
      assert ds[..i + 1] == ds[..i] + [ds[i]];
      tally := tally[ds[i] := (if ds[i] in tally then tally[ds[i]] else 0) + 1];
    }
    assert ds[..|ds|] == ds;
  }

  method Largest(tally: map<Status, nat>) returns (s: Status)
    requires tally.Keys != {}
    ensures s in tally && forall t :: t in tally ==> tally[t] <= tally[s]
  {
    SomeLargest(tally);
    s :| s in tally && forall t :: t in tally ==> tally[t] <= tally[s];
  }

  lemma SomeLargest(tally: map<Status, nat>)
    requires tally.Keys != {}
    ensures exists s :: s in tally && forall t :: t in tally ==> tally[t] <= tally[s]
  {
    var some :| some in tally;
    var s := some;
    if Pass in tally && tally[Pass] > tally[s] { s := Pass; }
    if Fail in tally && tally[Fail] > tally[s] { s := Fail; }
    if InsufficientEvidence in tally && tally[InsufficientEvidence] > tally[s] { s := InsufficientEvidence; }
    forall t | t in tally ensures tally[t] <= tally[s] {
      match t { case Pass => case Fail => case InsufficientEvidence => }
    }
  }

  method Best(samples: seq<Parsed>, w: Status) returns (ok: bool, best: Option<nat>)
    ensures ok <==> forall i :: Matches(samples, w, i) ==> !samples[i].confidence.Malformed?
    ensures ok && best.Some? ==> MostConfident(samples, w, best.value)
    ensures ok && best.None? ==> forall i :: !Matches(samples, w, i)
  {
    best := None;
    for i := 0 to |samples|
      invariant forall j :: Matches(samples, w, j) && j < i ==> Weight(samples[j]).Some?
      invariant best.Some? ==> best.value < i && MostConfidentUpTo(samples, w, best.value, i)
      invariant best.None? ==> forall j :: j < i ==> !Matches(samples, w, j)
    {
      if Normalise(samples[i]) == w {
        assert Matches(samples, w, i);
        if Weight(samples[i]).None? { return false, None; }
        if best.None? || Weight(samples[i]).value > Weight(samples[best.value]).value { best := Some(i); }
      }
    }
    ok := true;
  }

  // ---- the whole decision ------------------------------------------------------------------------

  datatype VotingConfig = VotingConfig(enabled: bool, samples: int, low: real, high: real)

  /** The first answer's confidence; None when `float` raises. */
  function PrimaryConfidence(p: Parsed): Option<real> {
    match p.confidence
    case Absent => Some(0.5)
    case Null => Some(0.0)
    case Value(c) => Some(c)
    case Malformed => None
  }

  predicate Resamples(cfg: VotingConfig, p: Parsed) {
    var c := PrimaryConfidence(p);
    c.Some? && cfg.enabled && cfg.samples > 1 && cfg.low <= c.value <= cfg.high
  }

  /** The samples the vote is over, the first answer in front; None if one of them is no object. */
  function AllParsed(answers: seq<Response>): Option<seq<Parsed>> {
    if answers == [] then Some([]) else
      var init, last := AllParsed(answers[..|answers| - 1]), ParseResponse(answers[|answers| - 1]);
      if init.None? || last.None? then None else Some(init.value + [last.value])
  }

  // ---- the vote in terms of the answers ------------------------------------------------------------

  /** What an answer votes for: text that is not JSON, and any word but the other two, says that the
      evidence is insufficient. */
  predicate Says(r: Response, s: Status) {
    match r
    case NotJson => s == InsufficientEvidence
    case NotAnObject => false
    case Object(p) =>
      match s
      case Pass => p.decision == Value("pass")
      case Fail => p.decision == Value("fail")
      case InsufficientEvidence => p.decision != Value("pass") && p.decision != Value("fail")
  }

  /** The confidence that answers of one vote are compared by; None if it is no number. */
  function ConfidenceIn(r: Response): Option<real> {
    match r
    case NotJson => Some(0.0)
    case NotAnObject => None
    case Object(p) => if p.confidence.Malformed? then None else if p.confidence.Value? then Some(p.confidence.value)
        else Some(0.0)
  }

  /** How many of the first `n` answers vote for `s`. */
  function Ballots(answer: nat -> Response, n: nat, s: Status): nat {
    if n == 0 then 0 else Ballots(answer, n - 1, s) + if Says(answer(n - 1), s) then 1 else 0
  }

  /** `w` has more than half of the ballots, or no decision has and `w` says that evidence is
      insufficient. */
  predicate Elected(answer: nat -> Response, n: nat, w: Status) {
    && (w == Pass <==> 2 * Ballots(answer, n, Pass) > n)
    && (w == Fail <==> 2 * Ballots(answer, n, Fail) > n)
  }

  /** Answer `i` is the first of the most confident ones that vote for `w`. */
  ghost predicate Leads(answer: nat -> Response, n: nat, w: Status, i: nat) {
    && i < n && Says(answer(i), w) && ConfidenceIn(answer(i)).Some?
    && forall j: nat :: j < n && Says(answer(j), w) && ConfidenceIn(answer(j)).Some? ==>
         if j < i then ConfidenceIn(answer(j)).value < ConfidenceIn(answer(i)).value
         else ConfidenceIn(answer(j)).value <= ConfidenceIn(answer(i)).value
  }

  /** The record says what the answer says, but for its decision and its confidence. */
  predicate Carries(rep: Parsed, r: Response) {
    match r
    case NotJson =>
      rep.reasoning == Value("LLM returned invalid JSON") && rep.evidence == Value([]) &&
      rep.contradictions == Value([]) && rep.basis == Value(NotAddressed)
    case NotAnObject => false
    case Object(p) => rep == p.(decision := rep.decision, confidence := rep.confidence)
  }

  /** The record the vote over the first `n` answers, elected `w`, hands on: the decision, its share of the
      ballots, and the words of the answer that leads; if nobody voted for `w`, no evidence at all. */
  ghost predicate Voted(answer: nat -> Response, n: nat, w: Status, rep: Parsed)
    requires n > 0
  {
    && rep.decision == Value(match w case Pass => "pass" case Fail => "fail"
                                     case InsufficientEvidence => "insufficient_evidence")
    && rep.confidence == Value(Ballots(answer, n, w) as real / n as real)
    && ((exists i :: Leads(answer, n, w, i) && Carries(rep, answer(i))) ||
        (Ballots(answer, n, w) == 0 && rep.evidence == Value([]) && rep.contradictions == Value([]) &&
         rep.basis == Value(NotAddressed)))
  }

  /** An answer that cannot be read: no object, or voting for `w` with a confidence that is no number. */
  ghost predicate Spoiled(answer: nat -> Response, n: nat, w: Status) {
    exists i: nat :: i < n && (answer(i).NotAnObject? || (Says(answer(i), w) && ConfidenceIn(answer(i)).None?))
  }

  /** What a vote that elects `w` comes to. */
  ghost predicate Upheld(answer: nat -> Response, n: nat, w: Status, rep: Option<Parsed>)
    requires n > 0
  {
    && Elected(answer, n, w) && (rep.None? <==> Spoiled(answer, n, w))
    && (rep.Some? ==> Voted(answer, n, w, rep.value))
  }

  lemma {:induction false} ParsedOneByOne(answers: seq<Response>)
    requires AllParsed(answers).Some?
    ensures var parsed := AllParsed(answers).value;
            |parsed| == |answers| && forall i :: 0 <= i < |answers| ==> ParseResponse(answers[i]) == Some(parsed[i])
  {
    if answers != [] { ParsedOneByOne(answers[..|answers| - 1]); }
  }

  lemma {:induction false} SomeUnparsed(answers: seq<Response>)
    ensures AllParsed(answers).None? <==> exists i :: 0 <= i < |answers| && answers[i].NotAnObject?
  {
    if answers != [] {
      var n := |answers| - 1;
      SomeUnparsed(answers[..n]);
      if i :| 0 <= i < n && answers[..n][i].NotAnObject? { assert answers[i].NotAnObject?; }
      if i :| 0 <= i < |answers| && answers[i].NotAnObject? { assert i < n ==> answers[..n][i].NotAnObject?; }
    }
  }

  lemma ParsedSays(r: Response, p: Parsed)
    requires ParseResponse(r) == Some(p)
    ensures forall s :: Says(r, s) <==> Normalise(p) == s
    ensures ConfidenceIn(r) == Weight(p)
    ensures Carries(p, r)
  {
    WordsDiffer();
  }

  lemma {:induction false} BallotsAreVotes(answer: nat -> Response, parsed: seq<Parsed>, s: Status)
    requires forall i :: 0 <= i < |parsed| ==> ParseResponse(answer(i)) == Some(parsed[i])
    ensures multiset(Decisions(parsed))[s] == Ballots(answer, |parsed|, s)
  {
    if parsed != [] {
      var n := |parsed| - 1;
      BallotsAreVotes(answer, parsed[..n], s);
      ParsedSays(answer(n), parsed[n]);
      LastDecision(parsed);
      assert Says(answer(n), s) <==> Normalise(parsed[n]) == s;
    } else {
      assert Decisions(parsed) == [];
    }
  }

  lemma LastDecision(parsed: seq<Parsed>)
    requires parsed != []
    ensures var n := |parsed| - 1;
            multiset(Decisions(parsed)) == multiset(Decisions(parsed[..n])) + multiset{Normalise(parsed[n])}
  {
    var n := |parsed| - 1;
    assert Decisions(parsed) == Decisions(parsed[..n]) + [Normalise(parsed[n])];
  }

  lemma WinnerIsElected(answer: nat -> Response, parsed: seq<Parsed>)
    requires forall i :: 0 <= i < |parsed| ==> ParseResponse(answer(i)) == Some(parsed[i])
    ensures var votes := multiset(Decisions(parsed));
            && Elected(answer, |parsed|, Winner(votes)) && |votes| == |parsed|
            && votes[Winner(votes)] == Ballots(answer, |parsed|, Winner(votes))
  {
    var votes := multiset(Decisions(parsed));
    BallotsAreVotes(answer, parsed, Pass);
    BallotsAreVotes(answer, parsed, Fail);
    BallotsAreVotes(answer, parsed, InsufficientEvidence);
    VotesAddUp(votes);
  }

  lemma MostConfidentLeads(answer: nat -> Response, parsed: seq<Parsed>, w: Status, i: nat)
    requires forall i :: 0 <= i < |parsed| ==> ParseResponse(answer(i)) == Some(parsed[i])
    requires MostConfident(parsed, w, i)
    ensures Leads(answer, |parsed|, w, i)
  {
    forall j: nat | j < |parsed|
      ensures Says(answer(j), w) <==> Matches(parsed, w, j)
      ensures ConfidenceIn(answer(j)) == Weight(parsed[j])
    {
      ParsedSays(answer(j), parsed[j]);
    }
  }

  lemma VotedIs(answer: nat -> Response, parsed: seq<Parsed>, rep: Parsed)
    requires forall i :: 0 <= i < |parsed| ==> ParseResponse(answer(i)) == Some(parsed[i])
    requires Represents(parsed, rep)
    ensures Voted(answer, |parsed|, Winner(multiset(Decisions(parsed))), rep)
  {
    var votes := multiset(Decisions(parsed));
    var w := Winner(votes);
    WinnerIsElected(answer, parsed);
    ShareOfBallots(votes, w, Ballots(answer, |parsed|, w), |parsed|);
    VotedWords(answer, parsed, rep, w);
  }

  lemma VotedWords(answer: nat -> Response, parsed: seq<Parsed>, rep: Parsed, w: Status)
    requires forall i :: 0 <= i < |parsed| ==> ParseResponse(answer(i)) == Some(parsed[i])
    requires Represents(parsed, rep) && w == Winner(multiset(Decisions(parsed)))
    ensures (exists i :: Leads(answer, |parsed|, w, i) && Carries(rep, answer(i))) ||
            (w !in multiset(Decisions(parsed)) && rep.evidence == Value([]) && rep.contradictions == Value([]) &&
             rep.basis == Value(NotAddressed))
  {
    if i :| MostConfident(parsed, w, i) && rep == parsed[i].(decision := rep.decision, confidence := rep.confidence) {
      LeaderIsCarried(answer, parsed, w, i, rep);
    }
  }

  lemma ShareOfBallots(votes: multiset<Status>, w: Status, k: nat, n: nat)
    requires |votes| == n > 0 && w == Winner(votes) && votes[w] == k
    ensures Agreement(votes) == k as real / n as real
    ensures w !in votes ==> k == 0
  {
  }

  lemma LeaderIsCarried(answer: nat -> Response, parsed: seq<Parsed>, w: Status, i: nat, rep: Parsed)
    requires forall i :: 0 <= i < |parsed| ==> ParseResponse(answer(i)) == Some(parsed[i])
    requires MostConfident(parsed, w, i) && rep == parsed[i].(decision := rep.decision, confidence := rep.confidence)
    ensures Leads(answer, |parsed|, w, i) && Carries(rep, answer(i))
  {
    MostConfidentLeads(answer, parsed, w, i);
    ParsedSays(answer(i), parsed[i]);
  }

  lemma UnreadableIsSpoiled(answer: nat -> Response, parsed: seq<Parsed>)
    requires forall i :: 0 <= i < |parsed| ==> ParseResponse(answer(i)) == Some(parsed[i])
    ensures Unreadable(parsed) <==> Spoiled(answer, |parsed|, Winner(multiset(Decisions(parsed))))
  {
    var w := Winner(multiset(Decisions(parsed)));
    forall j: nat | j < |parsed|
      ensures Says(answer(j), w) <==> Matches(parsed, w, j)
      ensures ConfidenceIn(answer(j)) == Weight(parsed[j]) && !answer(j).NotAnObject?
    {
      ParsedSays(answer(j), parsed[j]);
    }
    if i :| Matches(parsed, w, i) && parsed[i].confidence.Malformed? { assert ConfidenceIn(answer(i)).None?; }
  }

  /** `answer(i)` is what the model says at the i-th call.  Calls after the first are made only when voting
      is on and the first is borderline: its confidence, a half if it gives none, lies in the band. */
  method Decide(cfg: VotingConfig, answer: nat -> Response) returns (rep: Option<Parsed>, samples: nat)
    ensures var primary := ParseResponse(answer(0));
            if primary.None? || PrimaryConfidence(primary.value).None? then rep.None?
            else if !Resamples(cfg, primary.value) then rep == primary && samples == 1
            else
              var all := AllParsed(seq(cfg.samples, i requires 0 <= i => answer(i)));
              && (rep.None? <==> all.None? || Unreadable(all.value))
              && (rep.Some? ==> samples == cfg.samples && Represents(all.value, rep.value))
    ensures match answer(0)
            case NotAnObject => rep.None?
            case NotJson =>
              (cfg.enabled && cfg.samples > 1 && cfg.low <= 0.0 <= cfg.high) ||
              (samples == 1 && rep.Some? && rep.value.decision == Value("insufficient_evidence") &&
               rep.value.confidence == Value(0.0) && rep.value.evidence == Value([]) &&
               rep.value.contradictions == Value([]) && rep.value.basis == Value(NotAddressed))
            case Object(p) =>
              if p.confidence.Malformed? then rep.None?
              else
                var c := if p.confidence.Value? then p.confidence.value else if p.confidence.Absent? then 0.5 else 0.0;
                (cfg.enabled && cfg.samples > 1 && cfg.low <= c <= cfg.high) || (samples == 1 && rep == Some(p))
    ensures var c := match answer(0)
                     case NotAnObject => None
                     case NotJson => Some(0.0)
                     case Object(p) =>
                       if p.confidence.Malformed? then None
                       else if p.confidence.Value? then Some(p.confidence.value)
                       else if p.confidence.Absent? then Some(0.5) else Some(0.0);
            c.Some? && cfg.enabled && cfg.samples > 1 && cfg.low <= c.value <= cfg.high ==>
              (exists i :: 0 <= i < cfg.samples && answer(i).NotAnObject? && rep.None?) ||
              ((exists w :: Upheld(answer, cfg.samples, w, rep)) && (rep.Some? ==> samples == cfg.samples))
  {
    var primary := ParseResponse(answer(0));
    samples := 1;
    if primary.None? || PrimaryConfidence(primary.value).None? { return None, 1; }
    if !Resamples(cfg, primary.value) { return primary, 1; }
    rep := Resample(cfg.samples, answer, primary.value);
    samples := if rep.Some? then cfg.samples else 1;
  }

  /** The further calls and the vote over all answers. */
  method Resample(n: nat, answer: nat -> Response, primary: Parsed) returns (rep: Option<Parsed>)
    requires n > 1 && ParseResponse(answer(0)) == Some(primary)
    ensures var all := AllParsed(seq(n, i requires 0 <= i => answer(i)));
            (rep.None? <==> all.None? || Unreadable(all.value)) && (rep.Some? ==> Represents(all.value, rep.value))
    ensures (exists i :: 0 <= i < n && answer(i).NotAnObject? && rep.None?) || exists w :: Upheld(answer, n, w, rep)
  {
    ghost var answers := seq(n, i requires 0 <= i => answer(i));
    var parsed := [primary];
    assert answers[..1][..0] == [] && answers[..1] == [answer(0)];
    assert AllParsed(answers[..1][..0]) == Some([]);
    assert AllParsed(answers[..1]) == Some([] + parsed);
    assert [] + parsed == parsed;
    for i := 1 to n
      invariant |parsed| == i && AllParsed(answers[..i]) == Some(parsed)
    {
      assert answers[..i + 1][..i] == answers[..i];
      var p := ParseResponse(answer(i));
      if p.None? {
        OneBadAnswer(answers, i);
        return None;
      }
      parsed := parsed + [p.value];
    }
    assert answers[..n] == answers;
    rep := Vote(parsed);
    VoteMeans(answer, answers, parsed, rep);
  }

  lemma VoteMeans(answer: nat -> Response, answers: seq<Response>, parsed: seq<Parsed>, rep: Option<Parsed>)
    requires answers != [] && AllParsed(answers) == Some(parsed)
    requires forall i :: 0 <= i < |answers| ==> answers[i] == answer(i)
    requires rep.None? <==> Unreadable(parsed)
    requires rep.Some? ==> Represents(parsed, rep.value)
    ensures exists w :: Upheld(answer, |answers|, w, rep)
  {
    ParsedOneByOne(answers);
    forall i | 0 <= i < |parsed| ensures ParseResponse(answer(i)) == Some(parsed[i]) { assert answers[i] == answer(i); }
    VoteUpheld(answer, parsed, rep);
  }

  lemma VoteUpheld(answer: nat -> Response, parsed: seq<Parsed>, rep: Option<Parsed>)
    requires parsed != [] && forall i :: 0 <= i < |parsed| ==> ParseResponse(answer(i)) == Some(parsed[i])
    requires rep.None? <==> Unreadable(parsed)
    requires rep.Some? ==> Represents(parsed, rep.value)
    ensures Upheld(answer, |parsed|, Winner(multiset(Decisions(parsed))), rep)
  {
    WinnerIsElected(answer, parsed);
    UnreadableIsSpoiled(answer, parsed);
    if rep.Some? { VotedIs(answer, parsed, rep.value); }
  }

  lemma {:induction false} OneBadAnswer(answers: seq<Response>, i: nat)
    requires i < |answers| && ParseResponse(answers[i]).None?
    ensures AllParsed(answers).None?
  {
    if i < |answers| - 1 { OneBadAnswer(answers[..|answers| - 1], i); }
  }

  /** What is handed on after a vote always carries the winning decision, whatever the order of the
      samples; reordering them changes neither the decision nor the ratio. */
  lemma OrderDoesNotMatter(a: seq<Parsed>, b: seq<Parsed>, repA: Parsed, repB: Parsed)
    requires Represents(a, repA) && Represents(b, repB) && multiset(Decisions(a)) == multiset(Decisions(b))
    ensures repA.decision == repB.decision == Value(Word(Winner(multiset(Decisions(a)))))
    ensures Normalise(repA) == Winner(multiset(Decisions(a)))
    ensures repA.confidence == repB.confidence
  {
  }

  /** The minimal record is used only when no sample said insufficient evidence and none won: its
      agreement is zero. */
  lemma SynthesisedMeansNobody(samples: seq<Parsed>, rep: Parsed)
    requires Represents(samples, rep) && !exists i :: MostConfident(samples, Winner(multiset(Decisions(samples))), i)
    ensures rep.decision == Value(Word(InsufficientEvidence)) && rep.confidence == Value(0.0)
  {
    var votes := multiset(Decisions(samples));
    assert Winner(votes) !in votes;
    AbsentWinner(votes);
  }

  lemma AbsentWinner(votes: multiset<Status>)
    requires |votes| > 0 && Winner(votes) !in votes
    ensures Winner(votes) == InsufficientEvidence && Agreement(votes) == 0.0
  {
    MajorityWins(votes, Winner(votes));
    NoShare(|votes|);
  }

  lemma NoShare(n: nat)
    requires n > 0
    ensures 0 as real / n as real == 0.0
  {
  }
}
