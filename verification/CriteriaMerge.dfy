/** Merging the criteria of the organisation, the department, an upload and the RFP into one
    evaluation setup (app/domain/criteria.py, `merge_criteria` and `_build_targets`).

    Name normalisation and id hashing are arbitrary functions: nothing here depends on what they
    compute, in particular not on normalising twice giving the same as once. */
module CriteriaMerge {
  import opened Common
  import opened Rounding

  datatype Source = Org | Dept | User | Rfp

  /** 0 is the highest priority. */
  function Rank(s: Source): nat {
    match s case Org => 0 case Dept => 1 case User => 2 case Rfp => 3
  }

  datatype Kind = MandatoryKind | ScoringKind | OtherKind

  datatype Rubric = Rubric(band9: string, band6: string, band3: string, band0: string)

  /** A row of the organisation's or the department's template table. */
  datatype Template = Template(kind: Kind, name: string, whatPasses: string, templateId: string, locked: bool,
                               weight: real, rubric: Rubric)

  datatype ExtractedCheck = ExtractedCheck(name: string, whatPasses: string, page: string)

  datatype ExtractedCriterion = ExtractedCriterion(name: string, weight: real, rubric: Rubric, page: string)

  /** What was read from an upload or from the RFP. */
  datatype Extracted = Extracted(checks: seq<ExtractedCheck>, criteria: seq<ExtractedCriterion>)

  datatype Check = Check(id: string, name: string, whatPasses: string, target: string, source: Source, locked: bool,
      page: string)

  datatype Criterion = Criterion(id: string, name: string, weight: real, rubric: Rubric, targets: seq<string>,
                                 source: Source, locked: bool, page: string, guideFromRfp: bool)

  datatype Target = Target(id: string, name: string, description: string, mandatory: bool, feeds: string,
      source: Source)

  datatype Setup = Setup(checks: seq<Check>, criteria: seq<Criterion>, targets: seq<Target>, totalWeight: Option<real>)

  /** `_normalize_name`, `_stable_id` on (source, kind, name key), and the upper-cased first eight
      characters of a template id. */
  datatype Env = Env(norm: string -> string, stableId: (string, string, string) -> string,
      templateKey: string -> string)

  // ---- one candidate from each kind of input -------------------------------------------------------

  function Tag(s: Source): string {
    match s case Org => "ORG" case Dept => "DEPT" case User => "USER" case Rfp => "RFP"
  }

  function HashTag(s: Source): string {
    match s case Org => "org" case Dept => "dept" case User => "user" case Rfp => "rfp"
  }

  function CheckOfTemplate(env: Env, t: Template, s: Source): Check {
    var key := env.templateKey(t.templateId);
    Check("MC-" + Tag(s) + "-" + key, t.name, t.whatPasses, "ET-" + Tag(s) + "-" + key, s, t.locked, "")
  }

  function CriterionOfTemplate(env: Env, t: Template, s: Source): Criterion {
    Criterion("SC-" + Tag(s) + "-" + env.templateKey(t.templateId), t.name, t.weight, t.rubric, [], s, t.locked, "",
        false)
  }

  function CheckOfExtract(env: Env, c: ExtractedCheck, s: Source): Check {
    var key := env.stableId(HashTag(s), "mc", env.norm(c.name));
    Check("MC-" + Tag(s) + "-" + key, c.name, c.whatPasses, "ET-" + Tag(s) + "-" + key, s, false,
          if s == Rfp then c.page else "")
  }

  function CriterionOfExtract(env: Env, c: ExtractedCriterion, s: Source): Criterion {
    Criterion("SC-" + Tag(s) + "-" + env.stableId(HashTag(s), "sc", env.norm(c.name)), c.name, c.weight, c.rubric, [],
              s, false, if s == Rfp then c.page else "", false)
  }

  function TemplateChecks(env: Env, ts: seq<Template>, s: Source): seq<Check> {
    if ts == [] then [] else
      var last := ts[|ts| - 1];
      TemplateChecks(env, ts[..|ts| - 1], s) + if last.kind == MandatoryKind then [CheckOfTemplate(env, last, s)]
          else []
  }

  function TemplateCriteria(env: Env, ts: seq<Template>, s: Source): seq<Criterion> {
    if ts == [] then [] else
      var last := ts[|ts| - 1];
      TemplateCriteria(env, ts[..|ts| - 1], s) + if last.kind == ScoringKind
          then [CriterionOfTemplate(env, last, s)] else []
  }

  lemma TemplatesStep(env: Env, ts: seq<Template>, s: Source)
    requires ts != []
    ensures var init, last := ts[..|ts| - 1], ts[|ts| - 1];
            && TemplateChecks(env, ts, s) ==
               (if last.kind == MandatoryKind then TemplateChecks(env, init, s) + [CheckOfTemplate(env, last, s)]
                else TemplateChecks(env, init, s))
            && TemplateCriteria(env, ts, s) ==
               (if last.kind == ScoringKind then TemplateCriteria(env, init, s) + [CriterionOfTemplate(env, last, s)]
                else TemplateCriteria(env, init, s))
  {
  }

  function ExtractChecks(env: Env, cs: seq<ExtractedCheck>, s: Source): (r: seq<Check>)
    ensures |r| == |cs|
  {
    seq(|cs|, i requires 0 <= i < |cs| => CheckOfExtract(env, cs[i], s))
  }

  function ExtractCriteria(env: Env, cs: seq<ExtractedCriterion>, s: Source): (r: seq<Criterion>)
    ensures |r| == |cs|
  {
    seq(|cs|, i requires 0 <= i < |cs| => CriterionOfExtract(env, cs[i], s))
  }

  // ---- the dedup rule ------------------------------------------------------------------------------

  function KeysOf<T>(xs: seq<T>, key: T -> string): set<string> {
    set i | 0 <= i < |xs| :: key(xs[i])
  }

  /** Adds candidates in order; unless `always`, only those whose key is new. */
  function Keep<T>(kept: seq<T>, candidates: seq<T>, key: T -> string, always: bool): seq<T> {
    if candidates == [] then kept else
      var before, last := Keep(kept, candidates[..|candidates| - 1], key, always), candidates[|candidates| - 1];
      if always || key(last) !in KeysOf(before, key) then before + [last] else before
  }

  lemma KeepStep<T>(kept: seq<T>, candidates: seq<T>, x: T, key: T -> string, always: bool)
    ensures var before := Keep(kept, candidates, key, always);
            && Keep(kept, candidates + [x], key, always) ==
               (if always || key(x) !in KeysOf(before, key) then before + [x] else before)
            && KeysOf(before + [x], key) == KeysOf(before, key) + {key(x)}
  {
    assert (candidates + [x])[..|candidates|] == candidates;
    var before := Keep(kept, candidates, key, always);
    forall k ensures k in KeysOf(before + [x], key) <==> k in KeysOf(before, key) + {key(x)} {
      if k in KeysOf(before, key) {
        var i :| 0 <= i < |before| && key(before[i]) == k;
        assert key((before + [x])[i]) == k;
      }
      if k == key(x) { assert key((before + [x])[|before|]) == k; }
    }
  }

  /** What was kept before stays in front; every candidate is kept or shares its key with something
      kept before it; nothing else is added. */
  lemma {:induction false} KeepAccounts<T>(kept: seq<T>, candidates: seq<T>, key: T -> string, always: bool)
    ensures var r := Keep(kept, candidates, key, always);
            && |kept| <= |r| && r[..|kept|] == kept
            && (forall x :: x in candidates ==> x in r || (!always && exists k :: k in r && key(k) == key(x)))
            && (forall k :: k in r ==> k in kept || k in candidates)
  {
    if candidates != [] {
      var init, last := candidates[..|candidates| - 1], candidates[|candidates| - 1];
      KeepAccounts(kept, init, key, always);
      var before, r := Keep(kept, init, key, always), Keep(kept, candidates, key, always);
      assert forall k :: k in before ==> k in r;
      assert forall x :: x in candidates <==> x in init || x == last;
      if last !in r { var i :| 0 <= i < |before| && key(before[i]) == key(last); }
    }
  }

  /** Items beyond the first `n` have keys of their own. */
  ghost predicate FreshBeyond<T>(xs: seq<T>, key: T -> string, n: nat) {
    forall i, j :: 0 <= i < j < |xs| && n <= j ==> key(xs[i]) != key(xs[j])
  }

  lemma {:induction false} KeepIsFresh<T>(kept: seq<T>, candidates: seq<T>, key: T -> string, n: nat)
    requires n <= |kept| && FreshBeyond(kept, key, n)
    ensures FreshBeyond(Keep(kept, candidates, key, false), key, n)
  {
    if candidates != [] { KeepIsFresh(kept, candidates[..|candidates| - 1], key, n); }
  }

  // ---- the merged lists ----------------------------------------------------------------------------

  function CheckKey(env: Env): Check -> string {
    (c: Check) => env.norm(c.name)
  }

  function CriterionKey(env: Env): Criterion -> string {
    (c: Criterion) => env.norm(c.name)
  }

  datatype Inputs = Inputs(org: seq<Template>, dept: seq<Template>, user: Extracted, rfp: Extracted)

  /** The candidates of one source. */
  function ChecksFrom(env: Env, ins: Inputs, s: Source): seq<Check> {
    match s
    case Org => TemplateChecks(env, ins.org, Org)
    case Dept => TemplateChecks(env, ins.dept, Dept)
    case User => ExtractChecks(env, ins.user.checks, User)
    case Rfp => ExtractChecks(env, ins.rfp.checks, Rfp)
  }

  function CriteriaFrom(env: Env, ins: Inputs, s: Source): seq<Criterion> {
    match s
    case Org => TemplateCriteria(env, ins.org, Org)
    case Dept => TemplateCriteria(env, ins.dept, Dept)
    case User => ExtractCriteria(env, ins.user.criteria, User)
    case Rfp => ExtractCriteria(env, ins.rfp.criteria, Rfp)
  }

  /** The list after the sources up to `s` have been merged. */
  function ChecksUpTo(env: Env, ins: Inputs, s: Source): seq<Check>
    decreases Rank(s)
  {
    match s
    case Org => Keep([], ChecksFrom(env, ins, Org), CheckKey(env), true)
    case Dept => Keep(ChecksUpTo(env, ins, Org), ChecksFrom(env, ins, Dept), CheckKey(env), false)
    case User => Keep(ChecksUpTo(env, ins, Dept), ChecksFrom(env, ins, User), CheckKey(env), false)
    case Rfp => Keep(ChecksUpTo(env, ins, User), ChecksFrom(env, ins, Rfp), CheckKey(env), false)
  }

  function CriteriaUpTo(env: Env, ins: Inputs, s: Source): seq<Criterion>
    decreases Rank(s)
  {
    match s
    case Org => Keep([], CriteriaFrom(env, ins, Org), CriterionKey(env), true)
    case Dept => Keep(CriteriaUpTo(env, ins, Org), CriteriaFrom(env, ins, Dept), CriterionKey(env), false)
    case User => Keep(CriteriaUpTo(env, ins, Dept), CriteriaFrom(env, ins, User), CriterionKey(env), false)
    case Rfp => Keep(CriteriaUpTo(env, ins, User), CriteriaFrom(env, ins, Rfp), CriterionKey(env), false)
  }

  /** Appends one candidate if the rule admits it, and remembers its name. */
  method AddOne<T>(xs: seq<T>, names: set<string>, x: T, key: T -> string, always: bool, ghost kept: seq<T>,
      ghost candidates: seq<T>)
    returns (xs': seq<T>, names': set<string>)
    requires names == KeysOf(xs, key) && xs == Keep(kept, candidates, key, always)
    ensures xs' == Keep(kept, candidates + [x], key, always) && names' == KeysOf(xs', key)
  {
    KeepStep(kept, candidates, x, key, always);
    xs', names' := xs, names;
    if always || key(x) !in names { xs', names' := xs + [x], names + {key(x)}; }
  }

  method AddTemplates(env: Env, checks: seq<Check>, criteria: seq<Criterion>, checkNames: set<string>,
                      criterionNames: set<string>, ts: seq<Template>, s: Source)
    returns (checks': seq<Check>, criteria': seq<Criterion>, checkNames': set<string>, criterionNames': set<string>)
    requires s == Org || s == Dept
    requires checkNames == KeysOf(checks, CheckKey(env)) && criterionNames == KeysOf(criteria, CriterionKey(env))
    ensures checks' == Keep(checks, TemplateChecks(env, ts, s), CheckKey(env), s == Org)
    ensures criteria' == Keep(criteria, TemplateCriteria(env, ts, s), CriterionKey(env), s == Org)
    ensures checkNames' == KeysOf(checks', CheckKey(env)) && criterionNames' == KeysOf(criteria', CriterionKey(env))
  {
    checks', criteria', checkNames', criterionNames' := checks, criteria, checkNames, criterionNames;
    for i := 0 to |ts|
      invariant checks' == Keep(checks, TemplateChecks(env, ts[..i], s), CheckKey(env), s == Org)
      invariant criteria' == Keep(criteria, TemplateCriteria(env, ts[..i], s), CriterionKey(env), s == Org)
      invariant checkNames' == KeysOf(checks', CheckKey(env)) && criterionNames' == KeysOf(criteria', CriterionKey(env))
    {
      assert ts[..i + 1][..i] == ts[..i];
      var t := ts[i];
      TemplatesStep(env, ts[..i + 1], s);
      if t.kind == MandatoryKind {
        checks', checkNames' := AddOne(checks', checkNames', CheckOfTemplate(env, t, s), CheckKey(env), s == Org,
                                       checks, TemplateChecks(env, ts[..i], s));
      } else if t.kind == ScoringKind {
        criteria', criterionNames' := AddOne(criteria', criterionNames', CriterionOfTemplate(env, t, s),
            CriterionKey(env), s == Org,
                                             criteria, TemplateCriteria(env, ts[..i], s));
      }
    }
    assert ts[..|ts|] == ts;
  }

  method AddChecks(env: Env, checks: seq<Check>, names: set<string>, cs: seq<ExtractedCheck>, s: Source)
    returns (checks': seq<Check>, names': set<string>)
    requires names == KeysOf(checks, CheckKey(env))
    ensures checks' == Keep(checks, ExtractChecks(env, cs, s), CheckKey(env), false)
    ensures names' == KeysOf(checks', CheckKey(env))
  {
    checks', names' := checks, names;
    for i := 0 to |cs|
      invariant checks' == Keep(checks, ExtractChecks(env, cs, s)[..i], CheckKey(env), false)
      invariant names' == KeysOf(checks', CheckKey(env))
    {
      assert ExtractChecks(env, cs, s)[..i + 1] == ExtractChecks(env, cs, s)[..i] + [CheckOfExtract(env, cs[i], s)];
      checks', names' := AddOne(checks', names', CheckOfExtract(env, cs[i], s), CheckKey(env), false,
                                checks, ExtractChecks(env, cs, s)[..i]);
    }
    assert ExtractChecks(env, cs, s)[..|cs|] == ExtractChecks(env, cs, s);
  }

  method AddCriteria(env: Env, criteria: seq<Criterion>, names: set<string>, cs: seq<ExtractedCriterion>, s: Source)
    returns (criteria': seq<Criterion>, names': set<string>)
    requires names == KeysOf(criteria, CriterionKey(env))
    ensures criteria' == Keep(criteria, ExtractCriteria(env, cs, s), CriterionKey(env), false)
    ensures names' == KeysOf(criteria', CriterionKey(env))
  {
    criteria', names' := criteria, names;
    for i := 0 to |cs|
      invariant criteria' == Keep(criteria, ExtractCriteria(env, cs, s)[..i], CriterionKey(env), false)
      invariant names' == KeysOf(criteria', CriterionKey(env))
    {
      assert ExtractCriteria(env, cs, s)[..i + 1] == ExtractCriteria(env, cs, s)[..i] + [CriterionOfExtract(env,
          cs[i], s)];
      criteria', names' := AddOne(criteria', names', CriterionOfExtract(env, cs[i], s), CriterionKey(env), false,
                                  criteria, ExtractCriteria(env, cs, s)[..i]);
    }
    assert ExtractCriteria(env, cs, s)[..|cs|] == ExtractCriteria(env, cs, s);
  }

  // ---- score guide ---------------------------------------------------------------------------------

  /** The last extracted criterion whose normalised name is `key`. */
  function Guide(env: Env, cs: seq<ExtractedCriterion>, key: string): Option<Rubric> {
    if cs == [] then None
    else if env.norm(cs[|cs| - 1].name) == key then Some(cs[|cs| - 1].rubric)
    else Guide(env, cs[..|cs| - 1], key)
  }

  function FillBand(own: string, guide: string): string {
    if own == "" then guide else own
  }

  function FillRubric(own: Rubric, guide: Rubric): Rubric {
    Rubric(FillBand(own.band9, guide.band9), FillBand(own.band6, guide.band6),
           FillBand(own.band3, guide.band3), FillBand(own.band0, guide.band0))
  }

  function Enrich(env: Env, c: Criterion, rfp: seq<ExtractedCriterion>): Criterion {
    var guide := Guide(env, rfp, env.norm(c.name));
    if guide.None? then c
    else
      var filled := FillRubric(c.rubric, guide.value);
      c.(rubric := filled, guideFromRfp := c.guideFromRfp || filled != c.rubric)
  }

  // ---- weights -------------------------------------------------------------------------------------

  function WeightSum(cs: seq<Criterion>): real {
    if cs == [] then 0.0 else WeightSum(cs[..|cs| - 1]) + cs[|cs| - 1].weight
  }

  /** The weight a criterion ends with, out of `n` criteria with weights summing to `total`. */
  function FinalWeight(w: real, total: real, n: nat): real
    requires n > 0
  {
    if total == 0.0 then Round(1.0 / n as real, Three)
    else if total - 1.0 > 0.01 || total - 1.0 < -0.01 then Round(w / total, Three)
    else w
  }

  function LastEight(id: string): string {
    if |id| <= 8 then id else id[|id| - 8..]
  }

  function TargetId(c: Criterion): string {
    "ET-SC-" + LastEight(c.id)
  }

  /** What the last two passes and the target link do to one criterion. */
  function Finish(env: Env, c: Criterion, rfp: seq<ExtractedCriterion>, total: real, n: nat): Criterion
    requires n > 0
  {
    var e := Enrich(env, c, rfp);
    e.(weight := FinalWeight(c.weight, total, n), targets := [TargetId(c)])
  }

  function CheckTarget(c: Check): Target {
    Target(c.target, c.name, c.whatPasses, true, c.id, c.source)
  }

  function CriterionTarget(c: Criterion): Target {
    Target(TargetId(c), c.name, "Find evidence for: " + c.name, false, c.id, c.source)
  }

  function TargetsFor(checks: seq<Check>, criteria: seq<Criterion>): (ts: seq<Target>)
    ensures |ts| == |checks| + |criteria|
  {
    seq(|checks| + |criteria|, i requires 0 <= i < |checks| + |criteria| =>
      if i < |checks| then CheckTarget(checks[i]) else CriterionTarget(criteria[i - |checks|]))
  }

  method BuildTargets(checks: seq<Check>, criteria: seq<Criterion>) returns (ts: seq<Target>)
    ensures ts == TargetsFor(checks, criteria) && |ts| == |checks| + |criteria|
    ensures forall i :: 0 <= i < |checks| ==>
              var c := checks[i]; ts[i] == Target(c.target, c.name, c.whatPasses, true, c.id, c.source)
    ensures forall i :: 0 <= i < |criteria| ==>
              var c := criteria[i];
              var id := "ET-SC-" + if |c.id| <= 8 then c.id else c.id[|c.id| - 8..];
              ts[|checks| + i] == Target(id, c.name, "Find evidence for: " + c.name, false, c.id, c.source)
  {
    ts := [];
    for i := 0 to |checks|
      invariant ts == TargetsFor(checks, criteria)[..i]
    {
      ts := ts + [CheckTarget(checks[i])];
    }
    for i := 0 to |criteria|
      invariant ts == TargetsFor(checks, criteria)[..|checks| + i]
    {
      ts := ts + [CriterionTarget(criteria[i])];
    }
    assert forall i :: 0 <= i < |criteria| ==> ts[|checks| + i] == CriterionTarget(criteria[i]);
  }

  method MergeCriteria(env: Env, ins: Inputs) returns (m: Setup)
    ensures m.checks == ChecksUpTo(env, ins, Rfp)
    ensures exists at :: PlacedAt(m.checks, CheckPlace(env, ins), SourceOfCheck(), at)
    ensures exists at, raw, own :: PublishedAt(env, ins, m.criteria, at, raw, own)
    ensures var merged := CriteriaUpTo(env, ins, Rfp);
            && |m.criteria| == |merged|
            && (forall i :: 0 <= i < |merged| ==>
                  m.criteria[i] == Finish(env, merged[i], ins.rfp.criteria, WeightSum(merged), |merged|))
            && m.targets == TargetsFor(m.checks, m.criteria)
            && m.totalWeight == if merged == [] then None else Some(Round(WeightSum(m.criteria), Three))
  {
    var checks: seq<Check>, criteria: seq<Criterion> := [], [];
    var checkNames, criterionNames: set<string> := {}, {};
    checks, criteria, checkNames, criterionNames :=
      AddTemplates(env, checks, criteria, checkNames, criterionNames, ins.org, Org);
    checks, criteria, checkNames, criterionNames :=
      AddTemplates(env, checks, criteria, checkNames, criterionNames, ins.dept, Dept);
    checks, checkNames := AddChecks(env, checks, checkNames, ins.user.checks, User);
    criteria, criterionNames := AddCriteria(env, criteria, criterionNames, ins.user.criteria, User);
    checks, checkNames := AddChecks(env, checks, checkNames, ins.rfp.checks, Rfp);
    criteria, criterionNames := AddCriteria(env, criteria, criterionNames, ins.rfp.criteria, Rfp);
    ghost var merged := criteria;
    assert merged == CriteriaUpTo(env, ins, Rfp);
    criteria := FinishAll(env, criteria, ins.rfp.criteria);
    ghost var checksAt := PlaceChecks(env, ins, Rfp);
    ghost var at, raw, own := PlacePublished(env, ins, criteria);
    var targets := BuildTargets(checks, criteria);
    m := Setup(checks, criteria, targets, if criteria == [] then None else Some(Round(WeightSum(criteria), Three)));
  }

  /** The three passes over the criteria in place: score guide, weights, target ids. */
  method FinishAll(env: Env, merged: seq<Criterion>, rfp: seq<ExtractedCriterion>) returns (criteria: seq<Criterion>)
    ensures |criteria| == |merged|
    ensures forall i :: 0 <= i < |merged| ==> criteria[i] == Finish(env, merged[i], rfp, WeightSum(merged), |merged|)
  {
    criteria := merged;
    var total := WeightSum(merged);
    var n := |merged|;
    for i := 0 to n
      invariant |criteria| == n && forall k :: i <= k < n ==> criteria[k] == merged[k]
      invariant forall k :: 0 <= k < i ==> criteria[k] == Enrich(env, merged[k], rfp)
    {
      criteria := criteria[i := Enrich(env, criteria[i], rfp)];
    }
    for i := 0 to n
      invariant |criteria| == n && forall k :: i <= k < n ==> criteria[k] == Enrich(env, merged[k], rfp)
      invariant forall k :: 0 <= k < i ==>
          criteria[k] == Enrich(env, merged[k], rfp).(weight := FinalWeight(merged[k].weight, total, n))
    {
      criteria := criteria[i := criteria[i].(weight := FinalWeight(criteria[i].weight, total, n))];
    }
    for i := 0 to n
      invariant |criteria| == n
      invariant forall k :: i <= k < n ==>
          criteria[k] == Enrich(env, merged[k], rfp).(weight := FinalWeight(merged[k].weight, total, n))
      invariant forall k :: 0 <= k < i ==> criteria[k] == Finish(env, merged[k], rfp, total, n)
    {
      criteria := criteria[i := criteria[i].(targets := [TargetId(criteria[i])])];
    }
  }

  // ---- what the merge guarantees -------------------------------------------------------------------

  function SourceOfCheck(): Check -> Source {
    (c: Check) => c.source
  }

  function SourceOfCriterion(): Criterion -> Source {
    (c: Criterion) => c.source
  }

  /** The list of sources up to `s`, by falling priority. */
  ghost predicate Prioritised<T>(xs: seq<T>, source: T -> Source, s: Source) {
    && (forall i :: 0 <= i < |xs| ==> Rank(source(xs[i])) <= Rank(s))
    && (forall i, j :: 0 <= i < j < |xs| ==> Rank(source(xs[i])) <= Rank(source(xs[j])))
  }

  lemma KeepPrioritised<T>(kept: seq<T>, candidates: seq<T>, key: T -> string, always: bool, source: T -> Source,
      r: Source, s: Source)
    requires Prioritised(kept, source, r) && Rank(r) <= Rank(s)
    requires forall i :: 0 <= i < |candidates| ==> source(candidates[i]) == s
    ensures Prioritised(Keep(kept, candidates, key, always), source, s)
  {
    if candidates != [] { KeepPrioritised(kept, candidates[..|candidates| - 1], key, always, source, r, s); }
  }

  lemma {:induction false} TemplatesHaveSource(env: Env, ts: seq<Template>, s: Source)
    ensures forall c :: c in TemplateChecks(env, ts, s) ==> c.source == s
    ensures forall c :: c in TemplateCriteria(env, ts, s) ==> c.source == s
  {
    if ts != [] { TemplatesHaveSource(env, ts[..|ts| - 1], s); }
  }

  lemma ChecksHaveSource(env: Env, ins: Inputs, s: Source)
    ensures forall i :: 0 <= i < |ChecksFrom(env, ins, s)| ==> ChecksFrom(env, ins, s)[i].source == s
    ensures forall i :: 0 <= i < |CriteriaFrom(env, ins, s)| ==> CriteriaFrom(env, ins, s)[i].source == s
  {
    TemplatesHaveSource(env, ins.org, Org);
    TemplatesHaveSource(env, ins.dept, Dept);
  }

  function Previous(s: Source): Source {
    match s case Org => Org case Dept => Org case User => Dept case Rfp => User
  }

  /** The merged list is ordered by priority, and among its items beyond the organisation's every
      normalised name is new. */
  lemma {:induction false} MergedChecksInvariant(env: Env, ins: Inputs, s: Source)
    ensures Prioritised(ChecksUpTo(env, ins, s), SourceOfCheck(), s)
    ensures FreshBeyond(ChecksUpTo(env, ins, s), CheckKey(env), |ChecksFrom(env, ins, Org)|)
    ensures ChecksFrom(env, ins, Org) <= ChecksUpTo(env, ins, s)
    decreases Rank(s)
  {
    ChecksHaveSource(env, ins, s);
    if s == Org {
      KeepAlways([], ChecksFrom(env, ins, Org), CheckKey(env));
    } else {
      var before := ChecksUpTo(env, ins, Previous(s));
      MergedChecksInvariant(env, ins, Previous(s));
      KeepPrioritised(before, ChecksFrom(env, ins, s), CheckKey(env), false, SourceOfCheck(), Previous(s), s);
      KeepIsFresh(before, ChecksFrom(env, ins, s), CheckKey(env), |ChecksFrom(env, ins, Org)|);
      KeepAccounts(before, ChecksFrom(env, ins, s), CheckKey(env), false);
    }
  }

  lemma {:induction false} MergedCriteriaInvariant(env: Env, ins: Inputs, s: Source)
    ensures Prioritised(CriteriaUpTo(env, ins, s), SourceOfCriterion(), s)
    ensures FreshBeyond(CriteriaUpTo(env, ins, s), CriterionKey(env), |CriteriaFrom(env, ins, Org)|)
    ensures CriteriaFrom(env, ins, Org) <= CriteriaUpTo(env, ins, s)
    decreases Rank(s)
  {
    ChecksHaveSource(env, ins, s);
    if s == Org {
      KeepAlways([], CriteriaFrom(env, ins, Org), CriterionKey(env));
    } else {
      var before := CriteriaUpTo(env, ins, Previous(s));
      MergedCriteriaInvariant(env, ins, Previous(s));
      KeepPrioritised(before, CriteriaFrom(env, ins, s), CriterionKey(env), false, SourceOfCriterion(), Previous(s), s);
      KeepIsFresh(before, CriteriaFrom(env, ins, s), CriterionKey(env), |CriteriaFrom(env, ins, Org)|);
      KeepAccounts(before, CriteriaFrom(env, ins, s), CriterionKey(env), false);
    }
  }

  lemma {:induction false} KeepAlways<T>(kept: seq<T>, candidates: seq<T>, key: T -> string)
    ensures Keep(kept, candidates, key, true) == kept + candidates
  {
    if candidates != [] {
      KeepAlways(kept, candidates[..|candidates| - 1], key);
      assert candidates == candidates[..|candidates| - 1] + [candidates[|candidates| - 1]];
    }
  }

  // ---- where each item comes from ------------------------------------------------------------------

  /** The check is the `p`-th item of its source's list, as that list has it. */
  predicate CheckIs(env: Env, ins: Inputs, c: Check, p: nat) {
    match c.source
    case Org =>
      && p < |ins.org| && ins.org[p].kind == MandatoryKind
      && c.id == "MC-ORG-" + env.templateKey(ins.org[p].templateId)
      && c.target == "ET-ORG-" + env.templateKey(ins.org[p].templateId)
      && c.name == ins.org[p].name && c.whatPasses == ins.org[p].whatPasses && c.locked == ins.org[p].locked
      && c.page == ""
    case Dept =>
      && p < |ins.dept| && ins.dept[p].kind == MandatoryKind
      && c.id == "MC-DEPT-" + env.templateKey(ins.dept[p].templateId)
      && c.target == "ET-DEPT-" + env.templateKey(ins.dept[p].templateId)
      && c.name == ins.dept[p].name && c.whatPasses == ins.dept[p].whatPasses && c.locked == ins.dept[p].locked
      && c.page == ""
    case User =>
      && p < |ins.user.checks| && c.name == ins.user.checks[p].name
      && c.id == "MC-USER-" + env.stableId("user", "mc", env.norm(c.name))
      && c.target == "ET-USER-" + env.stableId("user", "mc", env.norm(c.name))
      && c.whatPasses == ins.user.checks[p].whatPasses && !c.locked && c.page == ""
    case Rfp =>
      && p < |ins.rfp.checks| && c.name == ins.rfp.checks[p].name
      && c.id == "MC-RFP-" + env.stableId("rfp", "mc", env.norm(c.name))
      && c.target == "ET-RFP-" + env.stableId("rfp", "mc", env.norm(c.name))
      && c.whatPasses == ins.rfp.checks[p].whatPasses && !c.locked && c.page == ins.rfp.checks[p].page
  }

  /** The criterion is the `p`-th item of its source's list, which gives it the weight `raw` and the score
      guide `own`. */
  predicate CriterionIs(env: Env, ins: Inputs, c: Criterion, raw: real, own: Rubric, p: nat) {
    match c.source
    case Org =>
      && p < |ins.org| && ins.org[p].kind == ScoringKind
      && c.id == "SC-ORG-" + env.templateKey(ins.org[p].templateId)
      && c.name == ins.org[p].name && c.locked == ins.org[p].locked && c.page == ""
      && raw == ins.org[p].weight && own == ins.org[p].rubric
    case Dept =>
      && p < |ins.dept| && ins.dept[p].kind == ScoringKind
      && c.id == "SC-DEPT-" + env.templateKey(ins.dept[p].templateId)
      && c.name == ins.dept[p].name && c.locked == ins.dept[p].locked && c.page == ""
      && raw == ins.dept[p].weight && own == ins.dept[p].rubric
    case User =>
      && p < |ins.user.criteria| && c.name == ins.user.criteria[p].name
      && c.id == "SC-USER-" + env.stableId("user", "sc", env.norm(c.name))
      && !c.locked && c.page == ""
      && raw == ins.user.criteria[p].weight && own == ins.user.criteria[p].rubric
    case Rfp =>
      && p < |ins.rfp.criteria| && c.name == ins.rfp.criteria[p].name
      && c.id == "SC-RFP-" + env.stableId("rfp", "sc", env.norm(c.name))
      && !c.locked && c.page == ins.rfp.criteria[p].page
      && raw == ins.rfp.criteria[p].weight && own == ins.rfp.criteria[p].rubric
  }

  /** Item `i` is item `at[i]` of its source's list, and items of one source keep that list's order. */
  ghost predicate PlacedAt<T>(xs: seq<T>, has: (T, nat) -> bool, source: T -> Source, at: seq<nat>) {
    && |at| == |xs|
    && (forall i :: 0 <= i < |xs| ==> has(xs[i], at[i]))
    && (forall i, j :: 0 <= i < j < |xs| && source(xs[i]) == source(xs[j]) ==> at[i] < at[j])
  }

  function CheckPlace(env: Env, ins: Inputs): (Check, nat) -> bool {
    (c: Check, p: nat) => CheckIs(env, ins, c, p)
  }

  /** A criterion before any of the passes. */
  function CriterionPlace(env: Env, ins: Inputs): (Criterion, nat) -> bool {
    (c: Criterion, p: nat) => CriterionIs(env, ins, c, c.weight, c.rubric, p)
  }

  /** Rising positions among the candidates of those that a dedup pass adds. */
  ghost predicate AddedAt<T>(kept: seq<T>, candidates: seq<T>, after: seq<T>, at: seq<nat>) {
    && |after| == |kept| + |at| && after[..|kept|] == kept
    && (forall k :: 0 <= k < |at| ==> at[k] < |candidates| && after[|kept| + k] == candidates[at[k]])
    && Rising(at)
  }

  lemma {:induction false} KeepPlaces<T>(kept: seq<T>, candidates: seq<T>, key: T -> string, always: bool)
    returns (at: seq<nat>)
    ensures AddedAt(kept, candidates, Keep(kept, candidates, key, always), at)
  {
    if candidates == [] { return []; }
    var n := |candidates| - 1;
    at := KeepPlaces(kept, candidates[..n], key, always);
    var before, after := Keep(kept, candidates[..n], key, always), Keep(kept, candidates, key, always);
    if after != before { at := at + [n]; }
  }

  /** The templates of one kind, by their positions in the table. */
  lemma {:induction false} TemplateCheckPlaces(env: Env, ts: seq<Template>, s: Source) returns (at: seq<nat>)
    ensures Rising(at) && |at| == |TemplateChecks(env, ts, s)|
    ensures forall k :: 0 <= k < |at| ==>
              && at[k] < |ts| && ts[at[k]].kind == MandatoryKind
              && TemplateChecks(env, ts, s)[k] == CheckOfTemplate(env, ts[at[k]], s)
  {
    if ts == [] { return []; }
    var n := |ts| - 1;
    at := TemplateCheckPlaces(env, ts[..n], s);
    if ts[n].kind == MandatoryKind { at := at + [n]; }
  }

  lemma {:induction false} TemplateCriterionPlaces(env: Env, ts: seq<Template>, s: Source) returns (at: seq<nat>)
    ensures Rising(at) && |at| == |TemplateCriteria(env, ts, s)|
    ensures forall k :: 0 <= k < |at| ==>
              && at[k] < |ts| && ts[at[k]].kind == ScoringKind
              && TemplateCriteria(env, ts, s)[k] == CriterionOfTemplate(env, ts[at[k]], s)
  {
    if ts == [] { return []; }
    var n := |ts| - 1;
    at := TemplateCriterionPlaces(env, ts[..n], s);
    if ts[n].kind == ScoringKind { at := at + [n]; }
  }

  lemma Prefixes()
    ensures forall s :: Tag(s) == (match s case Org => "ORG" case Dept => "DEPT" case User => "USER" case Rfp => "RFP")
    ensures "MC-" + "ORG" + "-" == "MC-ORG-" && "ET-" + "ORG" + "-" == "ET-ORG-" && "SC-" + "ORG" + "-" == "SC-ORG-"
    ensures "MC-" + "DEPT" + "-" == "MC-DEPT-" && "ET-" + "DEPT" + "-" == "ET-DEPT-"
    ensures "SC-" + "DEPT" + "-" == "SC-DEPT-" && "SC-" + "USER" + "-" == "SC-USER-"
    ensures "MC-" + "USER" + "-" == "MC-USER-" && "ET-" + "USER" + "-" == "ET-USER-"
    ensures "MC-" + "RFP" + "-" == "MC-RFP-" && "ET-" + "RFP" + "-" == "ET-RFP-" && "SC-" + "RFP" + "-" == "SC-RFP-"
  {
  }

  /** Candidates of source `s`, by their positions in its list. */
  ghost predicate Candidates<T>(xs: seq<T>, has: (T, nat) -> bool, source: T -> Source, s: Source, at: seq<nat>) {
    Rising(at) && |at| == |xs| && forall k :: 0 <= k < |at| ==> source(xs[k]) == s && has(xs[k], at[k])
  }

  lemma CheckCandidates(env: Env, ins: Inputs, s: Source) returns (at: seq<nat>)
    ensures Candidates(ChecksFrom(env, ins, s), CheckPlace(env, ins), SourceOfCheck(), s, at)
  {
    Prefixes();
    match s
    case Org => at := TemplateCheckPlaces(env, ins.org, Org);
    case Dept => at := TemplateCheckPlaces(env, ins.dept, Dept);
    case User => at := seq(|ins.user.checks|, i requires 0 <= i => i);
    case Rfp => at := seq(|ins.rfp.checks|, i requires 0 <= i => i);
  }

  lemma CriterionCandidates(env: Env, ins: Inputs, s: Source) returns (at: seq<nat>)
    ensures Candidates(CriteriaFrom(env, ins, s), CriterionPlace(env, ins), SourceOfCriterion(), s, at)
  {
    Prefixes();
    match s
    case Org => at := TemplateCriterionPlaces(env, ins.org, Org);
    case Dept => at := TemplateCriterionPlaces(env, ins.dept, Dept);
    case User => at := seq(|ins.user.criteria|, i requires 0 <= i => i);
    case Rfp => at := seq(|ins.rfp.criteria|, i requires 0 <= i => i);
  }

  /** Positions among positions. */
  function Through(outer: seq<nat>, inner: seq<nat>): (r: seq<nat>)
    requires forall k :: 0 <= k < |inner| ==> inner[k] < |outer|
    ensures |r| == |inner| && forall k :: 0 <= k < |inner| ==> r[k] == outer[inner[k]]
  {
    seq(|inner|, k requires 0 <= k < |inner| => outer[inner[k]])
  }

  /** One dedup pass: what it adds are candidates, in their order. */
  lemma PassPlaces<T>(kept: seq<T>, candidates: seq<T>, key: T -> string, always: bool, has: (T, nat) -> bool,
                      source: T -> Source, s: Source, earlier: seq<nat>, places: seq<nat>) returns (at: seq<nat>)
    requires PlacedAt(kept, has, source, earlier) && Candidates(candidates, has, source, s, places)
    requires forall i :: 0 <= i < |kept| ==> source(kept[i]) != s
    ensures PlacedAt(Keep(kept, candidates, key, always), has, source, at)
  {
    var added := KeepPlaces(kept, candidates, key, always);
    at := earlier + Through(places, added);
    AppendPlaces(kept, candidates, Keep(kept, candidates, key, always), has, source, s, earlier, places, added);
  }

  lemma AppendPlaces<T>(kept: seq<T>, candidates: seq<T>, after: seq<T>, has: (T, nat) -> bool, source: T -> Source,
                        s: Source, earlier: seq<nat>, places: seq<nat>, added: seq<nat>)
    requires AddedAt(kept, candidates, after, added)
    requires PlacedAt(kept, has, source, earlier) && Candidates(candidates, has, source, s, places)
    requires forall i :: 0 <= i < |kept| ==> source(kept[i]) != s
    ensures PlacedAt(after, has, source, earlier + Through(places, added))
  {
    var at := earlier + Through(places, added);
    forall i: nat | i < |after| ensures has(after[i], at[i]) {
      AppendedItem(kept, candidates, after, has, source, s, earlier, places, added, i);
    }
    forall i: nat, j: nat | i < j < |after| && source(after[i]) == source(after[j]) ensures at[i] < at[j] {
      AppendedOrder(kept, candidates, after, has, source, s, earlier, places, added, i, j);
    }
  }

  lemma AppendedOrder<T>(kept: seq<T>, candidates: seq<T>, after: seq<T>, has: (T, nat) -> bool, source: T -> Source,
                         s: Source, earlier: seq<nat>, places: seq<nat>, added: seq<nat>, i: nat, j: nat)
    requires AddedAt(kept, candidates, after, added) && i < j < |after| && source(after[i]) == source(after[j])
    requires PlacedAt(kept, has, source, earlier) && Candidates(candidates, has, source, s, places)
    requires forall i :: 0 <= i < |kept| ==> source(kept[i]) != s
    ensures (earlier + Through(places, added))[i] < (earlier + Through(places, added))[j]
  {
    AppendedItem(kept, candidates, after, has, source, s, earlier, places, added, i);
    AppendedItem(kept, candidates, after, has, source, s, earlier, places, added, j);
    var n := |kept|;
    if i >= n {
      assert added[i - n] < added[j - n];
    } else {
      assert j < n && source(kept[i]) == source(kept[j]);
    }
  }

  lemma AppendedItem<T>(kept: seq<T>, candidates: seq<T>, after: seq<T>, has: (T, nat) -> bool, source: T -> Source,
                        s: Source, earlier: seq<nat>, places: seq<nat>, added: seq<nat>, i: nat)
    requires AddedAt(kept, candidates, after, added) && i < |after|
    requires PlacedAt(kept, has, source, earlier) && Candidates(candidates, has, source, s, places)
    requires forall i :: 0 <= i < |kept| ==> source(kept[i]) != s
    ensures var at, n := earlier + Through(places, added), |kept|;
            && has(after[i], at[i]) && (source(after[i]) == s <==> n <= i)
            && if i < n then after[i] == kept[i] && at[i] == earlier[i] else at[i] == places[added[i - n]]
  {
    var n := |kept|;
    if i < n { assert after[..n][i] == after[i]; } else { assert after[n + (i - n)] == candidates[added[i - n]]; }
  }

  lemma {:induction false} PlaceChecks(env: Env, ins: Inputs, s: Source) returns (at: seq<nat>)
    ensures PlacedAt(ChecksUpTo(env, ins, s), CheckPlace(env, ins), SourceOfCheck(), at)
    decreases Rank(s)
  {
    var before: seq<Check>, earlier: seq<nat> := [], [];
    if s != Org {
      before := ChecksUpTo(env, ins, Previous(s));
      earlier := PlaceChecks(env, ins, Previous(s));
      MergedChecksInvariant(env, ins, Previous(s));
      assert forall i :: 0 <= i < |before| ==> Rank(SourceOfCheck()(before[i])) < Rank(s);
    }
    var places := CheckCandidates(env, ins, s);
    at := PassPlaces(before, ChecksFrom(env, ins, s), CheckKey(env), s == Org, CheckPlace(env, ins), SourceOfCheck(), s,
                     earlier, places);
  }

  lemma {:induction false} PlaceCriteria(env: Env, ins: Inputs, s: Source) returns (at: seq<nat>)
    ensures PlacedAt(CriteriaUpTo(env, ins, s), CriterionPlace(env, ins), SourceOfCriterion(), at)
    decreases Rank(s)
  {
    var before: seq<Criterion>, earlier: seq<nat> := [], [];
    if s != Org {
      before := CriteriaUpTo(env, ins, Previous(s));
      earlier := PlaceCriteria(env, ins, Previous(s));
      MergedCriteriaInvariant(env, ins, Previous(s));
      assert forall i :: 0 <= i < |before| ==> Rank(SourceOfCriterion()(before[i])) < Rank(s);
    }
    var places := CriterionCandidates(env, ins, s);
    at := PassPlaces(before, CriteriaFrom(env, ins, s), CriterionKey(env), s == Org, CriterionPlace(env, ins),
                     SourceOfCriterion(), s, earlier, places);
  }

  /** The bands `got` are the criterion's own, a blank one taken from the last RFP criterion of the same
      normalised name, if there is any. */
  ghost predicate BandsFilled(env: Env, name: string, own: Rubric, rfp: seq<ExtractedCriterion>, got: Rubric) {
    && ((forall i :: 0 <= i < |rfp| ==> env.norm(rfp[i].name) != env.norm(name)) ==> got == own)
    && forall i :: IsLastOf(env, rfp, name, i) ==>
         && got.band9 == (if own.band9 == "" then rfp[i].rubric.band9 else own.band9)
         && got.band6 == (if own.band6 == "" then rfp[i].rubric.band6 else own.band6)
         && got.band3 == (if own.band3 == "" then rfp[i].rubric.band3 else own.band3)
         && got.band0 == (if own.band0 == "" then rfp[i].rubric.band0 else own.band0)
  }

  predicate IsLastOf(env: Env, rfp: seq<ExtractedCriterion>, name: string, i: int) {
    && 0 <= i < |rfp| && env.norm(rfp[i].name) == env.norm(name)
    && forall k :: i < k < |rfp| ==> env.norm(rfp[k].name) != env.norm(name)
  }

  /** The published criteria, item by item from their sources' lists, whose weights `raw` are published as
      they are if they come to 1 within 0.01, and otherwise as rounded shares. */
  ghost predicate PublishedAt(env: Env, ins: Inputs, cs: seq<Criterion>, at: seq<nat>, raw: seq<real>,
      own: seq<Rubric>) {
    && |at| == |raw| == |own| == |cs|
    && (forall i :: 0 <= i < |cs| ==> CriterionIs(env, ins, cs[i], raw[i], own[i], at[i]))
    && (forall i, j :: 0 <= i < j < |cs| && cs[i].source == cs[j].source ==> at[i] < at[j])
    && (0.99 <= Sum(raw) <= 1.01 ==> forall i :: 0 <= i < |cs| ==> cs[i].weight == raw[i])
    && (Sum(raw) == 0.0 ==> forall i :: 0 <= i < |cs| ==> cs[i].weight == Round(1.0 / |cs| as real, Three))
    && (Sum(raw) != 0.0 && !(0.99 <= Sum(raw) <= 1.01) ==>
          forall i :: 0 <= i < |cs| ==> cs[i].weight == Round(raw[i] / Sum(raw), Three))
    && (forall i :: 0 <= i < |cs| ==>
          BandsFilled(env, cs[i].name, own[i], ins.rfp.criteria, cs[i].rubric) &&
          cs[i].guideFromRfp == (cs[i].rubric != own[i]))
    && (forall i :: 0 <= i < |cs| ==>
          cs[i].targets == ["ET-SC-" + if |cs[i].id| <= 8 then cs[i].id else cs[i].id[|cs[i].id| - 8..]])
  }

  function Rubrics(cs: seq<Criterion>): (rs: seq<Rubric>)
    ensures |rs| == |cs| && forall i :: 0 <= i < |cs| ==> rs[i] == cs[i].rubric
  {
    seq(|cs|, i requires 0 <= i < |cs| => cs[i].rubric)
  }

  lemma PlacePublished(env: Env, ins: Inputs, finished: seq<Criterion>) returns (at: seq<nat>, raw: seq<real>,
      own: seq<Rubric>)
    requires var merged := CriteriaUpTo(env, ins, Rfp);
             && |finished| == |merged|
             && forall i :: 0 <= i < |merged| ==>
                  finished[i] == Finish(env, merged[i], ins.rfp.criteria, WeightSum(merged), |merged|)
    ensures PublishedAt(env, ins, finished, at, raw, own)
  {
    var merged := CriteriaUpTo(env, ins, Rfp);
    at := PlaceCriteria(env, ins, Rfp);
    raw, own := Weights(merged), Rubrics(merged);
    WeightSumIsSum(merged);
    NoneGuidedYet(env, ins, Rfp);
    forall i | 0 <= i < |finished|
      ensures CriterionIs(env, ins, finished[i], raw[i], own[i], at[i]) && finished[i].source == merged[i].source
      ensures Passed(env, ins, finished[i], merged[i], WeightSum(merged), |merged|)
    {
      assert CriterionPlace(env, ins)(merged[i], at[i]);
      FinishFields(env, ins, merged[i], WeightSum(merged), |merged|);
    }
    forall i, j | 0 <= i < j < |finished| && finished[i].source == finished[j].source ensures at[i] < at[j] {
      assert SourceOfCriterion()(merged[i]) == SourceOfCriterion()(merged[j]);
    }
  }

  /** What the three passes make of one criterion. */
  ghost predicate Passed(env: Env, ins: Inputs, f: Criterion, c: Criterion, total: real, n: nat)
    requires n > 0
  {
    && f.id == c.id && f.name == c.name && f.source == c.source && f.locked == c.locked && f.page == c.page
    && (0.99 <= total <= 1.01 ==> f.weight == c.weight)
    && (total == 0.0 ==> f.weight == Round(1.0 / n as real, Three))
    && (total != 0.0 && !(0.99 <= total <= 1.01) ==> f.weight == Round(c.weight / total, Three))
    && BandsFilled(env, c.name, c.rubric, ins.rfp.criteria, f.rubric) && f.guideFromRfp == (f.rubric != c.rubric)
    && f.targets == ["ET-SC-" + if |f.id| <= 8 then f.id else f.id[|f.id| - 8..]]
  }

  lemma FinishFields(env: Env, ins: Inputs, c: Criterion, total: real, n: nat)
    requires n > 0 && !c.guideFromRfp
    ensures Passed(env, ins, Finish(env, c, ins.rfp.criteria, total, n), c, total, n)
  {
    BandsAreOnlyFilled(env, c, ins.rfp.criteria, total, n);
  }

  lemma {:induction false} NoneGuidedYet(env: Env, ins: Inputs, s: Source)
    ensures forall i :: 0 <= i < |CriteriaUpTo(env, ins, s)| ==> !CriteriaUpTo(env, ins, s)[i].guideFromRfp
    decreases Rank(s)
  {
    var before := if s == Org then [] else CriteriaUpTo(env, ins, Previous(s));
    if s != Org { NoneGuidedYet(env, ins, Previous(s)); }
    var places := CriterionCandidates(env, ins, s);
    NoneGuidedFrom(env, ins, s);
    KeepAccounts(before, CriteriaFrom(env, ins, s), CriterionKey(env), s == Org);
    var after := CriteriaUpTo(env, ins, s);
    forall i | 0 <= i < |after| ensures !after[i].guideFromRfp { assert after[i] in after; }
  }

  lemma NoneGuidedFrom(env: Env, ins: Inputs, s: Source)
    ensures forall c :: c in CriteriaFrom(env, ins, s) ==> !c.guideFromRfp
  {
    NoneGuided(env, ins.org, Org);
    NoneGuided(env, ins.dept, Dept);
  }

  lemma {:induction false} NoneGuided(env: Env, ts: seq<Template>, s: Source)
    ensures forall c :: c in TemplateCriteria(env, ts, s) ==> !c.guideFromRfp
  {
    if ts != [] { NoneGuided(env, ts[..|ts| - 1], s); }
  }

  lemma CandidateCheckSurvives(env: Env, ins: Inputs, s: Source, upTo: Source, c: Check)
    requires c in ChecksFrom(env, ins, s) && Rank(s) <= Rank(upTo)
    ensures c in ChecksUpTo(env, ins, upTo) ||
            (s != Org &&
             exists k :: k in ChecksUpTo(env, ins, upTo) &&
                         env.norm(k.name) == env.norm(c.name) && Rank(k.source) <= Rank(s))
    decreases Rank(upTo)
  {
    if s == upTo {
      var before := if s == Org then [] else ChecksUpTo(env, ins, Previous(s));
      KeepAccounts(before, ChecksFrom(env, ins, s), CheckKey(env), s == Org);
      MergedChecksInvariant(env, ins, s);
      if c !in ChecksUpTo(env, ins, s) {
        var k :| k in ChecksUpTo(env, ins, s) && CheckKey(env)(k) == CheckKey(env)(c);
        assert SourceOfCheck()(k) == k.source;
      }
    } else {
      CandidateCheckSurvives(env, ins, s, Previous(upTo), c);
      var before, after := ChecksUpTo(env, ins, Previous(upTo)), ChecksUpTo(env, ins, upTo);
      KeepAccounts(before, ChecksFrom(env, ins, upTo), CheckKey(env), false);
      forall k | k in before ensures k in after { var i :| 0 <= i < |before| && before[i] == k; assert after[i] == k; }
    }
  }

  lemma CandidateCriterionSurvives(env: Env, ins: Inputs, s: Source, upTo: Source, c: Criterion)
    requires c in CriteriaFrom(env, ins, s) && Rank(s) <= Rank(upTo)
    ensures c in CriteriaUpTo(env, ins, upTo) ||
            (s != Org &&
             exists k :: k in CriteriaUpTo(env, ins, upTo) &&
                         env.norm(k.name) == env.norm(c.name) && Rank(k.source) <= Rank(s))
    decreases Rank(upTo)
  {
    if s == upTo {
      var before := if s == Org then [] else CriteriaUpTo(env, ins, Previous(s));
      KeepAccounts(before, CriteriaFrom(env, ins, s), CriterionKey(env), s == Org);
      MergedCriteriaInvariant(env, ins, s);
      if c !in CriteriaUpTo(env, ins, s) {
        var k :| k in CriteriaUpTo(env, ins, s) && CriterionKey(env)(k) == CriterionKey(env)(c);
        assert SourceOfCriterion()(k) == k.source;
      }
    } else {
      CandidateCriterionSurvives(env, ins, s, Previous(upTo), c);
      var before, after := CriteriaUpTo(env, ins, Previous(upTo)), CriteriaUpTo(env, ins, upTo);
      KeepAccounts(before, CriteriaFrom(env, ins, upTo), CriterionKey(env), false);
      forall k | k in before ensures k in after { var i :| 0 <= i < |before| && before[i] == k; assert after[i] == k; }
    }
  }

  /** The name of the `p`-th item of a source's list that gives a mandatory check; None if it gives none. */
  function MandatoryName(ins: Inputs, s: Source, p: nat): Option<string> {
    match s
    case Org => if p < |ins.org| && ins.org[p].kind == MandatoryKind then Some(ins.org[p].name) else None
    case Dept => if p < |ins.dept| && ins.dept[p].kind == MandatoryKind then Some(ins.dept[p].name) else None
    case User => if p < |ins.user.checks| then Some(ins.user.checks[p].name) else None
    case Rfp => if p < |ins.rfp.checks| then Some(ins.rfp.checks[p].name) else None
  }

  function ScoringName(ins: Inputs, s: Source, p: nat): Option<string> {
    match s
    case Org => if p < |ins.org| && ins.org[p].kind == ScoringKind then Some(ins.org[p].name) else None
    case Dept => if p < |ins.dept| && ins.dept[p].kind == ScoringKind then Some(ins.dept[p].name) else None
    case User => if p < |ins.user.criteria| then Some(ins.user.criteria[p].name) else None
    case Rfp => if p < |ins.rfp.criteria| then Some(ins.rfp.criteria[p].name) else None
  }

  lemma {:induction false} TemplateIsCandidate(env: Env, ts: seq<Template>, s: Source, p: nat)
    requires p < |ts|
    ensures ts[p].kind == MandatoryKind ==> CheckOfTemplate(env, ts[p], s) in TemplateChecks(env, ts, s)
    ensures ts[p].kind == ScoringKind ==> CriterionOfTemplate(env, ts[p], s) in TemplateCriteria(env, ts, s)
  {
    TemplatesStep(env, ts, s);
    if p < |ts| - 1 { TemplateIsCandidate(env, ts[..|ts| - 1], s, p); }
  }

  lemma MandatoryCandidate(env: Env, ins: Inputs, s: Source, p: nat) returns (c: Check)
    requires MandatoryName(ins, s, p).Some?
    ensures c in ChecksFrom(env, ins, s) && CheckIs(env, ins, c, p) && c.source == s &&
        c.name == MandatoryName(ins, s, p).value
  {
    Prefixes();
    match s
    case Org => TemplateIsCandidate(env, ins.org, s, p); c := CheckOfTemplate(env, ins.org[p], s);
    case Dept => TemplateIsCandidate(env, ins.dept, s, p); c := CheckOfTemplate(env, ins.dept[p], s);
    case User => c := ChecksFrom(env, ins, s)[p];
    case Rfp => c := ChecksFrom(env, ins, s)[p];
  }

  lemma ScoringCandidate(env: Env, ins: Inputs, s: Source, p: nat) returns (c: Criterion)
    requires ScoringName(ins, s, p).Some?
    ensures c in CriteriaFrom(env, ins, s) && CriterionIs(env, ins, c, c.weight, c.rubric, p) && c.source == s &&
        c.name == ScoringName(ins, s, p).value
  {
    Prefixes();
    match s
    case Org => TemplateIsCandidate(env, ins.org, s, p); c := CriterionOfTemplate(env, ins.org[p], s);
    case Dept => TemplateIsCandidate(env, ins.dept, s, p); c := CriterionOfTemplate(env, ins.dept[p], s);
    case User => c := CriteriaFrom(env, ins, s)[p];
    case Rfp => c := CriteriaFrom(env, ins, s)[p];
  }

  /** Every item of every list that gives a mandatory check is in the result, or a check of the same
      normalised name and of equal or higher priority is there instead; an organisation's is always there. */
  lemma NoCheckIsLost(env: Env, ins: Inputs, s: Source, p: nat)
    requires MandatoryName(ins, s, p).Some?
    ensures exists c :: c in ChecksUpTo(env, ins, Rfp) &&
              ((c.source == s && CheckIs(env, ins, c, p)) ||
               (s != Org && env.norm(c.name) == env.norm(MandatoryName(ins, s, p).value) && Rank(c.source) <= Rank(s)))
  {
    var c := MandatoryCandidate(env, ins, s, p);
    CandidateCheckSurvives(env, ins, s, Rfp, c);
  }

  lemma NoCriterionIsLost(env: Env, ins: Inputs, s: Source, p: nat)
    requires ScoringName(ins, s, p).Some?
    ensures exists c :: c in CriteriaUpTo(env, ins, Rfp) &&
              ((c.source == s && CriterionIs(env, ins, c, c.weight, c.rubric, p)) ||
               (s != Org && env.norm(c.name) == env.norm(ScoringName(ins, s, p).value) && Rank(c.source) <= Rank(s)))
  {
    var c := ScoringCandidate(env, ins, s, p);
    CandidateCriterionSurvives(env, ins, s, Rfp, c);
  }

  /** Only the organisation can have two checks of one normalised name. */
  lemma DuplicatesAreOrg(env: Env, ins: Inputs, i: nat, j: nat)
    requires i < j < |ChecksUpTo(env, ins, Rfp)|
    requires var cs := ChecksUpTo(env, ins, Rfp); env.norm(cs[i].name) == env.norm(cs[j].name)
    ensures var cs := ChecksUpTo(env, ins, Rfp); cs[i].source == Org && cs[j].source == Org
  {
    MergedChecksInvariant(env, ins, Rfp);
    ChecksHaveSource(env, ins, Org);
    var cs, n := ChecksUpTo(env, ins, Rfp), |ChecksFrom(env, ins, Org)|;
    assert CheckKey(env)(cs[i]) == CheckKey(env)(cs[j]);
    assert j < n;
    assert cs[i] == ChecksFrom(env, ins, Org)[i] && cs[j] == ChecksFrom(env, ins, Org)[j];
  }

  lemma CriterionDuplicatesAreOrg(env: Env, ins: Inputs, i: nat, j: nat)
    requires i < j < |CriteriaUpTo(env, ins, Rfp)|
    requires var cs := CriteriaUpTo(env, ins, Rfp); env.norm(cs[i].name) == env.norm(cs[j].name)
    ensures var cs := CriteriaUpTo(env, ins, Rfp); cs[i].source == Org && cs[j].source == Org
  {
    MergedCriteriaInvariant(env, ins, Rfp);
    ChecksHaveSource(env, ins, Org);
    var cs, n := CriteriaUpTo(env, ins, Rfp), |CriteriaFrom(env, ins, Org)|;
    assert CriterionKey(env)(cs[i]) == CriterionKey(env)(cs[j]);
    assert j < n;
    assert cs[i] == CriteriaFrom(env, ins, Org)[i] && cs[j] == CriteriaFrom(env, ins, Org)[j];
  }

  /** Bands that were filled in stay as they were; a blank one is taken from the last RFP criterion of
      the same normalised name, and stays blank only if that has none either.  Without such a criterion the
      bands stay as they were; where one was filled the criterion says so. */
  lemma BandsAreOnlyFilled(env: Env, c: Criterion, rfp: seq<ExtractedCriterion>, total: real, n: nat)
    requires n > 0
    ensures BandsFilled(env, c.name, c.rubric, rfp, Finish(env, c, rfp, total, n).rubric)
    ensures var f := Finish(env, c, rfp, total, n);
            f.guideFromRfp == (c.guideFromRfp || f.rubric != c.rubric)
  {
    GuideIsLast(env, rfp, env.norm(c.name));
  }

  lemma {:induction false} GuideIsLast(env: Env, cs: seq<ExtractedCriterion>, key: string)
    ensures Guide(env, cs, key).Some? ==> exists g :: g in cs && env.norm(g.name) == key
    ensures forall i :: 0 <= i < |cs| && env.norm(cs[i].name) == key && (forall k :: i < k < |cs| ==>
        env.norm(cs[k].name) != key) ==>
              Guide(env, cs, key) == Some(cs[i].rubric)
  {
    if cs != [] {
      var init := cs[..|cs| - 1];
      GuideIsLast(env, init, key);
      if env.norm(cs[|cs| - 1].name) == key {
        assert cs[|cs| - 1] in cs;
      } else {
        forall i | 0 <= i < |cs| && env.norm(cs[i].name) == key && (forall k :: i < k < |cs| ==>
            env.norm(cs[k].name) != key)
          ensures Guide(env, cs, key) == Some(cs[i].rubric)
        {
          assert init[i] == cs[i];
        }
      }
    }
  }

  /** Every extraction target a check or a criterion refers to is among the targets, and one of them feeds
      it. */
  lemma ReferencedTargetsExist(checks: seq<Check>, criteria: seq<Criterion>)
    ensures forall c :: c in checks ==>
              exists t :: t in TargetsFor(checks, criteria) && t.id == c.target && t.feeds == c.id && t.mandatory
    ensures forall c, id :: c in criteria && c.targets == [TargetId(c)] && id in c.targets ==>
              exists t :: t in TargetsFor(checks, criteria) && t.id == id && t.feeds == c.id && !t.mandatory
  {
    var ts := TargetsFor(checks, criteria);
    forall c | c in checks ensures CheckTarget(c) in ts {
      var i :| 0 <= i < |checks| && checks[i] == c;
      assert ts[i] == CheckTarget(c);
    }
    forall c | c in criteria ensures CriterionTarget(c) in ts {
      var i :| 0 <= i < |criteria| && criteria[i] == c;
      assert ts[|checks| + i] == CriterionTarget(c);
    }
  }

  // ---- the weights ---------------------------------------------------------------------------------

  function Weights(cs: seq<Criterion>): (ws: seq<real>)
    ensures |ws| == |cs| && forall i :: 0 <= i < |cs| ==> ws[i] == cs[i].weight
  {
    seq(|cs|, i requires 0 <= i < |cs| => cs[i].weight)
  }

  function Sum(ws: seq<real>): real {
    if ws == [] then 0.0 else Sum(ws[..|ws| - 1]) + ws[|ws| - 1]
  }

  lemma {:induction false} WeightSumIsSum(cs: seq<Criterion>)
    ensures WeightSum(cs) == Sum(Weights(cs))
  {
    if cs != [] {
      WeightSumIsSum(cs[..|cs| - 1]);
      assert Weights(cs)[..|cs| - 1] == Weights(cs[..|cs| - 1]);
    }
  }

  predicate Near(x: real, y: real, slack: real) {
    y - slack <= x <= y + slack
  }

  /** What `FinalWeight` makes of each weight, given the total and the number of all of them. */
  function FinalWeights(ws: seq<real>, total: real, n: nat): (r: seq<real>)
    requires n > 0
    ensures |r| == |ws|
  {
    if ws == [] then [] else FinalWeights(ws[..|ws| - 1], total, n) + [FinalWeight(ws[|ws| - 1], total, n)]
  }

  lemma {:induction false} FinalWeightsAt(ws: seq<real>, total: real, n: nat, i: nat)
    requires i < |ws| && n > 0
    ensures FinalWeights(ws, total, n)[i] == FinalWeight(ws[i], total, n)
  {
    if i < |ws| - 1 { FinalWeightsAt(ws[..|ws| - 1], total, n, i); }
  }

  predicate PassesThrough(total: real) {
    total != 0.0 && Near(total, 1.0, 0.01)
  }

  /** The exact share a criterion should get when weights are recomputed. */
  function Share(w: real, total: real, n: nat): real
    requires n > 0
  {
    if total == 0.0 then 1.0 / n as real else w / total
  }

  function ShareSum(ws: seq<real>, total: real, n: nat): real
    requires n > 0
  {
    if ws == [] then 0.0 else ShareSum(ws[..|ws| - 1], total, n) + Share(ws[|ws| - 1], total, n)
  }

  lemma {:induction false} ShareSumIsQuotient(ws: seq<real>, total: real, n: nat)
    requires n > 0 && total != 0.0
    ensures ShareSum(ws, total, n) == Sum(ws) / total
  {
    if ws != [] {
      ShareSumIsQuotient(ws[..|ws| - 1], total, n);
      AddQuotients(Sum(ws[..|ws| - 1]), ws[|ws| - 1], total);
    }
  }

  lemma AddQuotients(a: real, b: real, d: real)
    requires d != 0.0
    ensures a / d + b / d == (a + b) / d
    ensures d / d == 1.0
  {
  }

  lemma {:induction false} EvenShareSum(ws: seq<real>, n: nat)
    requires n > 0
    ensures ShareSum(ws, 0.0, n) == |ws| as real / n as real
  {
    if ws != [] {
      EvenShareSum(ws[..|ws| - 1], n);
      AddQuotients(|ws| as real - 1.0, 1.0, n as real);
    }
  }

  lemma SharesAddUpToOne(ws: seq<real>)
    requires ws != []
    ensures ShareSum(ws, Sum(ws), |ws|) == 1.0
  {
    if Sum(ws) == 0.0 {
      EvenShareSum(ws, |ws|);
      AddQuotients(0.0, 0.0, |ws| as real);
    } else {
      ShareSumIsQuotient(ws, Sum(ws), |ws|);
      AddQuotients(0.0, 0.0, Sum(ws));
    }
  }

  /** A share in thousandths, rounded. */
  function Thousandth(w: real, total: real, n: nat): int
    requires n > 0
  {
    Nearest(Share(w, total, n) * 1000.0)
  }

  /** What the rounded shares come to, in thousandths. */
  function Thousandths(ws: seq<real>, total: real, n: nat): int
    requires n > 0
  {
    if ws == [] then 0 else Thousandths(ws[..|ws| - 1], total, n) + Thousandth(ws[|ws| - 1], total, n)
  }

  /** Rounding a share to thousandths: off by at most half a thousandth, and at exactly half the
      result is even. */
  lemma RoundedShare(w: real, total: real, n: nat) returns (k: int)
    requires n > 0 && !PassesThrough(total)
    ensures k == Thousandth(w, total, n) && FinalWeight(w, total, n) == k as real / 1000.0
    ensures HalfOff(k, Share(w, total, n) * 1000.0, 1)
  {
    k := Thousandth(w, total, n);
    NearestHalf(Share(w, total, n) * 1000.0);
  }

  /** `k` is within `n` halves of `x`, and even if it is off by all of them. */
  predicate HalfOff(k: int, x: real, n: nat) {
    var d := k as real - x;
    -0.5 * n as real <= d <= 0.5 * n as real && (d == 0.5 * n as real || d == -0.5 * n as real ==> k % 2 == 0)
  }

  lemma NearestHalf(x: real)
    ensures HalfOff(Nearest(x), x, 1)
  {
  }

  lemma AddHalves(a: int, x: real, n: nat, b: int, y: real)
    requires HalfOff(a, x, n) && HalfOff(b, y, 1)
    ensures HalfOff(a + b, x + y, n + 1)
  {
  }

  lemma {:induction false} RoundedShares(ws: seq<real>, total: real, n: nat) returns (k: int)
    requires n > 0 && !PassesThrough(total)
    ensures k == Thousandths(ws, total, n) && Sum(FinalWeights(ws, total, n)) == k as real / 1000.0
    ensures HalfOff(k, ShareSum(ws, total, n) * 1000.0, |ws|)
  {
    k := 0;
    if ws != [] {
      var init, w := ws[..|ws| - 1], ws[|ws| - 1];
      var a := RoundedShares(init, total, n);
      var b := RoundedShare(w, total, n);
      SumStep(FinalWeights(init, total, n), FinalWeight(w, total, n));
      AddHalves(a, ShareSum(init, total, n) * 1000.0, |init|, b, Share(w, total, n) * 1000.0);
      k := a + b;
    }
  }

  /** The weights come out summing to 1: within 0.01 when passed through, within 0.0005 n when they
      were recomputed. */
  lemma FinalWeightsSumToOne(ws: seq<real>)
    requires ws != []
    ensures var total, finals := Sum(ws), FinalWeights(ws, Sum(ws), |ws|);
            if PassesThrough(total) then finals == ws && Near(Sum(finals), 1.0, 0.01)
            else Near(Sum(finals), 1.0, 0.0005 * |ws| as real)
  {
    if PassesThrough(Sum(ws)) {
      PassedThrough(ws, Sum(ws), |ws|);
    } else {
      SharesAddUpToOne(ws);
      var k := RoundedShares(ws, Sum(ws), |ws|);
    }
  }

  lemma {:induction false} PassedThrough(ws: seq<real>, total: real, n: nat)
    requires n > 0 && PassesThrough(total)
    ensures FinalWeights(ws, total, n) == ws
  {
    if ws != [] { PassedThrough(ws[..|ws| - 1], total, n); }
  }

  lemma SumStep(xs: seq<real>, x: real)
    ensures Sum(xs + [x]) == Sum(xs) + x
  {
    assert (xs + [x])[..|xs|] == xs;
  }

  /** The bound the setup type puts on the sum of its weights. */
  predicate SetupAccepts(sum: real) {
    0.99 <= sum <= 1.01
  }

  /** The merged weights meet that bound. */
  predicate SumFits(ws: seq<real>)
    requires ws != []
  {
    SetupAccepts(Sum(FinalWeights(ws, Sum(ws), |ws|)))
  }

  /** The bound the criterion type puts on a weight. */
  predicate WeightAccepted(w: real) {
    0.0 < w <= 1.0
  }

  /** The merge meets all the types demand: there is a total weight, which a merge without criteria does
      not publish, and every weight and their sum are within bounds. */
  predicate MergedFits(ws: seq<real>) {
    ws != [] && SumFits(ws) && AllAccepted(FinalWeights(ws, Sum(ws), |ws|))
  }

  predicate AllAccepted(ws: seq<real>) {
    forall i :: 0 <= i < |ws| ==> WeightAccepted(ws[i])
  }

  /** A recomputed weight shows in three digits. */
  predicate Shows(share: real) {
    share > 0.0005
  }

  predicate EachShows(ws: seq<real>)
    requires ws != []
  {
    forall i :: 0 <= i < |ws| ==> Shows(Share(ws[i], Sum(ws), |ws|))
  }

  lemma ThousandthsFit(k: int)
    ensures SetupAccepts(k as real / 1000.0) <==> 990 <= k <= 1010
  {
  }

  lemma FinalShows(w: real, total: real, n: nat)
    requires n > 0 && !PassesThrough(total)
    ensures FinalWeight(w, total, n) > 0.0 <==> Share(w, total, n) > 0.0005
    ensures FinalWeight(w, total, n) <= 1.0 <==> Share(w, total, n) <= 1.0005
  {
    RoundInUnit(Share(w, total, n));
  }

  lemma {:induction false} ShareAtMostSum(ws: seq<real>, total: real, n: nat, i: nat)
    requires n > 0 && i < |ws| && forall k :: 0 <= k < |ws| ==> Share(ws[k], total, n) > 0.0
    ensures 0.0 < Share(ws[i], total, n) <= ShareSum(ws, total, n)
  {
    if i < |ws| - 1 {
      ShareAtMostSum(ws[..|ws| - 1], total, n, i);
    } else {
      ShareSumIsPositive(ws[..i], total, n);
    }
  }

  lemma {:induction false} ShareSumIsPositive(ws: seq<real>, total: real, n: nat)
    requires n > 0 && forall k :: 0 <= k < |ws| ==> Share(ws[k], total, n) > 0.0
    ensures ShareSum(ws, total, n) >= 0.0
  {
    if ws != [] { ShareSumIsPositive(ws[..|ws| - 1], total, n); }
  }

  lemma FinalAccepted(ws: seq<real>, i: nat)
    requires i < |ws| && !PassesThrough(Sum(ws))
    ensures var final := FinalWeights(ws, Sum(ws), |ws|)[i];
            && (WeightAccepted(final) ==> Shows(Share(ws[i], Sum(ws), |ws|)))
            && (EachShows(ws) ==> WeightAccepted(final))
  {
    FinalWeightsAt(ws, Sum(ws), |ws|, i);
    FinalShows(ws[i], Sum(ws), |ws|);
    if EachShows(ws) {
      SharesAddUpToOne(ws);
      ShareAtMostSum(ws, Sum(ws), |ws|, i);
    }
  }

  /** Exactly which weights a merge turns into a setup the types accept.  There must be some.  Passed
      through: each must lie in (0, 1] already.  Recomputed: each share of the total (or n-th part of one,
      without any weight) must be above half a thousandth, and the rounded ones must come to 990 to 1010
      thousandths. */
  lemma MergeFitsIff(ws: seq<real>)
    ensures MergedFits(ws) <==>
            ws != [] &&
            if PassesThrough(Sum(ws)) then AllAccepted(ws)
            else EachShows(ws) && 990 <= Thousandths(ws, Sum(ws), |ws|) <= 1010
  {
    if ws != [] {
      FinalWeightsSumToOne(ws);
      if !PassesThrough(Sum(ws)) {
        var k := RoundedShares(ws, Sum(ws), |ws|);
        ThousandthsFit(k);
        RecomputedFit(ws);
      }
    }
  }

  lemma RecomputedFit(ws: seq<real>)
    requires ws != [] && !PassesThrough(Sum(ws))
    ensures AllAccepted(FinalWeights(ws, Sum(ws), |ws|)) <==> EachShows(ws)
  {
    var finals := FinalWeights(ws, Sum(ws), |ws|);
    if EachShows(ws) {
      forall i: nat | i < |ws| ensures WeightAccepted(finals[i]) { FinalAccepted(ws, i); }
    } else {
      var i: nat :| i < |ws| && !Shows(Share(ws[i], Sum(ws), |ws|));
      FinalAccepted(ws, i);
      assert !WeightAccepted(finals[i]);
    }
  }

  lemma {:induction false} EvenThousandths(ws: seq<real>, n: nat)
    requires n > 0
    ensures Thousandths(ws, 0.0, n) == |ws| * Nearest(1000.0 / n as real)
  {
    if ws != [] {
      EvenThousandths(ws[..|ws| - 1], n);
      ThousandOver(n);
      var k := Nearest(1000.0 / n as real);
      assert |ws| * k == (|ws| - 1) * k + k;
    }
  }

  lemma ThousandOver(n: nat)
    requires n > 0
    ensures 1.0 / n as real * 1000.0 == 1000.0 / n as real
  {
    QuotientTimes(1.0, n as real);
    var q := 1.0 / n as real;
    assert (q * 1000.0) * n as real == 1000.0 * (q * n as real);
    QuotientIs(1000.0, n as real, q * 1000.0);
  }

  /** Criteria without weights: a condition on their number alone. */
  lemma EvenMergeFitsIff(ws: seq<real>)
    requires ws != [] && Sum(ws) == 0.0
    ensures MergedFits(ws) <==> 990 <= |ws| * Nearest(1000.0 / |ws| as real) <= 1010
  {
    MergeFitsIff(ws);
    EvenThousandths(ws, |ws|);
    if |ws| * Nearest(1000.0 / |ws| as real) >= 990 { EvenShows(|ws|); }
  }

  lemma EvenShows(n: nat)
    requires n > 0 && n * Nearest(1000.0 / n as real) >= 990
    ensures 1.0 / n as real > 0.0005
  {
    assert Nearest(1000.0 / n as real) >= 1;
    ThousandOver(n);
    RoundInUnit(1.0 / n as real);
  }

  /** With up to twenty-two criteria the sum takes care of itself. */
  lemma FewMergesFitIff(ws: seq<real>)
    requires 0 < |ws| <= 22 && !PassesThrough(Sum(ws))
    ensures MergedFits(ws) <==> EachShows(ws)
  {
    TwentyTwoFit(ws);
    RecomputedFit(ws);
  }

  /** Up to twenty-two recomputed weights are thousandths that miss 1 by less than 0.011. */
  lemma TwentyTwoFit(ws: seq<real>)
    requires 0 < |ws| <= 22
    ensures SumFits(ws)
  {
    FinalWeightsSumToOne(ws);
    if !PassesThrough(Sum(ws)) {
      SharesAddUpToOne(ws);
      var k := RoundedShares(ws, Sum(ws), |ws|);
      TwentyTwoHalves(k, ShareSum(ws, Sum(ws), |ws|) * 1000.0, |ws|);
    }
  }

  lemma TwentyTwoHalves(k: int, x: real, n: nat)
    requires HalfOff(k, x, n) && n <= 22 && x == 1000.0
    ensures 990 <= k <= 1010
    ensures SetupAccepts(k as real / 1000.0)
  {
    assert -11.0 <= k as real - 1000.0 <= 11.0;
  }

  /** Twenty-three equal weights and the rest zero. */
  function Uneven(n: nat): (ws: seq<real>)
    ensures |ws| == n
  {
    if n == 0 then [] else Uneven(n - 1) + [if n <= 23 then 1.0 else 0.0]
  }

  lemma {:induction false} UnevenSums(n: nat)
    ensures Sum(Uneven(n)) == if n <= 23 then n as real else 23.0
  {
    if n > 0 {
      UnevenSums(n - 1);
      SumStep(Uneven(n - 1), if n <= 23 then 1.0 else 0.0);
    }
  }

  lemma {:induction false} UnevenFinals(n: nat, m: nat)
    requires m > 0
    ensures Sum(FinalWeights(Uneven(n), 23.0, m)) == 0.043 * (if n <= 23 then n as real else 23.0)
  {
    if n > 0 {
      UnevenFinals(n - 1, m);
      var w := if n <= 23 then 1.0 else 0.0;
      assert Uneven(n)[..n - 1] == Uneven(n - 1);
      SumStep(FinalWeights(Uneven(n - 1), 23.0, m), FinalWeight(w, 23.0, m));
      OneOfTwentyThree(m);
    }
  }

  lemma OneOfTwentyThree(m: nat)
    requires m > 0
    ensures FinalWeight(1.0, 23.0, m) == 0.043 && FinalWeight(0.0, 23.0, m) == 0.0
  {
    var x := 1.0 / 23.0;
    assert 0.0425 < x < 0.0435;
    assert Nearest(x * 1000.0) == 43;
  }

  /** The bound on the sum alone, in the worst case: whatever the weights, a merge of n criteria meets it
      exactly when n is at most 22; from 23 on, twenty-three equal weights come to 0.989. */
  lemma SumFitsIff(n: nat)
    requires n > 0
    ensures (forall ws :: |ws| == n ==> SumFits(ws)) <==> n <= 22
  {
    if n <= 22 {
      forall ws | |ws| == n ensures SumFits(ws) { TwentyTwoFit(ws); }
    } else {
      UnevenSums(n);
      UnevenFinals(n, n);
      assert !SumFits(Uneven(n));
    }
  }

  /** What the merge publishes has these weights. */
  lemma MergedWeights(env: Env, merged: seq<Criterion>, finished: seq<Criterion>, rfp: seq<ExtractedCriterion>)
    requires merged != [] && |finished| == |merged|
    requires forall i :: 0 <= i < |merged| ==> finished[i] == Finish(env, merged[i], rfp, WeightSum(merged), |merged|)
    ensures Weights(finished) == FinalWeights(Weights(merged), Sum(Weights(merged)), |merged|)
    ensures WeightSum(finished) == Sum(FinalWeights(Weights(merged), Sum(Weights(merged)), |merged|))
  {
    var total, n := WeightSum(merged), |merged|;
    WeightSumIsSum(merged);
    WeightSumIsSum(finished);
    var raw, finals := Weights(merged), FinalWeights(Weights(merged), total, n);
    forall i: nat | i < n ensures Weights(finished)[i] == finals[i] {
      FinalWeightsAt(raw, total, n, i);
      assert finished[i] == Finish(env, merged[i], rfp, total, n);
      FinishWeight(env, merged[i], rfp, total, n);
    }
    assert Weights(finished) == finals;
  }

  lemma FinishWeight(env: Env, c: Criterion, rfp: seq<ExtractedCriterion>, total: real, n: nat)
    requires n > 0
    ensures Finish(env, c, rfp, total, n).weight == FinalWeight(c.weight, total, n)
  {
  }
}
