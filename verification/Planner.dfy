/** The deterministic task-DAG builder of app/agents/planner.py (`run_planner`) and the verdict of
    the planner critic on its output. */
module Planner {
  import opened TaskGraph
  import opened Critic

  const COMPARE := "task-compare"
  const DECIDE := "task-decide"
  const EXPLAIN := "task-explain"

  function RetrieveId(vendor: string): Id { "task-retrieve-" + vendor }
  function ExtractId(vendor: string): Id { "task-extract-" + vendor }
  function CheckId(check: string): Id { CHECK_PREFIX + check }
  function ScoreId(criterion: string): Id { SCORE_PREFIX + criterion }

  function Ids(tasks: seq<TaskItem>): (r: seq<Id>)
    ensures |r| == |tasks| && forall i :: 0 <= i < |r| ==> r[i] == tasks[i].id
  {
    seq(|tasks|, i requires 0 <= i < |tasks| => tasks[i].id)
  }

  function RetrieveTasks(vendors: seq<string>): seq<TaskItem> {
    seq(|vendors|, i requires 0 <= i < |vendors| => TaskItem(RetrieveId(vendors[i]), Retrieve, []))
  }

  function ExtractTasks(vendors: seq<string>): seq<TaskItem> {
    seq(|vendors|, i requires 0 <= i < |vendors| => TaskItem(ExtractId(vendors[i]), Extract, [RetrieveId(vendors[i])]))
  }

  function CheckTasks(checks: seq<string>, dependsOn: seq<Id>): seq<TaskItem> {
    seq(|checks|, i requires 0 <= i < |checks| => TaskItem(CheckId(checks[i]), MandatoryCheck, dependsOn))
  }

  function ScoreTasks(criteria: seq<string>, dependsOn: seq<Id>): seq<TaskItem> {
    seq(|criteria|, i requires 0 <= i < |criteria| => TaskItem(ScoreId(criteria[i]), Scoring, dependsOn))
  }

  /** The plan as five layers, each depending on the one before it. */
  function Plan(vendors: seq<string>, checks: seq<string>, criteria: seq<string>): seq<TaskItem> {
    var extracts := ExtractTasks(vendors);
    var checkTasks := CheckTasks(checks, Ids(extracts));
    var scores := ScoreTasks(criteria, Ids(checkTasks));
    RetrieveTasks(vendors) + extracts + checkTasks + scores +
    [TaskItem(COMPARE, Compare, Ids(scores)),
     TaskItem(DECIDE, Decide, [COMPARE]),
     TaskItem(EXPLAIN, Explain, [DECIDE])]
  }

  method BuildPlan(vendors: seq<string>, checks: seq<string>, criteria: seq<string>)
    returns (tasks: seq<TaskItem>)
    ensures tasks == Plan(vendors, checks, criteria)
  {
    tasks := [];
    for i := 0 to |vendors|
      invariant tasks == RetrieveTasks(vendors[..i])
    {
      tasks := tasks + [TaskItem(RetrieveId(vendors[i]), Retrieve, [])];
    }
    var extractIds: seq<Id> := [];
    ghost var retrieves := tasks;
    for i := 0 to |vendors|
      invariant tasks == retrieves + ExtractTasks(vendors[..i])
      invariant extractIds == Ids(ExtractTasks(vendors[..i]))
    {
      tasks := tasks + [TaskItem(ExtractId(vendors[i]), Extract, [RetrieveId(vendors[i])])];
      extractIds := extractIds + [ExtractId(vendors[i])];
    }
    assert vendors[..|vendors|] == vendors;
    var checkIds: seq<Id> := [];
    ghost var extracted := tasks;
    for i := 0 to |checks|
      invariant tasks == extracted + CheckTasks(checks[..i], extractIds)
      invariant checkIds == Ids(CheckTasks(checks[..i], extractIds))
    {
      tasks := tasks + [TaskItem(CheckId(checks[i]), MandatoryCheck, extractIds)];
      checkIds := checkIds + [CheckId(checks[i])];
    }
    assert checks[..|checks|] == checks;
    var scoreIds: seq<Id> := [];
    ghost var checked := tasks;
    for i := 0 to |criteria|
      invariant tasks == checked + ScoreTasks(criteria[..i], checkIds)
      invariant scoreIds == Ids(ScoreTasks(criteria[..i], checkIds))
    {
      tasks := tasks + [TaskItem(ScoreId(criteria[i]), Scoring, checkIds)];
      scoreIds := scoreIds + [ScoreId(criteria[i])];
    }
    assert criteria[..|criteria|] == criteria;
    tasks := tasks + [TaskItem(COMPARE, Compare, scoreIds)];
    tasks := tasks + [TaskItem(DECIDE, Decide, [COMPARE])];
    tasks := tasks + [TaskItem(EXPLAIN, Explain, [DECIDE])];
  }

  // ---- the plan's graph ------------------------------------------------------------------

  /** The stage an id was generated for, read off the characters that tell the prefixes apart. */
  function Stage(id: Id): int {
    if |id| < 8 then -1
    else if id[5] == 'r' then 0
    else if id[5] == 'e' && id[7] == 't' then 1
    else if id[5] == 'c' && id[6] == 'h' then 2
    else if id[5] == 's' then 3
    else if id[5] == 'c' then 4
    else if id[5] == 'd' then 5
    else 6
  }

  lemma StagesOfIds(s: string)
    ensures Stage(RetrieveId(s)) == 0 && Stage(ExtractId(s)) == 1 && Stage(CheckId(s)) == 2
    ensures Stage(ScoreId(s)) == 3 && Stage(COMPARE) == 4 && Stage(DECIDE) == 5 && Stage(EXPLAIN) == 6
  {
    assert RetrieveId(s)[5] == 'r';
    assert ExtractId(s)[5] == 'e' && ExtractId(s)[7] == 't';
    assert CheckId(s)[5] == 'c' && CheckId(s)[6] == 'h';
    assert ScoreId(s)[5] == 's';
    assert COMPARE[5] == 'c' && COMPARE[6] == 'o';
    assert DECIDE[5] == 'd';
    assert EXPLAIN[5] == 'e' && EXPLAIN[7] == 'p';
  }

  /** The dependencies every task of a given stage carries. */
  function StageDeps(vendors: seq<string>, checks: seq<string>, criteria: seq<string>, id: Id): seq<Id>
    requires Stage(id) == 1 ==> |id| >= |"task-extract-"|
  {
    var extracts := ExtractTasks(vendors);
    var checkTasks := CheckTasks(checks, Ids(extracts));
    match Stage(id)
    case 1 => [RetrieveId(id[|"task-extract-"|..])]
    case 2 => Ids(extracts)
    case 3 => Ids(checkTasks)
    case 4 => Ids(ScoreTasks(criteria, Ids(checkTasks)))
    case 5 => [COMPARE]
    case 6 => [DECIDE]
    case _ => []
  }

  predicate Generated(vendors: seq<string>, checks: seq<string>, criteria: seq<string>, t: TaskItem) {
    && (Stage(t.id) == 1 ==> |t.id| >= |"task-extract-"|)
    && t.dependsOn == StageDeps(vendors, checks, criteria, t.id)
    && match Stage(t.id)
       case 0 => exists v :: v in vendors && t.id == RetrieveId(v)
       case 1 => exists v :: v in vendors && t.id == ExtractId(v)
       case 2 => exists c :: c in checks && t.id == CheckId(c)
       case 3 => exists s :: s in criteria && t.id == ScoreId(s)
       case 4 => t.id == COMPARE
       case 5 => t.id == DECIDE
       case 6 => t.id == EXPLAIN
       case _ => false
  }

  lemma PlanIsGenerated(vendors: seq<string>, checks: seq<string>, criteria: seq<string>)
    ensures forall t :: t in Plan(vendors, checks, criteria) ==> Generated(vendors, checks, criteria, t)
  {
    forall t | t in Plan(vendors, checks, criteria) ensures Generated(vendors, checks, criteria, t) {
      StagesOfIds("");
      if i :| 0 <= i < |vendors| && t == RetrieveTasks(vendors)[i] {
        StagesOfIds(vendors[i]);
      } else if i :| 0 <= i < |vendors| && t == ExtractTasks(vendors)[i] {
        StagesOfIds(vendors[i]);
        assert ExtractId(vendors[i])[|"task-extract-"|..] == vendors[i];
      } else if i :| 0 <= i < |checks| && t == CheckTasks(checks, Ids(ExtractTasks(vendors)))[i] {
        StagesOfIds(checks[i]);
      } else if i :|
        0 <= i < |criteria| && t == ScoreTasks(criteria, Ids(CheckTasks(checks, Ids(ExtractTasks(vendors)))))[i] {
        StagesOfIds(criteria[i]);
      }
    }
  }

  /** Ids may repeat, but two tasks with one id carry the same dependencies, so `task_map`
      gives every task its own. */
  lemma {:induction false} TaskMapHasOwnDeps(tasks: seq<TaskItem>, deps: Id --> seq<Id>)
    requires forall t :: t in tasks ==> deps.requires(t.id) && t.dependsOn == deps(t.id)
    ensures forall id :: id in TaskMap(tasks) ==> deps.requires(id) && TaskMap(tasks)[id] == deps(id)
  {
    if tasks != [] {
      assert tasks[|tasks| - 1] in tasks;
      TaskMapHasOwnDeps(tasks[..|tasks| - 1], deps);
    }
  }

  ghost predicate HasShape(vendors: seq<string>, checks: seq<string>, criteria: seq<string>) {
    var g := TaskMap(Plan(vendors, checks, criteria));
    && g.Keys == (set t | t in Plan(vendors, checks, criteria) :: t.id)
    && forall t :: t in Plan(vendors, checks, criteria) ==> g[t.id] == t.dependsOn
  }

  lemma PlanShape(vendors: seq<string>, checks: seq<string>, criteria: seq<string>)
    ensures HasShape(vendors, checks, criteria)
    ensures forall t :: t in Plan(vendors, checks, criteria) ==> Generated(vendors, checks, criteria, t)
  {
    var plan := Plan(vendors, checks, criteria);
    PlanIsGenerated(vendors, checks, criteria);
    TaskMapHasOwnDeps(plan, id requires Stage(id) == 1 ==>
        |id| >= |"task-extract-"| => StageDeps(vendors, checks, criteria, id));
    TaskMapKeys(plan);
  }

  /** A graph whose edges all lower a rank has no cycle. */
  lemma {:induction false} RankDescends(g: Graph, rank: Id -> int, p: seq<Id>)
    requires forall u, v :: Edge(g, u, v) ==> rank(v) < rank(u)
    requires |p| >= 2 && Walk(g, p)
    ensures rank(p[|p| - 1]) < rank(p[0])
  {
    assert Edge(g, p[0], p[1]);
    if |p| > 2 {
      forall k | 0 <= k < |p[1..]| - 1 ensures Edge(g, p[1..][k], p[1..][k + 1]) {
        assert Edge(g, p[k + 1], p[k + 2]);
      }
      RankDescends(g, rank, p[1..]);
    }
  }

  lemma DepsLowerTheStage(vendors: seq<string>, checks: seq<string>, criteria: seq<string>, t: TaskItem, v: Id)
    requires Generated(vendors, checks, criteria, t) && v in t.dependsOn
    ensures Stage(v) == Stage(t.id) - 1
  {
    var extractIds := Ids(ExtractTasks(vendors));
    var checkIds := Ids(CheckTasks(checks, extractIds));
    var i :| 0 <= i < |t.dependsOn| && t.dependsOn[i] == v;
    match Stage(t.id)
    case 1 => StagesOfIds(t.id[|"task-extract-"|..]);
    case 2 => assert v == ExtractId(vendors[i]); StagesOfIds(vendors[i]);
    case 3 => assert v == CheckId(checks[i]); StagesOfIds(checks[i]);
    case 4 => assert v == ScoreId(criteria[i]); StagesOfIds(criteria[i]);
    case _ => StagesOfIds("");
  }

  lemma EdgesLowerTheStage(vendors: seq<string>, checks: seq<string>, criteria: seq<string>, u: Id, v: Id)
    requires Edge(TaskMap(Plan(vendors, checks, criteria)), u, v)
    ensures Stage(v) < Stage(u)
  {
    PlanShape(vendors, checks, criteria);
    var t :| t in Plan(vendors, checks, criteria) && t.id == u;
    DepsLowerTheStage(vendors, checks, criteria, t, v);
  }

  lemma PlanIsAcyclic(vendors: seq<string>, checks: seq<string>, criteria: seq<string>)
    ensures !Cyclic(TaskMap(Plan(vendors, checks, criteria)))
  {
    var g := TaskMap(Plan(vendors, checks, criteria));
    forall u, v | Edge(g, u, v) ensures Stage(v) < Stage(u) {
      EdgesLowerTheStage(vendors, checks, criteria, u, v);
    }
    forall p: seq<Id> | |p| >= 2 && Walk(g, p) ensures p[0] != p[|p| - 1] {
      RankDescends(g, Stage, p);
    }
  }

  lemma PlanCoversSetup(vendors: seq<string>, checks: seq<string>, criteria: seq<string>)
    ensures var plan := Plan(vendors, checks, criteria);
            && Uncovered(plan, MandatoryCheck, CHECK_PREFIX, checks) == {}
            && Uncovered(plan, Scoring, SCORE_PREFIX, criteria) == {}
  {
    var plan := Plan(vendors, checks, criteria);
    var extractIds := Ids(ExtractTasks(vendors));
    forall c | c in checks ensures exists t :: t in plan && Covers(t, MandatoryCheck, CHECK_PREFIX, c) {
      var i :| 0 <= i < |checks| && checks[i] == c;
      var t := CheckTasks(checks, extractIds)[i];
      assert t in CheckTasks(checks, extractIds) && t in plan;
      assert Covers(t, MandatoryCheck, CHECK_PREFIX, c);
    }
    var checkIds := Ids(CheckTasks(checks, extractIds));
    forall c | c in criteria ensures exists t :: t in plan && Covers(t, Scoring, SCORE_PREFIX, c) {
      var i :| 0 <= i < |criteria| && criteria[i] == c;
      var t := ScoreTasks(criteria, checkIds)[i];
      assert t in ScoreTasks(criteria, checkIds) && t in plan;
      assert Covers(t, Scoring, SCORE_PREFIX, c);
    }
  }

  /** For a non-empty vendor list the guardrail finds nothing exactly when the plan is not too
      big, and otherwise reports its size and nothing else. */
  lemma GuardrailVerdict(vendors: seq<string>, checks: seq<string>, criteria: seq<string>)
    requires vendors != []
    ensures var n := 2 * |vendors| + |checks| + |criteria| + 3;
            CoverageErrors(Plan(vendors, checks, criteria), checks, criteria) ==
            if n <= 500 then [] else [TooManyTasks(n)]
  {
    PlanCoversSetup(vendors, checks, criteria);
  }

  /** `run_planner`: build, validate, let the critic judge. */
  method RunPlanner(vendors: seq<string>, checks: seq<string>, criteria: seq<string>)
    returns (tasks: seq<TaskItem>, verdict: Verdict)
    ensures tasks == if vendors == [] then [] else Plan(vendors, checks, criteria)
    ensures verdict == if vendors != [] && 2 * |vendors| + |checks| + |criteria| + 3 <= 500 then Approved else Blocked
  {
    if vendors == [] {
      tasks := [];
      verdict := AfterPlanner(0, 0, 1);
      PlannerVerdict(0, 0, 1);
      return;
    }
    tasks := BuildPlan(vendors, checks, criteria);
    PlanIsAcyclic(vendors, checks, criteria);
    GuardrailVerdict(vendors, checks, criteria);
    var errors := ValidatePlan(tasks, checks, criteria);
    verdict := AfterPlanner(|vendors|, |tasks|, |errors|);
    PlannerVerdict(|vendors|, |tasks|, |errors|);
  }

  // ---- what the final task depends on ----------------------------------------------------

  lemma ReachesStep(g: Graph, u: Id, v: Id, w: Id)
    requires Reaches(g, u, v) && Edge(g, v, w)
    ensures Reaches(g, u, w)
  {
    var p: seq<Id> :| |p| >= 2 && Walk(g, p) && p[0] == u && p[|p| - 1] == v;
    var q := p + [w];
    forall i | 0 <= i < |q| - 1 ensures Edge(g, q[i], q[i + 1]) {
      if i < |p| - 1 { assert Edge(g, p[i], p[i + 1]); }
    }
    assert |q| >= 2 && Walk(g, q) && q[0] == u && q[|q| - 1] == w;
  }

  lemma EdgeReaches(g: Graph, u: Id, v: Id)
    requires Edge(g, u, v)
    ensures Reaches(g, u, v)
  {
    assert Walk(g, [u, v]);
    assert [u, v][0] == u && [u, v][|[u, v]| - 1] == v;
  }

  /** Where each layer sits in the task list, and what its tasks depend on. */
  ghost predicate Layered(plan: seq<TaskItem>, vendors: seq<string>, checks: seq<string>, criteria: seq<string>) {
    && |plan| == 2 * |vendors| + |checks| + |criteria| + 3
    && VendorLayers(plan, vendors) && CheckLayer(plan, vendors, checks)
    && ScoreLayer(plan, 2 * |vendors| + |checks|, checks, criteria) && LastLayers(plan, criteria)
  }

  ghost predicate VendorLayers(plan: seq<TaskItem>, vendors: seq<string>)
    requires |plan| >= 2 * |vendors|
  {
    forall i {:trigger vendors[i]} :: 0 <= i < |vendors| ==>
      && plan[i] == TaskItem("task-retrieve-" + vendors[i], Retrieve, [])
      && plan[|vendors| + i] == TaskItem("task-extract-" + vendors[i], Extract, ["task-retrieve-" + vendors[i]])
  }

  ghost predicate CheckLayer(plan: seq<TaskItem>, vendors: seq<string>, checks: seq<string>)
    requires |plan| >= 2 * |vendors| + |checks|
  {
    forall i {:trigger checks[i]} :: 0 <= i < |checks| ==>
      && plan[2 * |vendors| + i].id == "task-check-" + checks[i] && plan[2 * |vendors| + i].kind == MandatoryCheck
      && |plan[2 * |vendors| + i].dependsOn| == |vendors|
      && forall k {:trigger vendors[k]} :: 0 <= k < |vendors| ==>
          plan[2 * |vendors| + i].dependsOn[k] == "task-extract-" + vendors[k]
  }

  ghost predicate ScoreLayer(plan: seq<TaskItem>, from: nat, checks: seq<string>, criteria: seq<string>)
    requires |plan| >= from + |criteria|
  {
    forall i {:trigger criteria[i]} :: 0 <= i < |criteria| ==>
      && plan[from + i].id == "task-score-" + criteria[i] && plan[from + i].kind == Scoring
      && |plan[from + i].dependsOn| == |checks|
      && forall k {:trigger checks[k]} :: 0 <= k < |checks| ==> plan[from + i].dependsOn[k] == "task-check-" + checks[k]
  }

  ghost predicate LastLayers(plan: seq<TaskItem>, criteria: seq<string>)
    requires |plan| >= 3
  {
    && plan[|plan| - 3].id == "task-compare" && plan[|plan| - 3].kind == Compare
    && |plan[|plan| - 3].dependsOn| == |criteria|
    && (forall k {:trigger criteria[k]} :: 0 <= k < |criteria| ==>
        plan[|plan| - 3].dependsOn[k] == "task-score-" + criteria[k])
    && plan[|plan| - 2] == TaskItem("task-decide", Decide, ["task-compare"])
    && plan[|plan| - 1] == TaskItem("task-explain", Explain, ["task-decide"])
  }

  ghost predicate OwnDeps(g: Graph, plan: seq<TaskItem>) {
    forall t :: t in plan ==> t.id in g && g[t.id] == t.dependsOn
  }

  /** The plan, task by task: two layers of one task for each vendor, one for each check, one for each
      criterion, and three last tasks, each depending on all tasks of the layer before. */
  lemma PlanIsLayered(vendors: seq<string>, checks: seq<string>, criteria: seq<string>)
    ensures Layered(Plan(vendors, checks, criteria), vendors, checks, criteria)
  {
    var extracts := ExtractTasks(vendors);
    var checkTasks := CheckTasks(checks, Ids(extracts));
    var scores := ScoreTasks(criteria, Ids(checkTasks));
    var last := [TaskItem(COMPARE, Compare, Ids(scores)), TaskItem(DECIDE, Decide, [COMPARE]),
        TaskItem(EXPLAIN, Explain, [DECIDE])];
    LayersInPlace(RetrieveTasks(vendors), extracts, checkTasks, scores, last, vendors, checks, criteria);
  }

  lemma LayersInPlace(retrieves: seq<TaskItem>, extracts: seq<TaskItem>, checkTasks: seq<TaskItem>,
      scores: seq<TaskItem>,
                      last: seq<TaskItem>, vendors: seq<string>, checks: seq<string>, criteria: seq<string>)
    requires retrieves == RetrieveTasks(vendors) && extracts == ExtractTasks(vendors)
    requires checkTasks == CheckTasks(checks, Ids(extracts)) && scores == ScoreTasks(criteria, Ids(checkTasks))
    requires last == [TaskItem(COMPARE, Compare, Ids(scores)), TaskItem(DECIDE, Decide, [COMPARE]),
        TaskItem(EXPLAIN, Explain, [DECIDE])]
    ensures Layered(retrieves + extracts + checkTasks + scores + last, vendors, checks, criteria)
  {
    var plan := retrieves + extracts + checkTasks + scores + last;
    assert VendorLayers(plan, vendors);
    assert CheckLayer(plan, vendors, checks);
    assert ScoreLayer(plan, 2 * |vendors| + |checks|, checks, criteria);
  }

  /** What reaches the task at position `k` of the plan reaches its `i`-th dependency. */
  lemma ReachesDependency(g: Graph, plan: seq<TaskItem>, k: nat, i: nat)
    requires OwnDeps(g, plan) && k < |plan| && i < |plan[k].dependsOn|
    requires Reaches(g, EXPLAIN, plan[k].id)
    ensures Reaches(g, EXPLAIN, plan[k].dependsOn[i])
  {
    assert plan[k] in plan;
    ReachesStep(g, EXPLAIN, plan[k].id, plan[k].dependsOn[i]);
  }

  lemma ExplainReachesScores(g: Graph, plan: seq<TaskItem>, vendors: seq<string>, checks: seq<string>,
      criteria: seq<string>)
    requires OwnDeps(g, plan) && Layered(plan, vendors, checks, criteria)
    ensures Reaches(g, EXPLAIN, DECIDE) && Reaches(g, EXPLAIN, COMPARE)
    ensures forall i {:trigger criteria[i]} :: 0 <= i < |criteria| ==> Reaches(g, EXPLAIN, ScoreId(criteria[i]))
  {
    assert plan[|plan| - 1] in plan;
    EdgeReaches(g, EXPLAIN, DECIDE);
    ReachesDependency(g, plan, |plan| - 2, 0);
    forall i | 0 <= i < |criteria| ensures Reaches(g, EXPLAIN, ScoreId(criteria[i])) {
      ReachesDependency(g, plan, |plan| - 3, i);
    }
  }

  lemma ExplainReachesVendors(g: Graph, plan: seq<TaskItem>, vendors: seq<string>, checks: seq<string>,
      criteria: seq<string>)
    requires OwnDeps(g, plan) && Layered(plan, vendors, checks, criteria)
    requires checks != [] && criteria != []
    ensures forall i {:trigger checks[i]} :: 0 <= i < |checks| ==> Reaches(g, EXPLAIN, CheckId(checks[i]))
    ensures forall i {:trigger vendors[i]} :: 0 <= i < |vendors| ==>
              Reaches(g, EXPLAIN, ExtractId(vendors[i])) && Reaches(g, EXPLAIN, RetrieveId(vendors[i]))
  {
    ExplainReachesScores(g, plan, vendors, checks, criteria);
    var v, c := |vendors|, |checks|;
    assert plan[2 * v + c + 0].id == ScoreId(criteria[0]);
    forall i | 0 <= i < c ensures Reaches(g, EXPLAIN, CheckId(checks[i])) {
      ReachesDependency(g, plan, 2 * v + c, i);
    }
    assert plan[2 * v + 0].id == CheckId(checks[0]);
    forall i | 0 <= i < v
      ensures Reaches(g, EXPLAIN, ExtractId(vendors[i])) && Reaches(g, EXPLAIN, RetrieveId(vendors[i]))
    {
      ReachesDependency(g, plan, 2 * v, i);
      assert plan[v + i].id == ExtractId(vendors[i]) && |plan[v + i].dependsOn| == 1;
      ReachesDependency(g, plan, v + i, 0);
    }
  }

  /** With at least one check and one criterion, `task-explain` transitively depends on every
      other task of the plan. */
  lemma ExplainDependsOnAll(vendors: seq<string>, checks: seq<string>, criteria: seq<string>, t: TaskItem)
    requires checks != [] && criteria != []
    requires t in Plan(vendors, checks, criteria) && t.id != EXPLAIN
    ensures Reaches(TaskMap(Plan(vendors, checks, criteria)), EXPLAIN, t.id)
  {
    var plan := Plan(vendors, checks, criteria);
    PlanShape(vendors, checks, criteria);
    assert Generated(vendors, checks, criteria, t);
    PlanIsLayered(vendors, checks, criteria);
    ExplainReachesScores(TaskMap(plan), plan, vendors, checks, criteria);
    ExplainReachesVendors(TaskMap(plan), plan, vendors, checks, criteria);
  }

  /** Without a check, or without a criterion, the chain is cut: no extraction is waited for. */
  lemma {:induction false} CutPlanStaysAbove(vendors: seq<string>, checks: seq<string>, criteria: seq<string>,
      p: seq<Id>)
    requires checks == [] || criteria == []
    requires |p| >= 1 && Walk(TaskMap(Plan(vendors, checks, criteria)), p) && Stage(p[0]) >= 3
    ensures Stage(p[|p| - 1]) >= 3
  {
    if |p| > 1 {
      var g := TaskMap(Plan(vendors, checks, criteria));
      assert Edge(g, p[0], p[1]);
      PlanShape(vendors, checks, criteria);
      var t :| t in Plan(vendors, checks, criteria) && t.id == p[0];
      StagesOfIds("");
      forall s: string { StagesOfIds(s); }
      forall k | 0 <= k < |p[1..]| - 1 ensures Edge(g, p[1..][k], p[1..][k + 1]) {
        assert Edge(g, p[k + 1], p[k + 2]);
      }
      CutPlanStaysAbove(vendors, checks, criteria, p[1..]);
    }
  }

  /** Exactly when the last task waits for everything. */
  lemma ExplainWaitsForEverything(vendors: seq<string>, checks: seq<string>, criteria: seq<string>)
    requires vendors != []
    ensures checks != [] && criteria != [] <==>
            (forall t :: t in Plan(vendors, checks, criteria) && t.id != EXPLAIN ==>
                           Reaches(TaskMap(Plan(vendors, checks, criteria)), EXPLAIN, t.id))
  {
    var plan := Plan(vendors, checks, criteria);
    if checks != [] && criteria != [] {
      forall t | t in plan && t.id != EXPLAIN ensures Reaches(TaskMap(plan), EXPLAIN, t.id) {
        ExplainDependsOnAll(vendors, checks, criteria, t);
      }
    } else {
      var t := RetrieveTasks(vendors)[0];
      assert t in RetrieveTasks(vendors) && t in plan;
      StagesOfIds(vendors[0]);
      if Reaches(TaskMap(plan), EXPLAIN, t.id) {
        var p: seq<Id> :| |p| >= 2 && Walk(TaskMap(plan), p) && p[0] == EXPLAIN && p[|p| - 1] == t.id;
        CutPlanStaysAbove(vendors, checks, criteria, p);
      }
    }
  }
}
