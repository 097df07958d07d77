/** The plan guardrail of app/agents/planner.py: `validate_plan` and its nested `has_cycle`.

    `task_map` is a map from task id to dependency list.  The detector is a class because the
    source's closure shares one mutable `visited` set across all its roots; `finished` is the
    ghost finish order of that depth-first search. */
module TaskGraph {
  import opened Common

  type Id = string
  type Graph = map<Id, seq<Id>>

  predicate Edge(g: Graph, u: Id, v: Id) {
    u in g && v in g[u]
  }

  predicate Walk(g: Graph, p: seq<Id>) {
    forall i :: 0 <= i < |p| - 1 ==> Edge(g, p[i], p[i + 1])
  }

  /** Some walk comes back to where it started. */
  ghost predicate Cyclic(g: Graph) {
    exists p: seq<Id> :: |p| >= 2 && Walk(g, p) && p[0] == p[|p| - 1]
  }

  /** Walk `p` runs into a node it has already passed at position `k`. */
  predicate Lasso(g: Graph, p: seq<Id>, k: nat) {
    k + 1 < |p| && Walk(g, p) && p[k] == p[|p| - 1]
  }

  /** Following dependencies from `u`, one can run into a cycle. */
  ghost predicate ReachesCycle(g: Graph, u: Id) {
    exists p: seq<Id>, k: nat :: Lasso(g, p, k) && p[0] == u
  }

  ghost predicate Reaches(g: Graph, u: Id, v: Id) {
    exists p: seq<Id> :: |p| >= 2 && Walk(g, p) && p[0] == u && p[|p| - 1] == v
  }

  predicate Distinct(s: seq<Id>) {
    forall i, j :: 0 <= i < j < |s| ==> s[i] != s[j]
  }

  /** Every listed node comes after all of its dependencies. */
  ghost predicate DependenciesFirst(g: Graph, order: seq<Id>) {
    forall i, v :: 0 <= i < |order| && Edge(g, order[i], v) ==> v in order[..i]
  }

  function Elems(s: seq<Id>): set<Id> {
    set x | x in s
  }

  function Nodes(g: Graph): set<Id> {
    g.Keys + set u, v | u in g && v in g[u] :: v
  }

  lemma {:induction false} WalkDescends(g: Graph, order: seq<Id>, p: seq<Id>, i: nat)
    requires DependenciesFirst(g, order) && i < |order|
    requires |p| >= 2 && Walk(g, p) && p[0] == order[i]
    ensures p[|p| - 1] in order[..i]
  {
    assert Edge(g, p[0], p[1]);
    if |p| > 2 {
      var j :| 0 <= j < i && order[j] == p[1];
      assert Walk(g, p[1..]) by {
        forall k | 0 <= k < |p[1..]| - 1 ensures Edge(g, p[1..][k], p[1..][k + 1]) {
          assert Edge(g, p[k + 1], p[k + 2]);
        }
      }
      WalkDescends(g, order, p[1..], j);
    }
  }

  /** A node listed in a dependencies-first order leads to no cycle. */
  lemma {:induction false} OrderedNodeIsSafe(g: Graph, order: seq<Id>, u: Id)
    requires DependenciesFirst(g, order) && Distinct(order) && u in order
    ensures !ReachesCycle(g, u)
  {
    if ReachesCycle(g, u) {
      var p: seq<Id>, k: nat :| Lasso(g, p, k) && p[0] == u;
      var i :| 0 <= i < |order| && order[i] == u;
      var j := i;
      if k > 0 {
        WalkDescends(g, order, p[..k + 1], i);
        j :| 0 <= j < i && order[j] == p[k];
      }
      WalkDescends(g, order, p[k..], j);
      assert false;
    }
  }

  lemma {:induction false} CycleIsLasso(g: Graph)
    ensures Cyclic(g) <==> exists u :: u in g && ReachesCycle(g, u)
  {
    if Cyclic(g) {
      var p :| |p| >= 2 && Walk(g, p) && p[0] == p[|p| - 1];
      assert Lasso(g, p, 0);
      assert Edge(g, p[0], p[1]);
      assert ReachesCycle(g, p[0]);
    }
    if u :| u in g && ReachesCycle(g, u) {
      var p: seq<Id>, k: nat :| Lasso(g, p, k) && p[0] == u;
      assert Walk(g, p[k..]);
    }
  }

  /** The finish order of a search that found nothing is a topological order of the whole
      graph, and a graph that has one is acyclic. */
  lemma {:induction false} TopologicalOrderMeansAcyclic(g: Graph, order: seq<Id>)
    requires DependenciesFirst(g, order) && Distinct(order) && g.Keys <= Elems(order)
    ensures !Cyclic(g)
  {
    CycleIsLasso(g);
    forall u | u in g ensures !ReachesCycle(g, u) {
      assert u in Elems(order);
      OrderedNodeIsSafe(g, order, u);
    }
  }

  lemma {:induction false} LassoExtends(g: Graph, u: Id, v: Id)
    requires Edge(g, u, v) && ReachesCycle(g, v)
    ensures ReachesCycle(g, u)
  {
    var p: seq<Id>, k: nat :| Lasso(g, p, k) && p[0] == v;
    var q := [u] + p;
    assert Walk(g, q) by {
      forall i | 0 <= i < |q| - 1 ensures Edge(g, q[i], q[i + 1]) {
        if i > 0 { assert Edge(g, p[i - 1], p[i - 1 + 1]); }
      }
    }
    assert Lasso(g, q, k + 1);
  }

  class CycleDetector {
    const graph: Graph
    var visited: set<Id>
    ghost var finished: seq<Id>

    /** What holds between calls of `HasCycle` when the nodes of `path` are being explored. */
    ghost predicate Consistent(path: seq<Id>)
      reads this
    {
      && visited == Elems(finished) + Elems(path)
      && Elems(finished) !! Elems(path)
      && Distinct(finished)
      && Walk(graph, path)
      && DependenciesFirst(graph, finished)
    }

    constructor (graph: Graph)
      ensures this.graph == graph && Consistent([]) && finished == []
    {
      this.graph := graph;
      visited := {};
      finished := [];
    }

    method HasCycle(id: Id, path: seq<Id>) returns (found: bool)
      requires Consistent(path) && id in Nodes(graph)
      requires path != [] ==> Edge(graph, path[|path| - 1], id)
      modifies this
      ensures old(visited) <= visited
      ensures found ==> ReachesCycle(graph, id)
      ensures !found ==> Consistent(path) && id in finished && old(finished) <= finished
      decreases Nodes(graph) - visited
    {
      if id in path {
        var k :| 0 <= k < |path| && path[k] == id;
        ghost var loop := path[k..] + [id];
        assert Lasso(graph, loop, 0) by {
          forall i | 0 <= i < |loop| - 1 ensures Edge(graph, loop[i], loop[i + 1]) {
            if k + i + 1 < |path| { assert Edge(graph, path[k + i], path[k + i + 1]); }
          }
        }
        assert loop[0] == id;
        return true;
      }
      if id in visited {
        assert id in Elems(finished);
        return false;
      }
      visited := visited + {id};
      if id !in graph {
        Finish(id, path);
        return false;
      }
      var deps := graph[id];
      assert Consistent(path + [id]);
      for i := 0 to |deps|
        invariant Consistent(path + [id]) && old(visited) + {id} <= visited
        invariant old(finished) <= finished
        invariant forall k :: 0 <= k < i ==> deps[k] in finished
      {
        assert Edge(graph, id, deps[i]);
        assert deps[i] in Nodes(graph) by { assert id in graph && deps[i] in graph[id]; }
        ghost var before := finished;
        found := HasCycle(deps[i], path + [id]);
        if found {
          LassoExtends(graph, id, deps[i]);
          return true;
        }
        assert forall k :: 0 <= k < i ==> deps[k] in before && deps[k] in finished;
      }
      assert Walk(graph, path) by {
        forall k | 0 <= k < |path| - 1 ensures Edge(graph, path[k], path[k + 1]) {
          assert Edge(graph, (path + [id])[k], (path + [id])[k + 1]);
        }
      }
      Finish(id, path);
      return false;
    }

    /** All dependencies of `id` are done: it joins the finish order. */
    ghost method Finish(id: Id, path: seq<Id>)
      requires visited == Elems(finished) + Elems(path + [id])
      requires Elems(finished) !! Elems(path + [id]) && id !in path
      requires Distinct(finished) && DependenciesFirst(graph, finished) && Walk(graph, path)
      requires forall v :: Edge(graph, id, v) ==> v in finished
      modifies this`finished
      ensures Consistent(path) && finished == old(finished) + [id]
    {
      assert id in Elems(path + [id]);
      assert forall x :: x in path ==> x in path + [id];
      finished := finished + [id];
      assert DependenciesFirst(graph, finished) by {
        forall i, v | 0 <= i < |finished| && Edge(graph, finished[i], v) ensures v in finished[..i] {
          assert finished[..i] == old(finished)[..i];
        }
      }
      assert visited == Elems(finished) + Elems(path);
    }
  }

  // ---- validate_plan -------------------------------------------------------------------

  datatype TaskType = Retrieve | Extract | Evaluate | Compare | Decide | Explain | MandatoryCheck | Scoring

  datatype TaskItem = TaskItem(id: Id, kind: TaskType, dependsOn: seq<Id>)

  datatype PlanError =
    | TooFewTasks(n: nat)
    | TooManyTasks(n: nat)
    | ChecksNotCovered(missing: set<string>)
    | CriteriaNotCovered(missing: set<string>)
    | CircularDependency(id: Id)

  const CHECK_PREFIX := "task-check-"
  const SCORE_PREFIX := "task-score-"

  /** `{t.task_id: t for t in tasks}`: a later task with the same id wins. */
  function TaskMap(tasks: seq<TaskItem>): Graph {
    if tasks == [] then map[]
    else TaskMap(tasks[..|tasks| - 1])[tasks[|tasks| - 1].id := tasks[|tasks| - 1].dependsOn]
  }

  lemma {:induction false} TaskMapKeys(tasks: seq<TaskItem>)
    ensures TaskMap(tasks).Keys == set t | t in tasks :: t.id
  {
    if tasks != [] {
      var init := tasks[..|tasks| - 1];
      TaskMapKeys(init);
      assert tasks == init + [tasks[|tasks| - 1]];
    }
  }

  /** Of several tasks with one id the last one counts. */
  lemma {:induction false} LastTaskCounts(tasks: seq<TaskItem>, i: nat)
    requires i < |tasks| && forall j :: i < j < |tasks| ==> tasks[j].id != tasks[i].id
    ensures tasks[i].id in TaskMap(tasks) && TaskMap(tasks)[tasks[i].id] == tasks[i].dependsOn
  {
    var n := |tasks| - 1;
    if i < n {
      assert tasks[n].id != tasks[i].id;
      LastTaskCounts(tasks[..n], i);
    }
  }

  predicate Covers(t: TaskItem, kind: TaskType, prefix: string, key: string) {
    t.kind == kind && t.id == prefix + key
  }

  /** The ids among `wanted` that no task of that kind names after the prefix. */
  function Uncovered(tasks: seq<TaskItem>, kind: TaskType, prefix: string, wanted: seq<string>): set<string> {
    set w | w in wanted && !exists t :: t in tasks && Covers(t, kind, prefix, w)
  }

  /** The guardrail's errors that do not concern the graph. */
  function CoverageErrors(tasks: seq<TaskItem>, checks: seq<string>, criteria: seq<string>): seq<PlanError> {
    (if |tasks| < 5 then [TooFewTasks(|tasks|)] else []) +
    (if |tasks| > 500 then [TooManyTasks(|tasks|)] else []) +
    (var m := Uncovered(tasks, MandatoryCheck, CHECK_PREFIX, checks);
     if m != {} then [ChecksNotCovered(m)] else []) +
    (var m := Uncovered(tasks, Scoring, SCORE_PREFIX, criteria);
     if m != {} then [CriteriaNotCovered(m)] else [])
  }

  method CoveredKeys(tasks: seq<TaskItem>, kind: TaskType, prefix: string) returns (covered: set<string>)
    ensures forall w :: w in covered <==> exists t :: t in tasks && Covers(t, kind, prefix, w)
  {
    covered := {};
    for i := 0 to |tasks|
      invariant forall w :: w in covered <==> exists t :: t in tasks[..i] && Covers(t, kind, prefix, w)
    {
      var t := tasks[i];
      assert tasks[..i + 1] == tasks[..i] + [t];
      forall w ensures Covers(t, kind, prefix, w) <==> t.kind == kind && prefix <= t.id && t.id[|prefix|..] == w {
        CoversOne(t, kind, prefix, w);
      }
      if t.kind == kind && prefix <= t.id {
        covered := covered + {t.id[|prefix|..]};
        assert Covers(t, kind, prefix, t.id[|prefix|..]);
      }
      assert forall u :: u in tasks[..i + 1] <==> u in tasks[..i] || u == t;
    }
    assert tasks[..|tasks|] == tasks;
  }

  lemma CoversOne(t: TaskItem, kind: TaskType, prefix: string, w: string)
    ensures Covers(t, kind, prefix, w) <==> t.kind == kind && prefix <= t.id && t.id[|prefix|..] == w
  {
    if t.id == prefix + w { assert t.id[|prefix|..] == w; }
    if prefix <= t.id { assert t.id == prefix + t.id[|prefix|..]; }
  }

  /** Task `i` is the first one from which a dependency cycle can be reached. */
  ghost predicate FirstCulprit(tasks: seq<TaskItem>, i: nat) {
    && i < |tasks|
    && ReachesCycle(TaskMap(tasks), tasks[i].id)
    && forall j :: 0 <= j < i ==> !ReachesCycle(TaskMap(tasks), tasks[j].id)
  }

  method CheckCoverage(tasks: seq<TaskItem>, checks: seq<string>,
      criteria: seq<string>) returns (errors: seq<PlanError>)
    ensures errors == CoverageErrors(tasks, checks, criteria)
  {
    errors := [];
    if |tasks| < 5 { errors := errors + [TooFewTasks(|tasks|)]; }
    if |tasks| > 500 { errors := errors + [TooManyTasks(|tasks|)]; }
    var coveredChecks := CoveredKeys(tasks, MandatoryCheck, CHECK_PREFIX);
    var missingChecks := (set c | c in checks) - coveredChecks;
    assert missingChecks == Uncovered(tasks, MandatoryCheck, CHECK_PREFIX, checks);
    if missingChecks != {} { errors := errors + [ChecksNotCovered(missingChecks)]; }
    var coveredCriteria := CoveredKeys(tasks, Scoring, SCORE_PREFIX);
    var missingCriteria := (set c | c in criteria) - coveredCriteria;
    assert missingCriteria == Uncovered(tasks, Scoring, SCORE_PREFIX, criteria);
    if missingCriteria != {} { errors := errors + [CriteriaNotCovered(missingCriteria)]; }
  }

  /** Every task before the first `n` has been finished. */
  predicate FinishedUpTo(tasks: seq<TaskItem>, n: nat, finished: seq<Id>)
    requires n <= |tasks|
  {
    forall j :: 0 <= j < n ==> tasks[j].id in finished
  }

  lemma FirstFound(tasks: seq<TaskItem>, finished: seq<Id>, i: nat)
    requires i < |tasks| && FinishedUpTo(tasks, i, finished) && Distinct(finished)
    requires DependenciesFirst(TaskMap(tasks), finished) && ReachesCycle(TaskMap(tasks), tasks[i].id)
    ensures FirstCulprit(tasks, i) && Cyclic(TaskMap(tasks))
  {
    var g := TaskMap(tasks);
    forall j | 0 <= j < i ensures !ReachesCycle(g, tasks[j].id) { OrderedNodeIsSafe(g, finished, tasks[j].id); }
    TaskMapKeys(tasks);
    CycleIsLasso(g);
    assert tasks[i].id in g;
  }

  lemma NoneFound(tasks: seq<TaskItem>, finished: seq<Id>)
    requires FinishedUpTo(tasks, |tasks|, finished) && Distinct(finished) && DependenciesFirst(TaskMap(tasks), finished)
    ensures !Cyclic(TaskMap(tasks))
  {
    TaskMapKeys(tasks);
    forall u | u in TaskMap(tasks) ensures u in Elems(finished) {
      var t :| t in tasks && t.id == u;
      var j :| 0 <= j < |tasks| && tasks[j] == t;
    }
    TopologicalOrderMeansAcyclic(TaskMap(tasks), finished);
  }

  /** Asks the detector about each task in order and stops at the first that reaches a cycle. */
  method FindCulprit(tasks: seq<TaskItem>) returns (culprit: Option<nat>)
    ensures culprit.None? <==> !Cyclic(TaskMap(tasks))
    ensures culprit.Some? ==> FirstCulprit(tasks, culprit.value)
  {
    var taskMap := TaskMap(tasks);
    TaskMapKeys(tasks);
    var detector := new CycleDetector(taskMap);
    for i := 0 to |tasks|
      invariant detector.graph == taskMap && fresh(detector) && detector.Consistent([])
      invariant FinishedUpTo(tasks, i, detector.finished)
    {
      ghost var before := detector.finished;
      assert tasks[i].id in taskMap;
      var found := detector.HasCycle(tasks[i].id, []);
      if found {
        FirstFound(tasks, before, i);
        return Some(i);
      }
      assert FinishedUpTo(tasks, i, before);
    }
    NoneFound(tasks, detector.finished);
    culprit := None;
  }

  /** The ids wanted for which no task of that kind is called by the prefix and the id. */
  ghost predicate IsMissing(missing: set<string>, tasks: seq<TaskItem>, kind: TaskType, prefix: string,
      wanted: seq<string>) {
    forall w :: w in missing <==> w in wanted && forall t :: t in tasks && t.kind == kind ==> t.id != prefix + w
  }

  /** Those ids are what `Uncovered` finds, and no other set is. */
  lemma MissingIs(tasks: seq<TaskItem>, kind: TaskType, prefix: string, wanted: seq<string>, missing: set<string>)
    ensures IsMissing(missing, tasks, kind, prefix, wanted) <==> missing == Uncovered(tasks, kind, prefix, wanted)
  {
    var uncovered := Uncovered(tasks, kind, prefix, wanted);
    forall w
      ensures w in uncovered <==> w in wanted && forall t :: t in tasks && t.kind == kind ==> t.id != prefix + w
    {
      if t :| t in tasks && t.kind == kind && t.id == prefix + w { assert Covers(t, kind, prefix, w); }
    }
    if IsMissing(missing, tasks, kind, prefix, wanted) {
      forall w ensures w in missing <==> w in uncovered { }
    }
  }

  /** Exactly when the guardrail reports each error that does not concern the graph. */
  lemma ErrorsMean(tasks: seq<TaskItem>, checks: seq<string>, criteria: seq<string>, n: nat, missing: set<string>)
    ensures var errors := CoverageErrors(tasks, checks, criteria);
            && (TooFewTasks(n) in errors <==> n == |tasks| && n < 5)
            && (TooManyTasks(n) in errors <==> n == |tasks| && n > 500)
            && (ChecksNotCovered(missing) in errors <==>
                  missing != {} && IsMissing(missing, tasks, MandatoryCheck, "task-check-", checks))
            && (CriteriaNotCovered(missing) in errors <==>
                  missing != {} && IsMissing(missing, tasks, Scoring, "task-score-", criteria))
  {
    MissingIs(tasks, MandatoryCheck, "task-check-", checks, missing);
    MissingIs(tasks, Scoring, "task-score-", criteria, missing);
  }

  method ValidatePlan(tasks: seq<TaskItem>, checks: seq<string>, criteria: seq<string>)
    returns (errors: seq<PlanError>)
    ensures !Cyclic(TaskMap(tasks)) ==> errors == CoverageErrors(tasks, checks, criteria)
    ensures Cyclic(TaskMap(tasks)) ==>
              exists i: nat :: (FirstCulprit(tasks, i) &&
                errors == CoverageErrors(tasks, checks, criteria) + [CircularDependency(tasks[i].id)])
  {
    errors := CheckCoverage(tasks, checks, criteria);
    var culprit := FindCulprit(tasks);
    if culprit.Some? { errors := errors + [CircularDependency(tasks[culprit.value].id)]; }
  }

  /** The error text says the dependency is "involving" the named task; the named task may only
      lead to the cycle without being on one. */
  lemma NamedTaskNeedNotBeOnCycle()
    ensures var tasks := [TaskItem("a", Retrieve, ["b"]), TaskItem("b", Retrieve, ["b"])];
            FirstCulprit(tasks, 0) && !Reaches(TaskMap(tasks), "a", "a")
  {
    var tasks := [TaskItem("a", Retrieve, ["b"]), TaskItem("b", Retrieve, ["b"])];
    var g := TaskMap(tasks);
    assert tasks[..1][..0] == [] && tasks[..1] == [tasks[0]];
    assert TaskMap(tasks[..1]) == map["a" := ["b"]];
    assert g == map["a" := ["b"], "b" := ["b"]];
    assert Lasso(g, ["a", "b", "b"], 1);
    assert ["a", "b", "b"][0] == "a";
    forall p: seq<Id> | |p| >= 2 && Walk(g, p) ensures p[|p| - 1] != "a" {
      assert Edge(g, p[|p| - 2], p[|p| - 2 + 1]);
    }
  }

  predicate DistinctTaskIds(tasks: seq<TaskItem>) {
    forall i, j :: 0 <= i < j < |tasks| ==> tasks[i].id != tasks[j].id
  }

  /** The same tasks in another order. */
  ghost predicate Reordered(tasks: seq<TaskItem>, other: seq<TaskItem>) {
    DistinctTaskIds(other) && forall t :: t in other <==> t in tasks
  }

  lemma ReorderedMap(tasks: seq<TaskItem>, other: seq<TaskItem>)
    requires DistinctTaskIds(tasks) && Reordered(tasks, other)
    ensures TaskMap(other) == TaskMap(tasks)
  {
    TaskMapKeys(tasks);
    TaskMapKeys(other);
    assert TaskMap(other).Keys == TaskMap(tasks).Keys;
    forall u | u in TaskMap(tasks) ensures TaskMap(other)[u] == TaskMap(tasks)[u] {
      var t :| t in tasks && t.id == u;
      var i: nat :| i < |tasks| && tasks[i] == t;
      var k: nat :| k < |other| && other[k] == t;
      LastTaskCounts(tasks, i);
      LastTaskCounts(other, k);
    }
  }

  /** The task named first in the error is on a cycle, whatever the order of the list. */
  ghost predicate NamedIsAlwaysOnCycle(tasks: seq<TaskItem>) {
    forall other: seq<TaskItem>, i: nat :: Reordered(tasks, other) && FirstCulprit(other, i) ==>
      Reaches(TaskMap(tasks), other[i].id, other[i].id)
  }

  lemma MovedToFront(tasks: seq<TaskItem>, k: nat) returns (other: seq<TaskItem>)
    requires DistinctTaskIds(tasks) && k < |tasks|
    ensures Reordered(tasks, other) && other != [] && other[0] == tasks[k]
  {
    other := [tasks[k]] + tasks[..k] + tasks[k + 1..];
    assert forall t :: t in tasks <==> t in tasks[..k] || t == tasks[k] || t in tasks[k + 1..];
  }

  /** Whatever the order of the list, the error names a task on a cycle exactly when every task that
      leads to a cycle lies on one. */
  lemma NamedIsAlwaysOnCycleIff(tasks: seq<TaskItem>)
    requires DistinctTaskIds(tasks)
    ensures NamedIsAlwaysOnCycle(tasks) <==>
            forall u :: u in TaskMap(tasks) && ReachesCycle(TaskMap(tasks), u) ==> Reaches(TaskMap(tasks), u, u)
  {
    var g := TaskMap(tasks);
    TaskMapKeys(tasks);
    if u :| u in g && ReachesCycle(g, u) && !Reaches(g, u, u) {
      var t :| t in tasks && t.id == u;
      var k: nat :| k < |tasks| && tasks[k] == t;
      var other := MovedToFront(tasks, k);
      ReorderedMap(tasks, other);
      assert FirstCulprit(other, 0);
    } else {
      forall other: seq<TaskItem>, i: nat | Reordered(tasks, other) && FirstCulprit(other, i)
        ensures Reaches(g, other[i].id, other[i].id)
      {
        ReorderedMap(tasks, other);
        assert other[i] in tasks;
      }
    }
  }
}
