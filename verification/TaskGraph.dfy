/** Dependency graphs of mission plans and the depth-first cycle check of
    `validateTaskGraph` (packages/domain/src/mission/mission.ts:553-615). */
module TaskGraph {
  import opened Foundations
  import opened JsText

  /** Task id to the ids it depends on. */
  type Graph = map<string, seq<string>>

  predicate Edge(g: Graph, a: string, b: string) {
    a in g && b in g[a]
  }

  predicate Closed(g: Graph) {
    forall a, b :: a in g && b in g[a] ==> b in g
  }

  ghost predicate Walk(g: Graph, p: seq<string>) {
    |p| >= 1 && forall i :: 0 <= i < |p| - 1 ==> Edge(g, p[i], p[i + 1])
  }

  ghost predicate Cycle(g: Graph, p: seq<string>) {
    Walk(g, p) && |p| >= 2 && p[0] == p[|p| - 1]
  }

  ghost predicate OnCycle(g: Graph, a: string) {
    exists p :: Cycle(g, p) && p[0] == a
  }

  ghost predicate Acyclic(g: Graph) {
    forall p :: !Cycle(g, p)
  }

  /** All dependencies, followed at most n levels down, exist and end. */
  predicate Grounded(g: Graph, a: string, n: nat)
    decreases n
  {
    n > 0 && a in g && forall b :: b in g[a] ==> Grounded(g, b, n - 1)
  }

  ghost predicate Groundable(g: Graph, a: string) {
    exists n: nat :: Grounded(g, a, n)
  }

  lemma {:induction false} GroundedMonotone(g: Graph, a: string, m: nat, n: nat)
    requires Grounded(g, a, m) && m <= n
    ensures Grounded(g, a, n)
    decreases n
  {
    forall b | b in g[a] ensures Grounded(g, b, n - 1) {
      GroundedMonotone(g, b, m - 1, n - 1);
    }
  }

  lemma {:induction false} CommonDepth(g: Graph, bs: seq<string>) returns (n: nat)
    requires forall b :: b in bs ==> Groundable(g, b)
    ensures forall b :: b in bs ==> Grounded(g, b, n)
  {
    n := 0;
    if bs != [] {
      assert Groundable(g, bs[0]);
      var m: nat :| Grounded(g, bs[0], m);
      var k := CommonDepth(g, bs[1..]);
      n := Max(m, k);
      forall b | b in bs ensures Grounded(g, b, n) {
        if b == bs[0] { GroundedMonotone(g, b, m, n); } else { GroundedMonotone(g, b, k, n); }
      }
    }
  }

  lemma GroundableFromDependencies(g: Graph, a: string)
    requires a in g && forall b :: b in g[a] ==> Groundable(g, b)
    ensures Groundable(g, a)
  {
    var n := CommonDepth(g, g[a]);
    assert Grounded(g, a, n + 1);
  }

  lemma {:induction false} CycleNotGrounded(g: Graph, p: seq<string>, n: nat)
    requires Cycle(g, p)
    ensures !Grounded(g, p[0], n)
    decreases n
  {
    if n > 0 {
      var rotated := p[1..] + [p[1]];
      assert Edge(g, p[0], p[1]);
      forall i | 0 <= i < |rotated| - 1 ensures Edge(g, rotated[i], rotated[i + 1]) {
        if i < |p| - 2 { assert Edge(g, p[i + 1], p[i + 2]); }
      }
      CycleNotGrounded(g, rotated, n - 1);
    }
  }

  /** Without a grounding of depth n there is a walk of n + 1 tasks. */
  lemma {:induction false} LongWalk(g: Graph, a: string, n: nat) returns (p: seq<string>)
    requires Closed(g) && a in g && !Grounded(g, a, n)
    ensures Walk(g, p) && p[0] == a && |p| == n + 1
    ensures forall i :: 0 <= i < |p| ==> p[i] in g
    decreases n
  {
    if n == 0 {
      p := [a];
    } else {
      var b :| b in g[a] && !Grounded(g, b, n - 1);
      var rest := LongWalk(g, b, n - 1);
      p := [a] + rest;
      forall i | 0 <= i < |p| - 1 ensures Edge(g, p[i], p[i + 1]) {
        if i > 0 { assert Edge(g, rest[i - 1], rest[i]); }
      }
    }
  }

  /** A walk longer than the graph visits some task twice. */
  lemma UngroundedHasCycle(g: Graph, a: string) returns (loop: seq<string>)
    requires Closed(g) && a in g && !Grounded(g, a, |g|)
    ensures Cycle(g, loop)
  {
    var p := LongWalk(g, a, |g|);
    assert |g.Keys| == |g|;
    Pigeonhole(p, g.Keys);
    var i, j :| 0 <= i < j < |p| && p[i] == p[j];
    loop := p[i..j + 1];
    forall k | 0 <= k < |loop| - 1 ensures Edge(g, loop[k], loop[k + 1]) {
      assert Edge(g, p[i + k], p[i + k + 1]);
    }
  }

  lemma AcyclicIsGrounded(g: Graph, a: string)
    requires Closed(g) && Acyclic(g) && a in g
    ensures Grounded(g, a, |g|)
  {
    if !Grounded(g, a, |g|) {
      var loop := UngroundedHasCycle(g, a);
      assert false;
    }
  }

  /** In a graph whose dependencies all exist: no cycle, exactly when every task is grounded. */
  lemma AcyclicIffGroundable(g: Graph)
    requires Closed(g)
    ensures Acyclic(g) <==> forall a :: a in g ==> Groundable(g, a)
  {
    if Acyclic(g) {
      forall a | a in g ensures Groundable(g, a) { AcyclicIsGrounded(g, a); }
    }
    if forall a :: a in g ==> Groundable(g, a) {
      forall p ensures !Cycle(g, p) {
        if Cycle(g, p) {
          assert Edge(g, p[0], p[1]);
          var n: nat :| Grounded(g, p[0], n);
          CycleNotGrounded(g, p, n);
        }
      }
    }
  }

  // ---- the search ----

  class CycleSearch {
    const graph: Graph
    var visited: set<string>
    var stack: set<string>
    ghost var path: seq<string>  // the stack in the order of the calls

    constructor (graph: Graph)
      requires Closed(graph)
      ensures this.graph == graph && Valid() && path == [] && visited == {}
    {
      this.graph := graph;
      visited, stack, path := {}, {}, [];
    }

    ghost predicate Valid()
      reads this
    {
      && Closed(graph)
      && stack <= graph.Keys
      && (forall a :: a in stack <==> a in path)
      && (forall a :: a in visited ==> Groundable(graph, a))
      && (path != [] ==> Walk(graph, path))
    }

    /** Sound: an error means a cycle. Complete: without an error the task and
        everything below it is grounded, and the search state is as before but for
        more visited tasks. Terminates on every graph. */
    method Visit(id: string) returns (cyclic: bool)
      requires Valid() && id in graph
      requires path != [] ==> Edge(graph, path[|path| - 1], id)
      modifies this
      ensures cyclic ==> !Acyclic(graph)
      ensures !cyclic ==> Valid() && stack == old(stack) && path == old(path) && old(visited) <= visited && id in visited
      decreases graph.Keys - stack
    {
      if id in stack {
        ghost var k :| 0 <= k < |path| && path[k] == id;
        ghost var loop := path[k..] + [id];
        assert forall i :: 0 <= i < |loop| - 1 ==> i < |path| - k && loop[i] == path[k + i];
        forall i | 0 <= i < |loop| - 1 ensures Edge(graph, loop[i], loop[i + 1]) {
          if i < |loop| - 2 { assert Edge(graph, path[k + i], path[k + i + 1]); }
        }
        assert Cycle(graph, loop);
        return true;
      }
      if id in visited {
        return false;
      }
      ghost var above := path;
      stack := stack + {id};
      path := path + [id];
      if id in graph {
        var deps := graph[id];
        for i := 0 to |deps|
          invariant Valid() && stack == old(stack) + {id} && path == above + [id] && old(visited) <= visited
          invariant forall j :: 0 <= j < i ==> deps[j] in visited
        {
          var err := Visit(deps[i]);
          if err {
            return true;
          }
        }
      }
      stack := stack - {id};
      path := above;
      GroundableFromDependencies(graph, id);
      visited := visited + {id};
      cyclic := false;
    }
  }

  // ---- plans ----

  datatype TaskProps = TaskProps(
    id: string,
    agentId: string,
    requiredCapability: Option<string>,
    dependsOn: seq<string>,
    idempotencyKey: string,
    approvalGateId: Option<string>)

  datatype PlanDefect =
    | BadVersion
    | DuplicateIds
    | MissingAgent(task: string)
    | MissingCapability(task: string)
    | MissingDependency(dependency: string)
    | CyclicDependency

  function Ids(tasks: seq<TaskProps>): set<string> {
    set i | 0 <= i < |tasks| :: tasks[i].id
  }

  predicate DistinctIds(tasks: seq<TaskProps>) {
    forall i, j :: 0 <= i < j < |tasks| ==> tasks[i].id != tasks[j].id
  }

  /** The map built from the task list; a later task with the same id wins. */
  function GraphOf(tasks: seq<TaskProps>): Graph {
    if tasks == [] then map[]
    else
      var last := tasks[|tasks| - 1];
      GraphOf(tasks[..|tasks| - 1])[last.id := last.dependsOn]
  }

  lemma {:induction false} GraphOfDistinct(tasks: seq<TaskProps>)
    requires DistinctIds(tasks)
    ensures GraphOf(tasks).Keys == Ids(tasks)
    ensures forall i :: 0 <= i < |tasks| ==> tasks[i].id in GraphOf(tasks) && GraphOf(tasks)[tasks[i].id] == tasks[i].dependsOn
  {
    if tasks != [] {
      var init := tasks[..|tasks| - 1];
      GraphOfDistinct(init);
      assert forall i :: 0 <= i < |init| ==> tasks[i] == init[i];
      assert Ids(tasks) == Ids(init) + {tasks[|tasks| - 1].id};
    }
  }

  predicate Complete(t: TaskProps) {
    !Blank(t.agentId) && (t.requiredCapability.Some? ==> !Blank(t.requiredCapability.value))
  }

  predicate DependsOnKnown(t: TaskProps, ids: set<string>) {
    forall d :: d in t.dependsOn ==> d in ids
  }

  /** What a valid plan is. */
  ghost predicate WellFormedPlan(tasks: seq<TaskProps>, planVersion: int) {
    && planVersion > 0
    && DistinctIds(tasks)
    && (forall i :: 0 <= i < |tasks| ==> Complete(tasks[i]) && DependsOnKnown(tasks[i], Ids(tasks)))
    && Acyclic(GraphOf(tasks))
  }

  /** The dependency stands before every other unknown one. */
  predicate FirstUnknown(t: TaskProps, ids: set<string>, d: string) {
    exists k :: 0 <= k < |t.dependsOn| && t.dependsOn[k] == d && forall j :: 0 <= j < k ==> t.dependsOn[j] in ids
  }

  predicate Names(defect: PlanDefect, t: TaskProps, ids: set<string>) {
    match defect
    case MissingAgent(id) => id == t.id && Blank(t.agentId)
    case MissingCapability(id) => id == t.id && !Blank(t.agentId) && t.requiredCapability.Some? && Blank(t.requiredCapability.value)
    case MissingDependency(d) => Complete(t) && d !in ids && FirstUnknown(t, ids, d)
    case _ => false
  }

  /** Each reported defect is really there, and comes after everything the check tests before it. */
  ghost predicate Justified(defect: PlanDefect, tasks: seq<TaskProps>, planVersion: int) {
    match defect
    case BadVersion => planVersion <= 0
    case DuplicateIds => planVersion > 0 && !DistinctIds(tasks)
    case CyclicDependency =>
      && planVersion > 0 && DistinctIds(tasks)
      && (forall i :: 0 <= i < |tasks| ==> Complete(tasks[i]) && DependsOnKnown(tasks[i], Ids(tasks)))
      && !Acyclic(GraphOf(tasks))
    case _ =>
      && planVersion > 0 && DistinctIds(tasks)
      && exists i :: 0 <= i < |tasks| && Names(defect, tasks[i], Ids(tasks)) &&
           forall j :: 0 <= j < i ==> Complete(tasks[j]) && DependsOnKnown(tasks[j], Ids(tasks))
  }

  method CheckTask(t: TaskProps, ids: set<string>) returns (defect: Option<PlanDefect>)
    ensures defect.None? <==> Complete(t) && DependsOnKnown(t, ids)
    ensures defect.Some? ==> Names(defect.value, t, ids)
  {
    if Blank(t.agentId) {
      return Some(MissingAgent(t.id));
    }
    if t.requiredCapability.Some? && Blank(t.requiredCapability.value) {
      return Some(MissingCapability(t.id));
    }
    for i := 0 to |t.dependsOn|
      invariant forall j :: 0 <= j < i ==> t.dependsOn[j] in ids
    {
      if t.dependsOn[i] !in ids {
        return Some(MissingDependency(t.dependsOn[i]));
      }
    }
    defect := None;
  }

  lemma KnownDependenciesClose(tasks: seq<TaskProps>)
    requires DistinctIds(tasks)
    requires forall i :: 0 <= i < |tasks| ==> DependsOnKnown(tasks[i], Ids(tasks))
    ensures Closed(GraphOf(tasks))
  {
    GraphOfDistinct(tasks);
    var g := GraphOf(tasks);
    forall a, b | a in g && b in g[a] ensures b in g {
      var i :| 0 <= i < |tasks| && tasks[i].id == a;
      assert DependsOnKnown(tasks[i], Ids(tasks));
    }
  }

  method CheckIds(tasks: seq<TaskProps>) returns (taskIds: set<string>, distinct: bool)
    ensures distinct <==> DistinctIds(tasks)
    ensures distinct ==> taskIds == Ids(tasks)
  {
    taskIds := {};
    for i := 0 to |tasks|
      invariant DistinctIds(tasks[..i])
      invariant taskIds == Ids(tasks[..i])
    {
      if tasks[i].id in taskIds {
        return taskIds, false;
      }
      taskIds := taskIds + {tasks[i].id};
      assert tasks[..i + 1] == tasks[..i] + [tasks[i]];
    }
    assert tasks[..|tasks|] == tasks;
    distinct := true;
  }

  /** Starts the search at every task that is not yet visited. */
  method HasCycle(tasks: seq<TaskProps>) returns (cyclic: bool)
    requires DistinctIds(tasks) && forall i :: 0 <= i < |tasks| ==> DependsOnKnown(tasks[i], Ids(tasks))
    ensures cyclic <==> !Acyclic(GraphOf(tasks))
  {
    KnownDependenciesClose(tasks);
    GraphOfDistinct(tasks);
    var search := new CycleSearch(GraphOf(tasks));
    for i := 0 to |tasks|
      invariant search.graph == GraphOf(tasks) && search.Valid() && search.path == []
      invariant forall j :: 0 <= j < i ==> tasks[j].id in search.visited
    {
      cyclic := search.Visit(tasks[i].id);
      if cyclic {
        return;
      }
    }
    AcyclicIffGroundable(GraphOf(tasks));
    cyclic := false;
  }

  /** The checks in the order of the original. No error, exactly for well-formed plans;
      otherwise the first defect, which is really there. */
  method ValidateTaskGraph(tasks: seq<TaskProps>, planVersion: int) returns (error: Option<PlanDefect>)
    ensures error.None? <==> WellFormedPlan(tasks, planVersion)
    ensures error.Some? ==> Justified(error.value, tasks, planVersion)
  {
    if planVersion <= 0 {
      return Some(BadVersion);
    }
    var taskIds, distinct := CheckIds(tasks);
    if !distinct {
      return Some(DuplicateIds);
    }
    for i := 0 to |tasks|
      invariant forall j :: 0 <= j < i ==> Complete(tasks[j]) && DependsOnKnown(tasks[j], taskIds)
    {
      var defect := CheckTask(tasks[i], taskIds);
      if defect.Some? {
        return defect;
      }
    }
    var cyclic := HasCycle(tasks);
    error := if cyclic then Some(CyclicDependency) else None;
  }
}
