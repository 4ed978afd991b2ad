/** Guarantees over whole runs of a mission: dependency-gated scheduling, cycles that
    `addTask` can build, and progress of a valid plan (mission.ts:206-547). */
module MissionRuns {
  import opened Foundations
  import opened TaskGraph
  import opened MissionStatus
  import opened Mission

  datatype Action =
    | Move(to: MissionStatus)
    | Validate
    | Add(props: TaskProps)
    | Begin(id: string)
    | Update(id: string, u: TaskUpdate)
    | Revise(version: int, newTasks: seq<TaskProps>)

  ghost function Apply(s: MissionState, a: Action): MissionState {
    match a
    case Move(to) => MoveMission(s, to).0
    case Validate => PlanValid(s).0
    case Add(props) => AddTask(s, props).0
    case Begin(id) => StartTask(s, id).0
    case Update(id, u) => UpdateTask(s, id, u).0
    case Revise(version, newTasks) => Replan(s, version, newTasks).0
  }

  ghost function Run(s: MissionState, actions: seq<Action>): MissionState
    decreases |actions|
  {
    if actions == [] then s else Run(Apply(s, actions[0]), actions[1..])
  }

  predicate Active(t: TaskStatus) {
    t == TaskRunning || t == TaskAwaitingApproval || t == TaskPaused
  }

  /** Pending and cancelled tasks may never have run; every other status is reached by running. */
  predicate Started(t: TaskStatus) {
    t != TaskPending && t != TaskCancelled
  }

  ghost predicate Scheduled(tasks: seq<TaskState>) {
    && DistinctIds(PropsOf(tasks))
    && (forall i :: 0 <= i < |tasks| && Active(tasks[i].status) ==> DependenciesCompleted(tasks, tasks[i].props))
    && (forall i :: 0 <= i < |tasks| && Started(tasks[i].status) ==> Groundable(GraphOfTasks(tasks), tasks[i].props.id))
  }

  // ---- each step keeps it ----

  lemma {:induction false} GroundedSurvivesNewTask(g: Graph, id: string, deps: seq<string>, a: string, n: nat)
    requires id !in g && Grounded(g, a, n)
    ensures Grounded(g[id := deps], a, n)
    decreases n
  {
    forall b | b in g[a] ensures Grounded(g[id := deps], b, n - 1) {
      GroundedSurvivesNewTask(g, id, deps, b, n - 1);
    }
  }

  lemma NewTaskKeepsScheduled(tasks: seq<TaskState>, props: TaskProps)
    requires Scheduled(tasks)
    requires forall i :: 0 <= i < |tasks| ==> tasks[i].props.id != props.id
    ensures Scheduled(tasks + [NewTask(props)])
  {
    var grown := tasks + [NewTask(props)];
    var g := GraphOfTasks(tasks);
    assert PropsOf(grown)[..|tasks|] == PropsOf(tasks);
    assert GraphOfTasks(grown) == g[props.id := props.dependsOn];
    GraphOfDistinct(PropsOf(tasks));
    assert props.id !in g;
    forall i | 0 <= i < |grown| && Active(grown[i].status) ensures DependenciesCompleted(grown, grown[i].props) {
      assert DependenciesCompleted(tasks, tasks[i].props);
      forall d | d in grown[i].props.dependsOn ensures CompletedTask(grown, d) {
        var j :| 0 <= j < |tasks| && tasks[j].props.id == d && tasks[j].status == TaskCompleted;
        assert grown[j] == tasks[j];
      }
    }
    forall i | 0 <= i < |grown| && Started(grown[i].status) ensures Groundable(GraphOfTasks(grown), grown[i].props.id) {
      assert Groundable(g, tasks[i].props.id);
      var n: nat :| Grounded(g, tasks[i].props.id, n);
      GroundedSurvivesNewTask(g, props.id, props.dependsOn, tasks[i].props.id, n);
    }
  }

  /** A task list that differs in the status and notes of task i. */
  ghost predicate Moved(tasks: seq<TaskState>, i: nat, t: TaskState)
    requires i < |tasks|
  {
    t.props == tasks[i].props && CanTransitionTask(tasks[i].status, t.status)
  }

  lemma CompletedSurvivesMove(tasks: seq<TaskState>, i: nat, t: TaskState, id: string)
    requires i < |tasks| && Moved(tasks, i, t) && CompletedTask(tasks, id)
    ensures CompletedTask(tasks[i := t], id)
  {
    var j :| 0 <= j < |tasks| && tasks[j].props.id == id && tasks[j].status == TaskCompleted;
    assert tasks[i := t][j] == tasks[j];
  }

  lemma MoveKeepsScheduled(tasks: seq<TaskState>, i: nat, t: TaskState)
    requires Scheduled(tasks) && i < |tasks| && Moved(tasks, i, t)
    requires Active(t.status) ==> DependenciesCompleted(tasks, t.props)
    requires Started(t.status) ==> Groundable(GraphOfTasks(tasks), t.props.id)
    ensures Scheduled(tasks[i := t])
  {
    var moved := tasks[i := t];
    assert PropsOf(moved) == PropsOf(tasks);
    forall k | 0 <= k < |moved| && Active(moved[k].status) ensures DependenciesCompleted(moved, moved[k].props) {
      assert DependenciesCompleted(tasks, moved[k].props);
      forall d | d in moved[k].props.dependsOn ensures CompletedTask(moved, d) {
        CompletedSurvivesMove(tasks, i, t, d);
      }
    }
  }

  lemma ReadyTaskIsGroundable(tasks: seq<TaskState>, i: nat)
    requires Scheduled(tasks) && i < |tasks| && DependenciesCompleted(tasks, tasks[i].props)
    ensures Groundable(GraphOfTasks(tasks), tasks[i].props.id)
  {
    var g, id := GraphOfTasks(tasks), tasks[i].props.id;
    GraphOfDistinct(PropsOf(tasks));
    assert PropsOf(tasks)[i] == tasks[i].props;
    forall b | b in g[id] ensures Groundable(g, b) {
      assert CompletedTask(tasks, b);
      var j :| 0 <= j < |tasks| && tasks[j].props.id == b && tasks[j].status == TaskCompleted;
      assert Groundable(g, tasks[j].props.id);
    }
    GroundableFromDependencies(g, id);
  }

  lemma ReplanKeepsScheduled(before: seq<TaskState>, newTasks: seq<TaskProps>, version: int)
    requires WellFormedPlan(newTasks, version)
    ensures Scheduled(Replanned(before, newTasks))
  {
    var tasks := Replanned(before, newTasks);
    assert PropsOf(tasks) == newTasks;
    KnownDependenciesClose(newTasks);
    GraphOfDistinct(newTasks);
    AcyclicIffGroundable(GraphOf(newTasks));
    forall i | 0 <= i < |tasks| ensures !Active(tasks[i].status) && Groundable(GraphOf(newTasks), tasks[i].props.id) {
      assert tasks[i] == CarriedOver(before, newTasks[i]);
    }
  }

  lemma StepKeepsScheduled(s: MissionState, a: Action)
    requires Scheduled(s.tasks)
    ensures Scheduled(Apply(s, a).tasks)
  {
    match a
    case Move(to) =>
    case Validate =>
    case Add(props) => if MayAdd(s, props) { NewTaskKeepsScheduled(s.tasks, props); }
    case Begin(id) =>
      if StartTask(s, id).1 == Ok {
        var i := FindTask(s.tasks, id);
        ReadyTaskIsGroundable(s.tasks, i);
        MoveKeepsScheduled(s.tasks, i, s.tasks[i].(status := TaskRunning));
      }
    case Update(id, u) =>
      if UpdateTask(s, id, u).1 == Ok {
        var i := FindTask(s.tasks, id);
        MoveKeepsScheduled(s.tasks, i, Noted(s.tasks[i].(status := Target(u)), u));
      }
    case Revise(version, newTasks) =>
      if Replan(s, version, newTasks).1 == Ok { ReplanKeepsScheduled(s.tasks, newTasks, version); }
  }

  lemma {:induction false} RunKeepsScheduled(s: MissionState, actions: seq<Action>)
    requires Scheduled(s.tasks)
    ensures Scheduled(Run(s, actions).tasks)
    decreases |actions|
  {
    if actions != [] {
      StepKeepsScheduled(s, actions[0]);
      RunKeepsScheduled(Apply(s, actions[0]), actions[1..]);
    }
  }

  /** In every run from an empty mission: an active task has all its dependencies present
      and completed, and a task on a dependency cycle is pending or cancelled. */
  lemma OnlyGroundedTasksRun(status: MissionStatus, planVersion: int, actions: seq<Action>)
    ensures var tasks := Run(MissionState(status, planVersion, []), actions).tasks;
            forall i :: 0 <= i < |tasks| ==>
              && (Active(tasks[i].status) ==> DependenciesCompleted(tasks, tasks[i].props))
              && (OnCycle(GraphOfTasks(tasks), tasks[i].props.id) ==> !Started(tasks[i].status))
  {
    RunKeepsScheduled(MissionState(status, planVersion, []), actions);
    var tasks := Run(MissionState(status, planVersion, []), actions).tasks;
    forall i | 0 <= i < |tasks| && OnCycle(GraphOfTasks(tasks), tasks[i].props.id) ensures !Started(tasks[i].status) {
      CycleNeverGroundable(GraphOfTasks(tasks), tasks[i].props.id);
    }
  }

  lemma CycleNeverGroundable(g: Graph, a: string)
    requires OnCycle(g, a)
    ensures !Groundable(g, a)
  {
    var p :| Cycle(g, p) && p[0] == a;
    forall n: nat ensures !Grounded(g, a, n) { CycleNotGrounded(g, p, n); }
  }

  /** Starting a task on a cycle is refused in every reachable state. */
  lemma CyclicTaskIsRefused(status: MissionStatus, planVersion: int, actions: seq<Action>, id: string)
    requires OnCycle(GraphOfTasks(Run(MissionState(status, planVersion, []), actions).tasks), id)
    ensures StartTask(Run(MissionState(status, planVersion, []), actions), id).1 == Refused
  {
    var s := Run(MissionState(status, planVersion, []), actions);
    RunKeepsScheduled(MissionState(status, planVersion, []), actions);
    if StartTask(s, id).1 == Ok {
      ReadyTaskIsGroundable(s.tasks, FindTask(s.tasks, id));
      CycleNeverGroundable(GraphOfTasks(s.tasks), id);
    }
  }

  /** Cycles do arise: two `addTask` calls build one, and neither task can ever run. */
  lemma AddTaskCanBuildCycle()
    ensures exists a: TaskProps, b: TaskProps ::
      var s := Run(MissionState(Draft, 1, []), [Add(a), Add(b)]);
      |s.tasks| == 2 && OnCycle(GraphOfTasks(s.tasks), a.id)
  {
    var a := TaskProps("a", "agent", None, ["b"], "k1", None);
    var b := TaskProps("b", "agent", None, ["a"], "k2", None);
    var s0 := MissionState(Draft, 1, []);
    var s1, s2 := AddTask(s0, a).0, AddTask(AddTask(s0, a).0, b).0;
    var script := [Add(a), Add(b)];
    assert script[1..] == [Add(b)] && script[1..][1..] == [];
    assert Run(s0, script) == Run(s1, script[1..]) == Run(s2, []) == s2;
    assert PropsOf(s2.tasks) == [a, b];
    GraphOfDistinct([a, b]);
    assert Ids([a, b]) == {"a", "b"} by {
      assert [a, b][0] == a && [a, b][1] == b;
    }
    var g := GraphOf([a, b]);
    assert g[[a, b][0].id] == ["b"] && g[[a, b][1].id] == ["a"];
    assert Cycle(g, ["a", "b", "a"]);
  }

  /** No action undoes finished work: a completed task that is still in the plan afterwards,
      replanning included, is still completed and keeps its output. */
  lemma CompletedWorkSurvives(s: MissionState, a: Action, i: nat, j: nat)
    requires Scheduled(s.tasks) && i < |s.tasks| && s.tasks[i].status == TaskCompleted
    requires j < |Apply(s, a).tasks| && Apply(s, a).tasks[j].props.id == s.tasks[i].props.id
    ensures Apply(s, a).tasks[j].status == TaskCompleted && Apply(s, a).tasks[j].output == s.tasks[i].output
  {
    StepKeepsScheduled(s, a);
    var before, after := s.tasks, Apply(s, a).tasks;
    if a.Revise? && Replan(s, a.version, a.newTasks).1 == Ok {
      assert after[j] == CarriedOver(before, a.newTasks[j]);
      LastCompletedOfDistinct(before, i);
    } else {
      assert i < |after| && after[i].props == before[i].props;
      OneIndex(after, i, j);
    }
  }

  lemma OneIndex(tasks: seq<TaskState>, i: nat, j: nat)
    requires DistinctIds(PropsOf(tasks)) && i < |tasks| && j < |tasks| && tasks[i].props.id == tasks[j].props.id
    ensures i == j
  {
    assert PropsOf(tasks)[i].id == PropsOf(tasks)[j].id;
  }

  lemma {:induction false} LastCompletedOfDistinct(tasks: seq<TaskState>, i: nat)
    requires DistinctIds(PropsOf(tasks)) && i < |tasks| && tasks[i].status == TaskCompleted
    ensures LastCompleted(tasks, tasks[i].props.id) == Some(tasks[i])
  {
    var last := |tasks| - 1;
    assert PropsOf(tasks)[last] == tasks[last].props && PropsOf(tasks)[i] == tasks[i].props;
    if i < last {
      assert PropsOf(tasks[..last]) == PropsOf(tasks)[..last];
      LastCompletedOfDistinct(tasks[..last], i);
    }
  }

  // ---- progress ----

  /** Every task is either still pending or completed. */
  predicate Settled(tasks: seq<TaskState>) {
    forall i :: 0 <= i < |tasks| ==> tasks[i].status == TaskPending || tasks[i].status == TaskCompleted
  }

  function PendingCount(tasks: seq<TaskState>): nat {
    if tasks == [] then 0
    else PendingCount(tasks[..|tasks| - 1]) + if tasks[|tasks| - 1].status == TaskPending then 1 else 0
  }

  lemma {:induction false} PendingCountZero(tasks: seq<TaskState>)
    ensures PendingCount(tasks) == 0 <==> forall i :: 0 <= i < |tasks| ==> tasks[i].status != TaskPending
  {
    if tasks != [] {
      PendingCountZero(tasks[..|tasks| - 1]);
    }
  }

  lemma {:induction false} PendingCountDrops(tasks: seq<TaskState>, i: nat, t: TaskState)
    requires i < |tasks| && tasks[i].status == TaskPending && t.status != TaskPending
    ensures PendingCount(tasks[i := t]) == PendingCount(tasks) - 1
  {
    var last := |tasks| - 1;
    if i < last {
      assert tasks[i := t][..last] == tasks[..last][i := t];
      PendingCountDrops(tasks[..last], i, t);
    } else {
      assert tasks[i := t][..last] == tasks[..last];
    }
  }

  ghost predicate Executable(s: MissionState) {
    s.status == Executing && Settled(s.tasks) && exists v :: WellFormedPlan(PropsOf(s.tasks), v)
  }

  /** Below every pending task of a valid plan there is one whose dependencies are completed. */
  lemma {:induction false} StartableBelow(tasks: seq<TaskState>, i: nat, n: nat) returns (k: nat)
    requires i < |tasks| && tasks[i].status == TaskPending
    requires Settled(tasks) && DistinctIds(PropsOf(tasks))
    requires Grounded(GraphOfTasks(tasks), tasks[i].props.id, n)
    ensures k < |tasks| && tasks[k].status == TaskPending && DependenciesCompleted(tasks, tasks[k].props)
    decreases n
  {
    var g := GraphOfTasks(tasks);
    GraphOfDistinct(PropsOf(tasks));
    assert PropsOf(tasks)[i] == tasks[i].props;
    if DependenciesCompleted(tasks, tasks[i].props) {
      k := i;
    } else {
      var d :| d in tasks[i].props.dependsOn && !CompletedTask(tasks, d);
      assert Grounded(g, d, n - 1);
      assert d in Ids(PropsOf(tasks));
      var j :| 0 <= j < |tasks| && PropsOf(tasks)[j].id == d;
      assert tasks[j].status == TaskPending;
      k := StartableBelow(tasks, j, n - 1);
    }
  }

  lemma FindTaskOfDistinct(tasks: seq<TaskState>, i: nat)
    requires i < |tasks| && DistinctIds(PropsOf(tasks))
    ensures FindTask(tasks, tasks[i].props.id) == i
  {
    var j := FindTask(tasks, tasks[i].props.id);
    var props := PropsOf(tasks);
    assert props[i] == tasks[i].props && (j < |tasks| ==> props[j] == tasks[j].props);
  }

  /** No deadlock: in an executing mission with a valid plan whose unfinished tasks are all
      pending, some task can be started. */
  lemma NoDeadlock(s: MissionState) returns (id: string)
    requires Executable(s) && PendingCount(s.tasks) > 0
    ensures StartTask(s, id).1 == Ok
  {
    PendingCountZero(s.tasks);
    var i :| 0 <= i < |s.tasks| && s.tasks[i].status == TaskPending;
    var props := PropsOf(s.tasks);
    var v :| WellFormedPlan(props, v);
    KnownDependenciesClose(props);
    GraphOfDistinct(props);
    assert props[i] == s.tasks[i].props;
    AcyclicIsGrounded(GraphOf(props), s.tasks[i].props.id);
    var k := StartableBelow(s.tasks, i, |GraphOf(props)|);
    FindTaskOfDistinct(s.tasks, k);
    id := s.tasks[k].props.id;
  }

  /** Start the task and, if that succeeds, complete it. */
  function Round(s: MissionState, id: string): (MissionState, Outcome) {
    var (started, ok) := StartTask(s, id);
    if ok == Refused then (s, Refused) else UpdateTask(started, id, CompleteWith(""))
  }

  lemma RoundFinishesOne(s: MissionState, id: string)
    requires Executable(s) && Round(s, id).1 == Ok
    ensures Executable(Round(s, id).0)
    ensures PendingCount(Round(s, id).0.tasks) == PendingCount(s.tasks) - 1
  {
    var i := FindTask(s.tasks, id);
    var started := StartTask(s, id).0;
    var v :| WellFormedPlan(PropsOf(s.tasks), v);
    assert PropsOf(started.tasks) == PropsOf(s.tasks);
    FindTaskOfDistinct(started.tasks, i);
    var t := s.tasks[i].(status := TaskCompleted, output := Some(""));
    assert Round(s, id).0.tasks == s.tasks[i := t];
    assert PropsOf(s.tasks[i := t]) == PropsOf(s.tasks);
    PendingCountDrops(s.tasks, i, t);
  }

  lemma StartedRoundCompletes(s: MissionState, id: string)
    requires Executable(s) && StartTask(s, id).1 == Ok
    ensures Round(s, id).1 == Ok
  {
    var i := FindTask(s.tasks, id);
    var started := StartTask(s, id).0;
    assert PropsOf(started.tasks) == PropsOf(s.tasks);
    FindTaskOfDistinct(started.tasks, i);
  }

  /** Every round of the schedule succeeds. */
  predicate Runs(s: MissionState, ids: seq<string>)
    decreases |ids|
  {
    ids == [] || (Round(s, ids[0]).1 == Ok && Runs(Round(s, ids[0]).0, ids[1..]))
  }

  function After(s: MissionState, ids: seq<string>): MissionState
    decreases |ids|
  {
    if ids == [] then s else After(Round(s, ids[0]).0, ids[1..])
  }

  /** Each round finishes exactly one task, so however the tasks are picked, a schedule
      that runs has everything completed exactly when it has one round per pending task. */
  lemma {:induction false} RoundsCountDown(s: MissionState, ids: seq<string>)
    requires Executable(s) && Runs(s, ids)
    ensures PendingCount(After(s, ids).tasks) == PendingCount(s.tasks) - |ids|
    ensures Executable(After(s, ids))
    decreases |ids|
  {
    if ids != [] {
      RoundFinishesOne(s, ids[0]);
      RoundsCountDown(Round(s, ids[0]).0, ids[1..]);
    }
  }

  /** Starting and completing whatever can be started finishes all n pending tasks in
      exactly n starts. */
  lemma {:induction false} PlanRunsToCompletion(s: MissionState) returns (ids: seq<string>)
    requires Executable(s)
    ensures |ids| == PendingCount(s.tasks) && Runs(s, ids)
    ensures forall i :: 0 <= i < |After(s, ids).tasks| ==> After(s, ids).tasks[i].status == TaskCompleted
    decreases PendingCount(s.tasks)
  {
    if PendingCount(s.tasks) == 0 {
      PendingCountZero(s.tasks);
      ids := [];
    } else {
      var id := NoDeadlock(s);
      StartedRoundCompletes(s, id);
      RoundFinishesOne(s, id);
      var rest := PlanRunsToCompletion(Round(s, id).0);
      ids := [id] + rest;
      assert ids[1..] == rest;
    }
  }
}
