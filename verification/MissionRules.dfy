/** The rules of a mission, told in plain fields: when it moves, which plans it accepts, and when its
    tasks are added, started and changed
    (packages/domain/src/mission/mission.ts:191-259, 351-633, mission-status.ts:15-28, mission-task.ts:62-74). */
module MissionRules {
  import opened Foundations
  import opened JsText
  import opened TaskGraph
  import opened MissionStatus
  import opened Mission
  import opened MissionRuns

  /** The first task with the id. */
  predicate FirstWith(tasks: seq<TaskState>, id: string, i: nat) {
    i < |tasks| && tasks[i].props.id == id && forall j :: 0 <= j < i ==> tasks[j].props.id != id
  }

  predicate PresentAndCompleted(tasks: seq<TaskState>, id: string) {
    exists j :: 0 <= j < |tasks| && tasks[j].props.id == id && tasks[j].status == TaskCompleted
  }

  predicate Startable(s: MissionState, id: string, i: nat) {
    && FirstWith(s.tasks, id, i)
    && s.status == Executing
    && (forall d :: d in s.tasks[i].props.dependsOn ==> PresentAndCompleted(s.tasks, d))
    && (s.tasks[i].status == TaskPending || s.tasks[i].status == TaskPaused || s.tasks[i].status == TaskAwaitingApproval)
  }

  /** The states differ in the i-th task alone. */
  predicate OnlyTask(before: MissionState, after: MissionState, i: nat) {
    && after.status == before.status && after.planVersion == before.planVersion && |after.tasks| == |before.tasks|
    && i < |before.tasks|
    && (forall j :: 0 <= j < |before.tasks| && j != i ==> after.tasks[j] == before.tasks[j])
  }

  /** A start is accepted if and only if the task exists, the mission is EXECUTING, every dependency
      is present and completed, and the task is pending, paused or awaiting approval. Then that task
      is RUNNING and nothing else has changed; a refusal changes nothing. */
  lemma StartExactly(s: MissionState, id: string)
    ensures var (after, outcome) := StartTask(s, id);
            && (outcome == Ok <==> exists i: nat :: Startable(s, id, i))
            && (outcome == Refused ==> after == s)
            && (forall i: nat :: Startable(s, id, i) ==> OnlyTask(s, after, i) && after.tasks[i] == s.tasks[i].(status := TaskRunning))
  {
    var i := FindTask(s.tasks, id);
    assert forall d :: CompletedTask(s.tasks, d) <==> PresentAndCompleted(s.tasks, d);
    if i < |s.tasks| { assert FirstWith(s.tasks, id, i); }
    assert StartTask(s, id).1 == Ok ==> Startable(s, id, i);
  }

  /** The statuses from which each update is accepted. */
  predicate Accepts(t: TaskStatus, u: TaskUpdate) {
    match u
    case CompleteWith(_) => t == TaskRunning
    case FailWith(_) => t == TaskRunning
    case TimeOut => t == TaskRunning
    case CancelIt => t == TaskPending || t == TaskAwaitingApproval || t == TaskPaused
    case AwaitApproval(_) => t == TaskRunning
  }

  /** An update is accepted if and only if the task exists and is in a status the update leads out of,
      whatever the status of the mission. Then its status, its output after an end by success or
      failure, its gate after a wait for approval, and nothing else has changed. */
  lemma UpdateExactly(s: MissionState, id: string, u: TaskUpdate, i: nat)
    requires FirstWith(s.tasks, id, i)
    ensures var (after, outcome) := UpdateTask(s, id, u);
            && (outcome == Ok <==> Accepts(s.tasks[i].status, u))
            && (outcome == Refused ==> after == s)
            && (outcome == Ok ==>
                  && OnlyTask(s, after, i)
                  && after.tasks[i].props == s.tasks[i].props
                  && after.tasks[i].status == (match u
                       case CompleteWith(_) => TaskCompleted
                       case FailWith(_) => TaskFailed
                       case TimeOut => TaskTimedOut
                       case CancelIt => TaskCancelled
                       case AwaitApproval(_) => TaskAwaitingApproval)
                  && after.tasks[i].output == (if u.CompleteWith? then Some(u.output) else if u.FailWith? then Some(u.reason) else s.tasks[i].output)
                  && after.tasks[i].approvalGateId == (if u.AwaitApproval? then Some(u.gate) else s.tasks[i].approvalGateId))
  {
    assert FindTask(s.tasks, id) == i;
  }

  /** An unknown task is neither started nor updated. */
  lemma UnknownTaskIsRefused(s: MissionState, id: string, u: TaskUpdate)
    requires forall i: nat :: !FirstWith(s.tasks, id, i)
    ensures StartTask(s, id) == (s, Refused) && UpdateTask(s, id, u) == (s, Refused)
  {
    var i := FindTask(s.tasks, id);
    if i < |s.tasks| { assert FirstWith(s.tasks, id, i); }
  }

  predicate RunningAt(s: MissionState, j: nat) {
    j < |s.tasks| && s.tasks[j].status == TaskRunning
  }

  lemma OnlyStartRuns(s: MissionState, a: Action, j: nat)
    requires RunningAt(Apply(s, a), j) && !RunningAt(s, j)
    ensures s.status == Executing && a.Begin? && FirstWith(s.tasks, a.id, j)
  {
    match a
    case Begin(id) => StartExactly(s, id);
    case _ =>
  }

  /** The state after the first n actions. */
  ghost function After(s: MissionState, actions: seq<Action>, n: nat): MissionState
    requires n <= |actions|
  {
    Run(s, actions[..n])
  }

  lemma {:induction false} RunSnoc(s: MissionState, actions: seq<Action>, a: Action)
    ensures Run(s, actions + [a]) == Apply(Run(s, actions), a)
    decreases |actions|
  {
    if actions == [] {
      assert [] + [a] == [a] && [a][1..] == [];
      assert Run(s, [a]) == Run(Apply(s, a), []);
    } else {
      assert (actions + [a])[0] == actions[0] && (actions + [a])[1..] == actions[1..] + [a];
      RunSnoc(Apply(s, actions[0]), actions[1..], a);
    }
  }

  /** In every run a task comes to be RUNNING only by a start of that very task, made while the
      mission was EXECUTING. */
  lemma TasksRunOnlyWhileExecuting(s: MissionState, actions: seq<Action>, n: nat, j: nat)
    requires n < |actions| && RunningAt(After(s, actions, n + 1), j) && !RunningAt(After(s, actions, n), j)
    ensures After(s, actions, n).status == Executing && actions[n].Begin? && FirstWith(After(s, actions, n).tasks, actions[n].id, j)
  {
    assert actions[..n + 1] == actions[..n] + [actions[n]];
    RunSnoc(s, actions[..n], actions[n]);
    OnlyStartRuns(After(s, actions, n), actions[n], j);
  }

  // ---- the mission's own moves ----

  /** By target: the statuses a mission may come from. */
  predicate MayCome(from: MissionStatus, to: MissionStatus) {
    match to
    case Draft => false
    case Approved => from == Draft
    case Scheduled => from == Approved
    case Planning => from == Approved || from == Scheduled
    case Executing => from == Planning || from == Paused || from == AwaitingApproval || from == Blocked
    case Paused => from == Planning || from == Executing
    case AwaitingApproval => from == Executing
    case Blocked => from == Executing
    case Completed => from == Executing
    case Failed => from == Executing || from == Blocked
    case Cancelled => from == Draft || from == Planning || from == Executing || from == Paused || from == AwaitingApproval
    case Archived => from == Completed || from == Failed || from == Cancelled
  }

  /** A move is accepted if and only if its target may come from the status; plan and tasks stay. */
  lemma MoveExactly(s: MissionState, to: MissionStatus)
    ensures var (after, outcome) := MoveMission(s, to);
            && (outcome == Ok <==> MayCome(s.status, to))
            && after == (if outcome == Ok then s.(status := to) else s)
  {
  }

  predicate Over(s: MissionStatus) {
    s == Completed || s == Failed || s == Cancelled || s == Archived
  }

  lemma OverStepIsFrozen(s: MissionState, a: Action)
    requires Over(s.status)
    ensures var after := Apply(s, a);
            && Over(after.status) && after.planVersion == s.planVersion && PropsOf(after.tasks) == PropsOf(s.tasks)
            && (forall j :: 0 <= j < |s.tasks| && after.tasks[j].status == TaskRunning ==> s.tasks[j].status == TaskRunning)
  {
    match a
    case Move(to) => MoveExactly(s, to);
    case Validate => MoveExactly(s, Executing);
    case Begin(id) => StartExactly(s, id);
    case _ =>
  }

  /** A mission that is completed, failed, cancelled or archived stays so in every run: no task is
      added, none starts, and its plan is never replaced. */
  lemma {:induction false} OverIsFrozen(s: MissionState, actions: seq<Action>)
    requires Over(s.status)
    ensures var later := Run(s, actions);
            && Over(later.status) && later.planVersion == s.planVersion && PropsOf(later.tasks) == PropsOf(s.tasks)
            && (forall j :: 0 <= j < |s.tasks| && later.tasks[j].status == TaskRunning ==> s.tasks[j].status == TaskRunning)
    decreases |actions|
  {
    if actions != [] {
      OverStepIsFrozen(s, actions[0]);
      assert |PropsOf(s.tasks)| == |PropsOf(Apply(s, actions[0]).tasks)|;
      OverIsFrozen(Apply(s, actions[0]), actions[1..]);
    }
  }

  // ---- additions and replans ----

  predicate SaysSomething(text: string) {
    exists i :: 0 <= i < |text| && !IsWhitespace(text[i])
  }

  /** A task is added if and only if the mission is not over, no task has its id or its idempotency
      key, and a capability, if it names one, is not blank; it then stands last, pending. */
  lemma AddExactly(s: MissionState, props: TaskProps)
    ensures var (after, outcome) := AddTask(s, props);
            && (outcome == Ok <==>
                  && !Over(s.status)
                  && (forall j :: 0 <= j < |s.tasks| ==> s.tasks[j].props.id != props.id)
                  && (forall j :: 0 <= j < |s.tasks| ==> s.tasks[j].props.idempotencyKey != props.idempotencyKey)
                  && (props.requiredCapability.Some? ==> SaysSomething(props.requiredCapability.value)))
            && (outcome == Refused ==> after == s)
            && (outcome == Ok ==>
                  && after.status == s.status && after.planVersion == s.planVersion
                  && after.tasks == s.tasks + [TaskState(props, TaskPending, None, props.approvalGateId)])
  {
  }

  /** What a task of a new plan brings along. */
  ghost predicate BringsAlong(before: seq<TaskState>, props: TaskProps, t: TaskState) {
    && t.props == props && t.approvalGateId == props.approvalGateId
    && (if PresentAndCompleted(before, props.id)
        then t.status == TaskCompleted && OutputOfLast(before, props.id, t.output)
        else t.status == TaskPending && t.output.None?)
  }

  /** The output of the last completed task with the id. */
  ghost predicate OutputOfLast(tasks: seq<TaskState>, id: string, output: Option<string>) {
    exists j: nat :: LastCompletedAt(tasks, id, j) && tasks[j].output == output
  }

  predicate LastCompletedAt(tasks: seq<TaskState>, id: string, j: nat) {
    && j < |tasks| && tasks[j].props.id == id && tasks[j].status == TaskCompleted
    && forall k :: j < k < |tasks| ==> tasks[k].props.id != id || tasks[k].status != TaskCompleted
  }

  lemma {:induction false} LastCompletedIndex(tasks: seq<TaskState>, id: string) returns (j: nat)
    requires LastCompleted(tasks, id).Some?
    ensures LastCompletedAt(tasks, id, j) && tasks[j] == LastCompleted(tasks, id).value
  {
    var n := |tasks| - 1;
    if tasks[n].props.id == id && tasks[n].status == TaskCompleted {
      j := n;
    } else {
      j := LastCompletedIndex(tasks[..n], id);
    }
  }

  lemma CarriedOverBringsAlong(before: seq<TaskState>, props: TaskProps)
    ensures BringsAlong(before, props, CarriedOver(before, props))
  {
    var last := LastCompleted(before, props.id);
    assert CompletedTask(before, props.id) <==> PresentAndCompleted(before, props.id);
    if last.Some? { var j := LastCompletedIndex(before, props.id); }
  }

  /** A replan is accepted if and only if the mission is not over, the version is positive and newer,
      and the new plan is well formed. It keeps the status, takes the version, and has one task for
      each of the new plan: completed with the output of its completed namesake, or pending. */
  lemma ReplanExactly(s: MissionState, version: int, newTasks: seq<TaskProps>)
    ensures var (after, outcome) := Replan(s, version, newTasks);
            && (outcome == Ok <==> !Over(s.status) && version > 0 && version > s.planVersion && WellFormedPlan(newTasks, version))
            && (outcome == Refused ==> after == s)
            && (outcome == Ok ==>
                  && after.status == s.status && after.planVersion == version && |after.tasks| == |newTasks|
                  && forall j :: 0 <= j < |newTasks| ==> BringsAlong(s.tasks, newTasks[j], after.tasks[j]))
  {
    var after := Replan(s, version, newTasks).0;
    if Replan(s, version, newTasks).1 == Ok {
      forall j | 0 <= j < |newTasks| ensures BringsAlong(s.tasks, newTasks[j], after.tasks[j]) {
        CarriedOverBringsAlong(s.tasks, newTasks[j]);
        assert after.tasks[j] == CarriedOver(s.tasks, newTasks[j]);
      }
    }
  }

  // ---- well-formed plans ----

  predicate DependsDirectly(tasks: seq<TaskProps>, a: string, b: string) {
    exists i :: 0 <= i < |tasks| && tasks[i].id == a && b in tasks[i].dependsOn
  }

  /** A chain of direct dependencies that comes back to its start. */
  predicate Circle(tasks: seq<TaskProps>, ids: seq<string>) {
    |ids| >= 2 && ids[0] == ids[|ids| - 1] && forall k :: 0 <= k < |ids| - 1 ==> DependsDirectly(tasks, ids[k], ids[k + 1])
  }

  predicate Known(tasks: seq<TaskProps>, id: string) {
    exists i :: 0 <= i < |tasks| && tasks[i].id == id
  }

  /** A plan is well formed if and only if its version is positive; its ids differ; every task names
      an agent and no blank capability; every dependency is a task of the plan; and no chain of
      dependencies comes back to its start. */
  lemma WellFormedExactly(tasks: seq<TaskProps>, planVersion: int)
    ensures WellFormedPlan(tasks, planVersion) <==>
            && planVersion > 0
            && (forall i, j :: 0 <= i < j < |tasks| ==> tasks[i].id != tasks[j].id)
            && (forall i :: 0 <= i < |tasks| ==> SaysSomething(tasks[i].agentId))
            && (forall i :: 0 <= i < |tasks| && tasks[i].requiredCapability.Some? ==> SaysSomething(tasks[i].requiredCapability.value))
            && (forall i, d :: 0 <= i < |tasks| && d in tasks[i].dependsOn ==> Known(tasks, d))
            && (forall ids :: !Circle(tasks, ids))
  {
    assert forall text :: SaysSomething(text) <==> !Blank(text);
    assert forall d :: d in Ids(tasks) <==> Known(tasks, d);
    if DistinctIds(tasks) {
      forall ids ensures Circle(tasks, ids) <==> Cycle(GraphOf(tasks), ids) {
        CircleIsCycle(tasks, ids);
      }
    }
  }

  lemma CircleIsCycle(tasks: seq<TaskProps>, ids: seq<string>)
    requires DistinctIds(tasks)
    ensures Circle(tasks, ids) <==> Cycle(GraphOf(tasks), ids)
  {
    GraphOfDistinct(tasks);
    forall a, b ensures DependsDirectly(tasks, a, b) <==> Edge(GraphOf(tasks), a, b) {
      if Edge(GraphOf(tasks), a, b) {
        assert a in Ids(tasks);
        var i :| 0 <= i < |tasks| && tasks[i].id == a;
      }
    }
  }
}
