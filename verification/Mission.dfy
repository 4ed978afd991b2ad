/** The mission aggregate (packages/domain/src/mission/mission.ts, mission-task.ts): a
    specification on values, and the classes that update themselves in place proved
    against it. Domain events and timestamps are not kept. */
module Mission {
  import opened Foundations
  import opened JsText
  import opened TaskGraph
  import opened MissionStatus

  // ---- specification ----

  datatype TaskState = TaskState(props: TaskProps, status: TaskStatus, output: Option<string>, approvalGateId: Option<string>)

  datatype MissionState = MissionState(status: MissionStatus, planVersion: int, tasks: seq<TaskState>)

  datatype Outcome = Ok | Refused

  function NewTask(props: TaskProps): TaskState {
    TaskState(props, TaskPending, None, props.approvalGateId)
  }

  function PropsOf(tasks: seq<TaskState>): seq<TaskProps> {
    seq(|tasks|, i requires 0 <= i < |tasks| => tasks[i].props)
  }

  function GraphOfTasks(tasks: seq<TaskState>): Graph {
    GraphOf(PropsOf(tasks))
  }

  /** Index of the first task with this id, or the number of tasks. */
  function FindTask(tasks: seq<TaskState>, id: string): (i: nat)
    ensures i <= |tasks|
    ensures i < |tasks| ==> tasks[i].props.id == id
    ensures forall j :: 0 <= j < i ==> tasks[j].props.id != id
  {
    if tasks == [] then 0 else if tasks[0].props.id == id then 0 else 1 + FindTask(tasks[1..], id)
  }

  predicate CompletedTask(tasks: seq<TaskState>, id: string) {
    exists i :: 0 <= i < |tasks| && tasks[i].props.id == id && tasks[i].status == TaskCompleted
  }

  predicate DependenciesCompleted(tasks: seq<TaskState>, t: TaskProps) {
    forall d :: d in t.dependsOn ==> CompletedTask(tasks, d)
  }

  function MoveMission(s: MissionState, to: MissionStatus): (MissionState, Outcome) {
    if CanTransitionMission(s.status, to) then (s.(status := to), Ok) else (s, Refused)
  }

  ghost function PlanValid(s: MissionState): (MissionState, Outcome) {
    if WellFormedPlan(PropsOf(s.tasks), s.planVersion) then MoveMission(s, Executing) else (s, Refused)
  }

  predicate MayAdd(s: MissionState, props: TaskProps) {
    && !Terminal(s.status)
    && (forall i :: 0 <= i < |s.tasks| ==> s.tasks[i].props.id != props.id)
    && (forall i :: 0 <= i < |s.tasks| ==> s.tasks[i].props.idempotencyKey != props.idempotencyKey)
    && (props.requiredCapability.Some? ==> !Blank(props.requiredCapability.value))
  }

  function AddTask(s: MissionState, props: TaskProps): (MissionState, Outcome) {
    if MayAdd(s, props) then (s.(tasks := s.tasks + [NewTask(props)]), Ok) else (s, Refused)
  }

  function StartTask(s: MissionState, id: string): (MissionState, Outcome) {
    var i := FindTask(s.tasks, id);
    if i == |s.tasks| || s.status != Executing || !DependenciesCompleted(s.tasks, s.tasks[i].props)
       || !CanTransitionTask(s.tasks[i].status, TaskRunning) then (s, Refused)
    else (s.(tasks := s.tasks[i := s.tasks[i].(status := TaskRunning)]), Ok)
  }

  /** The other task methods: move one task, and note what the method notes. */
  datatype TaskUpdate =
    | CompleteWith(output: string)
    | FailWith(reason: string)
    | TimeOut
    | CancelIt
    | AwaitApproval(gate: string)

  function Target(u: TaskUpdate): TaskStatus {
    match u
    case CompleteWith(_) => TaskCompleted
    case FailWith(_) => TaskFailed
    case TimeOut => TaskTimedOut
    case CancelIt => TaskCancelled
    case AwaitApproval(_) => TaskAwaitingApproval
  }

  function Noted(t: TaskState, u: TaskUpdate): TaskState {
    match u
    case CompleteWith(output) => t.(output := Some(output))
    case FailWith(reason) => t.(output := Some(reason))
    case AwaitApproval(gate) => t.(approvalGateId := Some(gate))
    case _ => t
  }

  function UpdateTask(s: MissionState, id: string, u: TaskUpdate): (MissionState, Outcome) {
    var i := FindTask(s.tasks, id);
    if i == |s.tasks| || !CanTransitionTask(s.tasks[i].status, Target(u)) then (s, Refused)
    else (s.(tasks := s.tasks[i := Noted(s.tasks[i].(status := Target(u)), u)]), Ok)
  }

  /** Last completed task with this id: the map of completed tasks keeps the later one. */
  function LastCompleted(tasks: seq<TaskState>, id: string): (r: Option<TaskState>)
    ensures r.Some? ==> r.value in tasks && r.value.props.id == id && r.value.status == TaskCompleted
    ensures r.None? <==> !CompletedTask(tasks, id)
  {
    if tasks == [] then None
    else
      var last := tasks[|tasks| - 1];
      if last.props.id == id && last.status == TaskCompleted then Some(last)
      else LastCompleted(tasks[..|tasks| - 1], id)
  }

  /** A task of the new plan: new, unless a task with its id was completed before. */
  function CarriedOver(before: seq<TaskState>, props: TaskProps): TaskState {
    var done := LastCompleted(before, props.id);
    if done.Some? then NewTask(props).(status := TaskCompleted, output := done.value.output) else NewTask(props)
  }

  function Replanned(before: seq<TaskState>, newTasks: seq<TaskProps>): (r: seq<TaskState>)
    ensures |r| == |newTasks|
    ensures forall i :: 0 <= i < |r| ==> r[i] == CarriedOver(before, newTasks[i])
  {
    seq(|newTasks|, i requires 0 <= i < |newTasks| => CarriedOver(before, newTasks[i]))
  }

  function ReplanIf(s: MissionState, version: int, newTasks: seq<TaskProps>, accepted: bool): (MissionState, Outcome) {
    if Terminal(s.status) || version <= 0 || version <= s.planVersion || !accepted then (s, Refused)
    else (s.(planVersion := version, tasks := Replanned(s.tasks, newTasks)), Ok)
  }

  ghost function Replan(s: MissionState, version: int, newTasks: seq<TaskProps>): (MissionState, Outcome) {
    ReplanIf(s, version, newTasks, WellFormedPlan(newTasks, version))
  }

  // ---- the aggregate ----

  class MissionTask {
    const props: TaskProps
    var status: TaskStatus
    var output: Option<string>
    var approvalGateId: Option<string>

    constructor (props: TaskProps)
      ensures this.props == props && View() == NewTask(props)
    {
      this.props := props;
      status, output, approvalGateId := TaskPending, None, props.approvalGateId;
    }

    ghost function View(): TaskState
      reads this
    {
      TaskState(props, status, output, approvalGateId)
    }

    method TransitionStatus(to: TaskStatus) returns (ok: bool)
      modifies this`status
      ensures ok == CanTransitionTask(old(status), to)
      ensures status == if ok then to else old(status)
    {
      ok := CanTransitionTask(status, to);
      if ok {
        status := to;
      }
    }
  }

  ghost function Views(ts: seq<MissionTask>): (r: seq<TaskState>)
    reads ts
    ensures |r| == |ts|
    ensures forall i :: 0 <= i < |ts| ==> r[i] == ts[i].View()
  {
    seq(|ts|, i requires 0 <= i < |ts| reads ts => ts[i].View())
  }

  lemma UpdatedTwice<T>(s: seq<T>, i: nat, x: T, y: T)
    requires i < |s|
    ensures s[i := x][i := y] == s[i := y]
  {
  }

  lemma ViewsOfSnoc(ts: seq<MissionTask>, t: MissionTask)
    ensures Views(ts + [t]) == Views(ts) + [t.View()]
  {
    var r := Views(ts) + [t.View()];
    assert forall i :: 0 <= i < |r| ==> Views(ts + [t])[i] == r[i];
  }

  class MissionAggregate {
    var status: MissionStatus
    var planVersion: int
    var tasks: seq<MissionTask>

    ghost predicate Valid()
      reads this
    {
      forall i, j :: 0 <= i < j < |tasks| ==> tasks[i] != tasks[j]
    }

    ghost function View(): MissionState
      reads this, tasks
    {
      MissionState(status, planVersion, Views(tasks))
    }

    constructor (planVersion: int)
      ensures Valid() && View() == MissionState(Draft, planVersion, [])
    {
      status, this.planVersion, tasks := Draft, planVersion, [];
    }

    /** approve, schedule, start, pause, resume, cancel, complete, fail, archive, block and
        unblock are this transition with their own target. */
    method TransitionTo(target: MissionStatus) returns (ok: bool)
      requires Valid()
      modifies this`status
      ensures Valid() && (View(), if ok then Ok else Refused) == MoveMission(old(View()), target)
    {
      ok := CanTransitionMission(status, target);
      if ok {
        status := target;
      }
    }

    method PlanIsValid() returns (ok: bool)
      requires Valid()
      modifies this`status
      ensures Valid() && (View(), if ok then Ok else Refused) == PlanValid(old(View()))
    {
      var props := TaskPropsList(tasks);
      ok := Accepts(props, planVersion);
      if ok {
        ok := TransitionTo(Executing);
      }
    }

    /** Whether some task has the id or the idempotency key. */
    method Known(props: TaskProps) returns (known: bool)
      ensures !known <==> forall i :: 0 <= i < |tasks| ==> tasks[i].props.id != props.id && tasks[i].props.idempotencyKey != props.idempotencyKey
    {
      for i := 0 to |tasks|
        invariant forall j :: 0 <= j < i ==> tasks[j].props.id != props.id && tasks[j].props.idempotencyKey != props.idempotencyKey
      {
        if tasks[i].props.id == props.id || tasks[i].props.idempotencyKey == props.idempotencyKey {
          return true;
        }
      }
      known := false;
    }

    method AddNewTask(props: TaskProps) returns (ok: bool)
      requires Valid()
      modifies this`tasks
      ensures Valid() && (View(), if ok then Ok else Refused) == AddTask(old(View()), props)
      ensures ok ==> fresh(tasks[|tasks| - 1]) && tasks[..|tasks| - 1] == old(tasks)
    {
      ghost var before := Views(tasks);
      var known := Known(props);
      assert known <==> !forall i :: 0 <= i < |before| ==> before[i].props.id != props.id && before[i].props.idempotencyKey != props.idempotencyKey by {
        assert forall i :: 0 <= i < |tasks| ==> before[i].props == tasks[i].props;
      }
      if Terminal(status) || known || (props.requiredCapability.Some? && Blank(props.requiredCapability.value)) {
        return false;
      }
      var task := new MissionTask(props);
      ViewsOfSnoc(tasks, task);
      tasks := tasks + [task];
      ok := true;
    }

    method Find(id: string) returns (i: nat)
      requires Valid()
      ensures i == FindTask(View().tasks, id) && i <= |tasks|
    {
      i := 0;
      while i < |tasks| && tasks[i].props.id != id
        invariant i <= |tasks|
        invariant forall j :: 0 <= j < i ==> tasks[j].props.id != id
      {
        i := i + 1;
      }
    }

    method AreCompleted(t: TaskProps) returns (all: bool)
      requires Valid()
      ensures all == DependenciesCompleted(View().tasks, t)
    {
      ghost var views := Views(tasks);
      var deps := t.dependsOn;
      for k := 0 to |deps|
        invariant forall m :: 0 <= m < k ==> CompletedTask(views, deps[m])
      {
        var found := false;
        for i := 0 to |tasks|
          invariant found <==> exists j :: 0 <= j < i && views[j].props.id == deps[k] && views[j].status == TaskCompleted
        {
          if tasks[i].props.id == deps[k] && tasks[i].status == TaskCompleted {
            found := true;
          }
        }
        if !found {
          assert deps[k] in deps && !CompletedTask(views, deps[k]);
          return false;
        }
      }
      all := true;
    }

    /** Move the i-th task to another status if the table allows it. */
    method MoveAt(i: nat, to: TaskStatus) returns (ok: bool)
      requires Valid() && i < |tasks|
      modifies tasks[i]
      ensures ok == CanTransitionTask(old(tasks[i].status), to)
      ensures Views(tasks) == if ok then old(Views(tasks))[i := old(Views(tasks))[i].(status := to)] else old(Views(tasks))
    {
      ok := tasks[i].TransitionStatus(to);
    }

    /** Note what an update brings along on the i-th task. */
    method NoteAt(i: nat, u: TaskUpdate)
      requires Valid() && i < |tasks|
      modifies tasks[i]
      ensures Views(tasks) == old(Views(tasks))[i := Noted(old(Views(tasks))[i], u)]
    {
      match u
      case CompleteWith(output) => tasks[i].output := Some(output);
      case FailWith(reason) => tasks[i].output := Some(reason);
      case AwaitApproval(gate) => tasks[i].approvalGateId := Some(gate);
      case _ =>
    }

    method Start(id: string) returns (ok: bool)
      requires Valid()
      modifies tasks
      ensures Valid() && (View(), if ok then Ok else Refused) == StartTask(old(View()), id)
    {
      var i := Find(id);
      if i == |tasks| || status != Executing {
        return false;
      }
      var ready := AreCompleted(tasks[i].props);
      if !ready {
        return false;
      }
      ok := MoveAt(i, TaskRunning);
    }

    /** completeTask, failTask, timeoutTask, cancelTask and markTaskAwaitingApproval. */
    method Update(id: string, u: TaskUpdate) returns (ok: bool)
      requires Valid()
      modifies tasks
      ensures Valid() && (View(), if ok then Ok else Refused) == UpdateTask(old(View()), id, u)
    {
      var i := Find(id);
      if i == |tasks| {
        return false;
      }
      ghost var before := Views(tasks);
      ghost var moved := before[i].(status := Target(u));
      ok := MoveAt(i, Target(u));
      if ok {
        NoteAt(i, u);
        UpdatedTwice(before, i, moved, Noted(moved, u));
      }
    }

    /** A task of the new plan, with the status and output of its completed namesake, if any. */
    method CarryOver(props: TaskProps) returns (task: MissionTask)
      requires Valid()
      ensures fresh(task) && task.View() == CarriedOver(View().tasks, props)
    {
      var done := FindCompleted(props.id);
      var existing := done < |tasks|;
      var output := if existing then tasks[done].output else None;
      ghost var carried := CarriedOver(View().tasks, props);
      assert carried == if existing then NewTask(props).(status := TaskCompleted, output := output) else NewTask(props);
      task := new MissionTask(props);
      if existing {
        task.status, task.output := TaskCompleted, output;
      }
      assert task.View() == carried;
    }

    method CarryOverAll(newTasks: seq<TaskProps>) returns (made: seq<MissionTask>)
      requires Valid()
      ensures fresh(set t | t in made)
      ensures forall i, j :: 0 <= i < j < |made| ==> made[i] != made[j]
      ensures Views(made) == Replanned(View().tasks, newTasks)
    {
      made := [];
      for k := 0 to |newTasks|
        invariant |made| == k && fresh(set t | t in made)
        invariant forall i, j :: 0 <= i < j < k ==> made[i] != made[j]
        invariant forall i :: 0 <= i < k ==> made[i].View() == CarriedOver(View().tasks, newTasks[i])
      {
        var task := CarryOver(newTasks[k]);
        made := made + [task];
      }
    }

    /** Replace plan and tasks, given the verdict on the new task graph. Carried-over tasks
        are new objects; a refusal changes nothing. */
    method Install(version: int, newTasks: seq<TaskProps>, accepted: bool) returns (ok: bool)
      requires Valid()
      modifies this`planVersion, this`tasks
      ensures Valid() && (View(), if ok then Ok else Refused) == ReplanIf(old(View()), version, newTasks, accepted)
      ensures ok ==> fresh(set t | t in tasks)
    {
      if Terminal(status) || version <= 0 || version <= planVersion {
        return false;
      }
      var made := CarryOverAll(newTasks);
      if !accepted {
        return false;
      }
      planVersion, tasks := version, made;
      ok := true;
    }

    method ReplanWith(version: int, newTasks: seq<TaskProps>) returns (ok: bool)
      requires Valid()
      modifies this`planVersion, this`tasks
      ensures Valid() && (View(), if ok then Ok else Refused) == Replan(old(View()), version, newTasks)
      ensures ok ==> fresh(set t | t in tasks)
    {
      var accepted := Accepts(newTasks, version);
      ok := Install(version, newTasks, accepted);
    }

    /** The last completed task with this id, or the number of tasks. */
    method FindCompleted(id: string) returns (i: nat)
      requires Valid()
      ensures i <= |tasks|
      ensures if i < |tasks| then LastCompleted(View().tasks, id) == Some(View().tasks[i])
              else LastCompleted(View().tasks, id).None?
    {
      ghost var views := Views(tasks);
      i := |tasks|;
      for k := 0 to |tasks|
        invariant i == |tasks| || i < k
        invariant LastCompleted(views[..k], id) == if i == |tasks| then None else Some(views[i])
      {
        assert views[..k + 1][..k] == views[..k];
        if tasks[k].props.id == id && tasks[k].status == TaskCompleted {
          i := k;
        }
      }
      assert views[..|tasks|] == views;
    }
  }

  method Accepts(tasks: seq<TaskProps>, planVersion: int) returns (ok: bool)
    ensures ok == WellFormedPlan(tasks, planVersion)
  {
    var error := ValidateTaskGraph(tasks, planVersion);
    ok := error.None?;
  }

  method TaskPropsList(tasks: seq<MissionTask>) returns (props: seq<TaskProps>)
    ensures props == PropsOf(Views(tasks))
  {
    props := [];
    for i := 0 to |tasks|
      invariant |props| == i && forall j :: 0 <= j < i ==> props[j] == tasks[j].props
    {
      props := props + [tasks[i].props];
    }
  }
}
