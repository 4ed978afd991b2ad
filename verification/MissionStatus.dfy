/** Transition tables of missions and tasks (packages/domain/src/mission/mission-status.ts). */
module MissionStatus {

  datatype MissionStatus =
    | Draft | Approved | Scheduled | Planning | Executing | Paused | AwaitingApproval
    | Blocked | Completed | Failed | Cancelled | Archived

  function MissionTargets(from: MissionStatus): set<MissionStatus> {
    match from
    case Draft => {Approved, Cancelled}
    case Approved => {Scheduled, Planning}
    case Scheduled => {Planning}
    case Planning => {Executing, Paused, Cancelled}
    case Executing => {Paused, AwaitingApproval, Blocked, Completed, Failed, Cancelled}
    case Paused => {Executing, Cancelled}
    case AwaitingApproval => {Executing, Cancelled}
    case Blocked => {Executing, Failed}
    case Completed => {Archived}
    case Failed => {Archived}
    case Cancelled => {Archived}
    case Archived => {}
  }

  predicate Terminal(s: MissionStatus) {
    s == Completed || s == Failed || s == Cancelled || s == Archived
  }

  datatype TaskStatus =
    | TaskPending | TaskRunning | TaskAwaitingApproval | TaskPaused
    | TaskCompleted | TaskFailed | TaskCancelled | TaskTimedOut

  function TaskTargets(from: TaskStatus): set<TaskStatus> {
    match from
    case TaskPending => {TaskRunning, TaskCancelled}
    case TaskRunning => {TaskAwaitingApproval, TaskPaused, TaskCompleted, TaskFailed, TaskTimedOut}
    case TaskAwaitingApproval => {TaskRunning, TaskCancelled}
    case TaskPaused => {TaskRunning, TaskCancelled}
    case TaskCompleted => {}
    case TaskFailed => {}
    case TaskCancelled => {}
    case TaskTimedOut => {}
  }

  predicate CanTransitionMission(from: MissionStatus, to: MissionStatus) {
    to in MissionTargets(from)
  }

  predicate CanTransitionTask(from: TaskStatus, to: TaskStatus) {
    to in TaskTargets(from)
  }
}
