/** An outreach sequence: its steps in order, its status table and its event log
    (packages/domain/src/outreach/sequence.ts:38-273, sequence-status.ts:12-26 and
    packages/domain/src/aggregate/aggregate-root.ts:8-54). Times are numbers. */
module OutreachSequence {
  import opened Foundations

  datatype Status = Draft | PendingApproval | Approved | Running | Waiting | Paused | Completed | Cancelled | Failed

  function Transitions(from: Status): set<Status> {
    match from
    case Draft => {PendingApproval, Cancelled}
    case PendingApproval => {Approved, Cancelled}
    case Approved => {Running, Cancelled}
    case Running => {Waiting, Paused, Completed, Cancelled, Failed}
    case Waiting => {Running, Paused, Completed, Cancelled, Failed}
    case Paused => {Running, Cancelled}
    case _ => {}
  }

  /** Steps appear in events by their own step numbers. */
  datatype Event =
    | Created(stepCount: nat)
    | StatusChanged(from: Status, to: Status)
    | StepStarted(stepNumber: int)
    | StepCompleted(stepNumber: int, nextStepNumber: Option<int>, nextDueAt: Option<int>)
    | StepFailed(stepNumber: int, retryable: bool)
    | WorkflowLinked(workflowId: string)

  /** `version` and `loadedVersion` as the aggregate root keeps them; `steps` holds step numbers. */
  datatype Sequence = Sequence(
    steps: seq<int>,
    status: Status,
    currentStepIndex: int,
    nextDueAt: Option<int>,
    responseDeadlineAt: Option<int>,
    workflowId: Option<string>,
    version: int,
    loadedVersion: Option<int>,
    events: seq<Event>)

  datatype Op =
    | SubmitForApproval
    | Approve
    | Reject
    | Start
    | StartStep(scheduledAt: int)
    | CompleteStep(dueAt: Option<int>)
    | FailStep(retryable: bool)
    | Pause
    | Resume
    | WaitForResponse(deadline: int)
    | ContinueAfterResponse
    | LinkWorkflow(id: string)
    | Cancel

  /** `Crashed` is an exception from looking up a step that is not there. */
  datatype Reply = Done | Refused | Crashed

  datatype Outcome = Outcome(sequence: Sequence, reply: Reply)

  function Emitted(s: Sequence, event: Event): Sequence {
    s.(events := s.events + [event], version := s.version + 1)
  }

  function Transition(s: Sequence, to: Status): Outcome {
    if to in Transitions(s.status) then Outcome(Emitted(s.(status := to), StatusChanged(s.status, to)), Done) else Outcome(s, Refused)
  }

  predicate HasStep(s: Sequence, index: int) {
    0 <= index < |s.steps|
  }

  function StepStartedBy(s: Sequence, scheduledAt: int): Outcome {
    if s.status != Running || s.currentStepIndex >= |s.steps| || (s.nextDueAt.Some? && scheduledAt < s.nextDueAt.value) then Outcome(s, Refused)
    else if !HasStep(s, s.currentStepIndex) then Outcome(s, Crashed)
    else Outcome(Emitted(s, StepStarted(s.steps[s.currentStepIndex])), Done)
  }

  function StepCompletedBy(s: Sequence, dueAt: Option<int>): Outcome {
    if s.status != Running then Outcome(s, Refused)
    else
      var index := s.currentStepIndex;
      var moved := s.(currentStepIndex := index + 1, nextDueAt := dueAt);
      if !HasStep(s, index) then Outcome(moved, Crashed)
      else
        var more := index + 1 < |s.steps|;
        var done := Emitted(moved, StepCompleted(s.steps[index], if more then Some(s.steps[index + 1]) else None, dueAt));
        if more then Outcome(done, Done) else Transition(done, Completed)
  }

  function StepFailedBy(s: Sequence, retryable: bool): Outcome {
    if s.status != Running then Outcome(s, Refused)
    else if !HasStep(s, s.currentStepIndex) then Outcome(s, Crashed)
    else
      var failed := Emitted(s, StepFailed(s.steps[s.currentStepIndex], retryable));
      if retryable then Outcome(failed, Done) else Transition(failed, Failed)
  }

  function Apply(s: Sequence, op: Op): Outcome {
    match op
    case SubmitForApproval => Transition(s, PendingApproval)
    case Approve => Transition(s, Approved)
    case Reject => Transition(s, Cancelled)
    case Start => Transition(s, Running)
    case StartStep(scheduledAt) => StepStartedBy(s, scheduledAt)
    case CompleteStep(dueAt) => StepCompletedBy(s, dueAt)
    case FailStep(retryable) => StepFailedBy(s, retryable)
    case Pause => Transition(s, Paused)
    case Resume => Transition(s, Running)
    case WaitForResponse(deadline) =>
      if s.status != Running then Outcome(s, Refused) else Transition(s.(responseDeadlineAt := Some(deadline)), Waiting)
    case ContinueAfterResponse => Transition(s.(responseDeadlineAt := None), Running)
    case LinkWorkflow(id) =>
      if Given(s.workflowId) && s.workflowId != Some(id) then Outcome(s, Refused)
      else Outcome(Emitted(s.(workflowId := Some(id)), WorkflowLinked(id)), Done)
    case Cancel => Transition(s, Cancelled)
  }

  // ---- runs ----

  function Run(s: Sequence, ops: seq<Op>): Sequence
    decreases |ops|
  {
    if ops == [] then s else Run(Apply(s, ops[0]).sequence, ops[1..])
  }

  predicate NeverCrashes(s: Sequence, ops: seq<Op>)
    decreases |ops|
  {
    ops != [] ==> Apply(s, ops[0]).reply != Crashed && NeverCrashes(Apply(s, ops[0]).sequence, ops[1..])
  }

  /** The step numbers of the step-completed events, in order. */
  function CompletedSteps(events: seq<Event>): seq<int> {
    if events == [] then []
    else
      var last := events[|events| - 1];
      CompletedSteps(events[..|events| - 1]) + (if last.StepCompleted? then [last.stepNumber] else [])
  }

  /** COMPLETED exactly at the end of the steps, and the index in range before. */
  predicate Placed(s: Sequence) {
    && 0 <= s.currentStepIndex <= |s.steps|
    && (s.status == Completed <==> s.currentStepIndex == |s.steps|)
  }

  /** From `s`, later: the same steps, each completed step logged once in order, each event counted. */
  predicate Progressed(s: Sequence, later: Sequence) {
    && later.steps == s.steps
    && later.loadedVersion == s.loadedVersion
    && 0 <= s.currentStepIndex <= later.currentStepIndex <= |s.steps|
    && CompletedSteps(later.events) == CompletedSteps(s.events) + s.steps[s.currentStepIndex..later.currentStepIndex]
    && later.version - s.version == |later.events| - |s.events|
    && s.events <= later.events
  }

  lemma EmittedSteps(s: Sequence, event: Event)
    ensures CompletedSteps(Emitted(s, event).events) == CompletedSteps(s.events) + if event.StepCompleted? then [event.stepNumber] else []
  {
    assert Emitted(s, event).events[..|s.events|] == s.events;
  }

  lemma TransitionProgresses(s: Sequence, to: Status)
    requires Placed(s) && (to == Completed ==> s.currentStepIndex == |s.steps|)
    requires to != Completed ==> s.currentStepIndex < |s.steps| || to !in Transitions(s.status)
    ensures Placed(Transition(s, to).sequence) && Progressed(s, Transition(s, to).sequence)
  {
    EmittedSteps(s.(status := to), StatusChanged(s.status, to));
  }

  /** The step-completed event of the step at the index, and the move past it. */
  function StepPassed(s: Sequence, dueAt: Option<int>): Sequence
    requires HasStep(s, s.currentStepIndex)
  {
    var index := s.currentStepIndex;
    Emitted(s.(currentStepIndex := index + 1, nextDueAt := dueAt),
            StepCompleted(s.steps[index], if index + 1 < |s.steps| then Some(s.steps[index + 1]) else None, dueAt))
  }

  lemma StepPassedProgresses(s: Sequence, dueAt: Option<int>)
    requires HasStep(s, s.currentStepIndex)
    ensures Progressed(s, StepPassed(s, dueAt))
  {
    var index := s.currentStepIndex;
    EmittedSteps(s.(currentStepIndex := index + 1, nextDueAt := dueAt),
                 StepCompleted(s.steps[index], if index + 1 < |s.steps| then Some(s.steps[index + 1]) else None, dueAt));
    assert s.steps[index..index + 1] == [s.steps[index]];
  }

  lemma FinishProgresses(s: Sequence)
    requires s.status == Running && s.currentStepIndex == |s.steps|
    ensures var done := Transition(s, Completed);
            done.reply == Done && Placed(done.sequence) && Progressed(s, done.sequence)
  {
    EmittedSteps(s.(status := Completed), StatusChanged(Running, Completed));
  }

  lemma CompletionProgresses(s: Sequence, dueAt: Option<int>)
    requires Placed(s)
    ensures var r := StepCompletedBy(s, dueAt);
            Placed(r.sequence) && Progressed(s, r.sequence) && r.reply != Crashed
  {
    if s.status == Running {
      StepPassedProgresses(s, dueAt);
      if s.currentStepIndex + 1 == |s.steps| {
        FinishProgresses(StepPassed(s, dueAt));
        ProgressComposes(s, StepPassed(s, dueAt), Transition(StepPassed(s, dueAt), Completed).sequence);
      }
    }
  }

  lemma FailureProgresses(s: Sequence, retryable: bool)
    requires Placed(s)
    ensures var r := StepFailedBy(s, retryable);
            Placed(r.sequence) && Progressed(s, r.sequence) && r.reply != Crashed
  {
    if s.status == Running {
      var failed := Emitted(s, StepFailed(s.steps[s.currentStepIndex], retryable));
      EmittedSteps(s, StepFailed(s.steps[s.currentStepIndex], retryable));
      EmittedSteps(failed.(status := Failed), StatusChanged(Running, Failed));
    }
  }

  /** The target of the calls that only move by the table. */
  function Target(op: Op): Option<Status> {
    match op
    case SubmitForApproval => Some(PendingApproval)
    case Approve => Some(Approved)
    case Pause => Some(Paused)
    case Start => Some(Running)
    case Resume => Some(Running)
    case Reject => Some(Cancelled)
    case Cancel => Some(Cancelled)
    case _ => None
  }

  lemma MoveProgresses(s: Sequence, op: Op)
    requires Placed(s) && Target(op).Some?
    ensures Apply(s, op) == Transition(s, Target(op).value)
    ensures Placed(Apply(s, op).sequence) && Progressed(s, Apply(s, op).sequence)
  {
    TransitionProgresses(s, Target(op).value);
  }

  lemma WaitProgresses(s: Sequence, op: Op)
    requires Placed(s) && (op.WaitForResponse? || op.ContinueAfterResponse?)
    ensures Placed(Apply(s, op).sequence) && Progressed(s, Apply(s, op).sequence)
  {
    if op.WaitForResponse? {
      TransitionProgresses(s.(responseDeadlineAt := Some(op.deadline)), Waiting);
    } else {
      TransitionProgresses(s.(responseDeadlineAt := None), Running);
    }
  }

  lemma NoteProgresses(s: Sequence, op: Op)
    requires Placed(s) && (op.StartStep? || op.LinkWorkflow?)
    ensures Placed(Apply(s, op).sequence) && Progressed(s, Apply(s, op).sequence)
    ensures Apply(s, op).reply != Crashed
  {
    if op.LinkWorkflow? {
      EmittedSteps(s.(workflowId := Some(op.id)), WorkflowLinked(op.id));
    } else if s.status == Running {
      EmittedSteps(s, StepStarted(s.steps[s.currentStepIndex]));
    }
  }

  lemma StepProgresses(s: Sequence, op: Op)
    requires Placed(s)
    ensures Placed(Apply(s, op).sequence) && Progressed(s, Apply(s, op).sequence)
    ensures Apply(s, op).reply != Crashed
  {
    if Target(op).Some? {
      MoveProgresses(s, op);
    } else if op.WaitForResponse? || op.ContinueAfterResponse? {
      WaitProgresses(s, op);
    } else if op.StartStep? || op.LinkWorkflow? {
      NoteProgresses(s, op);
    } else if op.CompleteStep? {
      CompletionProgresses(s, op.dueAt);
    } else {
      FailureProgresses(s, op.retryable);
    }
  }

  lemma ProgressComposes(a: Sequence, b: Sequence, c: Sequence)
    requires Progressed(a, b) && Progressed(b, c)
    ensures Progressed(a, c)
  {
    assert a.steps[a.currentStepIndex..b.currentStepIndex] + a.steps[b.currentStepIndex..c.currentStepIndex] ==
           a.steps[a.currentStepIndex..c.currentStepIndex];
  }

  /** Main theorem: in every run from a placed sequence no step lookup fails; the sequence is
      COMPLETED exactly when the index has reached the number of steps; the step-completed
      events list exactly the steps passed, in order; and the version grows by the events emitted. */
  lemma {:induction false} RunsProgress(s: Sequence, ops: seq<Op>)
    requires Placed(s)
    ensures NeverCrashes(s, ops) && Placed(Run(s, ops)) && Progressed(s, Run(s, ops))
    decreases |ops|
  {
    if ops != [] {
      var next := Apply(s, ops[0]).sequence;
      StepProgresses(s, ops[0]);
      RunsProgress(next, ops[1..]);
      ProgressComposes(s, next, Run(next, ops[1..]));
    }
  }

  datatype Protection = Protected | LegacyUnavailable

  /** What a caller of `create` supplies. */
  datatype Props = Props(
    contactId: string,
    recipientFingerprint: Option<string>,
    recipientCiphertext: Option<string>,
    protection: Protection,
    campaignRecipientFingerprint: Option<string>,
    steps: seq<int>,
    currentStepIndex: Option<int>,
    nextDueAt: Option<int>,
    responseDeadlineAt: Option<int>,
    workflowId: Option<string>)

  /** A protected recipient has a fingerprint and a ciphertext, a legacy one neither. */
  predicate RecipientInOrder(p: Props) {
    if p.protection == Protected then Given(p.recipientFingerprint) && Given(p.recipientCiphertext)
    else !Given(p.recipientFingerprint) && !Given(p.recipientCiphertext)
  }

  predicate Creatable(p: Props) {
    && p.contactId != ""
    && RecipientInOrder(p)
    && (p.campaignRecipientFingerprint.Some? ==> p.campaignRecipientFingerprint == p.recipientFingerprint)
    && p.steps != []
  }

  /** The starting index is the caller's, or zero. */
  function CreatedFrom(p: Props): Sequence {
    Sequence(p.steps, Draft, if p.currentStepIndex.Some? then p.currentStepIndex.value else 0, p.nextDueAt, p.responseDeadlineAt,
             p.workflowId, 1, None, [Created(|p.steps|)])
  }

  /** As `reconstitute` leaves a stored sequence. */
  function Reconstituted(stored: Sequence, version: int): Sequence {
    stored.(version := version, loadedVersion := Some(version), events := [])
  }

  lemma CreatedIsPlaced(p: Props)
    ensures var s := CreatedFrom(p);
            && (HasStep(s, s.currentStepIndex) ==> Placed(s))
            && CompletedSteps(s.events) == []
  {
    assert CreatedFrom(p).events[..0] == [];
  }

  /** A run from creation within the steps logs exactly the steps passed since the starting
      index, in order; when it ends COMPLETED, all of them. */
  lemma CompletionMeansEveryStep(p: Props, ops: seq<Op>)
    requires HasStep(CreatedFrom(p), CreatedFrom(p).currentStepIndex)
    ensures var start, s := CreatedFrom(p).currentStepIndex, Run(CreatedFrom(p), ops);
            && start <= s.currentStepIndex <= |p.steps|
            && CompletedSteps(s.events) == p.steps[start..s.currentStepIndex]
            && (s.status == Completed ==> CompletedSteps(s.events) == p.steps[start..])
            && s.version == |s.events|
  {
    CreatedIsPlaced(p);
    RunsProgress(CreatedFrom(p), ops);
  }

  /** Across a reload the difference of the versions counts the events since the load. */
  lemma VersionCountsEventsSinceLoad(p: Props, before: seq<Op>, version: int, after: seq<Op>)
    requires HasStep(CreatedFrom(p), CreatedFrom(p).currentStepIndex)
    ensures var s := Run(Reconstituted(Run(CreatedFrom(p), before), version), after);
            && s.loadedVersion == Some(version)
            && s.version - version == |s.events|
            && Placed(s)
  {
    CreatedIsPlaced(p);
    RunsProgress(CreatedFrom(p), before);
    RunsProgress(Reconstituted(Run(CreatedFrom(p), before), version), after);
  }

  // ---- the starting index ----

  /** Submit, approve, start, complete a step. */
  function FirstCompletion(): seq<Op> {
    [SubmitForApproval, Approve, Start, CompleteStep(None)]
  }

  lemma CrashCons(s: Sequence, op: Op, rest: seq<Op>)
    requires Apply(s, op).reply != Crashed && !NeverCrashes(Apply(s, op).sequence, rest)
    ensures !NeverCrashes(s, [op] + rest)
  {
    assert ([op] + rest)[1..] == rest;
  }

  /** The failing input: a sequence whose starting index names no step crashes on its first completion. */
  lemma OutOfRangeCrashes(s: Sequence)
    requires s.status == Draft && !HasStep(s, s.currentStepIndex)
    ensures !NeverCrashes(s, FirstCompletion())
  {
    var s1 := Apply(s, SubmitForApproval).sequence;
    var s2 := Apply(s1, Approve).sequence;
    var s3 := Apply(s2, Start).sequence;
    assert Apply(s3, CompleteStep(None)).reply == Crashed;
    assert !NeverCrashes(s3, [CompleteStep(None)]);
    CrashCons(s2, Start, [CompleteStep(None)]);
    CrashCons(s1, Approve, [Start] + [CompleteStep(None)]);
    CrashCons(s, SubmitForApproval, [Approve] + ([Start] + [CompleteStep(None)]));
    assert [SubmitForApproval] + ([Approve] + ([Start] + [CompleteStep(None)])) == FirstCompletion();
  }

  /** Exactly when a created sequence never crashes, whatever is called on it: its starting
      index names one of its steps. */
  lemma NeverCrashesExactly(p: Props)
    requires Creatable(p)
    ensures (forall ops :: NeverCrashes(CreatedFrom(p), ops)) <==> 0 <= CreatedFrom(p).currentStepIndex < |p.steps|
  {
    var s := CreatedFrom(p);
    if HasStep(s, s.currentStepIndex) {
      CreatedIsPlaced(p);
      forall ops ensures NeverCrashes(s, ops) {
        RunsProgress(s, ops);
      }
    } else {
      OutOfRangeCrashes(s);
    }
  }

  predicate Terminal(s: Status) {
    s == Completed || s == Cancelled || s == Failed
  }

  /** A finished sequence stays as it is, but for the workflow link and the response deadline. */
  lemma {:induction false} TerminalIsFinal(s: Sequence, ops: seq<Op>)
    requires Terminal(s.status)
    ensures var later := Run(s, ops);
            later.status == s.status && later.currentStepIndex == s.currentStepIndex && later.nextDueAt == s.nextDueAt
    decreases |ops|
  {
    if ops != [] {
      TerminalIsFinal(Apply(s, ops[0]).sequence, ops[1..]);
    }
  }

  // ---- the aggregate ----

  class OutreachSequenceAggregate {
    const steps: seq<int>
    var status: Status
    var currentStepIndex: int
    var nextDueAt: Option<int>
    var responseDeadlineAt: Option<int>
    var workflowId: Option<string>
    var version: int
    var loadedVersion: Option<int>
    var domainEvents: seq<Event>

    function State(): Sequence
      reads this
    {
      Sequence(steps, status, currentStepIndex, nextDueAt, responseDeadlineAt, workflowId, version, loadedVersion, domainEvents)
    }

    constructor (p: Props)
      ensures State() == CreatedFrom(p)
    {
      steps := p.steps;
      status, currentStepIndex := Draft, if p.currentStepIndex.Some? then p.currentStepIndex.value else 0;
      nextDueAt, responseDeadlineAt, workflowId := p.nextDueAt, p.responseDeadlineAt, p.workflowId;
      version, loadedVersion, domainEvents := 0, None, [];
      new;
      ApplyEvent(Created(|steps|));
    }

    constructor Reconstitute(stored: Sequence, version: int)
      ensures State() == Reconstituted(stored, version)
    {
      steps, status, currentStepIndex := stored.steps, stored.status, stored.currentStepIndex;
      nextDueAt, responseDeadlineAt, workflowId := stored.nextDueAt, stored.responseDeadlineAt, stored.workflowId;
      this.version, loadedVersion := version, Some(version);
      domainEvents := [];
    }

    method ApplyEvent(event: Event)
      modifies this
      ensures State() == Emitted(old(State()), event)
    {
      domainEvents := domainEvents + [event];
      version := version + 1;
    }

    /** Every method that only moves by the table: submitForApproval, approve, reject, start,
        pause, resume and cancel. */
    method TransitionTo(to: Status) returns (reply: Reply)
      modifies this
      ensures Outcome(State(), reply) == Transition(old(State()), to)
    {
      if to !in Transitions(status) {
        return Refused;
      }
      var from := status;
      status := to;
      ApplyEvent(StatusChanged(from, to));
      reply := Done;
    }

    method StartStep(scheduledAt: int) returns (reply: Reply)
      modifies this
      ensures Outcome(State(), reply) == Apply(old(State()), Op.StartStep(scheduledAt))
    {
      if status != Running || currentStepIndex >= |steps| {
        return Refused;
      }
      if nextDueAt.Some? && scheduledAt < nextDueAt.value {
        return Refused;
      }
      if currentStepIndex < 0 {
        return Crashed;
      }
      ApplyEvent(StepStarted(steps[currentStepIndex]));
      reply := Done;
    }

    /** Looking up a step that is not there raises an exception, after the index has moved. */
    method CompleteStep(dueAt: Option<int>) returns (reply: Reply)
      modifies this
      ensures Outcome(State(), reply) == Apply(old(State()), Op.CompleteStep(dueAt))
    {
      if status != Running {
        return Refused;
      }
      var index := currentStepIndex;
      currentStepIndex := index + 1;
      var hasMoreSteps := currentStepIndex < |steps|;
      nextDueAt := dueAt;
      if !(0 <= index < |steps|) {
        return Crashed;
      }
      ApplyEvent(StepCompleted(steps[index], if hasMoreSteps then Some(steps[index + 1]) else None, dueAt));
      if !hasMoreSteps {
        reply := TransitionTo(Completed);
        return;
      }
      reply := Done;
    }

    method FailStep(retryable: bool) returns (reply: Reply)
      modifies this
      ensures Outcome(State(), reply) == Apply(old(State()), Op.FailStep(retryable))
    {
      if status != Running {
        return Refused;
      }
      if !(0 <= currentStepIndex < |steps|) {
        return Crashed;
      }
      ApplyEvent(StepFailed(steps[currentStepIndex], retryable));
      if !retryable {
        reply := TransitionTo(Failed);
        return;
      }
      reply := Done;
    }

    method WaitForResponse(deadline: int) returns (reply: Reply)
      modifies this
      ensures Outcome(State(), reply) == Apply(old(State()), Op.WaitForResponse(deadline))
    {
      if status != Running {
        return Refused;
      }
      responseDeadlineAt := Some(deadline);
      reply := TransitionTo(Waiting);
    }

    method ContinueAfterResponse() returns (reply: Reply)
      modifies this
      ensures Outcome(State(), reply) == Apply(old(State()), Op.ContinueAfterResponse)
    {
      responseDeadlineAt := None;
      reply := TransitionTo(Running);
    }

    method LinkWorkflow(id: string) returns (reply: Reply)
      modifies this
      ensures Outcome(State(), reply) == Apply(old(State()), Op.LinkWorkflow(id))
    {
      if Given(workflowId) && workflowId != Some(id) {
        return Refused;
      }
      workflowId := Some(id);
      ApplyEvent(WorkflowLinked(id));
      reply := Done;
    }
  }

  /** `create` refuses a sequence without a contact, with a recipient out of order or another
      fingerprint than its campaign's, or without steps. */
  method CreateSequence(p: Props) returns (made: OutreachSequenceAggregate?)
    ensures made != null <==> Creatable(p)
    ensures made != null ==> fresh(made) && made.State() == CreatedFrom(p)
  {
    if p.contactId == "" {
      return null;
    }
    if p.protection == Protected && !Given(p.recipientFingerprint) {
      return null;
    }
    if p.protection == LegacyUnavailable && Given(p.recipientFingerprint) {
      return null;
    }
    if p.protection == Protected && !Given(p.recipientCiphertext) {
      return null;
    }
    if p.protection == LegacyUnavailable && Given(p.recipientCiphertext) {
      return null;
    }
    if p.campaignRecipientFingerprint.Some? && p.campaignRecipientFingerprint != p.recipientFingerprint {
      return null;
    }
    if p.steps == [] {
      return null;
    }
    made := new OutreachSequenceAggregate(p);
  }
}
