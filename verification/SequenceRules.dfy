/** The calls of an outreach sequence, one by one
    (packages/domain/src/outreach/sequence.ts:67-273, sequence-status.ts:12-26). */
module SequenceRules {
  import opened Foundations
  import opened OutreachSequence

  /** By target: the statuses a sequence may come from. */
  predicate MayCome(from: Status, to: Status) {
    match to
    case Draft => false
    case PendingApproval => from == Draft
    case Approved => from == PendingApproval
    case Running => from == Approved || from == Waiting || from == Paused
    case Waiting => from == Running
    case Paused => from == Running || from == Waiting
    case Completed => from == Running || from == Waiting
    case Failed => from == Running || from == Waiting
    case Cancelled =>
      from == Draft || from == PendingApproval || from == Approved || from == Running || from == Waiting || from == Paused
  }

  /** `after` is `s` with one event more, which raises the version by one. */
  predicate Logs(s: Sequence, after: Sequence, event: Event) {
    after == s.(events := s.events + [event], version := s.version + 1)
  }

  predicate MovedTo(s: Sequence, after: Sequence, to: Status) {
    Logs(s.(status := to), after, StatusChanged(s.status, to))
  }

  /** `noted` is `s` with what the call notes, also when the move is refused. */
  predicate NotesAndMoves(s: Sequence, noted: Sequence, to: Status, r: Outcome) {
    if MayCome(s.status, to) then r.reply == Done && MovedTo(noted, r.sequence, to) else r.reply == Refused && r.sequence == noted
  }

  predicate Refuses(s: Sequence, r: Outcome) {
    r.reply == Refused && r.sequence == s
  }

  predicate InRange(s: Sequence) {
    0 <= s.currentStepIndex && s.currentStepIndex < |s.steps|
  }

  /** A completed step is logged with the number of the next one and its due time; behind the last
      step the sequence is COMPLETED as well. */
  predicate CompletesStep(s: Sequence, dueAt: Option<int>, r: Outcome)
    requires InRange(s)
  {
    var index := s.currentStepIndex;
    var moved := s.(currentStepIndex := index + 1, nextDueAt := dueAt);
    r.reply == Done &&
    if index + 1 < |s.steps| then Logs(moved, r.sequence, StepCompleted(s.steps[index], Some(s.steps[index + 1]), dueAt))
    else
      && |r.sequence.events| == |s.events| + 2
      && r.sequence == moved.(status := Completed, version := s.version + 2,
           events := s.events + [StepCompleted(s.steps[index], None, dueAt), StatusChanged(Running, Completed)])
  }

  predicate FailsStep(s: Sequence, retryable: bool, r: Outcome)
    requires InRange(s)
  {
    var failed := StepFailed(s.steps[s.currentStepIndex], retryable);
    r.reply == Done &&
    if retryable then Logs(s, r.sequence, failed)
    else r.sequence == s.(status := Status.Failed, version := s.version + 2, events := s.events + [failed, StatusChanged(Running, Status.Failed)])
  }

  /** Every call, exactly. */
  predicate Rule(s: Sequence, op: Op, r: Outcome) {
    match op
    case SubmitForApproval => NotesAndMoves(s, s, PendingApproval, r)
    case Approve => NotesAndMoves(s, s, Approved, r)
    case Reject => NotesAndMoves(s, s, Cancelled, r)
    case Start => NotesAndMoves(s, s, Running, r)
    case Pause => NotesAndMoves(s, s, Paused, r)
    case Resume => NotesAndMoves(s, s, Running, r)
    case Cancel => NotesAndMoves(s, s, Cancelled, r)
    case ContinueAfterResponse => NotesAndMoves(s, s.(responseDeadlineAt := None), Running, r)
    case WaitForResponse(deadline) =>
      if s.status == Running then r.reply == Done && MovedTo(s.(responseDeadlineAt := Some(deadline)), r.sequence, Waiting) else Refuses(s, r)
    case StartStep(scheduledAt) =>
      if s.status != Running || s.currentStepIndex >= |s.steps| || (s.nextDueAt.Some? && s.nextDueAt.value > scheduledAt) then Refuses(s, r)
      else if s.currentStepIndex < 0 then r.reply == Crashed && r.sequence == s
      else r.reply == Done && Logs(s, r.sequence, StepStarted(s.steps[s.currentStepIndex]))
    case CompleteStep(dueAt) =>
      if s.status != Running then Refuses(s, r)
      else if InRange(s) then CompletesStep(s, dueAt, r)
      else r.reply == Crashed && r.sequence == s.(currentStepIndex := s.currentStepIndex + 1, nextDueAt := dueAt)
    case FailStep(retryable) =>
      if s.status != Running then Refuses(s, r)
      else if InRange(s) then FailsStep(s, retryable, r)
      else r.reply == Crashed && r.sequence == s
    case LinkWorkflow(id) =>
      if s.workflowId.Some? && s.workflowId.value != "" && s.workflowId.value != id then Refuses(s, r)
      else r.reply == Done && Logs(s.(workflowId := Some(id)), r.sequence, WorkflowLinked(id))
  }

  lemma StepCallExactly(s: Sequence, op: Op)
    requires op.StartStep? || op.CompleteStep? || op.FailStep?
    ensures Rule(s, op, Apply(s, op))
  {
    if s.status == Running && InRange(s) {
      var index := s.currentStepIndex;
      if op.CompleteStep? && index + 1 == |s.steps| {
        assert s.events + [StepCompleted(s.steps[index], None, op.dueAt)] + [StatusChanged(Running, Completed)] ==
               s.events + [StepCompleted(s.steps[index], None, op.dueAt), StatusChanged(Running, Completed)];
      }
      if op.FailStep? && !op.retryable {
        assert s.events + [StepFailed(s.steps[index], false)] + [StatusChanged(Running, Status.Failed)] ==
               s.events + [StepFailed(s.steps[index], false), StatusChanged(Running, Status.Failed)];
      }
    }
  }

  lemma MoveCallExactly(s: Sequence, op: Op)
    requires !op.StartStep? && !op.CompleteStep? && !op.FailStep?
    ensures Rule(s, op, Apply(s, op))
  {
  }

  lemma CallExactly(s: Sequence, op: Op)
    ensures Rule(s, op, Apply(s, op))
  {
    if op.StartStep? || op.CompleteStep? || op.FailStep? { StepCallExactly(s, op); } else { MoveCallExactly(s, op); }
  }

  // ---- creation ----

  predicate Filled(text: Option<string>) {
    text.Some? && text.value != ""
  }

  /** A sequence is created exactly with a contact, at least one step, a protected recipient with
      fingerprint and ciphertext or a legacy one without, and the campaign's fingerprint if it has one. */
  lemma CreatableExactly(p: Props)
    ensures Creatable(p) <==>
            && p.contactId != "" && |p.steps| > 0
            && (p.protection == Protected ==> Filled(p.recipientFingerprint) && Filled(p.recipientCiphertext))
            && (p.protection == LegacyUnavailable ==> !Filled(p.recipientFingerprint) && !Filled(p.recipientCiphertext))
            && (p.campaignRecipientFingerprint.None? || p.campaignRecipientFingerprint == p.recipientFingerprint)
  {
  }

  /** It starts as a draft, at the index and times of its caller, with one event that counts its steps;
      a stored one comes back with its version as the base and without events. */
  lemma StartingExactly(p: Props, stored: Sequence, version: int)
    ensures var s := CreatedFrom(p);
            && s.status == Draft && s.steps == p.steps && s.version == 1 && s.loadedVersion.None? && s.events == [Created(|p.steps|)]
            && s.nextDueAt == p.nextDueAt && s.responseDeadlineAt == p.responseDeadlineAt && s.workflowId == p.workflowId
            && (p.currentStepIndex.Some? ==> s.currentStepIndex == p.currentStepIndex.value)
            && (p.currentStepIndex.None? ==> s.currentStepIndex == 0)
    ensures var s := Reconstituted(stored, version);
            && s.version == version && s.loadedVersion == Some(version) && s.events == []
            && s.status == stored.status && s.steps == stored.steps && s.currentStepIndex == stored.currentStepIndex
            && s.nextDueAt == stored.nextDueAt && s.responseDeadlineAt == stored.responseDeadlineAt && s.workflowId == stored.workflowId
  {
  }
}
