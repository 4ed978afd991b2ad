/** From an approval signal to the provider: the signal carries no decision, so the send records the
    approval first and has it verified afterwards
    (packages/mission-orchestrator/src/application/approval-application.service.ts:85-151,
    packages/mission-orchestrator/src/domain/approval/approval-status.ts:8-18,
    packages/mission-orchestrator/src/infrastructure/approval-verification-adapter.ts:27-91,
    packages/outreach/src/safety/send-safety-gate.ts:61-161 and
    packages/outreach/src/application/outreach-execution.service.ts:161-299). */
module ApprovedSend {
  import opened Foundations
  import opened JsText
  import opened StoredExecutions
  import Message = MessageExecution

  // ---- approvals ----

  datatype ApprovalStatus = Undecided | Approved | Rejected | Expired | Escalated

  function ApprovalTransitions(from: ApprovalStatus): set<ApprovalStatus> {
    match from
    case Undecided => {Approved, Rejected, ApprovalStatus.Expired, Escalated}
    case Escalated => {Approved, Rejected, ApprovalStatus.Expired}
    case _ => {}
  }

  /** What an approval is for; it may leave execution and sequence open. */
  datatype Approval = Approval(
    tenantId: string,
    executionId: Option<string>,
    sequenceId: Option<string>,
    idempotencyKey: string,
    actionType: string,
    expiresAt: int,
    status: ApprovalStatus)

  type Approvals = map<string, Approval>

  function Decided(approvals: Approvals, approvalId: string, to: ApprovalStatus): Approvals {
    if approvalId in approvals && to in ApprovalTransitions(approvals[approvalId].status)
    then approvals[approvalId := approvals[approvalId].(status := to)]
    else approvals
  }

  /** What a send asks an approval for. */
  datatype Target = Target(tenantId: string, executionId: string, sequenceId: string, idempotencyKey: string, actionType: string)

  datatype Verdict = Valid | NotFound | WrongTenant | WrongTarget | InvalidActionType | WasRejected | IsPending | HasExpired

  function Verify(approval: Option<Approval>, t: Target, now: int): Verdict {
    if approval.None? then NotFound
    else
      var a := approval.value;
      if a.tenantId != t.tenantId then WrongTenant
      else if a.executionId.Some? && a.executionId.value != t.executionId then WrongTarget
      else if a.sequenceId.Some? && a.sequenceId.value != t.sequenceId then WrongTarget
      else if a.idempotencyKey != t.idempotencyKey then WrongTarget
      else if a.actionType != t.actionType then InvalidActionType
      else if a.status == Rejected then WasRejected
      else if a.status == Escalated || a.status == Undecided then IsPending
      else if a.status == ApprovalStatus.Expired || now > a.expiresAt then HasExpired
      else Valid
  }

  /** The approval asks for nothing but this. */
  predicate Covers(a: Approval, t: Target) {
    && a.tenantId == t.tenantId
    && (a.executionId.Some? ==> a.executionId.value == t.executionId)
    && (a.sequenceId.Some? ==> a.sequenceId.value == t.sequenceId)
    && a.idempotencyKey == t.idempotencyKey
    && a.actionType == t.actionType
  }

  /** The approval was given, for this. */
  predicate Genuine(approvals: Approvals, approvalId: string, t: Target) {
    approvalId in approvals && Covers(approvals[approvalId], t) && approvals[approvalId].status == Approved
  }

  function Lookup(approvals: Approvals, approvalId: string): Option<Approval> {
    if approvalId in approvals then Some(approvals[approvalId]) else None
  }

  lemma VerifiedExactly(approvals: Approvals, approvalId: string, t: Target, now: int)
    ensures Verify(Lookup(approvals, approvalId), t, now) == Valid <==>
            Genuine(approvals, approvalId, t) && now <= approvals[approvalId].expiresAt
  {
  }

  /** An approval that was given stays given. */
  lemma GenuineStays(approvals: Approvals, decided: string, to: ApprovalStatus, approvalId: string, t: Target)
    requires Genuine(approvals, approvalId, t)
    ensures Genuine(Decided(approvals, decided, to), approvalId, t)
  {
  }

  // ---- the safety gate ----

  /** What the other stores and ports answer during one send. */
  datatype Circumstances = Circumstances(
    stepFound: bool,
    recipientRecovered: bool,
    tenantsAgree: bool,
    allowlisted: bool,
    suppressed: bool,
    now: int,
    rateLimited: bool,
    withinBudget: bool,
    claimed: bool,
    providerId: Option<string>)

  datatype Decision = Allow | Deny | Duplicate | RetryLater

  function Evaluate(e: Message.Execution, approval: Option<Approval>, t: Target, c: Circumstances): Decision {
    if !c.tenantsAgree || !c.allowlisted || c.suppressed then Deny
    else if Verify(approval, t, c.now) != Valid then Deny
    else if c.rateLimited then RetryLater
    else if !c.withinBudget then Deny
    else if e.draft.None? || Blank(e.draft.value) then Deny
    else if !c.claimed then Duplicate
    else Allow
  }

  // ---- the send, up to the provider ----

  /** The loaded execution made ready: approved and sending, whatever the approval turns out to be. */
  function Sending(loaded: Message.Execution, approvalId: string): Message.Execution {
    var approved := if loaded.status == Message.PendingApproval then Message.Apply(loaded, Message.Approve(approvalId)).execution else loaded;
    if approved.status == Message.Approved then Message.Apply(approved, Message.MarkSending).execution else approved
  }

  /** What is left to do: nothing, one save, or a save and a call of the provider. */
  datatype Judgement = Stop | SaveOnly(execution: Message.Execution) | Attempt(execution: Message.Execution)

  function FailedSend(e: Message.Execution, classification: Message.Classification): Message.Execution {
    Message.Apply(e, Message.MarkFailed(classification, "", None)).execution
  }

  function Judge(loaded: Message.Execution, approvalId: string, approval: Option<Approval>, t: Target, c: Circumstances): Judgement {
    var e := Sending(loaded, approvalId);
    if e.status != Message.Sending || !c.stepFound || !c.recipientRecovered then Stop
    else match Evaluate(e, approval, t, c)
      case Duplicate => Stop
      case Deny => SaveOnly(FailedSend(e, Message.NonRetryable))
      case RetryLater => SaveOnly(FailedSend(e, Message.RateLimited))
      case Allow =>
        if c.providerId.None? then SaveOnly(FailedSend(e, Message.NonRetryable))
        else Attempt(Message.Apply(e, Message.MarkProviderAttempt(c.providerId.value)).execution)
  }

  datatype SendResult = AlreadySent | Failed | Retry | CallsProvider | SaveConflict

  predicate Submitted(s: Message.Status) {
    s == Message.ProviderAccepted || s == Message.DeliveryPending || s == Message.Delivered || s == Message.Opened || s == Message.Replied
  }

  /** `executeApprovedSend` up to the provider call. */
  method ExecuteApprovedSend(repository: MessageExecutionRepository, id: string, approvalId: string, approval: Option<Approval>, t: Target,
                             c: Circumstances)
      returns (result: SendResult)
    modifies repository
    ensures var before := old(repository.executions);
            var judged := if id in before then Judge(before[id], approvalId, approval, t, c) else Stop;
            && repository.executions == (if judged.Stop? then before else before[id := judged.execution])
            && (result == CallsProvider <==> judged.Attempt?)
  {
    var loaded := repository.Load(id);
    if loaded.None? {
      return Failed;
    }
    var execution := loaded.value;
    if Submitted(execution.status) {
      return AlreadySent;
    }
    if execution.status == Message.PendingApproval {
      execution := Message.Apply(execution, Message.Approve(approvalId)).execution;
    }
    if execution.status == Message.Approved {
      execution := Message.Apply(execution, Message.MarkSending).execution;
    }
    if execution.status != Message.Sending || !c.stepFound || !c.recipientRecovered {
      return Failed;
    }
    match Evaluate(execution, approval, t, c) {
      case Duplicate => return Failed;
      case Deny =>
        execution := FailedSend(execution, Message.NonRetryable);
        result := Failed;
      case RetryLater =>
        execution := FailedSend(execution, Message.RateLimited);
        result := Retry;
      case Allow =>
        if c.providerId.None? {
          execution := FailedSend(execution, Message.NonRetryable);
          result := Failed;
        } else {
          execution := Message.Apply(execution, Message.MarkProviderAttempt(c.providerId.value)).execution;
          result := CallsProvider;
        }
    }
    var saved := repository.Save(id, execution, Version(loaded.value));
    if !saved {
      result := SaveConflict;
    }
  }

  lemma SendingExactly(loaded: Message.Execution, approvalId: string)
    ensures var e := Sending(loaded, approvalId);
            && (e.status == Message.Sending <==> Sendable(loaded.status))
            && e.draft == loaded.draft
            && e.approvalId == (if loaded.status == Message.PendingApproval then Some(approvalId) else loaded.approvalId)
  {
  }

  /** All checks of a send but that of the approval. */
  predicate OtherwiseClear(loaded: Message.Execution, c: Circumstances) {
    && c.stepFound && c.recipientRecovered && c.tenantsAgree && c.allowlisted && !c.suppressed && !c.rateLimited
    && c.withinBudget && c.claimed && c.providerId.Some?
    && loaded.draft.Some? && !Blank(loaded.draft.value)
  }

  /** Exactly which signals lead to a provider attempt: those whose approval was given for this
      execution and has not run out, while the execution can still be sent. */
  lemma AttemptExactly(loaded: Message.Execution, approvals: Approvals, approvalId: string, t: Target, c: Circumstances)
    ensures Judge(loaded, approvalId, Lookup(approvals, approvalId), t, c).Attempt? <==>
            && Sendable(loaded.status) && OtherwiseClear(loaded, c)
            && Genuine(approvals, approvalId, t) && c.now <= approvals[approvalId].expiresAt
  {
    SendingExactly(loaded, approvalId);
    VerifiedExactly(approvals, approvalId, t, c.now);
  }

  /** The same by decision: each of them is signalled alike, and only an approval leads to an attempt. */
  lemma DecisionExactly(loaded: Message.Execution, approvals: Approvals, approvalId: string, to: ApprovalStatus, t: Target, c: Circumstances)
    requires approvalId in approvals && to in ApprovalTransitions(approvals[approvalId].status)
    requires Sendable(loaded.status) && OtherwiseClear(loaded, c)
    requires Covers(approvals[approvalId], t) && c.now <= approvals[approvalId].expiresAt
    ensures Judge(loaded, approvalId, Lookup(Decided(approvals, approvalId, to), approvalId), t, c).Attempt? <==> to == Approved
  {
    AttemptExactly(loaded, Decided(approvals, approvalId, to), approvalId, t, c);
  }

  /** Exactly when a send records an approval that was not given on an execution that awaits one:
      whenever it gets as far as the gate with it. The execution has then failed. */
  lemma UngivenIsRecordedExactly(loaded: Message.Execution, approvals: Approvals, approvalId: string, t: Target, c: Circumstances)
    requires loaded.status == Message.PendingApproval && !Genuine(approvals, approvalId, t)
    ensures var judged := Judge(loaded, approvalId, Lookup(approvals, approvalId), t, c);
            && (!judged.Stop? <==> c.stepFound && c.recipientRecovered)
            && (!judged.Stop? ==> judged.SaveOnly? && judged.execution.approvalId == Some(approvalId)
                                  && judged.execution.status == Message.FailedPreSubmission)
  {
    SendingExactly(loaded, approvalId);
    VerifiedExactly(approvals, approvalId, t, c.now);
    Message.StepFrame(Sending(loaded, approvalId), Message.MarkFailed(Message.NonRetryable, "", None));
  }
}
