/** The outreach workflow move by move: from which await to which, on which answer, and what it takes along
    (apps/temporal-worker/src/workflows/outreach-sequence-workflow.ts:70-147). */
module WorkflowRules {
  import opened Foundations
  import opened StoredExecutions
  import opened OutreachWorkflow
  import Message = MessageExecution
  import Outreach = OutreachSequence

  predicate SequenceEnded(s: Outreach.Status) {
    s == Outreach.Completed || s == Outreach.Cancelled || s == Outreach.Failed
  }

  /** The execution a draft reports: one that was found, or one that was made with a text. */
  predicate Reports(w: Workflow, answer: Answer, id: string) {
    || (answer.DraftFound? && answer.executionId == id && id in w.executions)
    || (answer.DraftMade? && answer.newId == id && CanDraft(w.executions, id, answer.created) && answer.personalization.Personalized?)
  }

  /** The conditions under which an own move leads to each await. */
  predicate LeadsTo(w: Workflow, answer: Answer, input: Input, pc: Pc) {
    match pc
    case AtSequence => w.pc == AtSleep && answer.SleepOver? && w.iteration + 1 < input.maxIterations
    case AtDraft => w.pc == AtSequence && answer.SequenceIs? && !SequenceEnded(answer.status)
    case AtApproval => w.pc == AtDraft && IdOf(answer) != "" && Reports(w, answer, IdOf(answer))
    case AtExpiry => w.pc == AtApproval && answer.ApprovalTimeout? && input.approvalTimeout
    case AtExpirySave(loaded) => w.pc == AtExpiry && answer.ActivityDone? && loaded == Found(w.executions, w.drafted)
    case AtSend => w.pc == AtApproval && answer.ApprovalSeen? && w.pendingApproval.Some?
    case AtReply => w.pc == AtSend && answer == SendIs(SendCompleted)
    case AtRecord => w.pc == AtReply && answer.ReplySeen? && w.pendingReply.Some?
    case AtInterpret => w.pc == AtRecord && answer.ActivityDone?
    case AtSleep =>
      || (w.pc == AtSend && answer == SendIs(SendRetryable))
      || (w.pc == AtReply && answer.ReplyTimeout?)
      || (w.pc == AtInterpret && answer.ActivityDone?)
    case Ended(result) => EndsWith(w, answer, input, result)
  }

  function IdOf(answer: Answer): string {
    match answer
    case DraftFound(id) => id
    case DraftMade(id, _, _) => id
    case _ => ""
  }

  predicate WaitsForActivity(pc: Pc) {
    pc == AtSequence || pc == AtDraft || pc == AtExpiry || pc.AtExpirySave? || pc == AtSend || pc == AtRecord || pc == AtInterpret
  }

  /** The expiry finds its execution awaiting, and changed since it was loaded. */
  predicate Conflicts(w: Workflow)
    requires w.pc.AtExpirySave?
  {
    && w.pc.loaded.Some? && w.pc.loaded.value.status == Message.PendingApproval
    && (w.drafted !in w.executions || |w.executions[w.drafted].events| != |w.pc.loaded.value.events|)
  }

  predicate EndsWith(w: Workflow, answer: Answer, input: Input, result: Result) {
    match result
    case SequenceOver(status) => w.pc == AtSequence && answer == SequenceIs(status) && SequenceEnded(status)
    case GaveUp =>
      || (w.pc == AtDraft && answer.DraftRefused?)
      || (w.pc == AtDraft && Reports(w, answer, ""))
      || (w.pc == AtDraft && answer.DraftMade? && CanDraft(w.executions, answer.newId, answer.created) && answer.personalization.Unpersonalized?)
      || (w.pc == AtSend && answer == SendIs(SendFailed))
      || (w.pc == AtSleep && answer.SleepOver? && w.iteration + 1 >= input.maxIterations)
    case TimedOut => w.pc.AtExpirySave? && answer.ActivityDone? && !Conflicts(w)
    case Threw => (WaitsForActivity(w.pc) && answer.Fails?) || (w.pc.AtExpirySave? && answer.ActivityDone? && Conflicts(w))
  }

  lemma ExpiryConflictsExactly(w: Workflow)
    requires w.pc.AtExpirySave?
    ensures AfterExpiry(w.executions, w.drafted, w.pc.loaded, TIMEOUT_REASON).None? <==> Conflicts(w)
  {
  }

  /** Where an own move leads, exactly. */
  lemma MoveLeadsExactly(w: Workflow, answer: Answer, input: Input, pc: Pc)
    requires pc != w.pc
    ensures (Resume(w, answer, input).Some? && Resume(w, answer, input).value.pc == pc) <==> LeadsTo(w, answer, input, pc)
  {
    if w.pc.AtExpirySave? { ExpiryConflictsExactly(w); }
  }

  /** What an own move takes along: a send uses the pending approval, and once it is back the approval
      is gone; the reply is gone once interpreted; sleeping over counts an iteration; a draft names its
      execution and stores a new one; only an expiry changes a stored one. */
  lemma MoveCarriesExactly(w: Workflow, answer: Answer, input: Input)
    requires Resume(w, answer, input).Some?
    ensures var next := Resume(w, answer, input).value;
            && next.signals == w.signals
            && next.sends == w.sends + (if next.pc == AtSend then [w.pendingApproval.value] else [])
            && next.pendingApproval == (if w.pc == AtSend && answer.SendIs? then None else w.pendingApproval)
            && next.pendingReply == (if w.pc == AtInterpret && answer.ActivityDone? then None else w.pendingReply)
            && next.iteration == (if w.pc == AtSleep then w.iteration + 1 else w.iteration)
            && (if next.pc == AtApproval then Reports(w, answer, next.drafted) else next.drafted == w.drafted)
            && (w.pc != AtDraft && !w.pc.AtExpirySave? ==> next.executions == w.executions)
            && (w.pc == AtDraft ==>
                  next.executions == if answer.DraftMade? then w.executions[answer.newId := Drafted(answer.created, answer.personalization)]
                                     else w.executions)
  {
  }

  /** The workflow begins with its first look at the sequence, or gives up when it may not iterate. */
  lemma StartExactly(input: Input, executions: Executions)
    ensures var w := Start(input, executions);
            && w.pc == (if input.maxIterations > 0 then AtSequence else Ended(GaveUp))
            && w.iteration == 0 && w.sends == [] && w.signals == 0 && w.pendingApproval.None? && w.pendingReply.None?
            && w.executions == executions
  {
  }
}
