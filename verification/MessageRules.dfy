/** The calls of a message execution, one by one: from which status each is accepted, and what it
    leaves (packages/domain/src/outreach/message-execution.ts:144-373, message-execution-status.ts:20-42). */
module MessageRules {
  import opened Foundations
  import opened MessageExecution

  /** By target: the statuses an execution may come from. */
  predicate MayCome(from: Status, to: Status) {
    match to
    case Drafting => from == Pending
    case PendingApproval => from == Drafting
    case Approved => from == PendingApproval
    case Sending => from == Approved
    case ProviderAccepted => from == Sending
    case FailedPreSubmission => from == Sending
    case DeliveryPending => from == ProviderAccepted
    case Delivered => from == DeliveryPending
    case DeliveryFailed => from == DeliveryPending
    case DeliveryUnknown => from == Sending || from == DeliveryPending
    case RequiresReconciliation => from == Sending || from == DeliveryPending
    case Opened => from == Delivered
    case Replied => from == Opened
    case Failed => from == Drafting || from == PendingApproval
    case _ => false
  }

  /** `after` is `e` moved to a status, with the event of the move. */
  predicate MovedTo(e: Execution, after: Execution, to: Status) {
    after == e.(status := to, events := e.events + [StatusChanged(e.status, to, e.providerMessageId)])
  }

  lemma TransitionExactly(e: Execution, to: Status)
    ensures var r := Transition(e, to);
            if MayCome(e.status, to) then r.ok && MovedTo(e, r.execution, to) else !r.ok && r.execution == e
  {
  }

  /** The call moves `noted`, which is `e` with what the call notes, if its target may come from the
      status; what it notes stays even when the move is refused. */
  predicate NotesAndMoves(e: Execution, noted: Execution, to: Status, r: Outcome) {
    if MayCome(e.status, to) then r.ok && MovedTo(noted, r.execution, to) else !r.ok && r.execution == noted
  }

  predicate Refuses(e: Execution, r: Outcome) {
    !r.ok && r.execution == e
  }

  /** Where a failure leads, and whether it is accepted. */
  predicate FailureLeads(e: Execution, noted: Execution, classification: Classification, r: Outcome) {
    if classification == NonRetryable then
      match e.status
      case Sending => r.ok && MovedTo(noted, r.execution, FailedPreSubmission)
      case DeliveryPending => r.ok && MovedTo(noted, r.execution, DeliveryFailed)
      case Drafting => r.ok && MovedTo(noted, r.execution, Failed)
      case PendingApproval => r.ok && MovedTo(noted, r.execution, Failed)
      case _ => !r.ok && r.execution == noted
    else
      match e.status
      case Sending => r.ok && r.execution == noted
      case Approved => r.ok && r.execution == noted
      case DeliveryPending => r.ok && MovedTo(noted, r.execution, RequiresReconciliation)
      case _ => !r.ok && r.execution == noted
  }

  /** A given text goes before the old one. */
  function Newer(given: Option<string>, earlier: Option<string>): Option<string> {
    if given.Some? && given.value != "" then given else earlier
  }

  /** Every call, exactly. */
  predicate Rule(e: Execution, op: Op, r: Outcome) {
    match op
    case StartDrafting => NotesAndMoves(e, e, Drafting, r)
    case SetDraft(messageId, draft) =>
      if e.status == Drafting || e.status == Pending
      then NotesAndMoves(e, e.(messageId := Some(messageId), draft := Some(draft)), PendingApproval, r) else Refuses(e, r)
    case Approve(approvalId) =>
      if e.status == PendingApproval then r.ok && MovedTo(e.(approvalId := Some(approvalId)), r.execution, Approved) else Refuses(e, r)
    case Reject(reason) =>
      if e.status == PendingApproval then r.ok && MovedTo(e.(lastError := Some(reason)), r.execution, Failed) else Refuses(e, r)
    case MarkSending => NotesAndMoves(e, e, Sending, r)
    case MarkProviderAttempt(providerId) =>
      if e.status == Sending then r.ok && r.execution == e.(providerId := Some(providerId), attempts := e.attempts + 1) else Refuses(e, r)
    case MarkProviderAccepted(providerMessageId, internetMessageId, errorCode) =>
      NotesAndMoves(e, e.(providerMessageId := providerMessageId, internetMessageId := internetMessageId, providerErrorCode := errorCode),
                    ProviderAccepted, r)
    case MarkDeliveryPending => NotesAndMoves(e, e, DeliveryPending, r)
    case MarkDelivered(id) => NotesAndMoves(e, e.(internetMessageId := Newer(id, e.internetMessageId)), Delivered, r)
    case MarkOpened => NotesAndMoves(e, e, Opened, r)
    case MarkReplied => NotesAndMoves(e, e, Replied, r)
    case MarkBounced(reason) => !r.ok && r.execution == e.(lastError := Some(reason))
    case MarkFailed(classification, reason, errorCode) =>
      FailureLeads(e, e.(retryClassification := Some(classification), lastError := Some(reason), providerErrorCode := errorCode),
                   classification, r)
    case MarkDeliveryUnknown(reason) => NotesAndMoves(e, e.(lastError := Some(reason)), DeliveryUnknown, r)
    case MarkRequiresReconciliation(reason) => NotesAndMoves(e, e.(lastError := Some(reason)), RequiresReconciliation, r)
    case MarkReconciledDelivered(id) =>
      r.ok && MovedTo(e.(internetMessageId := Newer(id, e.internetMessageId), providerMessageId := Newer(id, e.providerMessageId)),
                      r.execution, Delivered)
    case MarkReconciledFailed(reason) => r.ok && MovedTo(e.(lastError := Some(reason)), r.execution, Failed)
    case Cancel => Refuses(e, r)
    case RecordRetryAfter(ms) => r.ok && r.execution == e.(retryAfterMs := Some(ms))
  }

  predicate BeforeTheProvider(op: Op) {
    op.StartDrafting? || op.SetDraft? || op.Approve? || op.Reject? || op.MarkSending? || op.MarkProviderAttempt?
  }

  predicate OfTheDelivery(op: Op) {
    op.MarkProviderAccepted? || op.MarkDeliveryPending? || op.MarkDelivered? || op.MarkOpened? || op.MarkReplied? || op.MarkBounced?
  }

  predicate OfNoDelivery(op: Op) {
    op.MarkDeliveryUnknown? || op.MarkRequiresReconciliation? || op.Cancel?
  }

  lemma EarlyCallExactly(e: Execution, op: Op)
    requires BeforeTheProvider(op)
    ensures Rule(e, op, Apply(e, op))
  {
  }

  lemma DeliveryCallExactly(e: Execution, op: Op)
    requires OfTheDelivery(op)
    ensures Rule(e, op, Apply(e, op))
  {
  }

  lemma NoDeliveryCallExactly(e: Execution, op: Op)
    requires OfNoDelivery(op)
    ensures Rule(e, op, Apply(e, op))
  {
  }

  lemma OtherCallExactly(e: Execution, op: Op)
    requires !BeforeTheProvider(op) && !OfTheDelivery(op) && !OfNoDelivery(op)
    ensures Rule(e, op, Apply(e, op))
  {
  }

  lemma CallExactly(e: Execution, op: Op)
    ensures Rule(e, op, Apply(e, op))
  {
    if BeforeTheProvider(op) { EarlyCallExactly(e, op); }
    else if OfTheDelivery(op) { DeliveryCallExactly(e, op); }
    else if OfNoDelivery(op) { NoDeliveryCallExactly(e, op); }
    else { OtherCallExactly(e, op); }
  }

  // ---- ways to an end ----

  /** No call leads out of these statuses but a reconciliation. */
  predicate Settled(s: Status) {
    s == Replied || s == Bounced || s == FailedPreSubmission || s == DeliveryFailed || s == DeliveryUnknown
    || s == RequiresReconciliation || s == Failed || s == Cancelled
  }

  lemma SettledExactly(s: Status)
    ensures Settled(s) <==> forall to :: !MayCome(s, to)
  {
    var to := match s
      case Pending => Drafting
      case Drafting => PendingApproval
      case PendingApproval => Approved
      case Approved => Sending
      case Sending => ProviderAccepted
      case ProviderAccepted => DeliveryPending
      case DeliveryPending => Delivered
      case Delivered => Opened
      case _ => Replied;
    assert !Settled(s) ==> MayCome(s, to);
  }

  lemma SettledCall(e: Execution, op: Op)
    requires Settled(e.status) && !op.MarkReconciledDelivered? && !op.MarkReconciledFailed?
    ensures Apply(e, op).execution.status == e.status && Apply(e, op).execution.events == e.events
  {
    StepOtherwise(e, op);
    SettledExactly(e.status);
    TransitionExactly(e, Apply(e, op).execution.status);
  }

  /** A settled execution keeps its status in every run without reconciliation. */
  lemma {:induction false} SettledStays(e: Execution, ops: seq<Op>)
    requires Settled(e.status)
    requires forall i :: 0 <= i < |ops| ==> !ops[i].MarkReconciledDelivered? && !ops[i].MarkReconciledFailed?
    ensures Run(e, ops).status == e.status && Run(e, ops).events == e.events
    decreases |ops|
  {
    if ops != [] {
      var front, op := ops[..|ops| - 1], ops[|ops| - 1];
      SettledStays(e, front);
      SettledCall(Run(e, front), op);
    }
  }
}
