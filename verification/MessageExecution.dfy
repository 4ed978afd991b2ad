/** One outgoing message from draft to delivery
    (packages/domain/src/outreach/message-execution.ts:52-373 and message-execution-status.ts:20-42). */
module MessageExecution {
  import opened Foundations

  datatype Status =
    | Pending | Drafting | PendingApproval | Approved | Sending | ProviderAccepted | DeliveryPending
    | Delivered | Opened | Replied | Bounced | FailedPreSubmission | DeliveryFailed | DeliveryUnknown
    | RequiresReconciliation | Failed | Cancelled

  function Transitions(from: Status): set<Status> {
    match from
    case Pending => {Drafting}
    case Drafting => {PendingApproval, Failed}
    case PendingApproval => {Approved, Failed}
    case Approved => {Sending}
    case Sending => {ProviderAccepted, FailedPreSubmission, DeliveryUnknown, RequiresReconciliation}
    case ProviderAccepted => {DeliveryPending}
    case DeliveryPending => {Delivered, DeliveryFailed, DeliveryUnknown, RequiresReconciliation}
    case Delivered => {Opened}
    case Opened => {Replied}
    case _ => {}
  }

  datatype Event = Created | StatusChanged(from: Status, to: Status, providerMessageId: Option<string>)

  datatype Classification = Retryable | NonRetryable | RateLimited

  datatype Execution = Execution(
    status: Status,
    messageId: Option<string>,
    draft: Option<string>,
    approvalId: Option<string>,
    providerId: Option<string>,
    providerMessageId: Option<string>,
    internetMessageId: Option<string>,
    providerErrorCode: Option<string>,
    attempts: int,
    lastError: Option<string>,
    retryClassification: Option<Classification>,
    retryAfterMs: Option<int>,
    events: seq<Event>)

  datatype Op =
    | StartDrafting
    | SetDraft(messageId: string, draft: string)
    | Approve(approvalId: string)
    | Reject(reason: string)
    | MarkSending
    | MarkProviderAttempt(providerId: string)
    | MarkProviderAccepted(providerMessageId: Option<string>, internetMessageId: Option<string>, errorCode: Option<string>)
    | MarkDeliveryPending
    | MarkDelivered(internetMessageId: Option<string>)
    | MarkOpened
    | MarkReplied
    | MarkBounced(reason: string)
    | MarkFailed(classification: Classification, reason: string, errorCode: Option<string>)
    | MarkDeliveryUnknown(reason: string)
    | MarkRequiresReconciliation(reason: string)
    | MarkReconciledDelivered(internetMessageId: Option<string>)
    | MarkReconciledFailed(reason: string)
    | Cancel
    | RecordRetryAfter(ms: int)

  /** The execution afterwards, and whether the call succeeded. */
  datatype Outcome = Outcome(execution: Execution, ok: bool)

  function Moved(e: Execution, to: Status): Execution {
    e.(status := to, events := e.events + [StatusChanged(e.status, to, e.providerMessageId)])
  }

  function Transition(e: Execution, to: Status): Outcome {
    if to in Transitions(e.status) then Outcome(Moved(e, to), true) else Outcome(e, false)
  }

  predicate PreSubmission(s: Status) {
    s == Sending || s == Approved
  }

  function FailedAs(e: Execution, classification: Classification): Outcome {
    if classification != NonRetryable then
      if PreSubmission(e.status) then Outcome(e, true) else Transition(e, RequiresReconciliation)
    else if PreSubmission(e.status) then Transition(e, FailedPreSubmission)
    else if e.status == ProviderAccepted || e.status == DeliveryPending || e.status == Delivered || e.status == Opened
    then Transition(e, DeliveryFailed)
    else Transition(e, Failed)
  }

  function Apply(e: Execution, op: Op): Outcome {
    match op
    case StartDrafting => Transition(e, Drafting)
    case SetDraft(messageId, draft) =>
      if e.status == Drafting || e.status == Pending
      then Transition(e.(messageId := Some(messageId), draft := Some(draft)), PendingApproval)
      else Outcome(e, false)
    case Approve(approvalId) =>
      if e.status == PendingApproval then Transition(e.(approvalId := Some(approvalId)), Approved) else Outcome(e, false)
    case Reject(reason) =>
      if e.status == PendingApproval then Transition(e.(lastError := Some(reason)), Failed) else Outcome(e, false)
    case MarkSending => Transition(e, Sending)
    case MarkProviderAttempt(providerId) =>
      if e.status == Sending then Outcome(e.(providerId := Some(providerId), attempts := e.attempts + 1), true) else Outcome(e, false)
    case MarkProviderAccepted(providerMessageId, internetMessageId, errorCode) =>
      Transition(e.(providerMessageId := providerMessageId, internetMessageId := internetMessageId, providerErrorCode := errorCode),
                 ProviderAccepted)
    case MarkDeliveryPending => Transition(e, DeliveryPending)
    case MarkDelivered(id) => Transition(if Given(id) then e.(internetMessageId := id) else e, Delivered)
    case MarkOpened => Transition(e, Opened)
    case MarkReplied => Transition(e, Replied)
    case MarkBounced(reason) => Transition(e.(lastError := Some(reason)), Bounced)
    case MarkFailed(classification, reason, errorCode) =>
      FailedAs(e.(retryClassification := Some(classification), lastError := Some(reason), providerErrorCode := errorCode), classification)
    case MarkDeliveryUnknown(reason) => Transition(e.(lastError := Some(reason)), DeliveryUnknown)
    case MarkRequiresReconciliation(reason) => Transition(e.(lastError := Some(reason)), RequiresReconciliation)
    case MarkReconciledDelivered(id) =>
      Outcome(Moved(if Given(id) then e.(internetMessageId := id, providerMessageId := id) else e, Delivered), true)
    case MarkReconciledFailed(reason) => Outcome(Moved(e.(lastError := Some(reason)), Failed), true)
    case Cancel => Transition(e, Cancelled)
    case RecordRetryAfter(ms) => Outcome(e.(retryAfterMs := Some(ms)), true)
  }

  // ---- runs ----

  /** As `create` leaves it, whatever else the caller supplied. */
  predicate Fresh(e: Execution) {
    e.status == Pending && e.events == [Created]
  }

  function Run(e: Execution, ops: seq<Op>): Execution {
    if ops == [] then e else Apply(Run(e, ops[..|ops| - 1]), ops[|ops| - 1]).execution
  }

  /** The status the from/to events lead to, if they follow one another. */
  function Replay(events: seq<Event>): Option<Status> {
    if events == [] then None
    else if |events| == 1 then (if events[0] == Created then Some(Pending) else None)
    else
      var last := events[|events| - 1];
      if last.StatusChanged? && Replay(events[..|events| - 1]) == Some(last.from) then Some(last.to) else None
  }

  /** How often the events record an approval. */
  function Approvals(events: seq<Event>): nat {
    if events == [] then 0
    else
      var last := events[|events| - 1];
      Approvals(events[..|events| - 1]) + (if last.StatusChanged? && last.to == Approved then 1 else 0)
  }

  predicate Early(s: Status) {
    s == Pending || s == Drafting || s == PendingApproval
  }

  predicate InFlight(s: Status) {
    s == Approved || s == Sending || s == ProviderAccepted || s == DeliveryPending
  }

  /** What every run keeps, from `first` on. */
  predicate Sound(first: Execution, e: Execution) {
    && Replay(e.events) == Some(e.status)
    && Approvals(e.events) <= 1
    && (InFlight(e.status) ==> Approvals(e.events) == 1)
    && (Early(e.status) ==> Approvals(e.events) == 0)
    && (Approvals(e.events) == 1 ==> e.approvalId.Some?)
    && (e.attempts != first.attempts ==> Approvals(e.events) == 1)
    && e.status != Bounced && e.status != Cancelled
  }

  /** One status event from the one state to the other has been added. */
  predicate Logged(e: Execution, after: Execution) {
    && |after.events| == |e.events| + 1
    && after.events[..|e.events|] == e.events
    && after.events[|e.events|].StatusChanged?
    && after.events[|e.events|].from == e.status
    && after.events[|e.events|].to == after.status
  }

  predicate Silent(e: Execution, after: Execution) {
    after.events == e.events && after.status == e.status
  }

  /** No call enters the statuses of before approval from later ones, nor BOUNCED or CANCELLED
      at all; only `approve` enters APPROVED, from PENDING_APPROVAL. */
  predicate Orderly(from: Status, to: Status) {
    && (to == Approved ==> from == PendingApproval)
    && (InFlight(to) ==> InFlight(from) || to == Approved)
    && (Early(to) ==> Early(from))
    && to != Bounced && to != Cancelled
  }

  predicate Follows(e: Execution, after: Execution) {
    Silent(e, after) || (Logged(e, after) && Orderly(e.status, after.status))
  }

  lemma TransitionFollows(e: Execution, to: Status)
    ensures Follows(e, Transition(e, to).execution)
  {
  }

  lemma StepShape(e: Execution, op: Op)
    ensures Follows(e, Apply(e, op).execution)
  {
    if !op.MarkReconciledDelivered? && !op.MarkReconciledFailed? {
      StepOtherwise(e, op);
    }
  }

  /** Apart from the reconciliation calls, the status moves by the table or not at all. */
  lemma StepOtherwise(e: Execution, op: Op)
    requires !op.MarkReconciledDelivered? && !op.MarkReconciledFailed?
    ensures Follows(e, Apply(e, op).execution)
  {
    var after := Apply(e, op).execution;
    assert Silent(e, after) || (after.status in Transitions(e.status) &&
           after.events == e.events + [StatusChanged(e.status, after.status, after.providerMessageId)]);
    TransitionFollows(e, after.status);
  }

  /** Only `setDraft`, before approval, touches the draft; only `approve` the approval id; only
      an attempt while sending the count. */
  lemma StepFrame(e: Execution, op: Op)
    ensures var after := Apply(e, op).execution;
            && (after.draft != e.draft || after.messageId != e.messageId ==> op.SetDraft? && (e.status == Pending || e.status == Drafting))
            && (after.approvalId != e.approvalId ==> op.Approve? && e.status == PendingApproval)
            && (op.Approve? && e.status == PendingApproval ==> after.approvalId == Some(op.approvalId) && after.status == Approved)
            && (after.attempts != e.attempts ==> e.status == Sending)
  {
  }

  lemma FollowingKeepsSound(first: Execution, e: Execution, after: Execution)
    requires Sound(first, e) && Follows(e, after)
    requires after.approvalId != e.approvalId || after.status == Approved ==> after.approvalId.Some?
    requires after.attempts != e.attempts ==> e.status == Sending
    requires e.status == PendingApproval && after.status == Approved ==> after.approvalId.Some?
    ensures Sound(first, after)
  {
  }

  lemma StepKeepsSound(first: Execution, e: Execution, op: Op)
    requires Sound(first, e)
    ensures Sound(first, Apply(e, op).execution)
  {
    StepShape(e, op);
    StepFrame(e, op);
    FollowingKeepsSound(first, e, Apply(e, op).execution);
  }

  lemma {:induction false} CallsAreSound(first: Execution, ops: seq<Op>)
    requires Fresh(first)
    ensures Sound(first, Run(first, ops))
    decreases |ops|
  {
    if ops == [] {
      assert first.events[..0] == [];
    } else {
      CallsAreSound(first, ops[..|ops| - 1]);
      StepKeepsSound(first, Run(first, ops[..|ops| - 1]), ops[|ops| - 1]);
    }
  }

  predicate Draftable(s: Status) {
    s == Pending || s == Drafting
  }

  lemma NeverDraftableAgain(e: Execution, op: Op)
    requires !Draftable(e.status)
    ensures !Draftable(Apply(e, op).execution.status)
  {
  }

  /** The approval that stands at position `i` of the run is of this draft, message and id. */
  predicate ApprovedAt(first: Execution, ops: seq<Op>, i: nat, e: Execution)
    requires i < |ops|
  {
    && ops[i].Approve?
    && var asked := Run(first, ops[..i]);
       asked.status == PendingApproval && asked.draft == e.draft && asked.messageId == e.messageId
       && e.approvalId == Some(ops[i].approvalId)
  }

  lemma {:induction false} ApprovedByACall(first: Execution, ops: seq<Op>)
    requires Fresh(first)
    ensures var e := Run(first, ops);
            InFlight(e.status) || e.attempts != first.attempts || Approvals(e.events) == 1 ==>
              exists i :: 0 <= i < |ops| && ApprovedAt(first, ops, i, e)
    decreases |ops|
  {
    CallsAreSound(first, ops);
    if ops != [] {
      var front, op := ops[..|ops| - 1], ops[|ops| - 1];
      var before, e := Run(first, front), Run(first, ops);
      CallsAreSound(first, front);
      ApprovedByACall(first, front);
      StepShape(before, op);
      StepFrame(before, op);
      if Approvals(before.events) == 1 {
        var i :| 0 <= i < |front| && ApprovedAt(first, front, i, before);
        assert ops[..i] == front[..i];
        assert ApprovedAt(first, ops, i, e);
      } else if Approvals(e.events) == 1 {
        ApprovalEntersOnce(before, op);
        assert ApprovedAt(first, ops, |ops| - 1, e);
      }
    }
  }

  lemma ApprovalEntersOnce(e: Execution, op: Op)
    requires Approvals(Apply(e, op).execution.events) != Approvals(e.events)
    ensures op.Approve? && e.status == PendingApproval
    ensures var after := Apply(e, op).execution;
            after.draft == e.draft && after.messageId == e.messageId && after.approvalId == Some(op.approvalId)
  {
    StepShape(e, op);
    StepFrame(e, op);
  }

  // ---- runs with reloads ----

  /** The executions as repositories keep them: a reload clears the events, which the
      repository has saved by then. */
  datatype Stored = Stored(saved: seq<Event>, live: Execution)

  datatype Action = Call(op: Op) | Reload

  function Act(st: Stored, a: Action): Stored {
    match a
    case Call(op) => st.(live := Apply(st.live, op).execution)
    case Reload => Stored(st.saved + st.live.events, st.live.(events := []))
  }

  function Acts(st: Stored, actions: seq<Action>): Stored {
    if actions == [] then st else Act(Acts(st, actions[..|actions| - 1]), actions[|actions| - 1])
  }

  function CallsOf(actions: seq<Action>): seq<Op> {
    if actions == [] then []
    else
      var last := actions[|actions| - 1];
      CallsOf(actions[..|actions| - 1]) + (if last.Call? then [last.op] else [])
  }

  /** The execution with all the events it ever emitted. */
  function Whole(st: Stored): Execution {
    st.live.(events := st.saved + st.live.events)
  }

  function Preceded(earlier: seq<Event>, e: Execution): Execution {
    e.(events := earlier + e.events)
  }

  lemma TransitionIgnoresEarlier(earlier: seq<Event>, e: Execution, to: Status)
    ensures Transition(Preceded(earlier, e), to).execution == Preceded(earlier, Transition(e, to).execution)
  {
    if to in Transitions(e.status) {
      var event := StatusChanged(e.status, to, e.providerMessageId);
      assert (earlier + e.events) + [event] == earlier + (e.events + [event]);
    }
  }

  lemma FailureIgnoresEarlier(earlier: seq<Event>, e: Execution, c: Classification)
    ensures FailedAs(Preceded(earlier, e), c).execution == Preceded(earlier, FailedAs(e, c).execution)
  {
    TransitionIgnoresEarlier(earlier, e, RequiresReconciliation);
    TransitionIgnoresEarlier(earlier, e, FailedPreSubmission);
    TransitionIgnoresEarlier(earlier, e, DeliveryFailed);
    TransitionIgnoresEarlier(earlier, e, Failed);
  }

  lemma ReconciledIgnoresEarlier(earlier: seq<Event>, e: Execution, to: Status)
    ensures Moved(Preceded(earlier, e), to) == Preceded(earlier, Moved(e, to))
  {
    var event := StatusChanged(e.status, to, e.providerMessageId);
    assert (earlier + e.events) + [event] == earlier + (e.events + [event]);
  }

  /** The target of a call that moves by the table, and the execution it asks the table for. */
  function Asks(e: Execution, op: Op): Option<(Execution, Status)> {
    match op
    case StartDrafting => Some((e, Drafting))
    case SetDraft(messageId, draft) =>
      if e.status == Drafting || e.status == Pending
      then Some((e.(messageId := Some(messageId), draft := Some(draft)), PendingApproval)) else None
    case Approve(approvalId) => if e.status == PendingApproval then Some((e.(approvalId := Some(approvalId)), Approved)) else None
    case Reject(reason) => if e.status == PendingApproval then Some((e.(lastError := Some(reason)), Failed)) else None
    case MarkSending => Some((e, Sending))
    case MarkProviderAccepted(a, b, c) =>
      Some((e.(providerMessageId := a, internetMessageId := b, providerErrorCode := c), ProviderAccepted))
    case MarkDeliveryPending => Some((e, DeliveryPending))
    case MarkDelivered(id) => Some((if Given(id) then e.(internetMessageId := id) else e, Delivered))
    case MarkOpened => Some((e, Opened))
    case MarkReplied => Some((e, Replied))
    case MarkBounced(reason) => Some((e.(lastError := Some(reason)), Bounced))
    case MarkDeliveryUnknown(reason) => Some((e.(lastError := Some(reason)), DeliveryUnknown))
    case MarkRequiresReconciliation(reason) => Some((e.(lastError := Some(reason)), RequiresReconciliation))
    case Cancel => Some((e, Cancelled))
    case _ => None
  }

  lemma AskingIgnoresEarlier(earlier: seq<Event>, e: Execution, op: Op)
    requires Asks(e, op).Some?
    ensures Apply(Preceded(earlier, e), op).execution == Preceded(earlier, Apply(e, op).execution)
  {
    var asked := Asks(e, op).value;
    assert Apply(e, op) == Transition(asked.0, asked.1);
    assert Apply(Preceded(earlier, e), op) == Transition(Preceded(earlier, asked.0), asked.1);
    TransitionIgnoresEarlier(earlier, asked.0, asked.1);
  }

  /** No call looks at the events that came before. */
  lemma CallIgnoresEarlier(earlier: seq<Event>, e: Execution, op: Op)
    ensures Apply(Preceded(earlier, e), op).execution == Preceded(earlier, Apply(e, op).execution)
  {
    if Asks(e, op).Some? {
      AskingIgnoresEarlier(earlier, e, op);
    } else {
      match op {
      case MarkFailed(c, reason, code) =>
        FailureIgnoresEarlier(earlier, e.(retryClassification := Some(c), lastError := Some(reason), providerErrorCode := code), c);
      case MarkReconciledDelivered(id) =>
        ReconciledIgnoresEarlier(earlier, if Given(id) then e.(internetMessageId := id, providerMessageId := id) else e, Delivered);
      case MarkReconciledFailed(reason) => ReconciledIgnoresEarlier(earlier, e.(lastError := Some(reason)), Failed);
      case _ =>
      }
    }
  }

  /** Reloading changes nothing but where the events are kept: a run with reloads is the run of its calls. */
  lemma {:induction false} ReloadsAreInvisible(first: Execution, actions: seq<Action>)
    ensures Whole(Acts(Stored([], first), actions)) == Run(first, CallsOf(actions))
    decreases |actions|
  {
    if actions == [] {
      assert [] + first.events == first.events;
    } else {
      var front, last := actions[..|actions| - 1], actions[|actions| - 1];
      var st := Acts(Stored([], first), front);
      ReloadsAreInvisible(first, front);
      match last {
      case Call(op) =>
        CallIgnoresEarlier(st.saved, st.live, op);
        assert CallsOf(actions)[..|CallsOf(front)|] == CallsOf(front);
      case Reload =>
        assert st.saved + st.live.events + [] == st.saved + st.live.events;
        assert CallsOf(actions) == CallsOf(front);
      }
    }
  }

  /** In every run, reloads included, the events replay to the status, at most one approval is
      recorded, every in-flight status and every counted attempt has one, and BOUNCED and
      CANCELLED never occur. */
  lemma RunsAreSound(first: Execution, actions: seq<Action>)
    requires Fresh(first)
    ensures Sound(first, Whole(Acts(Stored([], first), actions)))
  {
    ReloadsAreInvisible(first, actions);
    CallsAreSound(first, CallsOf(actions));
  }

  /** Once the status has left PENDING and DRAFTING, message id and draft never change. */
  lemma {:induction false} DraftIsFrozen(st: Stored, actions: seq<Action>)
    requires !Draftable(st.live.status)
    ensures var later := Acts(st, actions).live;
            !Draftable(later.status) && later.draft == st.live.draft && later.messageId == st.live.messageId
    decreases |actions|
  {
    if actions != [] {
      var last := actions[|actions| - 1];
      var before := Acts(st, actions[..|actions| - 1]);
      DraftIsFrozen(st, actions[..|actions| - 1]);
      if last.Call? {
        StepFrame(before.live, last.op);
        NeverDraftableAgain(before.live, last.op);
      }
    }
  }

  /** Main theorem: what was approved is what is sent. Whenever a run, reloads included, has
      counted an attempt or stands in an in-flight status, some call in it approved, under the
      approval id still recorded, exactly the draft and message id the execution carries now. */
  lemma ApprovedIsWhatIsSent(first: Execution, actions: seq<Action>)
    requires Fresh(first)
    ensures var e := Acts(Stored([], first), actions).live;
            InFlight(e.status) || e.attempts != first.attempts ==>
              exists i :: 0 <= i < |CallsOf(actions)| && ApprovedAt(first, CallsOf(actions), i, e)
  {
    var e := Acts(Stored([], first), actions).live;
    ReloadsAreInvisible(first, actions);
    ApprovedByACall(first, CallsOf(actions));
    if InFlight(e.status) || e.attempts != first.attempts {
      var i :| 0 <= i < |CallsOf(actions)| && ApprovedAt(first, CallsOf(actions), i, Run(first, CallsOf(actions)));
      assert ApprovedAt(first, CallsOf(actions), i, e);
    }
  }

  // ---- deliveries without approval ----

  predicate Arrived(s: Status) {
    s == Delivered || s == Opened || s == Replied
  }

  /** An operator declared the message delivered while no approval was on record. */
  predicate BypassedAt(first: Execution, ops: seq<Op>, i: nat) {
    i < |ops| && ops[i].MarkReconciledDelivered? && Approvals(Run(first, ops[..i]).events) == 0
  }

  lemma ApprovalsOfStep(e: Execution, op: Op)
    ensures var after := Apply(e, op).execution;
            && Approvals(after.events) >= Approvals(e.events)
            && (!Early(e.status) ==> Approvals(after.events) == Approvals(e.events) && !Early(after.status))
  {
    StepShape(e, op);
  }

  lemma WaysToArrive(e: Execution, op: Op)
    requires Arrived(Apply(e, op).execution.status) && !Arrived(e.status)
    ensures op.MarkReconciledDelivered? || e.status == DeliveryPending
  {
  }

  lemma DeclaredDelivered(e: Execution, op: Op)
    requires op.MarkReconciledDelivered?
    ensures var after := Apply(e, op).execution;
            after.status == Delivered && Approvals(after.events) == Approvals(e.events)
  {
    StepShape(e, op);
    var after := Apply(e, op).execution;
    assert after.events == e.events + [after.events[|e.events|]];
    assert after.events[..|e.events|] == e.events;
  }

  lemma {:induction false} BypassSticks(first: Execution, ops: seq<Op>, i: nat)
    requires BypassedAt(first, ops, i)
    ensures Approvals(Run(first, ops).events) == 0 && !Early(Run(first, ops).status)
    decreases |ops|
  {
    var front, op := ops[..|ops| - 1], ops[|ops| - 1];
    if i == |front| {
      DeclaredDelivered(Run(first, front), op);
    } else {
      assert ops[..i] == front[..i];
      BypassSticks(first, front, i);
      ApprovalsOfStep(Run(first, front), op);
    }
  }

  lemma ArrivalStep(first: Execution, before: Execution, op: Op)
    requires Sound(first, before) && Arrived(Apply(before, op).execution.status)
    requires Approvals(Apply(before, op).execution.events) == 0
    ensures Approvals(before.events) == 0 && (Arrived(before.status) || op.MarkReconciledDelivered?)
  {
    ApprovalsOfStep(before, op);
    if !Arrived(before.status) { WaysToArrive(before, op); }
  }

  /** The run has arrived without an approval. */
  predicate ArrivedUnapproved(first: Execution, ops: seq<Op>) {
    ops != [] && Arrived(Run(first, ops).status) && Approvals(Run(first, ops).events) == 0
  }

  lemma FrontOrLast(first: Execution, ops: seq<Op>)
    requires Fresh(first) && ArrivedUnapproved(first, ops)
    ensures ArrivedUnapproved(first, ops[..|ops| - 1]) || BypassedAt(first, ops, |ops| - 1)
  {
    var front := ops[..|ops| - 1];
    CallsAreSound(first, front);
    ArrivalStep(first, Run(first, front), ops[|ops| - 1]);
  }

  lemma BypassStays(first: Execution, ops: seq<Op>, n: nat, i: nat)
    requires n <= |ops| && BypassedAt(first, ops[..n], i)
    ensures BypassedAt(first, ops, i)
  {
    assert ops[..n][..i] == ops[..i];
  }

  lemma {:induction false} UnapprovedWasBypassed(first: Execution, ops: seq<Op>, n: nat) returns (i: nat)
    requires Fresh(first) && n <= |ops| && ArrivedUnapproved(first, ops[..n])
    ensures BypassedAt(first, ops[..n], i)
  {
    FrontOrLast(first, ops[..n]);
    assert ops[..n][..n - 1] == ops[..n - 1];
    if BypassedAt(first, ops[..n], n - 1) {
      i := n - 1;
    } else {
      i := UnapprovedWasBypassed(first, ops, n - 1);
      BypassStays(first, ops[..n], n - 1, i);
    }
  }

  /** Exactly when a delivered message was never approved: some call in the run, reloads
      included, declared it delivered while no approval was on record. */
  lemma UnapprovedDeliveryExactly(first: Execution, actions: seq<Action>)
    requires Fresh(first) && Arrived(Acts(Stored([], first), actions).live.status)
    ensures Approvals(Whole(Acts(Stored([], first), actions)).events) == 0 <==>
            exists i: nat :: BypassedAt(first, CallsOf(actions), i)
  {
    var ops := CallsOf(actions);
    ReloadsAreInvisible(first, actions);
    if Approvals(Run(first, ops).events) == 0 {
      assert ops[..|ops|] == ops;
      var i := UnapprovedWasBypassed(first, ops, |ops|);
    }
    if i: nat :| BypassedAt(first, ops, i) {
      BypassSticks(first, ops, i);
    }
  }

  /** The failing input: a fresh execution, declared delivered without draft or approval. */
  lemma ReconciliationNeedsNoApproval(first: Execution)
    requires Fresh(first) && first.approvalId.None?
    ensures var e := Run(first, [MarkReconciledDelivered(None)]);
            e.status == Delivered && e.approvalId.None? && Approvals(e.events) == 0
  {
    var ops := [MarkReconciledDelivered(None)];
    assert ops[..0] == [] && first.events[..0] == [];
    assert Approvals(first.events) == 0;
    DeclaredDelivered(first, ops[0]);
    StepFrame(first, ops[0]);
    assert Run(first, ops) == Apply(first, ops[0]).execution;
  }

  /** The statuses from which the reconciliation service declares a message delivered or failed. */
  predicate Reconcilable(s: Status) {
    s == DeliveryUnknown || s == RequiresReconciliation
  }

  /** Every declared delivery of the run was made from such a status. */
  predicate Guarded(first: Execution, ops: seq<Op>) {
    forall i :: 0 <= i < |ops| && ops[i].MarkReconciledDelivered? ==> Reconcilable(Run(first, ops[..i]).status)
  }

  lemma GuardedFront(first: Execution, ops: seq<Op>)
    requires ops != [] && Guarded(first, ops)
    ensures Guarded(first, ops[..|ops| - 1])
  {
    var front := ops[..|ops| - 1];
    assert forall i :: 0 <= i < |front| ==> front[..i] == ops[..i];
  }

  /** A call leaves these statuses only by an approval. */
  lemma EarlyOrFailed(e: Execution, op: Op)
    requires Early(e.status) || e.status == Failed
    requires op.MarkReconciledDelivered? ==> Reconcilable(e.status)
    ensures var after := Apply(e, op).execution;
            Early(after.status) || after.status == Failed || after.status == Approved
  {
    if !op.MarkReconciledDelivered? && !op.MarkReconciledFailed? {
      var after := Apply(e, op).execution;
      assert after.status == e.status || after.status in Transitions(e.status);
    }
  }

  lemma WithoutApprovalNothingLeaves(e: Execution, op: Op)
    requires Early(e.status) || e.status == Failed
    requires op.MarkReconciledDelivered? ==> Reconcilable(e.status)
    ensures var after := Apply(e, op).execution;
            Early(after.status) || after.status == Failed || Approvals(after.events) > Approvals(e.events)
  {
    EarlyOrFailed(e, op);
    StepShape(e, op);
    var after := Apply(e, op).execution;
    if after.status == Approved {
      assert after.events == e.events + [after.events[|e.events|]];
      assert after.events[..|e.events|] == e.events;
    }
  }

  /** Without an approval a guarded run stays before approval, or fails. */
  lemma {:induction false} UnapprovedStaysEarly(first: Execution, ops: seq<Op>)
    requires Fresh(first) && Guarded(first, ops) && Approvals(Run(first, ops).events) == 0
    ensures Early(Run(first, ops).status) || Run(first, ops).status == Failed
    decreases |ops|
  {
    if ops != [] {
      var front := ops[..|ops| - 1];
      GuardedFront(first, ops);
      ApprovalsOfStep(Run(first, front), ops[|ops| - 1]);
      UnapprovedStaysEarly(first, front);
      WithoutApprovalNothingLeaves(Run(first, front), ops[|ops| - 1]);
    }
  }

  /** As the reconciliation service calls it, every delivered message was approved, once. */
  lemma GuardedDeliveryIsApproved(first: Execution, actions: seq<Action>)
    requires Fresh(first) && Guarded(first, CallsOf(actions))
    requires Arrived(Acts(Stored([], first), actions).live.status)
    ensures Approvals(Whole(Acts(Stored([], first), actions)).events) == 1
  {
    ReloadsAreInvisible(first, actions);
    CallsAreSound(first, CallsOf(actions));
    if Approvals(Run(first, CallsOf(actions)).events) == 0 { UnapprovedStaysEarly(first, CallsOf(actions)); }
  }

  // ---- what the table and the reconciliation calls imply ----

  /** `markFailed` with a non-retryable classification moves the execution exactly from these
      statuses; it is refused, for instance, in APPROVED, although the code names a target there. */
  lemma NonRetryableFailureExactly(e: Execution, reason: string, errorCode: Option<string>)
    ensures Apply(e, MarkFailed(NonRetryable, reason, errorCode)).ok <==>
            e.status == Sending || e.status == DeliveryPending || e.status == Drafting || e.status == PendingApproval
  {
  }

  /** A retryable failure is accepted without moving in SENDING and APPROVED, moves
      DELIVERY_PENDING to reconciliation, and is refused everywhere else. */
  lemma RetryableFailureExactly(e: Execution, c: Classification, reason: string, errorCode: Option<string>)
    requires c != NonRetryable
    ensures var r := Apply(e, MarkFailed(c, reason, errorCode));
            && (r.ok <==> e.status == Sending || e.status == Approved || e.status == DeliveryPending)
            && (r.ok && e.status != DeliveryPending ==> Silent(e, r.execution))
            && (e.status == DeliveryPending ==> r.execution.status == RequiresReconciliation)
  {
  }

  // ---- the aggregate ----

  class OutreachMessageExecution {
    var status: Status
    var messageId: Option<string>
    var draft: Option<string>
    var approvalId: Option<string>
    var providerId: Option<string>
    var providerMessageId: Option<string>
    var internetMessageId: Option<string>
    var providerErrorCode: Option<string>
    var attempts: int
    var lastError: Option<string>
    var retryClassification: Option<Classification>
    var retryAfterMs: Option<int>
    var domainEvents: seq<Event>

    function State(): Execution
      reads this
    {
      Execution(status, messageId, draft, approvalId, providerId, providerMessageId, internetMessageId, providerErrorCode,
                attempts, lastError, retryClassification, retryAfterMs, domainEvents)
    }

    constructor (props: Execution)
      ensures State() == props.(status := Pending, events := [Created]) && Fresh(State())
    {
      status, messageId, draft, approvalId := Pending, props.messageId, props.draft, props.approvalId;
      providerId, providerMessageId, internetMessageId := props.providerId, props.providerMessageId, props.internetMessageId;
      providerErrorCode, attempts, lastError := props.providerErrorCode, props.attempts, props.lastError;
      retryClassification, retryAfterMs := props.retryClassification, props.retryAfterMs;
      domainEvents := [Created];
    }

    /** A stored execution comes back as it is, with its events cleared. */
    constructor Reconstitute(snapshot: Execution)
      ensures State() == Act(Stored([], snapshot), Reload).live
    {
      status, messageId, draft, approvalId := snapshot.status, snapshot.messageId, snapshot.draft, snapshot.approvalId;
      providerId, providerMessageId, internetMessageId := snapshot.providerId, snapshot.providerMessageId, snapshot.internetMessageId;
      providerErrorCode, attempts, lastError := snapshot.providerErrorCode, snapshot.attempts, snapshot.lastError;
      retryClassification, retryAfterMs := snapshot.retryClassification, snapshot.retryAfterMs;
      domainEvents := [];
    }

    method ApplyEvent(event: Event)
      modifies this
      ensures State() == old(State()).(events := old(domainEvents) + [event])
    {
      domainEvents := domainEvents + [event];
    }

    method TransitionTo(to: Status) returns (ok: bool)
      modifies this
      ensures Outcome(State(), ok) == Transition(old(State()), to)
    {
      if to !in Transitions(status) {
        return false;
      }
      var from := status;
      status := to;
      ApplyEvent(StatusChanged(from, to, providerMessageId));
      ok := true;
    }

    method StartDrafting() returns (ok: bool)
      modifies this
      ensures Outcome(State(), ok) == Apply(old(State()), Op.StartDrafting)
    {
      ok := TransitionTo(Drafting);
    }

    /** The draft is assigned before the table is asked, so a refused call may still replace it. */
    method SetDraft(messageId: string, draft: string) returns (ok: bool)
      modifies this
      ensures Outcome(State(), ok) == Apply(old(State()), Op.SetDraft(messageId, draft))
    {
      if status != Drafting && status != Pending {
        return false;
      }
      this.messageId := Some(messageId);
      this.draft := Some(draft);
      ok := TransitionTo(PendingApproval);
    }

    method Approve(approvalId: string) returns (ok: bool)
      modifies this
      ensures Outcome(State(), ok) == Apply(old(State()), Op.Approve(approvalId))
    {
      if status != PendingApproval {
        return false;
      }
      this.approvalId := Some(approvalId);
      ok := TransitionTo(Approved);
    }

    method Reject(reason: string) returns (ok: bool)
      modifies this
      ensures Outcome(State(), ok) == Apply(old(State()), Op.Reject(reason))
    {
      if status != PendingApproval {
        return false;
      }
      lastError := Some(reason);
      ok := TransitionTo(Failed);
    }

    method MarkSending() returns (ok: bool)
      modifies this
      ensures Outcome(State(), ok) == Apply(old(State()), Op.MarkSending)
    {
      ok := TransitionTo(Sending);
    }

    method MarkProviderAttempt(providerId: string) returns (ok: bool)
      modifies this
      ensures Outcome(State(), ok) == Apply(old(State()), Op.MarkProviderAttempt(providerId))
    {
      if status != Sending {
        return false;
      }
      this.providerId := Some(providerId);
      attempts := attempts + 1;
      ok := true;
    }

    method MarkProviderAccepted(providerMessageId: Option<string>, internetMessageId: Option<string>, errorCode: Option<string>)
      returns (ok: bool)
      modifies this
      ensures Outcome(State(), ok) == Apply(old(State()), Op.MarkProviderAccepted(providerMessageId, internetMessageId, errorCode))
    {
      this.providerMessageId := providerMessageId;
      this.internetMessageId := internetMessageId;
      providerErrorCode := errorCode;
      ok := TransitionTo(ProviderAccepted);
    }

    method MarkDelivered(internetMessageId: Option<string>) returns (ok: bool)
      modifies this
      ensures Outcome(State(), ok) == Apply(old(State()), Op.MarkDelivered(internetMessageId))
    {
      if Given(internetMessageId) {
        this.internetMessageId := internetMessageId;
      }
      ok := TransitionTo(Delivered);
    }

    method MarkFailed(classification: Classification, reason: string, errorCode: Option<string>) returns (ok: bool)
      modifies this
      ensures Outcome(State(), ok) == Apply(old(State()), Op.MarkFailed(classification, reason, errorCode))
    {
      retryClassification := Some(classification);
      lastError := Some(reason);
      providerErrorCode := errorCode;
      ok := FailBy(classification);
    }

    method FailBy(classification: Classification) returns (ok: bool)
      modifies this
      ensures Outcome(State(), ok) == FailedAs(old(State()), classification)
    {
      var preSubmission := status == Sending || status == Approved;
      if classification == Retryable || classification == RateLimited {
        if preSubmission {
          return true;
        }
        ok := TransitionTo(RequiresReconciliation);
        return;
      }
      if preSubmission {
        ok := TransitionTo(FailedPreSubmission);
        return;
      }
      if status == ProviderAccepted || status == DeliveryPending || status == Delivered || status == Opened {
        ok := TransitionTo(DeliveryFailed);
        return;
      }
      ok := TransitionTo(Failed);
    }

    method MarkReconciledDelivered(internetMessageId: Option<string>) returns (ok: bool)
      modifies this
      ensures Outcome(State(), ok) == Apply(old(State()), Op.MarkReconciledDelivered(internetMessageId))
    {
      if Given(internetMessageId) {
        this.internetMessageId := internetMessageId;
        this.providerMessageId := internetMessageId;
      }
      var from := status;
      status := Delivered;
      ApplyEvent(StatusChanged(from, Delivered, providerMessageId));
      ok := true;
    }

    method MarkReconciledFailed(reason: string) returns (ok: bool)
      modifies this
      ensures Outcome(State(), ok) == Apply(old(State()), Op.MarkReconciledFailed(reason))
    {
      var from := status;
      lastError := Some(reason);
      status := Failed;
      ApplyEvent(StatusChanged(from, Failed, providerMessageId));
      ok := true;
    }

    /** `markBounced`, `markDeliveryUnknown` and `markRequiresReconciliation`: the reason is
        recorded whether or not the move is allowed. */
    method MarkWithReason(to: Status, reason: string) returns (ok: bool)
      requires to == Bounced || to == DeliveryUnknown || to == RequiresReconciliation
      modifies this
      ensures Outcome(State(), ok) == Apply(old(State()),
                match to case Bounced => Op.MarkBounced(reason) case DeliveryUnknown => Op.MarkDeliveryUnknown(reason)
                         case _ => Op.MarkRequiresReconciliation(reason))
    {
      lastError := Some(reason);
      ok := TransitionTo(to);
    }

    /** `markDeliveryPending`, `markOpened`, `markReplied` and `cancel`. */
    method MarkPlainly(to: Status) returns (ok: bool)
      requires to == DeliveryPending || to == Opened || to == Replied || to == Cancelled
      modifies this
      ensures Outcome(State(), ok) == Apply(old(State()),
                match to case DeliveryPending => Op.MarkDeliveryPending case Opened => Op.MarkOpened
                         case Replied => Op.MarkReplied case _ => Op.Cancel)
    {
      ok := TransitionTo(to);
    }

    method RecordRetryAfter(ms: int)
      modifies this
      ensures State() == Apply(old(State()), Op.RecordRetryAfter(ms)).execution
    {
      retryAfterMs := Some(ms);
    }
  }
}
