/** Message executions as they are stored: drafted before their first save, changed by the calls the
    code makes on stored ones, saved under optimistic locking
    (packages/outreach/src/application/outreach-execution.service.ts:55-125,
    packages/outreach/src/infrastructure/postgres-message-execution-repository.ts:14 and
    apps/temporal-worker/src/activities/outreach-activities.ts:188-209). */
module StoredExecutions {
  import opened Foundations
  import Message = MessageExecution

  type Executions = map<string, Message.Execution>

  predicate Awaiting(executions: Executions, id: string) {
    id in executions && executions[id].status == Message.PendingApproval
  }

  /** Every event raises the version by one, and stored executions keep all their events here. */
  function Version(e: Message.Execution): nat {
    |e.events|
  }

  class MessageExecutionRepository {
    var executions: Executions

    constructor ()
      ensures executions == map[]
    {
      executions := map[];
    }

    method Load(id: string) returns (e: Option<Message.Execution>)
      ensures e == Found(executions, id)
    {
      e := if id in executions then Some(executions[id]) else None;
    }

    /** The first save of a new execution; refused when the id is taken. */
    method Insert(id: string, e: Message.Execution) returns (saved: bool)
      modifies this
      ensures saved == (id !in old(executions))
      ensures executions == if saved then old(executions)[id := e] else old(executions)
    {
      saved := id !in executions;
      if saved {
        executions := executions[id := e];
      }
    }

    /** The save of a changed execution; refused when another save came in since it was loaded. */
    method Save(id: string, e: Message.Execution, loadedVersion: nat) returns (saved: bool)
      modifies this
      ensures saved == (id in old(executions) && Version(old(executions)[id]) == loadedVersion)
      ensures executions == if saved then old(executions)[id := e] else old(executions)
    {
      saved := id in executions && Version(executions[id]) == loadedVersion;
      if saved {
        executions := executions[id := e];
      }
    }
  }

  function Found(executions: Executions, id: string): Option<Message.Execution> {
    if id in executions then Some(executions[id]) else None
  }

  // ---- drafting ----

  datatype Personalization = Personalized(messageId: string, draft: string) | Unpersonalized(reason: string)

  /** A new execution as `prepareDraft` saves it; without a text it is rejected, whatever that answers. */
  function Drafted(created: Message.Execution, p: Personalization): Message.Execution {
    var started := Message.Apply(created, Message.StartDrafting).execution;
    match p
    case Personalized(messageId, draft) => Message.Apply(started, Message.SetDraft(messageId, draft)).execution
    case Unpersonalized(reason) => Message.Apply(started, Message.Reject(reason)).execution
  }

  datatype DraftResult = AwaitingApproval(id: string) | DraftFailed | DraftConflict

  /** `existing` is the execution the idempotency key finds; `id` the one of a new execution. */
  method PrepareDraft(repository: MessageExecutionRepository, existing: Option<string>, id: string, created: Message.Execution,
                      p: Personalization)
      returns (result: DraftResult)
    requires Message.Fresh(created)
    modifies repository
    ensures repository.executions ==
            if existing.None? && id !in old(repository.executions)
            then old(repository.executions)[id := Drafted(created, p)] else old(repository.executions)
    ensures result == if existing.Some? then AwaitingApproval(existing.value)
                      else if id in old(repository.executions) then DraftConflict
                      else if p.Personalized? then AwaitingApproval(id) else DraftFailed
  {
    if existing.Some? {
      return AwaitingApproval(existing.value);
    }
    var execution := Message.Apply(created, Message.StartDrafting).execution;
    var saved;
    match p {
      case Unpersonalized(reason) =>
        execution := Message.Apply(execution, Message.Reject(reason)).execution;
        saved := repository.Insert(id, execution);
        result := if saved then DraftFailed else DraftConflict;
      case Personalized(messageId, draft) =>
        var drafted := Message.Apply(execution, Message.SetDraft(messageId, draft));
        if !drafted.ok {
          return DraftFailed;
        }
        saved := repository.Insert(id, drafted.execution);
        result := if saved then AwaitingApproval(id) else DraftConflict;
    }
  }

  /** Only a text makes a new execution await its approval; the rejection of a failed one is
      refused by the aggregate and leaves it in DRAFTING. */
  lemma DraftedAwaitsExactly(created: Message.Execution, p: Personalization)
    requires Message.Fresh(created)
    ensures var e := Drafted(created, p);
            && e.status == (if p.Personalized? then Message.PendingApproval else Message.Drafting)
            && Message.Approvals(e.events) == 0
  {
    var started := Message.Apply(created, Message.StartDrafting).execution;
    Message.StepShape(created, Message.StartDrafting);
    assert created.events[..0] == [] && started.events[..1] == created.events;
    assert Message.Approvals(created.events) == 0;
    match p
    case Personalized(messageId, draft) => Message.StepShape(started, Message.SetDraft(messageId, draft));
    case Unpersonalized(reason) =>
  }

  // ---- calls on stored executions ----

  /** Nothing drafts an execution once it is stored: both calls are made by `prepareDraft` alone, on new ones. */
  predicate OnStored(op: Message.Op) {
    !op.StartDrafting? && !op.SetDraft?
  }

  type StoredOp = op: Message.Op | OnStored(op) witness Message.MarkSending

  /** So an execution that does not await approval when it is stored never will, and is never approved. */
  lemma StoredCallNeverAwaits(e: Message.Execution, op: StoredOp)
    requires e.status != Message.PendingApproval
    ensures var after := Message.Apply(e, op).execution;
            after.status != Message.PendingApproval && Message.Approvals(after.events) == Message.Approvals(e.events)
  {
    if Message.Approvals(Message.Apply(e, op).execution.events) != Message.Approvals(e.events) {
      Message.ApprovalEntersOnce(e, op);
      assert false;
    }
  }

  /** The aggregate alone does not forbid it: by calls of any kind an execution comes to await
      approval exactly when it is still being drafted. */
  lemma AggregateAwaitsExactly(e: Message.Execution)
    requires e.status != Message.PendingApproval
    ensures (exists ops :: Message.Run(e, ops).status == Message.PendingApproval) <==> Message.Draftable(e.status)
  {
    if Message.Draftable(e.status) {
      var start, submit := Message.StartDrafting, Message.SetDraft("", "");
      RunOfTwo(e, start, submit);
      assert Message.Run(e, [start, submit]).status == Message.PendingApproval;
    } else {
      forall ops ensures Message.Run(e, ops).status != Message.PendingApproval {
        PastDraftingNeverAwaits(e, ops);
      }
    }
  }

  lemma RunOfTwo(e: Message.Execution, first: Message.Op, second: Message.Op)
    ensures Message.Run(e, [first, second]) == Message.Apply(Message.Apply(e, first).execution, second).execution
  {
    var ops := [first, second];
    assert ops[..1] == [first] && ops[..1][..0] == [];
    assert Message.Run(e, ops[..1]) == Message.Apply(Message.Run(e, []), first).execution;
  }

  lemma {:induction false} PastDraftingNeverAwaits(e: Message.Execution, ops: seq<Message.Op>)
    requires !Message.Early(e.status)
    ensures !Message.Early(Message.Run(e, ops).status)
    decreases |ops|
  {
    if ops != [] {
      var front := ops[..|ops| - 1];
      PastDraftingNeverAwaits(e, front);
      Message.StepShape(Message.Run(e, front), ops[|ops| - 1]);
    }
  }

  /** The statuses a provider attempt can still follow. */
  predicate Sendable(s: Message.Status) {
    s == Message.PendingApproval || s == Message.Approved || s == Message.Sending
  }

  // ---- the activity that ends an approval wait ----

  function FailedWait(e: Message.Execution, reason: string): Message.Outcome {
    Message.Apply(e, Message.MarkFailed(Message.NonRetryable, reason, None))
  }

  /** What the activity does after loading: nothing, a save, or a conflict (`None`). */
  function AfterExpiry(executions: Executions, id: string, loaded: Option<Message.Execution>, reason: string): Option<Executions> {
    if loaded.None? || loaded.value.status != Message.PendingApproval || !FailedWait(loaded.value, reason).ok then Some(executions)
    else if id in executions && Version(executions[id]) == Version(loaded.value)
    then Some(executions[id := FailedWait(loaded.value, reason).execution])
    else None
  }

  datatype ExpireResult = Expired | Skipped | ExpireConflict

  method ExpireLoaded(repository: MessageExecutionRepository, id: string, loaded: Option<Message.Execution>, reason: string)
      returns (result: ExpireResult)
    modifies repository
    ensures var after := AfterExpiry(old(repository.executions), id, loaded, reason);
            && repository.executions == (if after.Some? then after.value else old(repository.executions))
            && (result == ExpireConflict <==> after.None?)
    ensures result == Skipped <==> loaded.None? || loaded.value.status != Message.PendingApproval
  {
    if loaded.None? || loaded.value.status != Message.PendingApproval {
      return Skipped;
    }
    var failed := FailedWait(loaded.value, reason);
    if !failed.ok {
      return Skipped;
    }
    var saved := repository.Save(id, failed.execution, Version(loaded.value));
    result := if saved then Expired else ExpireConflict;
  }

  /** Expires exactly the executions that await approval, and leaves all others alone, when nothing
      comes in between load and save. */
  method ExpireApprovalWait(repository: MessageExecutionRepository, id: string, reason: string) returns (result: ExpireResult)
    modifies repository
    ensures Some(repository.executions) ==
            AfterExpiry(old(repository.executions), id, Found(old(repository.executions), id), reason)
    ensures result == if Awaiting(old(repository.executions), id) then Expired else Skipped
  {
    var loaded := repository.Load(id);
    result := ExpireLoaded(repository, id, loaded, reason);
  }

  /** An undisturbed expiry leaves no approval of that execution awaited; an awaited one has FAILED. */
  lemma ExpiryEndsTheWait(executions: Executions, id: string, reason: string)
    ensures var after := AfterExpiry(executions, id, Found(executions, id), reason);
            && after.Some? && !Awaiting(after.value, id)
            && (Awaiting(executions, id) ==> after.value[id].status == Message.Failed)
            && after.value.Keys == executions.Keys
            && (forall other :: other in executions && other != id ==> after.value[other] == executions[other])
  {
  }

  /** `now` is what became of `loaded` by calls on stored executions: its events go on from there; as
      long as there are no more of them the status is the same, and once there are, an awaited
      approval is awaited no more. */
  predicate Descends(loaded: Message.Execution, now: Message.Execution) {
    && loaded.events <= now.events
    && (|loaded.events| == |now.events| ==> loaded.status == now.status)
    && (|loaded.events| < |now.events| || loaded.status != Message.PendingApproval ==> now.status != Message.PendingApproval)
  }

  lemma CallDescends(loaded: Message.Execution, now: Message.Execution, op: StoredOp)
    requires Descends(loaded, now)
    ensures Descends(loaded, Message.Apply(now, op).execution)
  {
    Message.StepShape(now, op);
    if now.status == Message.PendingApproval { LoggedEndsTheWait(now, op); } else { StoredCallNeverAwaits(now, op); }
  }

  /** No move leads from PENDING_APPROVAL to itself. */
  lemma LoggedEndsTheWait(e: Message.Execution, op: StoredOp)
    requires e.status == Message.PendingApproval
    ensures var after := Message.Apply(e, op).execution;
            |after.events| > |e.events| ==> after.status != Message.PendingApproval
  {
  }

  /** Whatever others did since the load, the expiry fails an execution that still awaits approval,
      or leaves all executions alone; it never undoes an approval. */
  lemma ExpiryOnlyFailsAwaited(executions: Executions, id: string, loaded: Message.Execution, reason: string)
    requires id in executions && Descends(loaded, executions[id])
    ensures var after := AfterExpiry(executions, id, Some(loaded), reason);
            && (after.Some? && after.value != executions ==>
                  && Awaiting(executions, id) && after.value == executions[id := after.value[id]]
                  && after.value[id].status == Message.Failed
                  && after.value[id].events == executions[id].events + [Message.StatusChanged(Message.PendingApproval, Message.Failed, loaded.providerMessageId)])
            && !Awaiting(if after.Some? then after.value else executions, id)
  {
  }
}
