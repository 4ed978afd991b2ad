/** The gateway object: what it does to its claim store and its log between two awaits
    (packages/tool-gateway/src/tool-gateway.ts:182-215, 259-323, 356-401). Each method is
    proved to be the matching step of the protocol, so what holds of all runs of the
    protocol holds of the stores these methods update. */
module GatewaySteps {
  import opened Foundations
  import opened ToolContract
  import opened IdempotencyStore
  import opened InvocationLog
  import opened ToolGateway
  import opened GatewayProtocol
  import opened GatewayAttempts

  predicate CrossingBoundary(pc: Pc) {
    pc.Dispatching? || pc.InFlight? || pc.Closing?
  }

  /** The record of a caller's latest attempt is in the log, and there is one from the start of the attempt on. */
  predicate RecordKept(w: World, me: Caller) {
    && (me.attempt >= 1 ==> (me.request.toolCallId, me.attempt) in w.attempts)
    && (CrossingBoundary(me.pc) ==> me.attempt >= 1)
  }

  ghost predicate RecordsKept(w: World) {
    forall c :: c in w.callers ==> RecordKept(w, w.callers[c])
  }

  lemma QuietStepKeepsRecord(w: World, c: CallerId, input: Input)
    requires c in w.callers && RetryCounted(w.callers[c]) && RecordKept(w, w.callers[c])
    requires var pc := w.callers[c].pc; !pc.Starting? && !CrossingBoundary(pc)
    ensures var w' := StepCaller(w, c, input); w'.attempts == w.attempts && RecordKept(w', w'.callers[c])
  {
    OtherStepsAreQuiet(w, c, input);
  }

  lemma StepKeepsRecord(w: World, c: CallerId, input: Input)
    requires c in w.callers && RetryCounted(w.callers[c]) && RecordKept(w, w.callers[c])
    ensures w.attempts.Keys <= StepCaller(w, c, input).attempts.Keys
    ensures RecordKept(StepCaller(w, c, input), StepCaller(w, c, input).callers[c])
  {
    match w.callers[c].pc
    case Starting(def) => assert StepCaller(w, c, input) == if input.Tick? then StartAttempt(w, c, def) else w;
    case Dispatching(def) => assert StepCaller(w, c, input) == if input.Tick? then Dispatch(w, c, def) else w;
    case InFlight(def) => assert StepCaller(w, c, input) == if input.Response? then ReceiveResponse(w, c, def, input.response) else w;
    case Closing(def, r) => assert StepCaller(w, c, input) == if input.Tick? then CloseAttempt(w, c, def, r) else w;
    case _ => QuietStepKeepsRecord(w, c, input);
  }

  /** In every run, so that closing an attempt finds its record. */
  lemma {:induction false} RecordsStay(w: World, actions: seq<Action>)
    requires AttemptInv(w) && RecordsKept(w)
    ensures RecordsKept(Run(w, actions))
    decreases |actions|
  {
    if actions != [] {
      var a := actions[0];
      RunKeepsAttempts(w, [a]);
      assert Run(w, [a]) == Perform(w, a) by { assert [a][1..] == []; }
      if a.Step? && a.c in w.callers {
        assert CallerInv(w, a.c);
        StepKeepsRecord(w, a.c, a.input);
      }
      PerformKeepsRecords(w, a);
      RecordsStay(Perform(w, a), actions[1..]);
    }
  }

  lemma PerformKeepsRecords(w: World, a: Action)
    requires RecordsKept(w)
    requires a.Step? && a.c in w.callers ==>
               w.attempts.Keys <= Perform(w, a).attempts.Keys && RecordKept(Perform(w, a), Perform(w, a).callers[a.c])
    ensures RecordsKept(Perform(w, a))
  {
  }

  class Gateway {
    const idempotency: InMemoryIdempotencyStore
    const invocations: InMemoryToolInvocationRepository

    constructor (idempotency: InMemoryIdempotencyStore, invocations: InMemoryToolInvocationRepository)
      ensures this.idempotency == idempotency && this.invocations == invocations
    {
      this.idempotency, this.invocations := idempotency, invocations;
    }

    /** The stores hold what the world says. */
    ghost predicate Shows(w: World)
      reads idempotency, invocations
    {
      w.claims == idempotency.entries && w.invocations == invocations.invocations && w.attempts == invocations.attempts
    }

    method RecordInvocation(me: Caller, def: ToolDefinition, ghost w: World, ghost c: CallerId) returns (pc: Pc)
      requires Shows(w) && c in w.callers && w.callers[c] == me && me.pc == Recording(def)
      modifies invocations
      ensures Shows(StepCaller(w, c, Tick)) && StepCaller(w, c, Tick).callers[c].pc == pc
    {
      invocations.CreateInvocation(me.request.toolCallId);
      pc := Claiming(def);
    }

    /** The claim comes before any side effect; without a key, or for a tool that needs none, no claim is taken. */
    method AcquireClaim(me: Caller, def: ToolDefinition, ghost w: World, ghost c: CallerId) returns (pc: Pc)
      requires Shows(w) && c in w.callers && w.callers[c] == me && me.pc == Claiming(def)
      modifies idempotency
      ensures Shows(StepCaller(w, c, Tick)) && StepCaller(w, c, Tick).callers[c].pc == pc
    {
      pc := Starting(def);
      if def.idempotencyRequired && Given(me.request.idempotencyKey) {
        var claim := idempotency.Claim(me.request.tenantId, Scope(me.request, def), me.request.idempotencyKey.value);
        if claim.Existing? {
          pc := Rejecting(def, claim.record);
        }
      }
    }

    /** The STARTED record is written before the request crosses the provider boundary. */
    method BeginAttempt(me: Caller, def: ToolDefinition, ghost w: World, ghost c: CallerId) returns (pc: Pc)
      requires Shows(w) && c in w.callers && w.callers[c] == me && me.pc == Starting(def)
      modifies invocations
      ensures Shows(StepCaller(w, c, Tick)) && StepCaller(w, c, Tick).callers[c] == me.(pc := pc, attempt := me.attempt + 1)
    {
      invocations.CreateAttempt(me.request.toolCallId, me.attempt + 1);
      pc := Dispatching(def);
    }

    /** Record what the provider answered, then retry or finish. The open record is there in every run, as `RecordsStay` shows. */
    method EndAttempt(me: Caller, def: ToolDefinition, response: ProviderResponse, ghost w: World, ghost c: CallerId) returns (pc: Pc)
      requires Shows(w) && c in w.callers && w.callers[c] == me && me.pc == Closing(def, response)
      requires RecordKept(w, me)
      modifies invocations
      ensures Shows(StepCaller(w, c, Tick)) && StepCaller(w, c, Tick).callers[c].pc == pc
    {
      var found := invocations.CompleteAttempt(me.request.toolCallId, me.attempt, ClosedAttempt(def, response));
      pc := if RetriesAfter(def, response, me.attempt) then Starting(def)
            else Completing(def, AttemptResult(me.request, def, response, me.attempt));
    }

    /** The end of the retry loop; an unknown invocation is an exception. */
    method FinishLoop(me: Caller, def: ToolDefinition, result: ToolCallResult, ghost w: World, ghost c: CallerId) returns (pc: Pc)
      requires Shows(w) && c in w.callers && w.callers[c] == me && me.pc == Completing(def, result)
      modifies invocations
      ensures Shows(StepCaller(w, c, Tick)) && StepCaller(w, c, Tick).callers[c].pc == pc
    {
      var found := invocations.CompleteInvocation(me.request.toolCallId, result.status, ErrorCode(result));
      if !found {
        return Crashed;
      }
      pc := if def.idempotencyRequired && Given(me.request.idempotencyKey) then Persisting(def, result) else Accepting(def, result);
    }

    /** An unknown outcome keeps the claim pending; any other is stored with the certainty of its submission. */
    method PersistClaimOutcome(me: Caller, def: ToolDefinition, result: ToolCallResult, ghost w: World, ghost c: CallerId) returns (pc: Pc)
      requires Shows(w) && c in w.callers && w.callers[c] == me && me.pc == Persisting(def, result)
      requires def.idempotencyRequired && Given(me.request.idempotencyKey)
      modifies idempotency
      ensures Shows(StepCaller(w, c, Tick)) && StepCaller(w, c, Tick).callers[c].pc == pc
    {
      pc := Accepting(def, result);
      if result.status == OutcomeUnknown {
        return;
      }
      var submitted := result.status == Success || result.error.None? || result.error.value.code != NOT_SUBMITTED;
      idempotency.Set(me.request.tenantId, Scope(me.request, def), me.request.idempotencyKey.value, StoredOutcome(submitted, result),
                      Some(if result.status == Success then Completed else FailedClaim));
    }

    /** A completed claim is replayed, any other is reported as unresolved. */
    method HandleExistingClaim(me: Caller, def: ToolDefinition, record: Record, ghost w: World, ghost c: CallerId) returns (pc: Pc)
      requires Shows(w) && c in w.callers && w.callers[c] == me && me.pc == Rejecting(def, record)
      modifies invocations
      ensures Shows(StepCaller(w, c, Tick)) && StepCaller(w, c, Tick).callers[c].pc == pc
    {
      var id := me.request.toolCallId;
      var found: bool;
      if record.status == Completed && record.result.Some? {
        var stored := record.result.value.callResult;
        found := invocations.CompleteInvocation(id, stored.status, None);
        pc := Done(stored.(toolCallId := id));
      } else {
        found := invocations.CompleteInvocation(id, OutcomeUnknown, Some("DUPLICATE_IN_FLIGHT"));
        pc := Done(BuildResult(me.request, OutcomeUnknown, ErrorInfo("DUPLICATE_IN_FLIGHT", false), 0, None));
      }
      if !found {
        pc := Crashed;
      }
    }
  }
}
