/** The safety theorems of the gateway protocol. */
module GatewaySafety {
  import opened Foundations
  import opened ToolContract
  import opened IdempotencyStore
  import opened InvocationLog
  import opened ToolGateway
  import opened GatewayProtocol

  // ---- every step keeps the invariant ----

  /** A step that changes neither claims nor calls, and after which the caller holds
      what it held, or nothing. */
  lemma QuietStepKeepsInv(w: World, w': World, c: CallerId)
    requires Inv(w)
    requires c in w'.callers && w'.callers == w.callers[c := w'.callers[c]]
    requires w'.claims == w.claims && w'.calls == w.calls
    requires LinkedCall(w', c)
    requires HeldKey(w'.callers[c]).Some? ==>
      && c in w.callers
      && HeldKey(w'.callers[c]) == HeldKey(w.callers[c])
      && w'.callers[c].call == w.callers[c].call
      && (PastBoundary(w'.callers[c].pc) ||
          forall i :: 0 <= i < |w.calls| && Exposed(w.calls[i]) ==> w.calls[i].key != HeldKey(w'.callers[c]))
    ensures Inv(w')
  {
    forall d | d in w'.callers ensures LinkedCall(w', d) {
      if d != c { assert LinkedCall(w, d); }
    }
    forall i | 0 <= i < |w'.calls| && Exposed(w'.calls[i]) ensures Sealed(w', i) {
      assert Sealed(w, i);
    }
  }

  lemma ClaimStepKeepsInv(w: World, c: CallerId, def: ToolDefinition)
    requires Inv(w) && c in w.callers && w.callers[c].pc == Claiming(def)
    ensures Inv(TakeClaim(w, c, def))
  {
    var w' := TakeClaim(w, c, def);
    var key := ClaimKey(w.callers[c].request, def);
    if key.None? || !Claimable(w.claims, key.value) {
      QuietStepKeepsInv(w, w', c);
    } else {
      forall d | d in w'.callers ensures LinkedCall(w', d) {
        if d != c { assert LinkedCall(w, d); }
      }
      forall i | 0 <= i < |w'.calls| && Exposed(w'.calls[i]) ensures Sealed(w', i) {
        assert Sealed(w, i);
      }
    }
  }

  lemma DispatchStepKeepsInv(w: World, c: CallerId, def: ToolDefinition)
    requires Inv(w) && c in w.callers && w.callers[c].pc == Dispatching(def)
    ensures Inv(Dispatch(w, c, def))
  {
    var w' := Dispatch(w, c, def);
    var latest := |w.calls|;
    forall d | d in w'.callers ensures LinkedCall(w', d) {
      if d != c { assert LinkedCall(w, d); }
    }
    forall i | 0 <= i < |w'.calls| && Exposed(w'.calls[i]) ensures Sealed(w', i) {
      if i < latest {
        assert w'.calls[i] == w.calls[i] && Sealed(w, i);
      }
    }
    forall i, j | 0 <= i < j < |w'.calls| && Exposed(w'.calls[i]) && Exposed(w'.calls[j])
      ensures w'.calls[i].key != w'.calls[j].key
    {
      assert w'.calls[i] == w.calls[i] && Sealed(w, i);
      if j < latest {
        assert w'.calls[j] == w.calls[j];
      }
    }
  }

  lemma ResponseKeepsLinks(w: World, c: CallerId, def: ToolDefinition, r: ProviderResponse)
    requires Inv(w) && c in w.callers && w.callers[c].pc == InFlight(def)
    requires r.Returned? ==> !Misreported(r.outcome)
    ensures CallsLinked(ReceiveResponse(w, c, def, r))
  {
    assert LinkedCall(w, c);
    forall d | d in w.callers ensures LinkedCall(ReceiveResponse(w, c, def, r), d) {
      assert LinkedCall(w, d);
    }
  }

  lemma ResponseStepKeepsInv(w: World, c: CallerId, def: ToolDefinition, r: ProviderResponse)
    requires Inv(w) && c in w.callers && w.callers[c].pc == InFlight(def)
    requires r.Returned? ==> !Misreported(r.outcome)
    ensures Inv(ReceiveResponse(w, c, def, r))
  {
    var w' := ReceiveResponse(w, c, def, r);
    assert LinkedCall(w, c);
    var mine := w.callers[c].call.value;
    ResponseKeepsLinks(w, c, def, r);
    assert forall i :: 0 <= i < |w.calls| && i != mine ==> w'.calls[i] == w.calls[i];
    assert forall i :: 0 <= i < |w.calls| && Exposed(w'.calls[i]) ==> Exposed(w.calls[i]) && w'.calls[i].key == w.calls[i].key;
    forall i | 0 <= i < |w'.calls| && Exposed(w'.calls[i]) ensures Sealed(w', i) {
      assert Sealed(w, i);
    }
  }

  lemma CloseStepKeepsInv(w: World, c: CallerId, def: ToolDefinition, r: ProviderResponse)
    requires Inv(w) && c in w.callers && w.callers[c].pc == Closing(def, r)
    ensures Inv(CloseAttempt(w, c, def, r))
  {
    var w' := CloseAttempt(w, c, def, r);
    var me := w.callers[c];
    assert LinkedCall(w, c);
    var mine := me.call.value;
    if OutcomeOf(def, r).submitted && def.sideEffectClass != ReadOnly {
      ReclaimableAfterSubmission(me.request, def, r, me.attempt);
    }
    if RetriesAfter(def, r, me.attempt) {
      // The claim is still closed over nothing: the only call that could be exposed is this one.
      forall i | 0 <= i < |w.calls| && Exposed(w.calls[i]) ensures w.calls[i].key != HeldKey(me) {
        assert Sealed(w, i);
      }
    }
    QuietStepKeepsInv(w, w', c);
  }

  lemma CompleteStepKeepsInv(w: World, c: CallerId, def: ToolDefinition, result: ToolCallResult)
    requires Inv(w) && c in w.callers && w.callers[c].pc == Completing(def, result)
    ensures Inv(CompleteInvocation(w, c, def, result))
  {
    assert LinkedCall(w, c);
    QuietStepKeepsInv(w, CompleteInvocation(w, c, def, result), c);
  }

  lemma PersistStepKeepsInv(w: World, c: CallerId, def: ToolDefinition, result: ToolCallResult)
    requires Inv(w) && c in w.callers && w.callers[c].pc == Persisting(def, result)
    ensures Inv(PersistOutcome(w, c, def, result))
  {
    var w' := PersistOutcome(w, c, def, result);
    var key := ClaimKey(w.callers[c].request, def);
    assert LinkedCall(w, c);
    if key.None? || result.status == OutcomeUnknown {
      QuietStepKeepsInv(w, w', c);
    } else {
      forall d | d in w'.callers ensures LinkedCall(w', d) {
        if d != c { assert LinkedCall(w, d); }
      }
      forall i | 0 <= i < |w'.calls| && Exposed(w'.calls[i]) ensures Sealed(w', i) {
        assert Sealed(w, i);
        if w.calls[i].key == key {
          // The exposed call is this caller's own, and its result does not reopen the claim.
          assert w.callers[c].call == Some(i);
        }
      }
    }
  }

  lemma GovernanceStepKeepsInv(w: World, c: CallerId, input: Input)
    requires Inv(w) && c in w.callers && HeldKey(w.callers[c]).None?
    ensures Inv(Move(w, c, AfterGovernance(w.callers[c].request, w.callers[c].pc, input)))
  {
    var me := w.callers[c];
    var pc := AfterGovernance(me.request, me.pc, input);
    assert LinkedCall(w, c);
    assert HeldKey(me.(pc := pc)).None?;
    QuietStepKeepsInv(w, Move(w, c, pc), c);
  }

  /** Steps of a caller that takes no claim, or holds none at this point. */
  lemma UnheldStepKeepsInv(w: World, c: CallerId, input: Input)
    requires Inv(w) && c in w.callers
    requires var pc := w.callers[c].pc;
             pc.Recording? || pc.Auditing? || pc.Done? || pc.Crashed?
    ensures Inv(StepCaller(w, c, input))
  {
    var w' := StepCaller(w, c, input);
    if w' != w {
      QuietStepKeepsInv(w, w', c);
    }
  }

  lemma AcceptStepKeepsInv(w: World, c: CallerId, def: ToolDefinition, result: ToolCallResult, outputValid: bool)
    requires Inv(w) && c in w.callers && w.callers[c].pc == Accepting(def, result)
    ensures Inv(AcceptOutput(w, c, def, result, outputValid))
  {
    QuietStepKeepsInv(w, AcceptOutput(w, c, def, result, outputValid), c);
  }

  lemma RejectStepKeepsInv(w: World, c: CallerId, def: ToolDefinition, record: Record)
    requires Inv(w) && c in w.callers && w.callers[c].pc == Rejecting(def, record)
    ensures Inv(RejectDuplicate(w, c, record))
  {
    QuietStepKeepsInv(w, RejectDuplicate(w, c, record), c);
  }

  lemma StartStepKeepsInv(w: World, c: CallerId, def: ToolDefinition)
    requires Inv(w) && c in w.callers && w.callers[c].pc == Starting(def)
    ensures Inv(StartAttempt(w, c, def))
  {
    forall i | 0 <= i < |w.calls| && Exposed(w.calls[i]) ensures w.calls[i].key != HeldKey(w.callers[c]) {
      assert Sealed(w, i);
    }
    QuietStepKeepsInv(w, StartAttempt(w, c, def), c);
  }

  lemma ClaimingKeepsInv(w: World, c: CallerId, input: Input)
    requires Inv(w) && c in w.callers && w.callers[c].pc.Claiming?
    ensures Inv(StepCaller(w, c, input))
  {
    var pc := w.callers[c].pc;
    if input.Tick? {
      ClaimStepKeepsInv(w, c, pc.def);
      assert StepCaller(w, c, input) == TakeClaim(w, c, pc.def);
    }
  }

  lemma StartingKeepsInv(w: World, c: CallerId, input: Input)
    requires Inv(w) && c in w.callers && w.callers[c].pc.Starting?
    ensures Inv(StepCaller(w, c, input))
  {
    var pc := w.callers[c].pc;
    if input.Tick? {
      StartStepKeepsInv(w, c, pc.def);
      assert StepCaller(w, c, input) == StartAttempt(w, c, pc.def);
    }
  }

  lemma DispatchingKeepsInv(w: World, c: CallerId, input: Input)
    requires Inv(w) && c in w.callers && w.callers[c].pc.Dispatching?
    ensures Inv(StepCaller(w, c, input))
  {
    var pc := w.callers[c].pc;
    if input.Tick? {
      DispatchStepKeepsInv(w, c, pc.def);
      assert StepCaller(w, c, input) == Dispatch(w, c, pc.def);
    }
  }

  lemma InFlightKeepsInv(w: World, c: CallerId, input: Input)
    requires Inv(w) && c in w.callers && w.callers[c].pc.InFlight?
    requires input.Response? && input.response.Returned? ==> !Misreported(input.response.outcome)
    ensures Inv(StepCaller(w, c, input))
  {
    var pc := w.callers[c].pc;
    if input.Response? {
      ResponseStepKeepsInv(w, c, pc.def, input.response);
      assert StepCaller(w, c, input) == ReceiveResponse(w, c, pc.def, input.response);
    }
  }

  lemma ClosingKeepsInv(w: World, c: CallerId, input: Input)
    requires Inv(w) && c in w.callers && w.callers[c].pc.Closing?
    ensures Inv(StepCaller(w, c, input))
  {
    var pc := w.callers[c].pc;
    if input.Tick? {
      CloseStepKeepsInv(w, c, pc.def, pc.response);
      assert StepCaller(w, c, input) == CloseAttempt(w, c, pc.def, pc.response);
    }
  }

  lemma CompletingKeepsInv(w: World, c: CallerId, input: Input)
    requires Inv(w) && c in w.callers && w.callers[c].pc.Completing?
    ensures Inv(StepCaller(w, c, input))
  {
    var pc := w.callers[c].pc;
    if input.Tick? {
      CompleteStepKeepsInv(w, c, pc.def, pc.result);
      assert StepCaller(w, c, input) == CompleteInvocation(w, c, pc.def, pc.result);
    }
  }

  lemma PersistingKeepsInv(w: World, c: CallerId, input: Input)
    requires Inv(w) && c in w.callers && w.callers[c].pc.Persisting?
    ensures Inv(StepCaller(w, c, input))
  {
    var pc := w.callers[c].pc;
    if input.Tick? {
      PersistStepKeepsInv(w, c, pc.def, pc.result);
      assert StepCaller(w, c, input) == PersistOutcome(w, c, pc.def, pc.result);
    }
  }

  lemma AcceptingKeepsInv(w: World, c: CallerId, input: Input)
    requires Inv(w) && c in w.callers && w.callers[c].pc.Accepting?
    ensures Inv(StepCaller(w, c, input))
  {
    var pc := w.callers[c].pc;
    if input.OutputCheck? {
      AcceptStepKeepsInv(w, c, pc.def, pc.result, input.outputValid);
      assert StepCaller(w, c, input) == AcceptOutput(w, c, pc.def, pc.result, input.outputValid);
    }
  }

  lemma RejectingKeepsInv(w: World, c: CallerId, input: Input)
    requires Inv(w) && c in w.callers && w.callers[c].pc.Rejecting?
    ensures Inv(StepCaller(w, c, input))
  {
    var pc := w.callers[c].pc;
    if input.Tick? {
      RejectStepKeepsInv(w, c, pc.def, pc.record);
      assert StepCaller(w, c, input) == RejectDuplicate(w, c, pc.record);
    }
  }

  lemma StepCallerKeepsInv(w: World, c: CallerId, input: Input)
    requires Inv(w) && c in w.callers
    requires input.Response? && input.response.Returned? ==> !Misreported(input.response.outcome)
    ensures Inv(StepCaller(w, c, input))
  {
    var pc := w.callers[c].pc;
    if pc.Claiming? {
      ClaimingKeepsInv(w, c, input);
    } else if pc.Starting? {
      StartingKeepsInv(w, c, input);
    } else if pc.Dispatching? {
      DispatchingKeepsInv(w, c, input);
    } else if pc.InFlight? {
      InFlightKeepsInv(w, c, input);
    } else if pc.Closing? {
      ClosingKeepsInv(w, c, input);
    } else if pc.Completing? {
      CompletingKeepsInv(w, c, input);
    } else if pc.Persisting? {
      PersistingKeepsInv(w, c, input);
    } else if pc.Accepting? {
      AcceptingKeepsInv(w, c, input);
    } else if pc.Rejecting? {
      RejectingKeepsInv(w, c, input);
    } else if pc.Resolving? || pc.Authorizing? || pc.Preflighting? || pc.AwaitingReadiness? {
      GovernanceStepKeepsInv(w, c, input);
    } else {
      UnheldStepKeepsInv(w, c, input);
    }
  }

  lemma StepKeepsInv(w: World, a: Action)
    requires Inv(w)
    requires a.Step? && a.input.Response? && a.input.response.Returned? ==> !Misreported(a.input.response.outcome)
    ensures Inv(Perform(w, a))
  {
    var w' := Perform(w, a);
    match a
    case Arrive(c, request) =>
      if c !in w.callers { QuietStepKeepsInv(w, w', c); }
    case Crash(c) =>
      if w' != w { QuietStepKeepsInv(w, w', c); }
    case Step(c, input) =>
      if c in w.callers {
        StepCallerKeepsInv(w, c, input);
      }
  }

  lemma {:induction false} RunKeepsInv(w: World, actions: seq<Action>)
    requires Inv(w)
    requires Reports(actions, o => !Misreported(o))
    ensures Inv(Run(w, actions))
    decreases |actions|
  {
    if actions != [] {
      StepKeepsInv(w, actions[0]);
      RunKeepsInv(Perform(w, actions[0]), actions[1..]);
    }
  }

  /** Main theorem: in every interleaving of any number of calls, with crashes at any
      boundary, at most one side effect per claim is ever possibly submitted, as long as
      no provider misreports. */
  lemma AtMostOneSubmission(actions: seq<Action>)
    requires Reports(actions, o => !Misreported(o))
    ensures AtMostOnce(Run(Empty, actions))
  {
    RunKeepsInv(Empty, actions);
  }

  // ---- the condition is exact ----

  lemma {:induction false} RunThenStep(w: World, actions: seq<Action>, a: Action)
    ensures Run(w, actions + [a]) == Perform(Run(w, actions), a)
    decreases |actions|
  {
    if actions == [] {
      assert [a][1..] == [];
    } else {
      assert (actions + [a])[1..] == actions[1..] + [a];
      RunThenStep(Perform(w, actions[0]), actions[1..], a);
    }
  }

  lemma Extend(actions: seq<Action>, a: Action, allowed: ProviderOutcome -> bool) returns (longer: seq<Action>)
    requires Reports(actions, allowed)
    requires a.Step? && a.input.Response? && a.input.response.Returned? ==> allowed(a.input.response.outcome)
    ensures Reports(longer, allowed)
    ensures Run(Empty, longer) == Perform(Run(Empty, actions), a)
  {
    RunThenStep(Empty, actions, a);
    longer := actions + [a];
  }

  const Payment: ToolDefinition :=
    ToolDefinition("d", "pay", "1", None, [], IrreversibleExternal, false, "bank", true, 0, true, Active, "")

  const PayOnce: ToolCallRequest := ToolCallRequest("t", "acme", Some("k"), None)

  function At(w: World, c: CallerId, pc: Pc): World {
    w.(callers := w.callers[c := Caller(PayOnce, pc, 0, None)])
  }

  /** Take the next step of caller c, which leads from world w to world w'. */
  lemma Advance(actions: seq<Action>, c: CallerId, input: Input, w: World, w': World, allowed: ProviderOutcome -> bool)
    returns (longer: seq<Action>)
    requires Reports(actions, allowed)
    requires input.Response? && input.response.Returned? ==> allowed(input.response.outcome)
    requires Run(Empty, actions) == w && c in w.callers && StepCaller(w, c, input) == w'
    ensures Reports(longer, allowed)
    ensures Run(Empty, longer) == w'
  {
    longer := Extend(actions, Step(c, input), allowed);
  }

  lemma PaymentIsGoverned(w: World, c: CallerId)
    ensures StepCaller(At(w, c, Resolving), c, Resolution(Resolved(Payment))) == At(w, c, Authorizing(Payment))
    ensures StepCaller(At(w, c, Authorizing(Payment)), c, Policy(Allow, [], true)) == At(w, c, Preflighting(Payment, false))
  {
  }

  lemma PaymentIsCleared(w: World, c: CallerId)
    ensures StepCaller(At(w, c, Preflighting(Payment, false)), c, Preflight(true, true, true)) == At(w, c, AwaitingReadiness(Payment))
    ensures StepCaller(At(w, c, AwaitingReadiness(Payment)), c, Readiness(true)) == At(w, c, Recording(Payment))
  {
  }

  /** A new caller of the payment tool passes every governance check. */
  lemma PassGovernance(actions: seq<Action>, c: CallerId, allowed: ProviderOutcome -> bool) returns (longer: seq<Action>)
    requires Reports(actions, allowed)
    requires c !in Run(Empty, actions).callers
    ensures Reports(longer, allowed)
    ensures Run(Empty, longer) == At(Run(Empty, actions), c, Recording(Payment))
  {
    var w := Run(Empty, actions);
    PaymentIsGoverned(w, c);
    PaymentIsCleared(w, c);
    longer := Extend(actions, Arrive(c, PayOnce), allowed);
    longer := Advance(longer, c, Resolution(Resolved(Payment)), At(w, c, Resolving), At(w, c, Authorizing(Payment)), allowed);
    longer := Advance(longer, c, Policy(Allow, [], true), At(w, c, Authorizing(Payment)), At(w, c, Preflighting(Payment, false)), allowed);
    longer := Advance(longer, c, Preflight(true, true, true), At(w, c, Preflighting(Payment, false)), At(w, c, AwaitingReadiness(Payment)), allowed);
    longer := Advance(longer, c, Readiness(true), At(w, c, AwaitingReadiness(Payment)), At(w, c, Recording(Payment)), allowed);
  }

  /** The world after caller c has recorded, claimed, started and dispatched its payment. */
  function Recorded(w: World): World {
    w.(invocations := w.invocations[PayOnce.toolCallId := OpenInvocation])
  }

  function ClaimedBy(w: World): World {
    w.(claims := w.claims[ClaimKey(PayOnce, Payment).value := Fresh])
  }

  function StartedBy(w: World, c: CallerId): World {
    w.(callers := w.callers[c := Caller(PayOnce, Dispatching(Payment), 1, None)],
       attempts := w.attempts[(PayOnce.toolCallId, 1) := OpenAttempt])
  }

  lemma PaymentIsClaimed(w: World, c: CallerId)
    requires Claimable(w.claims, ClaimKey(PayOnce, Payment).value)
    ensures StepCaller(At(w, c, Recording(Payment)), c, Tick) == At(Recorded(w), c, Claiming(Payment))
    ensures StepCaller(At(Recorded(w), c, Claiming(Payment)), c, Tick) == At(ClaimedBy(Recorded(w)), c, Starting(Payment))
  {
  }

  lemma PaymentIsStarted(w: World, c: CallerId)
    ensures StepCaller(At(w, c, Starting(Payment)), c, Tick) == StartedBy(w, c)
    ensures var w' := StepCaller(StartedBy(w, c), c, Tick);
            && w'.callers == w.callers[c := Caller(PayOnce, InFlight(Payment), 1, Some(|w.calls|))]
            && w'.invocations == w.invocations
            && w'.calls == w.calls + [ProviderCall(c, 1, ClaimKey(PayOnce, Payment), Payment, Fate.Pending)]
  {
  }

  /** It then finds the claim free and crosses the provider boundary. */
  lemma CrossBoundary(actions: seq<Action>, c: CallerId, allowed: ProviderOutcome -> bool) returns (longer: seq<Action>)
    requires Reports(actions, allowed)
    requires c !in Run(Empty, actions).callers
    requires Claimable(Run(Empty, actions).claims, ClaimKey(PayOnce, Payment).value)
    ensures Reports(longer, allowed)
    ensures var w, w' := Run(Empty, actions), Run(Empty, longer);
            && w'.callers == w.callers[c := Caller(PayOnce, InFlight(Payment), 1, Some(|w.calls|))]
            && PayOnce.toolCallId in w'.invocations
            && w'.calls == w.calls + [ProviderCall(c, 1, ClaimKey(PayOnce, Payment), Payment, Fate.Pending)]
  {
    var w := Run(Empty, actions);
    var taken := ClaimedBy(Recorded(w));
    longer := PassGovernance(actions, c, allowed);
    PaymentIsClaimed(w, c);
    longer := Advance(longer, c, Tick, At(w, c, Recording(Payment)), At(Recorded(w), c, Claiming(Payment)), allowed);
    longer := Advance(longer, c, Tick, At(Recorded(w), c, Claiming(Payment)), At(taken, c, Starting(Payment)), allowed);
    PaymentIsStarted(taken, c);
    longer := Advance(longer, c, Tick, At(taken, c, Starting(Payment)), StartedBy(taken, c), allowed);
    longer := Advance(longer, c, Tick, StartedBy(taken, c), StepCaller(StartedBy(taken, c), c, Tick), allowed);
  }

  ghost predicate Stands(w: World, c: CallerId, pc: Pc, fate: Fate) {
    && w.callers == map[c := Caller(PayOnce, pc, 1, Some(0))]
    && PayOnce.toolCallId in w.invocations
    && w.calls == [ProviderCall(c, 1, ClaimKey(PayOnce, Payment), Payment, fate)]
  }

  lemma MisreportIsReceived(w: World, c: CallerId, o: ProviderOutcome)
    requires Stands(w, c, InFlight(Payment), Fate.Pending)
    ensures Stands(StepCaller(w, c, Response(Returned(o))), c, Closing(Payment, Returned(o)), Answered(Returned(o)))
  {
  }

  lemma MisreportIsClosed(w: World, c: CallerId, o: ProviderOutcome)
    requires Misreported(o)
    requires Stands(w, c, Closing(Payment, Returned(o)), Answered(Returned(o)))
    ensures Stands(StepCaller(w, c, Tick), c, Completing(Payment, AttemptResult(PayOnce, Payment, Returned(o), 1)), Answered(Returned(o)))
  {
    ReclaimableAfterSubmission(PayOnce, Payment, Returned(o), 1);
  }

  lemma MisreportIsCompleted(w: World, c: CallerId, result: ToolCallResult, fate: Fate)
    requires Stands(w, c, Completing(Payment, result), fate)
    ensures Stands(StepCaller(w, c, Tick), c, Persisting(Payment, result), fate)
  {
  }

  lemma MisreportIsPersisted(w: World, c: CallerId, result: ToolCallResult, fate: Fate)
    requires LeavesReclaimable(result)
    requires Stands(w, c, Persisting(Payment, result), fate)
    ensures Stands(StepCaller(w, c, Tick), c, Accepting(Payment, result), fate)
    ensures Claimable(StepCaller(w, c, Tick).claims, ClaimKey(PayOnce, Payment).value)
  {
  }

  /** A caller past the boundary receives a misreported outcome: its claim is left open. */
  lemma MisreportReopensClaim(actions: seq<Action>, c: CallerId, o: ProviderOutcome, allowed: ProviderOutcome -> bool)
    returns (longer: seq<Action>)
    requires Reports(actions, allowed) && allowed(o) && Misreported(o)
    requires Stands(Run(Empty, actions), c, InFlight(Payment), Fate.Pending)
    ensures Reports(longer, allowed)
    ensures var w := Run(Empty, longer);
            && w.callers.Keys == {c}
            && Claimable(w.claims, ClaimKey(PayOnce, Payment).value)
            && w.calls == [ProviderCall(c, 1, ClaimKey(PayOnce, Payment), Payment, Answered(Returned(o)))]
  {
    var result, fate := AttemptResult(PayOnce, Payment, Returned(o), 1), Answered(Returned(o));
    var w := Run(Empty, actions);
    MisreportIsReceived(w, c, o);
    var w1 := StepCaller(w, c, Response(Returned(o)));
    longer := Advance(actions, c, Response(Returned(o)), w, w1, allowed);
    MisreportIsClosed(w1, c, o);
    var w2 := StepCaller(w1, c, Tick);
    longer := Advance(longer, c, Tick, w1, w2, allowed);
    MisreportIsCompleted(w2, c, result, fate);
    var w3 := StepCaller(w2, c, Tick);
    longer := Advance(longer, c, Tick, w2, w3, allowed);
    ReclaimableAfterSubmission(PayOnce, Payment, Returned(o), 1);
    MisreportIsPersisted(w3, c, result, fate);
    longer := Advance(longer, c, Tick, w3, StepCaller(w3, c, Tick), allowed);
  }

  /** Any misreported outcome is enough for a double submission: the first caller's
      outcome reopens the claim and a second caller submits again. */
  lemma MisreportingSubmitsTwice(o: ProviderOutcome, allowed: ProviderOutcome -> bool) returns (actions: seq<Action>)
    requires allowed(o) && Misreported(o)
    ensures Reports(actions, allowed) && !AtMostOnce(Run(Empty, actions))
  {
    actions := CrossBoundary([], 0, allowed);
    actions := MisreportReopensClaim(actions, 0, o, allowed);
    actions := CrossBoundary(actions, 1, allowed);
    var w := Run(Empty, actions);
    assert Exposed(w.calls[0]) && Exposed(w.calls[1]);
  }

  /** At-most-once holds of every run over a set of provider outcomes exactly when the
      set contains no definite, submitted outcome with error code NOT_SUBMITTED. */
  lemma AtMostOnceExactly(allowed: ProviderOutcome -> bool)
    ensures (forall actions :: Reports(actions, allowed) ==> AtMostOnce(Run(Empty, actions))) <==>
            (forall o :: allowed(o) ==> !Misreported(o))
  {
    if o :| allowed(o) && Misreported(o) {
      var actions := MisreportingSubmitsTwice(o, allowed);
    } else {
      forall actions | Reports(actions, allowed) ensures AtMostOnce(Run(Empty, actions)) {
        AtMostOneSubmission(actions);
      }
    }
  }

  // ---- completed claims ----

  /** A completed claim keeps the output of a provider call made under that claim. */
  ghost predicate Backed(w: World, k: string) {
    k in w.claims && w.claims[k].status == Completed ==>
      && w.claims[k].result.Some?
      && exists i :: 0 <= i < |w.calls| && w.calls[i].key == Some(k) && Delivers(w.calls[i], w.claims[k].result.value.callResult.output)
  }

  /** Which steps touch claims and calls at all. */
  lemma StepShape(w: World, c: CallerId, input: Input)
    requires c in w.callers
    ensures var pc, w' := w.callers[c].pc, StepCaller(w, c, input);
            && (!pc.Claiming? && !pc.Persisting? ==> w'.claims == w.claims)
            && (!pc.Dispatching? && !pc.InFlight? ==> w'.calls == w.calls)
            && (pc.Dispatching? && w'.calls != w.calls ==> w' == Dispatch(w, c, pc.def))
  {
  }

  /** One step leaves a completed claim alone, makes no provider call under it, and
      never completes a claim without a delivering call. */
  lemma StepRespectsCompletedClaim(w: World, c: CallerId, input: Input, k: string)
    requires Inv(w) && c in w.callers
    ensures var w' := StepCaller(w, c, input);
            && |w.calls| <= |w'.calls|
            && (forall i :: 0 <= i < |w.calls| ==> w'.calls[i].key == w.calls[i].key)
            && (k in w.claims && w.claims[k].status == Completed ==>
                  && k in w'.claims && w'.claims[k] == w.claims[k]
                  && forall i :: |w.calls| <= i < |w'.calls| ==> w'.calls[i].key != Some(k))
  {
    assert LinkedCall(w, c);
    StepShape(w, c, input);
  }

  lemma PersistKeepsBacked(w: World, c: CallerId, def: ToolDefinition, result: ToolCallResult, k: string)
    requires Inv(w) && c in w.callers && w.callers[c].pc == Persisting(def, result) && Backed(w, k)
    ensures Backed(PersistOutcome(w, c, def, result), k)
  {
    assert LinkedCall(w, c);
    if ClaimKey(w.callers[c].request, def) == Some(k) && result.status == Success {
      assert Delivers(w.calls[w.callers[c].call.value], result.output);
    }
  }

  lemma ResponseKeepsBacked(w: World, c: CallerId, def: ToolDefinition, r: ProviderResponse, k: string)
    requires Inv(w) && c in w.callers && w.callers[c].pc == InFlight(def) && Backed(w, k)
    ensures Backed(ReceiveResponse(w, c, def, r), k)
  {
    assert LinkedCall(w, c);
    var w' := ReceiveResponse(w, c, def, r);
    assert forall i :: 0 <= i < |w.calls| && w.calls[i].fate.Answered? ==> w'.calls[i] == w.calls[i];
  }

  lemma StepKeepsBacked(w: World, c: CallerId, input: Input, k: string)
    requires Inv(w) && c in w.callers && Backed(w, k)
    ensures Backed(StepCaller(w, c, input), k)
  {
    StepShape(w, c, input);
    match w.callers[c].pc
    case Persisting(def, result) => if input.Tick? { PersistKeepsBacked(w, c, def, result, k); }
    case InFlight(def) => if input.Response? { ResponseKeepsBacked(w, c, def, input.response, k); }
    case Claiming(def) =>
    case Dispatching(def) =>
      assert forall i :: 0 <= i < |w.calls| ==> StepCaller(w, c, input).calls[i] == w.calls[i];
    case _ =>
  }

  lemma {:induction false} RunRespectsCompletedClaim(w: World, actions: seq<Action>, k: string)
    requires Inv(w) && Backed(w, k)
    requires Reports(actions, o => !Misreported(o))
    ensures var w' := Run(w, actions);
            && Inv(w') && Backed(w', k)
            && |w.calls| <= |w'.calls|
            && (forall i :: 0 <= i < |w.calls| ==> w'.calls[i].key == w.calls[i].key)
            && (k in w.claims && w.claims[k].status == Completed ==>
                  && k in w'.claims && w'.claims[k] == w.claims[k]
                  && forall i :: |w.calls| <= i < |w'.calls| ==> w'.calls[i].key != Some(k))
    decreases |actions|
  {
    if actions != [] {
      var a := actions[0];
      var mid := Perform(w, a);
      StepKeepsInv(w, a);
      if a.Step? && a.c in w.callers {
        StepRespectsCompletedClaim(w, a.c, a.input, k);
        StepKeepsBacked(w, a.c, a.input, k);
      } else {
        assert mid.calls == w.calls && mid.claims == w.claims;
      }
      RunRespectsCompletedClaim(mid, actions[1..], k);
    }
  }

  /** A completed claim holds the output of a provider call made under it, and stays as
      it is for ever: whatever happens next, no further provider call is made under it. */
  lemma CompletedClaimIsFinal(actions: seq<Action>, more: seq<Action>, k: string)
    requires Reports(actions, o => !Misreported(o)) && Reports(more, o => !Misreported(o))
    requires k in Run(Empty, actions).claims && Run(Empty, actions).claims[k].status == Completed
    ensures var w, w' := Run(Empty, actions), Run(Run(Empty, actions), more);
            && w.claims[k].result.Some?
            && (exists i :: 0 <= i < |w.calls| && w.calls[i].key == Some(k) && Delivers(w.calls[i], w.claims[k].result.value.callResult.output))
            && k in w'.claims && w'.claims[k] == w.claims[k]
            && forall i :: |w.calls| <= i < |w'.calls| ==> w'.calls[i].key != Some(k)
  {
    RunRespectsCompletedClaim(Empty, actions, k);
    RunRespectsCompletedClaim(Run(Empty, actions), more, k);
  }

  // ---- duplicates ----

  predicate Rejected(w: World, c: CallerId) {
    c in w.callers && (w.callers[c].pc.Rejecting? || w.callers[c].pc.Done? || w.callers[c].pc.Crashed?)
  }

  /** A caller that did not get its claim never reaches the provider, whatever the others do. */
  lemma {:induction false} RejectedNeverCalls(w: World, actions: seq<Action>, c: CallerId)
    requires Rejected(w, c)
    ensures var w' := Run(w, actions);
            Rejected(w', c) && |w.calls| <= |w'.calls| && forall i :: |w.calls| <= i < |w'.calls| ==> w'.calls[i].caller != c
    decreases |actions|
  {
    if actions != [] {
      StepKeepsRejected(w, actions[0], c);
      RejectedNeverCalls(Perform(w, actions[0]), actions[1..], c);
      var mid, w' := Perform(w, actions[0]), Run(w, actions);
      CallersNeverChange(mid, actions[1..]);
      assert forall i :: |w.calls| <= i < |mid.calls| ==> w'.calls[i].caller == mid.calls[i].caller;
    }
  }

  lemma StepKeepsRejected(w: World, a: Action, c: CallerId)
    requires Rejected(w, c)
    ensures Rejected(Perform(w, a), c) && |w.calls| <= |Perform(w, a).calls|
    ensures forall i :: |w.calls| <= i < |Perform(w, a).calls| ==> Perform(w, a).calls[i].caller != c
  {
    if a.Step? && a.c in w.callers {
      StepAppends(w, a.c, a.input);
      if a.c == c { RejectedStays(w, c, a.input); }
    }
  }

  lemma RejectedStays(w: World, c: CallerId, input: Input)
    requires Rejected(w, c)
    ensures Rejected(StepCaller(w, c, input), c)
  {
    match w.callers[c].pc
    case Rejecting(def, record) => assert StepCaller(w, c, input) == if input.Tick? then RejectDuplicate(w, c, record) else w;
    case Done(_) =>
    case Crashed =>
  }

  lemma StepAppends(w: World, c: CallerId, input: Input)
    requires c in w.callers
    ensures var w' := StepCaller(w, c, input);
            && |w.calls| <= |w'.calls| <= |w.calls| + 1
            && (forall i :: 0 <= i < |w.calls| ==> w'.calls[i].caller == w.calls[i].caller)
            && (|w'.calls| > |w.calls| ==> w.callers[c].pc.Dispatching? && w'.calls[|w.calls|].caller == c)
  {
    StepShape(w, c, input);
  }

  lemma {:induction false} CallersNeverChange(w: World, actions: seq<Action>)
    ensures |w.calls| <= |Run(w, actions).calls|
    ensures forall i :: 0 <= i < |w.calls| ==> Run(w, actions).calls[i].caller == w.calls[i].caller
    decreases |actions|
  {
    if actions != [] {
      var a := actions[0];
      if a.Step? && a.c in w.callers {
        StepAppends(w, a.c, a.input);
      }
      CallersNeverChange(Perform(w, a), actions[1..]);
    }
  }

  predicate Involves(a: Action, c: CallerId) {
    (a.Step? && a.c == c) || (a.Crash? && a.c == c)
  }

  /** Nothing removes an invocation record. */
  lemma InvocationsStay(w: World, c: CallerId, input: Input)
    requires c in w.callers
    ensures w.invocations.Keys <= StepCaller(w, c, input).invocations.Keys
  {
    match w.callers[c].pc
    case Recording(def) =>
    case Completing(def, result) => assert StepCaller(w, c, input) == if input.Tick? then CompleteInvocation(w, c, def, result) else w;
    case Accepting(def, result) =>
      assert StepCaller(w, c, input) == if input.OutputCheck? then AcceptOutput(w, c, def, result, input.outputValid) else w;
    case Rejecting(def, record) => assert StepCaller(w, c, input) == if input.Tick? then RejectDuplicate(w, c, record) else w;
    case _ => InvocationsUntouched(w, c, input);
  }

  lemma InvocationsUntouched(w: World, c: CallerId, input: Input)
    requires c in w.callers
    requires var pc := w.callers[c].pc; !pc.Recording? && !pc.Completing? && !pc.Accepting? && !pc.Rejecting?
    ensures StepCaller(w, c, input).invocations == w.invocations
  {
  }

  /** What the others do leaves a caller and the known invocations where they are. */
  lemma {:induction false} OthersLeaveCaller(w: World, actions: seq<Action>, c: CallerId)
    requires c in w.callers && forall i :: 0 <= i < |actions| ==> !Involves(actions[i], c)
    ensures var w' := Run(w, actions);
            c in w'.callers && w'.callers[c] == w.callers[c] && w.invocations.Keys <= w'.invocations.Keys
    decreases |actions|
  {
    if actions != [] {
      var a := actions[0];
      assert !Involves(a, c);
      if a.Step? && a.c in w.callers { InvocationsStay(w, a.c, a.input); }
      OthersLeaveCaller(Perform(w, a), actions[1..], c);
    }
  }

  lemma MeetingTheClaim(w: World, c: CallerId, def: ToolDefinition, k: string)
    requires c in w.callers && w.callers[c].pc == Claiming(def) && ClaimKey(w.callers[c].request, def) == Some(k)
    requires k in w.claims && !Reclaimable(w.claims[k])
    ensures StepCaller(w, c, Tick) == Move(w, c, Rejecting(def, w.claims[k]))
  {
  }

  lemma AnsweringFromTheClaim(w: World, c: CallerId, def: ToolDefinition, record: Record)
    requires c in w.callers && w.callers[c].pc == Rejecting(def, record) && w.callers[c].request.toolCallId in w.invocations
    ensures var w' := StepCaller(w, c, Tick);
            w'.claims == w.claims && w'.calls == w.calls && w'.callers[c].pc == Done(AnswerFromClaim(w.callers[c].request, record))
  {
    assert StepCaller(w, c, Tick) == RejectDuplicate(w, c, record);
  }

  /** A caller that meets a completed claim answers with the stored result, under its own call
      id; one that meets any other unreclaimable claim answers "outcome unknown". It does so
      whatever the others do in between, and touches neither claims nor provider calls. */
  lemma DuplicateIsAnsweredFromTheClaim(w: World, c: CallerId, def: ToolDefinition, k: string, others: seq<Action>)
    requires c in w.callers && w.callers[c].pc == Claiming(def) && ClaimKey(w.callers[c].request, def) == Some(k)
    requires k in w.claims && !Reclaimable(w.claims[k])
    requires w.callers[c].request.toolCallId in w.invocations
    requires forall i :: 0 <= i < |others| ==> !Involves(others[i], c)
    ensures var met := Perform(w, Step(c, Tick));
            var between := Run(met, others);
            var w' := Perform(between, Step(c, Tick));
            && met.claims == w.claims && met.calls == w.calls
            && w'.claims == between.claims && w'.calls == between.calls
            && c in w'.callers && w'.callers[c].pc.Done?
            && w'.callers[c].pc.result.toolCallId == w.callers[c].request.toolCallId
            && (if w.claims[k].status == Completed && w.claims[k].result.Some?
                then w'.callers[c].pc.result.output == w.claims[k].result.value.callResult.output
                     && w'.callers[c].pc.result.status == w.claims[k].result.value.callResult.status
                else w'.callers[c].pc.result.status == OutcomeUnknown)
  {
    var met := Perform(w, Step(c, Tick));
    MeetingTheClaim(w, c, def, k);
    OthersLeaveCaller(met, others, c);
    AnsweringFromTheClaim(Run(met, others), c, def, w.claims[k]);
  }
}
