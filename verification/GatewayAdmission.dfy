/** Which calls may reach the provider: what the resolver, the policy, the approval, the schemas and
    the provider answered, told by the answers a caller was given
    (packages/tool-gateway/src/tool-gateway.ts:88-180, 421-432). */
module GatewayAdmission {
  import opened Foundations
  import opened ToolContract
  import opened IdempotencyStore
  import opened InvocationLog
  import opened ToolGateway
  import opened GatewayProtocol

  // ---- what a caller is told ----

  predicate Arrived(actions: seq<Action>, c: CallerId) {
    exists i :: 0 <= i < |actions| && actions[i].Arrive? && actions[i].c == c
  }

  /** The caller has arrived and stopped for good. */
  predicate Left(actions: seq<Action>, c: CallerId) {
    exists i :: 0 <= i < |actions| && actions[i] == Crash(c) && Arrived(actions[..i], c)
  }

  /** The answers given to a caller, from its arrival until it stops. */
  function Heard(actions: seq<Action>, c: CallerId): seq<Input> {
    if actions == [] then []
    else
      var front, a := actions[..|actions| - 1], actions[|actions| - 1];
      Heard(front, c) + (if a.Step? && a.c == c && Arrived(front, c) && !Left(front, c) then [a.input] else [])
  }

  // ---- the first answers ----

  datatype Question = AboutTool | AboutPolicy | AboutCall | AboutProvider

  predicate Answers(q: Question, input: Input) {
    match q
    case AboutTool => input.Resolution?
    case AboutPolicy => input.Policy?
    case AboutCall => input.Preflight?
    case AboutProvider => input.Readiness?
  }

  /** An answer, and what was heard behind it. */
  datatype Reply = Reply(answer: Input, rest: seq<Input>)

  /** The first answer to a question. */
  function First(inputs: seq<Input>, q: Question): (reply: Option<Reply>)
    ensures reply.Some? ==> Answers(q, reply.value.answer)
  {
    if inputs == [] then None
    else if Answers(q, inputs[0]) then Some(Reply(inputs[0], inputs[1..]))
    else First(inputs[1..], q)
  }

  /** The policy lets the tool be used: not denied, every required capability granted, autonomy allowed. */
  predicate Grants(def: ToolDefinition, answer: Input)
    requires answer.Policy?
  {
    && answer.decision != Deny
    && (forall capability :: capability in def.requiredCapabilities ==> capability in answer.capabilities)
    && answer.autonomyAllowed
  }

  predicate AsksApproval(def: ToolDefinition, policy: Input)
    requires policy.Policy?
  {
    def.requiredApproval || policy.decision == RequireApproval
  }

  predicate Clears(approvalAsked: bool, answer: Input)
    requires answer.Preflight?
  {
    && (approvalAsked ==> answer.approved)
    && answer.inputValid && answer.hasProvider
  }

  /** The call may go to the provider: the first resolution gives this definition, the first policy
      after it grants it, the first preflight after that clears it, and then the provider is ready. */
  predicate Admitted(inputs: seq<Input>, def: ToolDefinition) {
    var tool := First(inputs, AboutTool);
    && tool.Some? && tool.value.answer.resolution == Resolved(def)
    && var policy := First(tool.value.rest, AboutPolicy);
    && policy.Some? && Grants(def, policy.value.answer)
    && var call := First(policy.value.rest, AboutCall);
    && call.Some? && Clears(AsksApproval(def, policy.value.answer), call.value.answer)
    && var provider := First(call.value.rest, AboutProvider);
    && provider.Some? && provider.value.answer.ready
  }

  datatype Reason = Reason(status: CallStatus, code: string, retryable: bool)

  function Unresolved(r: ToolResolution): Reason
    requires !r.Resolved?
  {
    match r
    case NotFound => Reason(ValidationError, "RESOLUTION_NOT_FOUND", false)
    case VersionRequired => Reason(ValidationError, "RESOLUTION_VERSION_REQUIRED", false)
    case ShadowedByTenant => Reason(PolicyDenied, "RESOLUTION_SHADOWED", false)
    case Ambiguous => Reason(PolicyDenied, "RESOLUTION_AMBIGUOUS", false)
    case NotExecutable => Reason(Failed, "RESOLUTION_NOT_EXECUTABLE", false)
  }

  function NotGranted(def: ToolDefinition, policy: Input): Reason
    requires policy.Policy? && !Grants(def, policy)
  {
    if policy.decision == Deny then Reason(PolicyDenied, "POLICY_DENIED", false)
    else if exists capability :: capability in def.requiredCapabilities && capability !in policy.capabilities
    then Reason(Unauthorized, "CAPABILITY_DENIED", false)
    else Reason(PolicyDenied, "AUTONOMY_DENIED", false)
  }

  function NotCleared(approvalAsked: bool, preflight: Input): Reason
    requires preflight.Preflight? && !Clears(approvalAsked, preflight)
  {
    if approvalAsked && !preflight.approved then Reason(PolicyDenied, "APPROVAL_REQUIRED", false)
    else if !preflight.inputValid then Reason(ValidationError, "INPUT_SCHEMA_VIOLATION", false)
    else Reason(Failed, "NO_PROVIDER", false)
  }

  /** Where the answers leave a caller before any durable record. */
  datatype Standing =
    | AwaitsTool
    | AwaitsPolicy(def: ToolDefinition)
    | AwaitsCall(def: ToolDefinition, asked: bool)
    | AwaitsProvider(def: ToolDefinition)
    | Refused(reason: Reason)
    | Goes(def: ToolDefinition)

  function StandingOf(inputs: seq<Input>): Standing {
    var tool := First(inputs, AboutTool);
    if tool.None? then AwaitsTool
    else if !tool.value.answer.resolution.Resolved? then Refused(Unresolved(tool.value.answer.resolution))
    else WithTool(tool.value.answer.resolution.definition, tool.value.rest)
  }

  function WithTool(def: ToolDefinition, inputs: seq<Input>): Standing {
    var policy := First(inputs, AboutPolicy);
    if policy.None? then AwaitsPolicy(def)
    else if !Grants(def, policy.value.answer) then Refused(NotGranted(def, policy.value.answer))
    else WithPolicy(def, AsksApproval(def, policy.value.answer), policy.value.rest)
  }

  function WithPolicy(def: ToolDefinition, asked: bool, inputs: seq<Input>): Standing {
    var call := First(inputs, AboutCall);
    if call.None? then AwaitsCall(def, asked)
    else if !Clears(asked, call.value.answer) then Refused(NotCleared(asked, call.value.answer))
    else WithCall(def, call.value.rest)
  }

  function WithCall(def: ToolDefinition, inputs: seq<Input>): Standing {
    var provider := First(inputs, AboutProvider);
    if provider.None? then AwaitsProvider(def)
    else if provider.value.answer.ready then Goes(def)
    else Refused(Reason(Failed, "PROVIDER_NOT_READY", true))
  }

  lemma GoesExactly(inputs: seq<Input>, def: ToolDefinition)
    ensures StandingOf(inputs) == Goes(def) <==> Admitted(inputs, def)
  {
  }

  // ---- one more answer ----

  lemma {:induction false} FirstOfMore(inputs: seq<Input>, input: Input, q: Question)
    ensures First(inputs + [input], q) ==
            if First(inputs, q).Some? then Some(Reply(First(inputs, q).value.answer, First(inputs, q).value.rest + [input]))
            else if Answers(q, input) then Some(Reply(input, [])) else None
  {
    var more := inputs + [input];
    if inputs == [] {
      assert more == [input] && more[1..] == [];
    } else {
      assert more[0] == inputs[0] && more[1..] == inputs[1..] + [input];
      if !Answers(q, inputs[0]) { FirstOfMore(inputs[1..], input, q); }
    }
  }

  /** What one answer does to a standing. */
  function Told(s: Standing, input: Input): Standing {
    match s
    case AwaitsTool =>
      if !input.Resolution? then s
      else if input.resolution.Resolved? then AwaitsPolicy(input.resolution.definition) else Refused(Unresolved(input.resolution))
    case AwaitsPolicy(def) =>
      if !input.Policy? then s
      else if Grants(def, input) then AwaitsCall(def, AsksApproval(def, input)) else Refused(NotGranted(def, input))
    case AwaitsCall(def, asked) =>
      if !input.Preflight? then s else if Clears(asked, input) then AwaitsProvider(def) else Refused(NotCleared(asked, input))
    case AwaitsProvider(def) =>
      if !input.Readiness? then s else if input.ready then Goes(def) else Refused(Reason(Failed, "PROVIDER_NOT_READY", true))
    case _ => s
  }

  lemma WithCallTold(def: ToolDefinition, inputs: seq<Input>, input: Input)
    ensures WithCall(def, inputs + [input]) == Told(WithCall(def, inputs), input)
  {
    FirstOfMore(inputs, input, AboutProvider);
  }

  lemma WithPolicyTold(def: ToolDefinition, asked: bool, inputs: seq<Input>, input: Input)
    ensures WithPolicy(def, asked, inputs + [input]) == Told(WithPolicy(def, asked, inputs), input)
  {
    FirstOfMore(inputs, input, AboutCall);
    var call := First(inputs, AboutCall);
    if call.Some? { WithCallTold(def, call.value.rest, input); }
  }

  lemma WithToolTold(def: ToolDefinition, inputs: seq<Input>, input: Input)
    ensures WithTool(def, inputs + [input]) == Told(WithTool(def, inputs), input)
  {
    FirstOfMore(inputs, input, AboutPolicy);
    var policy := First(inputs, AboutPolicy);
    if policy.Some? { WithPolicyTold(def, AsksApproval(def, policy.value.answer), policy.value.rest, input); }
  }

  lemma StandingTold(inputs: seq<Input>, input: Input)
    ensures StandingOf(inputs + [input]) == Told(StandingOf(inputs), input)
  {
    FirstOfMore(inputs, input, AboutTool);
    var tool := First(inputs, AboutTool);
    if tool.Some? && tool.value.answer.resolution.Resolved? {
      WithToolTold(tool.value.answer.resolution.definition, tool.value.rest, input);
    }
  }

  // ---- where a caller stands ----

  function RefusalOf(request: ToolCallRequest, r: Reason): ToolCallResult {
    ToolCallResult(request.toolCallId, r.status, None, Some(ErrorInfo(r.code, r.retryable)), 0)
  }

  /** The definition of a call that has passed governance and is still under way. */
  function DefOf(pc: Pc): Option<ToolDefinition> {
    match pc
    case Recording(def) => Some(def)
    case Claiming(def) => Some(def)
    case Starting(def) => Some(def)
    case Dispatching(def) => Some(def)
    case InFlight(def) => Some(def)
    case Closing(def, _) => Some(def)
    case Completing(def, _) => Some(def)
    case Persisting(def, _) => Some(def)
    case Accepting(def, _) => Some(def)
    case Auditing(def, _) => Some(def)
    case Rejecting(def, _) => Some(def)
    case _ => None
  }

  /** The caller stands where its answers leave it. */
  predicate Matches(me: Caller, s: Standing) {
    match s
    case AwaitsTool => me.pc == Resolving
    case AwaitsPolicy(def) => me.pc == Authorizing(def)
    case AwaitsCall(def, asked) => me.pc == Preflighting(def, asked)
    case AwaitsProvider(def) => me.pc == AwaitingReadiness(def)
    case Refused(reason) => me.pc == Done(RefusalOf(me.request, reason))
    case Goes(def) => DefOf(me.pc) == Some(def) || me.pc.Done? || me.pc.Crashed?
  }

  predicate Governed(pc: Pc) {
    pc.Resolving? || pc.Authorizing? || pc.Preflighting? || pc.AwaitingReadiness?
  }

  lemma UnresolvedCode(r: ToolResolution)
    requires !r.Resolved?
    ensures "RESOLUTION_" + ResolutionKind(r) == Unresolved(r).code && ResolutionStatus(r) == Unresolved(r).status && !Unresolved(r).retryable
  {
    match r
    case NotFound => assert "RESOLUTION_" + "NOT_FOUND" == "RESOLUTION_NOT_FOUND";
    case VersionRequired => assert "RESOLUTION_" + "VERSION_REQUIRED" == "RESOLUTION_VERSION_REQUIRED";
    case ShadowedByTenant => assert "RESOLUTION_" + "SHADOWED" == "RESOLUTION_SHADOWED";
    case Ambiguous => assert "RESOLUTION_" + "AMBIGUOUS" == "RESOLUTION_AMBIGUOUS";
    case NotExecutable => assert "RESOLUTION_" + "NOT_EXECUTABLE" == "RESOLUTION_NOT_EXECUTABLE";
  }

  lemma GovernedStepMatches(me: Caller, s: Standing, input: Input)
    requires Matches(me, s) && Governed(me.pc)
    ensures Matches(me.(pc := AfterGovernance(me.request, me.pc, input)), Told(s, input))
  {
    if input.Resolution? && !input.resolution.Resolved? { UnresolvedCode(input.resolution); }
  }

  /** The caller has stopped, or is still under way with the definition. */
  predicate Keeps(pc: Pc, def: ToolDefinition) {
    pc.Done? || pc.Crashed? || DefOf(pc) == Some(def)
  }

  lemma ClosingKeepsDefinition(w: World, c: CallerId, def: ToolDefinition, r: ProviderResponse)
    requires c in w.callers
    ensures Keeps(CloseAttempt(w, c, def, r).callers[c].pc, def) && Keeps(ReceiveResponse(w, c, def, r).callers[c].pc, def)
  {
  }

  lemma OpeningKeepsDefinition(w: World, c: CallerId, def: ToolDefinition)
    requires c in w.callers
    ensures Keeps(TakeClaim(w, c, def).callers[c].pc, def)
    ensures Keeps(StartAttempt(w, c, def).callers[c].pc, def) && Keeps(Dispatch(w, c, def).callers[c].pc, def)
  {
  }

  lemma FinishingKeepsDefinition(w: World, c: CallerId, def: ToolDefinition, result: ToolCallResult)
    requires c in w.callers
    ensures Keeps(CompleteInvocation(w, c, def, result).callers[c].pc, def) && Keeps(PersistOutcome(w, c, def, result).callers[c].pc, def)
  {
  }

  lemma AcceptingKeepsDefinition(w: World, c: CallerId, def: ToolDefinition, result: ToolCallResult, valid: bool)
    requires c in w.callers
    ensures Keeps(AcceptOutput(w, c, def, result, valid).callers[c].pc, def)
  {
  }

  lemma EarlyStepKeepsDefinition(w: World, c: CallerId, input: Input)
    requires c in w.callers && DefOf(w.callers[c].pc).Some? && (w.callers[c].pc.Claiming? || w.callers[c].pc.Starting? || w.callers[c].pc.Dispatching?)
    ensures Keeps(StepCaller(w, c, input).callers[c].pc, DefOf(w.callers[c].pc).value)
  {
    OpeningKeepsDefinition(w, c, DefOf(w.callers[c].pc).value);
  }

  lemma BoundaryStepKeepsDefinition(w: World, c: CallerId, input: Input)
    requires c in w.callers && (w.callers[c].pc.InFlight? || w.callers[c].pc.Closing?)
    ensures Keeps(StepCaller(w, c, input).callers[c].pc, w.callers[c].pc.def)
  {
    var pc := w.callers[c].pc;
    if pc.Closing? { ClosingKeepsDefinition(w, c, pc.def, pc.response); }
    if pc.InFlight? && input.Response? { ClosingKeepsDefinition(w, c, pc.def, input.response); }
  }

  lemma LateStepKeepsDefinition(w: World, c: CallerId, input: Input)
    requires c in w.callers && (w.callers[c].pc.Completing? || w.callers[c].pc.Persisting? || w.callers[c].pc.Accepting?)
    ensures Keeps(StepCaller(w, c, input).callers[c].pc, w.callers[c].pc.def)
  {
    var pc := w.callers[c].pc;
    FinishingKeepsDefinition(w, c, pc.def, pc.result);
    if input.OutputCheck? { AcceptingKeepsDefinition(w, c, pc.def, pc.result, input.outputValid); }
  }

  lemma LastStepKeepsDefinition(w: World, c: CallerId, input: Input)
    requires c in w.callers && (w.callers[c].pc.Recording? || w.callers[c].pc.Auditing? || w.callers[c].pc.Rejecting?)
    ensures Keeps(StepCaller(w, c, input).callers[c].pc, w.callers[c].pc.def)
  {
  }

  lemma LaterStepKeepsDefinition(w: World, c: CallerId, input: Input)
    requires c in w.callers && DefOf(w.callers[c].pc).Some?
    ensures Keeps(StepCaller(w, c, input).callers[c].pc, DefOf(w.callers[c].pc).value)
  {
    var pc := w.callers[c].pc;
    if pc.Claiming? || pc.Starting? || pc.Dispatching? { EarlyStepKeepsDefinition(w, c, input); }
    else if pc.InFlight? || pc.Closing? { BoundaryStepKeepsDefinition(w, c, input); }
    else if pc.Completing? || pc.Persisting? || pc.Accepting? { LateStepKeepsDefinition(w, c, input); }
    else { LastStepKeepsDefinition(w, c, input); }
  }

  lemma StepMatches(w: World, c: CallerId, s: Standing, input: Input)
    requires c in w.callers && Matches(w.callers[c], s)
    ensures Matches(StepCaller(w, c, input).callers[c], Told(s, input))
  {
    var me := w.callers[c];
    if Governed(me.pc) {
      GovernedStepMatches(me, s, input);
      assert StepCaller(w, c, input) == Move(w, c, AfterGovernance(me.request, me.pc, input));
    } else if DefOf(me.pc).Some? {
      LaterStepKeepsDefinition(w, c, input);
    } else {
      assert StepCaller(w, c, input) == w;
    }
  }

  /** The provider is called at one step only, for the definition the caller has. */
  predicate CallsComeFrom(before: seq<ProviderCall>, after: seq<ProviderCall>, c: CallerId, pc: Pc) {
    forall i :: 0 <= i < |after| ==>
      (i < |before| && after[i].caller == before[i].caller && after[i].def == before[i].def)
      || (after[i].caller == c && pc == Dispatching(after[i].def))
  }

  lemma CallsGrowByDispatch(w: World, c: CallerId, input: Input)
    requires c in w.callers
    ensures CallsComeFrom(w.calls, StepCaller(w, c, input).calls, c, w.callers[c].pc)
  {
    match w.callers[c].pc
    case Dispatching(def) => assert StepCaller(w, c, input) == if input.Tick? then Dispatch(w, c, def) else w;
    case InFlight(def) => assert StepCaller(w, c, input) == if input.Response? then ReceiveResponse(w, c, def, input.response) else w;
    case _ => assert StepCaller(w, c, input).calls == w.calls;
  }

  // ---- all runs ----

  lemma {:induction false} RunSnoc(w: World, actions: seq<Action>, a: Action)
    ensures Run(w, actions + [a]) == Perform(Run(w, actions), a)
    decreases |actions|
  {
    if actions == [] {
      assert [] + [a] == [a] && [a][1..] == [];
      assert Run(w, [a]) == Run(Perform(w, a), []);
    } else {
      assert (actions + [a])[0] == actions[0] && (actions + [a])[1..] == actions[1..] + [a];
      RunSnoc(Perform(w, actions[0]), actions[1..], a);
    }
  }

  /** The callers are those that have arrived; one that has left has stopped, the others stand where
      their answers leave them; and every provider call was admitted. */
  ghost predicate Agrees(w: World, actions: seq<Action>) {
    && (forall c :: c in w.callers <==> Arrived(actions, c))
    && (forall c :: c in w.callers ==> CallerStands(w.callers[c], actions, c))
    && (forall i :: 0 <= i < |w.calls| ==> Admitted(Heard(actions, w.calls[i].caller), w.calls[i].def))
  }

  lemma ArrivedSnoc(actions: seq<Action>, a: Action, c: CallerId)
    ensures Arrived(actions + [a], c) <==> Arrived(actions, c) || (a.Arrive? && a.c == c)
    ensures Left(actions + [a], c) <==> Left(actions, c) || (a == Crash(c) && Arrived(actions, c))
  {
    var more := actions + [a];
    assert forall i :: 0 <= i < |actions| ==> more[i] == actions[i] && more[..i] == actions[..i];
    assert more[..|actions|] == actions && more[|actions|] == a;
    if Arrived(actions, c) {
      var i :| 0 <= i < |actions| && actions[i].Arrive? && actions[i].c == c;
      assert more[i].Arrive?;
    }
    if Left(actions, c) {
      var i :| 0 <= i < |actions| && actions[i] == Crash(c) && Arrived(actions[..i], c);
      assert more[i] == Crash(c) && Arrived(more[..i], c);
    }
    if a == Crash(c) && Arrived(actions, c) { assert more[|actions|] == Crash(c) && Arrived(more[..|actions|], c); }
  }

  predicate Tells(actions: seq<Action>, a: Action, c: CallerId) {
    a.Step? && a.c == c && Arrived(actions, c) && !Left(actions, c)
  }

  lemma HeardSnoc(actions: seq<Action>, a: Action, c: CallerId)
    ensures Heard(actions + [a], c) == if Tells(actions, a, c) then Heard(actions, c) + [a.input] else Heard(actions, c)
  {
    assert (actions + [a])[..|actions|] == actions;
    assert Heard(actions, c) + [] == Heard(actions, c);
  }

  lemma {:induction false} NothingHeardBefore(actions: seq<Action>, c: CallerId)
    requires !Arrived(actions, c)
    ensures Heard(actions, c) == []
  {
    if actions != [] {
      var front := actions[..|actions| - 1];
      ArrivedSnoc(front, actions[|actions| - 1], c);
      assert actions == front + [actions[|actions| - 1]];
      NothingHeardBefore(front, c);
    }
  }

  lemma AdmittedStays(inputs: seq<Input>, input: Input, def: ToolDefinition)
    requires Admitted(inputs, def)
    ensures Admitted(inputs + [input], def)
  {
    GoesExactly(inputs, def);
    StandingTold(inputs, input);
    GoesExactly(inputs + [input], def);
  }

  lemma AdmittedLater(actions: seq<Action>, a: Action, c: CallerId, def: ToolDefinition)
    requires Admitted(Heard(actions, c), def)
    ensures Admitted(Heard(actions + [a], c), def)
  {
    HeardSnoc(actions, a, c);
    if Tells(actions, a, c) { AdmittedStays(Heard(actions, c), a.input, def); }
  }

  /** What `Agrees` says of one caller. */
  ghost predicate CallerStands(me: Caller, actions: seq<Action>, c: CallerId) {
    if Left(actions, c) then me.pc.Done? || me.pc.Crashed? else Matches(me, StandingOf(Heard(actions, c)))
  }

  lemma StopsInPlace(w: World, c: CallerId, input: Input)
    requires c in w.callers && (w.callers[c].pc.Done? || w.callers[c].pc.Crashed?)
    ensures StepCaller(w, c, input) == w
  {
  }

  lemma TellingAgrees(w: World, actions: seq<Action>, c: CallerId, input: Input)
    requires c in w.callers && Arrived(actions, c) && CallerStands(w.callers[c], actions, c)
    ensures CallerStands(StepCaller(w, c, input).callers[c], actions + [Step(c, input)], c)
  {
    ArrivedSnoc(actions, Step(c, input), c);
    HeardSnoc(actions, Step(c, input), c);
    if Left(actions, c) {
      StopsInPlace(w, c, input);
    } else {
      StepMatches(w, c, StandingOf(Heard(actions, c)), input);
      StandingTold(Heard(actions, c), input);
    }
  }

  lemma ArrivingAgrees(actions: seq<Action>, c: CallerId, request: ToolCallRequest)
    requires !Arrived(actions, c)
    ensures CallerStands(Caller(request, Resolving, 0, None), actions + [Arrive(c, request)], c)
  {
    ArrivedSnoc(actions, Arrive(c, request), c);
    HeardSnoc(actions, Arrive(c, request), c);
    NothingHeardBefore(actions, c);
  }

  lemma UntouchedAgrees(me: Caller, actions: seq<Action>, a: Action, c: CallerId)
    requires CallerStands(me, actions, c) && !Tells(actions, a, c) && (a == Crash(c) ==> !Arrived(actions, c))
    ensures CallerStands(me, actions + [a], c)
  {
    ArrivedSnoc(actions, a, c);
    HeardSnoc(actions, a, c);
  }

  lemma CrashingAgrees(w: World, actions: seq<Action>, c: CallerId)
    requires c in w.callers && Arrived(actions, c)
    ensures CallerStands(Perform(w, Crash(c)).callers[c], actions + [Crash(c)], c)
  {
    ArrivedSnoc(actions, Crash(c), c);
  }

  lemma CallerAgrees(w: World, actions: seq<Action>, a: Action, c: CallerId)
    requires Agrees(w, actions) && c in Perform(w, a).callers
    ensures CallerStands(Perform(w, a).callers[c], actions + [a], c)
  {
    if c !in w.callers {
      ArrivingAgrees(actions, c, a.request);
    } else {
      assert CallerStands(w.callers[c], actions, c);
      if a.c == c && a.Step? {
        TellingAgrees(w, actions, c, a.input);
      } else if a == Crash(c) {
        CrashingAgrees(w, actions, c);
      } else {
        UntouchedAgrees(w.callers[c], actions, a, c);
        assert Perform(w, a).callers[c] == w.callers[c];
      }
    }
  }

  lemma CallsAgree(w: World, actions: seq<Action>, a: Action, i: nat)
    requires Agrees(w, actions) && i < |Perform(w, a).calls|
    ensures Admitted(Heard(actions + [a], Perform(w, a).calls[i].caller), Perform(w, a).calls[i].def)
  {
    var call := Perform(w, a).calls[i];
    if a.Step? && a.c in w.callers {
      CallsGrowByDispatch(w, a.c, a.input);
      if !(i < |w.calls| && call.caller == w.calls[i].caller && call.def == w.calls[i].def) {
        assert CallerStands(w.callers[a.c], actions, a.c);
        GoesExactly(Heard(actions, a.c), call.def);
      }
    }
    AdmittedLater(actions, a, call.caller, call.def);
  }

  lemma StepAgrees(w: World, actions: seq<Action>, a: Action)
    requires Agrees(w, actions)
    ensures Agrees(Perform(w, a), actions + [a])
  {
    var after := Perform(w, a);
    forall c ensures c in after.callers <==> Arrived(actions + [a], c) {
      ArrivedSnoc(actions, a, c);
    }
    forall c | c in after.callers ensures CallerStands(after.callers[c], actions + [a], c) {
      CallerAgrees(w, actions, a, c);
    }
    forall i | 0 <= i < |after.calls| ensures Admitted(Heard(actions + [a], after.calls[i].caller), after.calls[i].def) {
      CallsAgree(w, actions, a, i);
    }
  }

  lemma {:induction false} RunAgrees(actions: seq<Action>)
    ensures Agrees(Run(Empty, actions), actions)
  {
    if actions != [] {
      var front, a := actions[..|actions| - 1], actions[|actions| - 1];
      assert actions == front + [a];
      RunAgrees(front);
      RunSnoc(Empty, front, a);
      StepAgrees(Run(Empty, front), front, a);
    }
  }

  /** Main theorem: in every interleaving every provider call was made by a caller whose answers
      admitted it: its tool was resolved to this definition; the policy did not deny it, granted every
      required capability and allowed autonomy; it was approved if the tool or the policy asked for an
      approval; its input was valid; and there was a provider, and it was ready. */
  lemma OnlyAdmittedCalls(actions: seq<Action>)
    ensures var calls := Run(Empty, actions).calls;
            forall i :: 0 <= i < |calls| ==> Admitted(Heard(actions, calls[i].caller), calls[i].def)
  {
    RunAgrees(actions);
  }

  /** And every caller stands where its answers leave it: at the first question not yet answered;
      refused with the status and code of the first bad answer; or past governance exactly when it
      was admitted. */
  lemma AnswersDecide(actions: seq<Action>, c: CallerId)
    requires Arrived(actions, c) && !Left(actions, c)
    ensures var w := Run(Empty, actions);
            && c in w.callers && Matches(w.callers[c], StandingOf(Heard(actions, c)))
            && (forall def :: DefOf(w.callers[c].pc) == Some(def) ==> Admitted(Heard(actions, c), def))
            && (forall def :: Admitted(Heard(actions, c), def) ==> DefOf(w.callers[c].pc) == Some(def) || w.callers[c].pc.Done? || w.callers[c].pc.Crashed?)
  {
    RunAgrees(actions);
    assert CallerStands(Run(Empty, actions).callers[c], actions, c);
    forall def ensures StandingOf(Heard(actions, c)) == Goes(def) <==> Admitted(Heard(actions, c), def) {
      GoesExactly(Heard(actions, c), def);
    }
  }

  lemma GovernanceIsQuiet(w: World, c: CallerId, input: Input)
    requires c in w.callers && Governed(w.callers[c].pc)
    ensures StepCaller(w, c, input) == Move(w, c, AfterGovernance(w.callers[c].request, w.callers[c].pc, input))
  {
  }

  /** Until then, and after a refusal, a caller leaves claims, invocations, attempts and provider alone. */
  lemma RefusalLeavesNoTrace(actions: seq<Action>, c: CallerId, input: Input)
    requires Arrived(actions, c) && !StandingOf(Heard(actions, c)).Goes?
    ensures var w, after := Run(Empty, actions), Perform(Run(Empty, actions), Step(c, input));
            after.claims == w.claims && after.invocations == w.invocations && after.attempts == w.attempts && after.calls == w.calls
  {
    RunAgrees(actions);
    var w := Run(Empty, actions);
    assert CallerStands(w.callers[c], actions, c);
    if w.callers[c].pc.Done? || w.callers[c].pc.Crashed? {
      StopsInPlace(w, c, input);
    } else {
      GovernanceIsQuiet(w, c, input);
    }
  }
}
