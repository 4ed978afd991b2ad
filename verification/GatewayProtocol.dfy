/** `ToolGateway.execute` as a protocol run by any number of callers at once
    (packages/tool-gateway/src/tool-gateway.ts:88-401). Every `await` is a boundary
    between two atomic steps; between any two steps other callers may run, and a
    caller may stop for good (a crash, or an exception out of the awaited call).
    A run is a sequence of actions; an action that does not fit the state does nothing,
    so a property of all action sequences is a property of all interleavings. */
module GatewayProtocol {
  import opened Foundations
  import opened ToolContract
  import opened IdempotencyStore
  import opened InvocationLog
  import opened ToolGateway

  type CallerId = nat

  datatype Decision = Allow | RequireApproval | Deny

  /** What the awaited collaborator answers; `Tick` where the step needs no answer. */
  datatype Input =
    | Resolution(resolution: ToolResolution)
    | Policy(decision: Decision, capabilities: seq<string>, autonomyAllowed: bool)
    | Preflight(approved: bool, inputValid: bool, hasProvider: bool)
    | Readiness(ready: bool)
    | Response(response: ProviderResponse)
    | OutputCheck(outputValid: bool)
    | Tick

  datatype Action =
    | Arrive(c: CallerId, request: ToolCallRequest)
    | Step(c: CallerId, input: Input)
    | Crash(c: CallerId)

  /** Where a caller stands: the await it is about to resume from. */
  datatype Pc =
    | Resolving
    | Authorizing(def: ToolDefinition)
    | Preflighting(def: ToolDefinition, needsApproval: bool)
    | AwaitingReadiness(def: ToolDefinition)
    | Recording(def: ToolDefinition)
    | Claiming(def: ToolDefinition)
    | Starting(def: ToolDefinition)
    | Dispatching(def: ToolDefinition)
    | InFlight(def: ToolDefinition)
    | Closing(def: ToolDefinition, response: ProviderResponse)
    | Completing(def: ToolDefinition, result: ToolCallResult)
    | Persisting(def: ToolDefinition, result: ToolCallResult)
    | Accepting(def: ToolDefinition, result: ToolCallResult)
    | Auditing(def: ToolDefinition, result: ToolCallResult)
    | Rejecting(def: ToolDefinition, record: Record)
    | Done(result: ToolCallResult)
    | Crashed

  /** `attempt` counts the STARTED records written, `call` is the index of the
      caller's latest provider call in the history. */
  datatype Caller = Caller(request: ToolCallRequest, pc: Pc, attempt: nat, call: Option<nat>)

  datatype Fate = Pending | Answered(response: ProviderResponse)

  /** A request that crossed the provider boundary. */
  datatype ProviderCall = ProviderCall(caller: CallerId, attempt: nat, key: Option<string>, def: ToolDefinition, fate: Fate)

  datatype World = World(
    callers: map<CallerId, Caller>,
    claims: map<string, Record>,
    invocations: map<string, InvocationRecord>,
    attempts: map<AttemptKey, AttemptRecord>,
    calls: seq<ProviderCall>)

  const Empty: World := World(map[], map[], map[], map[], [])

  // ---- one atomic step ----

  function Scope(request: ToolCallRequest, def: ToolDefinition): string {
    "tool:" + def.toolId + ":" + (if request.action.Some? then request.action.value else "execute")
  }

  /** The claim this call takes, if it takes one. */
  function ClaimKey(request: ToolCallRequest, def: ToolDefinition): Option<string> {
    if def.idempotencyRequired && Given(request.idempotencyKey)
    then Some(StoreKey(request.tenantId, Scope(request, def), request.idempotencyKey.value))
    else None
  }

  function Refusal(request: ToolCallRequest, status: CallStatus, code: string, retryable: bool): Pc {
    Done(ToolCallResult(request.toolCallId, status, None, Some(ErrorInfo(code, retryable)), 0))
  }

  function ResolutionStatus(r: ToolResolution): CallStatus {
    match r
    case VersionRequired | NotFound => ValidationError
    case ShadowedByTenant | Ambiguous => PolicyDenied
    case _ => Failed
  }

  function ResolutionKind(r: ToolResolution): string {
    match r
    case Resolved(_) => "RESOLVED"
    case NotFound => "NOT_FOUND"
    case ShadowedByTenant => "SHADOWED"
    case NotExecutable => "NOT_EXECUTABLE"
    case VersionRequired => "VERSION_REQUIRED"
    case Ambiguous => "AMBIGUOUS"
  }

  /** Everything before the durable records: refuse or move on. */
  function AfterGovernance(request: ToolCallRequest, pc: Pc, input: Input): Pc {
    match (pc, input)
    case (Resolving, Resolution(r)) =>
      if r.Resolved? then Authorizing(r.definition)
      else Refusal(request, ResolutionStatus(r), "RESOLUTION_" + ResolutionKind(r), false)
    case (Authorizing(def), Policy(decision, capabilities, autonomyAllowed)) =>
      if decision == Deny then Refusal(request, PolicyDenied, "POLICY_DENIED", false)
      else if exists c :: c in def.requiredCapabilities && c !in capabilities
      then Refusal(request, Unauthorized, "CAPABILITY_DENIED", false)
      else if !autonomyAllowed then Refusal(request, PolicyDenied, "AUTONOMY_DENIED", false)
      else Preflighting(def, def.requiredApproval || decision == RequireApproval)
    case (Preflighting(def, needsApproval), Preflight(approved, inputValid, hasProvider)) =>
      if needsApproval && !approved then Refusal(request, PolicyDenied, "APPROVAL_REQUIRED", false)
      else if !inputValid then Refusal(request, ValidationError, "INPUT_SCHEMA_VIOLATION", false)
      else if !hasProvider then Refusal(request, Failed, "NO_PROVIDER", false)
      else AwaitingReadiness(def)
    case (AwaitingReadiness(def), Readiness(ready)) =>
      if ready then Recording(def) else Refusal(request, Failed, "PROVIDER_NOT_READY", true)
    case _ => pc
  }

  /** Only the caller itself moves. */
  predicate MovesOnly(w: World, w': World, c: CallerId) {
    c in w'.callers && w'.callers == w.callers[c := w'.callers[c]]
  }

  function Move(w: World, c: CallerId, pc: Pc): (w': World)
    requires c in w.callers
    ensures MovesOnly(w, w', c)
  {
    w.(callers := w.callers[c := w.callers[c].(pc := pc)])
  }

  function TakeClaim(w: World, c: CallerId, def: ToolDefinition): (w': World)
    requires c in w.callers
    ensures MovesOnly(w, w', c)
  {
    var key := ClaimKey(w.callers[c].request, def);
    if key.None? then Move(w, c, Starting(def))
    else if Claimable(w.claims, key.value) then
      Move(w, c, Starting(def)).(claims := w.claims[key.value := Fresh])
    else Move(w, c, Rejecting(def, w.claims[key.value]))
  }

  function StartAttempt(w: World, c: CallerId, def: ToolDefinition): (w': World)
    requires c in w.callers
    ensures MovesOnly(w, w', c)
  {
    var n := w.callers[c].attempt + 1;
    w.(callers := w.callers[c := w.callers[c].(pc := Dispatching(def), attempt := n)],
       attempts := w.attempts[(w.callers[c].request.toolCallId, n) := OpenAttempt])
  }

  /** The request crosses the provider boundary. */
  function Dispatch(w: World, c: CallerId, def: ToolDefinition): (w': World)
    requires c in w.callers
    ensures MovesOnly(w, w', c)
  {
    var me := w.callers[c];
    w.(callers := w.callers[c := me.(pc := InFlight(def), call := Some(|w.calls|))],
       calls := w.calls + [ProviderCall(c, me.attempt, ClaimKey(me.request, def), def, Fate.Pending)])
  }

  function ReceiveResponse(w: World, c: CallerId, def: ToolDefinition, r: ProviderResponse): (w': World)
    requires c in w.callers
    ensures MovesOnly(w, w', c)
  {
    var i := w.callers[c].call;
    var moved := Move(w, c, Closing(def, r));
    if i.Some? && i.value < |w.calls|
    then moved.(calls := w.calls[i.value := w.calls[i.value].(fate := Answered(r))])
    else moved
  }

  function CloseAttempt(w: World, c: CallerId, def: ToolDefinition, r: ProviderResponse): (w': World)
    requires c in w.callers
    ensures MovesOnly(w, w', c)
  {
    var me := w.callers[c];
    var next := if me.attempt == 0 || RetriesAfter(def, r, me.attempt) then Starting(def)
                else Completing(def, AttemptResult(me.request, def, r, me.attempt));
    Move(w, c, next).(attempts := w.attempts[(me.request.toolCallId, me.attempt) := ClosedAttempt(def, r)])
  }

  function FinishInvocation(w: World, c: CallerId, status: CallStatus, error: Option<string>, pc: Pc): (w': World)
    requires c in w.callers
    ensures MovesOnly(w, w', c)
  {
    var id := w.callers[c].request.toolCallId;
    if id !in w.invocations then Move(w, c, Crashed)
    else Move(w, c, pc).(invocations := w.invocations[id := Finish(w.invocations[id], status, error)])
  }

  function ErrorCode(result: ToolCallResult): Option<string> {
    if result.error.Some? then Some(result.error.value.code) else None
  }

  function CompleteInvocation(w: World, c: CallerId, def: ToolDefinition, result: ToolCallResult): (w': World)
    requires c in w.callers
    ensures MovesOnly(w, w', c)
  {
    FinishInvocation(w, c, result.status, ErrorCode(result),
      if ClaimKey(w.callers[c].request, def).Some? then Persisting(def, result) else Accepting(def, result))
  }

  function PersistOutcome(w: World, c: CallerId, def: ToolDefinition, result: ToolCallResult): (w': World)
    requires c in w.callers
    ensures MovesOnly(w, w', c)
  {
    var key := ClaimKey(w.callers[c].request, def);
    var moved := Move(w, c, Accepting(def, result));
    if key.None? || result.status == OutcomeUnknown then moved
    else
      var payload := StoredOutcome(StoredSubmitted(result), result);
      moved.(claims := w.claims[key.value := Record(Some(payload), if result.status == Success then Completed else FailedClaim)])
  }

  function AcceptOutput(w: World, c: CallerId, def: ToolDefinition, result: ToolCallResult, outputValid: bool): (w': World)
    requires c in w.callers
    ensures MovesOnly(w, w', c)
  {
    if result.status == Success && !outputValid then
      var failed := BuildResult(w.callers[c].request, ValidationError, ErrorInfo("OUTPUT_SCHEMA_VIOLATION", false), result.retryCount, None);
      FinishInvocation(w, c, ValidationError, Some("OUTPUT_SCHEMA_VIOLATION"), Done(failed))
    else Move(w, c, Auditing(def, result))
  }

  /** handleExistingClaim: replay a completed claim, otherwise report it unresolved. */
  function AnswerFromClaim(request: ToolCallRequest, record: Record): ToolCallResult {
    if record.status == Completed && record.result.Some?
    then record.result.value.callResult.(toolCallId := request.toolCallId)
    else BuildResult(request, OutcomeUnknown, ErrorInfo("DUPLICATE_IN_FLIGHT", false), 0, None)
  }

  function RejectDuplicate(w: World, c: CallerId, record: Record): (w': World)
    requires c in w.callers
    ensures MovesOnly(w, w', c)
  {
    var answer := AnswerFromClaim(w.callers[c].request, record);
    FinishInvocation(w, c, answer.status,
      if record.status == Completed && record.result.Some? then None else Some("DUPLICATE_IN_FLIGHT"), Done(answer))
  }

  function StepCaller(w: World, c: CallerId, input: Input): (w': World)
    requires c in w.callers
    ensures MovesOnly(w, w', c)
  {
    var me := w.callers[c];
    match me.pc
    case Done(_) => w
    case Crashed => w
    case Recording(def) =>
      if input.Tick?
      then Move(w, c, Claiming(def)).(invocations := w.invocations[me.request.toolCallId := OpenInvocation])
      else w
    case Claiming(def) => if input.Tick? then TakeClaim(w, c, def) else w
    case Starting(def) => if input.Tick? then StartAttempt(w, c, def) else w
    case Dispatching(def) => if input.Tick? then Dispatch(w, c, def) else w
    case InFlight(def) => if input.Response? then ReceiveResponse(w, c, def, input.response) else w
    case Closing(def, r) => if input.Tick? then CloseAttempt(w, c, def, r) else w
    case Completing(def, result) => if input.Tick? then CompleteInvocation(w, c, def, result) else w
    case Persisting(def, result) => if input.Tick? then PersistOutcome(w, c, def, result) else w
    case Accepting(def, result) => if input.OutputCheck? then AcceptOutput(w, c, def, result, input.outputValid) else w
    case Auditing(def, result) => if input.Tick? then Move(w, c, Done(result)) else w
    case Rejecting(def, record) => if input.Tick? then RejectDuplicate(w, c, record) else w
    case _ => Move(w, c, AfterGovernance(me.request, me.pc, input))
  }

  function Perform(w: World, a: Action): World {
    match a
    case Arrive(c, request) =>
      if c in w.callers then w else w.(callers := w.callers[c := Caller(request, Resolving, 0, None)])
    case Step(c, input) => if c in w.callers then StepCaller(w, c, input) else w
    case Crash(c) =>
      if c in w.callers && !w.callers[c].pc.Done? then Move(w, c, Crashed) else w
  }

  function Run(w: World, actions: seq<Action>): World
    decreases |actions|
  {
    if actions == [] then w else Run(Perform(w, actions[0]), actions[1..])
  }

  // ---- what is to be shown ----

  /** Reported submitted, threw, or never answered. */
  predicate PossiblySubmitted(call: ProviderCall) {
    match call.fate
    case Pending => true
    case Answered(Threw) => true
    case Answered(Returned(o)) => o.submitted
  }

  /** A side effect under a claim that may have happened. */
  predicate Exposed(call: ProviderCall) {
    call.key.Some? && call.def.sideEffectClass != ReadOnly && PossiblySubmitted(call)
  }

  /** No two provider calls under one claim may both have had a side effect. */
  ghost predicate AtMostOnce(w: World) {
    forall i, j :: 0 <= i < j < |w.calls| && Exposed(w.calls[i]) && Exposed(w.calls[j]) ==>
      w.calls[i].key != w.calls[j].key
  }

  /** Every outcome the providers report in this run satisfies `allowed`. */
  ghost predicate Reports(actions: seq<Action>, allowed: ProviderOutcome -> bool) {
    forall i :: 0 <= i < |actions| && actions[i].Step? && actions[i].input.Response? && actions[i].input.response.Returned? ==>
      allowed(actions[i].input.response.outcome)
  }

  // ---- the inductive invariant ----

  /** The caller owns the claim of its key: it took it and has not yet persisted an outcome. */
  function HeldKey(me: Caller): Option<string> {
    match me.pc
    case Starting(def) => ClaimKey(me.request, def)
    case Dispatching(def) => ClaimKey(me.request, def)
    case InFlight(def) => ClaimKey(me.request, def)
    case Closing(def, _) => ClaimKey(me.request, def)
    case Completing(def, _) => ClaimKey(me.request, def)
    case Persisting(def, _) => ClaimKey(me.request, def)
    case _ => None
  }

  ghost predicate ClaimsPending(w: World) {
    forall c :: c in w.callers && HeldKey(w.callers[c]).Some? ==>
      var k := HeldKey(w.callers[c]).value;
      k in w.claims && w.claims[k].status == ClaimStatus.Pending
  }

  ghost predicate HoldersDistinct(w: World) {
    forall c, d :: c in w.callers && d in w.callers && c != d && HeldKey(w.callers[c]).Some? ==>
      HeldKey(w.callers[c]) != HeldKey(w.callers[d])
  }

  /** How the latest provider call of a caller relates to where the caller stands. */
  ghost predicate LinkedCall(w: World, c: CallerId)
    requires c in w.callers
  {
    var me := w.callers[c];
    match me.pc
    case Dispatching(def) => me.attempt >= 1
    case InFlight(def) =>
      me.call.Some? && me.call.value < |w.calls| && me.attempt >= 1 &&
      w.calls[me.call.value] == ProviderCall(c, me.attempt, ClaimKey(me.request, def), def, Fate.Pending)
    case Closing(def, r) =>
      me.call.Some? && me.call.value < |w.calls| && me.attempt >= 1 &&
      w.calls[me.call.value] == ProviderCall(c, me.attempt, ClaimKey(me.request, def), def, Answered(r)) &&
      (r.Returned? ==> !Misreported(r.outcome))
    case Completing(def, result) => ClosedCall(w, c, def, result)
    case Persisting(def, result) => ClosedCall(w, c, def, result)
    case _ => true
  }

  /** A possibly submitted call never ends in a result that would reopen the claim. */
  ghost predicate ClosedCall(w: World, c: CallerId, def: ToolDefinition, result: ToolCallResult)
    requires c in w.callers
  {
    var me := w.callers[c];
    me.call.Some? && me.call.value < |w.calls| && w.calls[me.call.value].caller == c &&
    w.calls[me.call.value].key == ClaimKey(me.request, def) &&
    (Exposed(w.calls[me.call.value]) ==> !LeavesReclaimable(result)) &&
    (result.status == Success ==> Delivers(w.calls[me.call.value], result.output))
  }

  /** The provider answered that the request was submitted and its result, this output, is known. */
  predicate Delivers(call: ProviderCall, output: Option<string>) {
    && call.fate.Answered? && call.fate.response.Returned?
    && var o := call.fate.response.outcome; o.submitted && o.resultKnown && o.output == output
  }

  ghost predicate CallsLinked(w: World) {
    forall c :: c in w.callers ==> LinkedCall(w, c)
  }

  predicate PastBoundary(pc: Pc) {
    pc.InFlight? || pc.Closing? || pc.Completing? || pc.Persisting?
  }

  /** An exposed call keeps its claim closed, and only its own caller can still hold it,
      beyond the provider boundary. */
  ghost predicate Sealed(w: World, i: nat)
    requires i < |w.calls| && w.calls[i].key.Some?
  {
    var k := w.calls[i].key;
    k.value in w.claims && !Reclaimable(w.claims[k.value]) &&
    forall c :: c in w.callers && HeldKey(w.callers[c]) == k ==>
      w.callers[c].call == Some(i) && PastBoundary(w.callers[c].pc)
  }

  ghost predicate ExposureSealed(w: World) {
    forall i :: 0 <= i < |w.calls| && Exposed(w.calls[i]) ==> Sealed(w, i)
  }

  ghost predicate Inv(w: World) {
    ClaimsPending(w) && HoldersDistinct(w) && CallsLinked(w) && ExposureSealed(w) && AtMostOnce(w)
  }
}
