/** The gateway's decisions behind governance, told by what was requested, answered and stored
    (packages/tool-gateway/src/tool-gateway.ts:181-420, 434-470). */
module GatewayRules {
  import opened Foundations
  import opened ToolContract
  import opened IdempotencyStore
  import opened InvocationLog
  import opened ToolGateway
  import opened GatewayProtocol

  // ---- claims ----

  function ActionOf(request: ToolCallRequest): string {
    if request.action.Some? then request.action.value else "execute"
  }

  predicate Plain(request: ToolCallRequest, def: ToolDefinition) {
    Without(request.tenantId, ':') && Without(def.toolId, ':') && Without(ActionOf(request), ':')
  }

  lemma KeyParts(request: ToolCallRequest, def: ToolDefinition)
    requires ClaimKey(request, def).Some?
    ensures ClaimKey(request, def).value ==
            request.tenantId + [':'] + ("tool" + [':'] + (def.toolId + [':'] + (ActionOf(request) + [':'] + request.idempotencyKey.value)))
  {
  }

  /** A call takes a claim exactly when its tool asks for one and it brings a key; and two calls share
      a claim exactly when tenant, tool, action and key are the same, whatever the version of the tool. */
  lemma ClaimsSharedExactly(one: ToolCallRequest, oneDef: ToolDefinition, other: ToolCallRequest, otherDef: ToolDefinition)
    requires Plain(one, oneDef) && Plain(other, otherDef)
    ensures ClaimKey(one, oneDef).Some? <==> oneDef.idempotencyRequired && one.idempotencyKey.Some? && one.idempotencyKey.value != ""
    ensures ClaimKey(one, oneDef).Some? && ClaimKey(other, otherDef).Some? ==>
              (ClaimKey(one, oneDef) == ClaimKey(other, otherDef) <==>
                && one.tenantId == other.tenantId && oneDef.toolId == otherDef.toolId
                && ActionOf(one) == ActionOf(other) && one.idempotencyKey == other.idempotencyKey)
  {
    if ClaimKey(one, oneDef).Some? && ClaimKey(other, otherDef).Some? {
      KeyParts(one, oneDef);
      KeyParts(other, otherDef);
      if ClaimKey(one, oneDef) == ClaimKey(other, otherDef) {
        var a, b := ActionOf(one) + [':'] + one.idempotencyKey.value, ActionOf(other) + [':'] + other.idempotencyKey.value;
        var c, d := oneDef.toolId + [':'] + a, otherDef.toolId + [':'] + b;
        FirstSeparator(one.tenantId, "tool" + [':'] + c, other.tenantId, "tool" + [':'] + d, ':');
        FirstSeparator("tool", c, "tool", d, ':');
        FirstSeparator(oneDef.toolId, a, otherDef.toolId, b, ':');
        FirstSeparator(ActionOf(one), one.idempotencyKey.value, ActionOf(other), other.idempotencyKey.value, ':');
      }
    }
  }

  /** The claim is free: nobody has taken it, or whoever did has failed without submitting anything. */
  predicate Free(claims: map<string, Record>, key: string) {
    key !in claims
    || (claims[key].status == FailedClaim && claims[key].result.Some? && claims[key].result.value.submitted == false)
  }

  /** A call goes on to its attempts with a claim of its own, or without one when it takes none; it
      meets the existing record otherwise, and leaves it alone. */
  lemma TakeClaimExactly(w: World, c: CallerId, def: ToolDefinition)
    requires c in w.callers
    ensures var after, key := TakeClaim(w, c, def), ClaimKey(w.callers[c].request, def);
            && (key.None? ==> after.claims == w.claims && after.callers[c].pc == Starting(def))
            && (key.Some? && Free(w.claims, key.value) ==>
                  after.claims == w.claims[key.value := Record(None, ClaimStatus.Pending)] && after.callers[c].pc == Starting(def))
            && (key.Some? && !Free(w.claims, key.value) ==>
                  after.claims == w.claims && after.callers[c].pc == Rejecting(def, w.claims[key.value]))
            && after.invocations == w.invocations && after.attempts == w.attempts && after.calls == w.calls
  {
  }

  // ---- one attempt ----

  /** The status of what is neither a success nor in doubt. */
  predicate StatusByCode(code: Option<string>, status: CallStatus) {
    match status
    case Timeout => code == Some("TIMEOUT")
    case ValidationError => code == Some("VALIDATION_ERROR")
    case Unauthorized => code == Some("UNAUTHORIZED")
    case PolicyDenied => code == Some("POLICY_DENIED")
    case Failed => code.None? || code == Some("")
    case ProviderError =>
      code.Some? && code.value !in {"", "TIMEOUT", "VALIDATION_ERROR", "UNAUTHORIZED", "POLICY_DENIED"}
    case _ => false
  }

  predicate NoCode(code: Option<string>) {
    code.None? || code.value == ""
  }

  lemma StatusExactly(o: ProviderOutcome, threw: bool, status: CallStatus)
    ensures MapOutcomeStatus(o, threw) == status <==>
            if o.submitted && o.resultKnown && NoCode(o.errorCode) then status == Success
            else if o.submitted && (!o.resultKnown || threw) then status == OutcomeUnknown
            else StatusByCode(o.errorCode, status)
  {
  }

  /** An attempt that was no success, with some left, which the provider answered may be retried: for a
      tool with side effects, one that was not submitted. */
  predicate RetryAllowed(def: ToolDefinition, response: ProviderResponse, attempt: nat) {
    && response.Returned? && response.outcome.retryable
    && !(response.outcome.submitted && response.outcome.resultKnown && NoCode(response.outcome.errorCode))
    && (attempt < 1 || attempt < def.maxRetries + 1)
    && (def.sideEffectClass == ReadOnly || !response.outcome.submitted)
  }

  lemma RetryExactly(def: ToolDefinition, response: ProviderResponse, attempt: nat)
    ensures RetriesAfter(def, response, attempt) <==> RetryAllowed(def, response, attempt)
  {
  }

  /** An attempt is closed in the log; then the caller starts another one if it may, and otherwise
      completes its call. */
  lemma ClosingExactly(w: World, c: CallerId, input: Input)
    requires c in w.callers && w.callers[c].pc.Closing? && w.callers[c].attempt >= 1
    ensures var me, after := w.callers[c], Perform(w, Step(c, input));
            var record := (me.request.toolCallId, me.attempt);
            if !input.Tick? then after == w
            else
              && after.attempts == w.attempts[record := ClosedAttempt(me.pc.def, me.pc.response)]
              && after == w.(callers := after.callers, attempts := after.attempts)
              && after.callers == w.callers[c := me.(pc := after.callers[c].pc)]
              && (after.callers[c].pc == Starting(me.pc.def) <==> RetryAllowed(me.pc.def, me.pc.response, me.attempt))
              && (!RetryAllowed(me.pc.def, me.pc.response, me.attempt) ==>
                    after.callers[c].pc == Completing(me.pc.def, AttemptResult(me.request, me.pc.def, me.pc.response, me.attempt)))
  {
    RetryExactly(w.callers[c].pc.def, w.callers[c].pc.response, w.callers[c].attempt);
  }

  /** What the caller is told of an attempt that ends the call. */
  lemma ResultExactly(request: ToolCallRequest, def: ToolDefinition, response: ProviderResponse, attempt: nat)
    requires attempt >= 1
    ensures var r := AttemptResult(request, def, response, attempt);
            && r.toolCallId == request.toolCallId && r.retryCount == attempt - 1
            && r.status == MapOutcomeStatus(OutcomeOf(def, response), response.Threw?)
            && r.output == (if response.Returned? then response.outcome.output else None)
            && (r.status == Success ==> r.error.None?)
            && (r.status != Success && response.Threw? ==> r.error == Some(ErrorInfo("PROVIDER_EXCEPTION", false)))
            && (r.status != Success && response.Returned? ==>
                  r.error == Some(ErrorInfo(if response.outcome.errorCode.Some? then response.outcome.errorCode.value else "PROVIDER_ERROR",
                                            response.outcome.retryable)))
  {
  }

  /** A provider that throws is taken to have submitted the request, unless the tool only reads. */
  lemma ThrownExactly(def: ToolDefinition)
    ensures var o := OutcomeOf(def, Threw);
            (o.submitted <==> def.sideEffectClass != ReadOnly) && !o.resultKnown && !o.retryable && o.output.None?
    ensures MapOutcomeStatus(OutcomeOf(def, Threw), true) == if def.sideEffectClass == ReadOnly then ProviderError else OutcomeUnknown
  {
  }

  /** What the log says of a closed attempt. */
  lemma RecordExactly(def: ToolDefinition, response: ProviderResponse)
    ensures var record, status := ClosedAttempt(def, response), MapOutcomeStatus(OutcomeOf(def, response), response.Threw?);
            && (record.status == AttemptCompleted <==> status == Success)
            && (record.status == AttemptUnknown <==> status == OutcomeUnknown)
            && (record.status == AttemptFailed <==> status != Success && status != OutcomeUnknown)
            && record.submitted == Some(OutcomeOf(def, response).submitted)
            && record.resultKnown == Some(OutcomeOf(def, response).resultKnown)
            && record.retryable == Some(OutcomeOf(def, response).retryable)
  {
  }

  // ---- the end of a call ----

  /** The invocation of the call, closed with a status; a new error goes before an old one. */
  predicate Closed(w: World, after: World, id: string, status: CallStatus, error: Option<string>) {
    && id in w.invocations
    && after.invocations ==
       w.invocations[id := InvocationRecord(Finished(status), if error.Some? then error else w.invocations[id].error)]
  }

  predicate OthersStay(w: World, after: World) {
    after.claims == w.claims && after.attempts == w.attempts && after.calls == w.calls
  }

  /** The invocation is closed with the status and the error of the result; a call with a claim goes
      on to persist it. A call whose invocation is unknown stops. */
  lemma CompletionExactly(w: World, c: CallerId, def: ToolDefinition, result: ToolCallResult)
    requires c in w.callers
    ensures var after, request := CompleteInvocation(w, c, def, result), w.callers[c].request;
            && OthersStay(w, after)
            && (request.toolCallId !in w.invocations ==> after.callers[c].pc == Crashed && after.invocations == w.invocations)
            && (request.toolCallId in w.invocations ==>
                  && Closed(w, after, request.toolCallId, result.status, if result.error.Some? then Some(result.error.value.code) else None)
                  && after.callers[c].pc == (if ClaimKey(request, def).Some? then Persisting(def, result) else Accepting(def, result)))
  {
  }

  /** A result in doubt leaves its claim pending. Any other is stored with the claim, as completed
      exactly when it is a success, and as submitted unless its error says NOT_SUBMITTED. */
  lemma PersistExactly(w: World, c: CallerId, def: ToolDefinition, result: ToolCallResult)
    requires c in w.callers && ClaimKey(w.callers[c].request, def).Some?
    ensures var after, key := PersistOutcome(w, c, def, result), ClaimKey(w.callers[c].request, def).value;
            && after.callers[c].pc == Accepting(def, result)
            && after.invocations == w.invocations && after.attempts == w.attempts && after.calls == w.calls
            && (result.status == OutcomeUnknown ==> after.claims == w.claims)
            && (result.status != OutcomeUnknown ==>
                  after.claims == w.claims[key := Record(
                    Some(StoredOutcome(result.status == Success || result.error.None? || result.error.value.code != "NOT_SUBMITTED", result)),
                    if result.status == Success then Completed else FailedClaim)])
  {
  }

  /** A success whose output does not fit the schema is reported, and recorded, as a validation error;
      every other result is audited and returned as it is. */
  lemma AcceptanceExactly(w: World, c: CallerId, def: ToolDefinition, result: ToolCallResult, outputValid: bool)
    requires c in w.callers
    ensures var after, id := AcceptOutput(w, c, def, result, outputValid), w.callers[c].request.toolCallId;
            && OthersStay(w, after)
            && (result.status != Success || outputValid ==> after.invocations == w.invocations && after.callers[c].pc == Auditing(def, result))
            && (result.status == Success && !outputValid ==>
                  if id !in w.invocations then after.callers[c].pc == Crashed && after.invocations == w.invocations
                  else
                    && Closed(w, after, id, ValidationError, Some("OUTPUT_SCHEMA_VIOLATION"))
                    && after.callers[c].pc ==
                       Done(ToolCallResult(id, ValidationError, None, Some(ErrorInfo("OUTPUT_SCHEMA_VIOLATION", false)), result.retryCount)))
  {
  }

  /** A call that met a claim: a completed one is replayed under the call's own id, and its status
      recorded; any other is reported in doubt, and nothing is known of what became of it. */
  lemma RejectionExactly(w: World, c: CallerId, record: Record)
    requires c in w.callers
    ensures var after, id := RejectDuplicate(w, c, record), w.callers[c].request.toolCallId;
            && OthersStay(w, after)
            && (id !in w.invocations ==> after.callers[c].pc == Crashed && after.invocations == w.invocations)
            && (id in w.invocations && record.status == Completed && record.result.Some? ==>
                  var stored := record.result.value.callResult;
                  && Closed(w, after, id, stored.status, None)
                  && after.callers[c].pc == Done(ToolCallResult(id, stored.status, stored.output, stored.error, stored.retryCount)))
            && (id in w.invocations && !(record.status == Completed && record.result.Some?) ==>
                  && Closed(w, after, id, OutcomeUnknown, Some("DUPLICATE_IN_FLIGHT"))
                  && after.callers[c].pc ==
                     Done(ToolCallResult(id, OutcomeUnknown, None, Some(ErrorInfo("DUPLICATE_IN_FLIGHT", false)), 0)))
  {
  }

  // ---- answers ----

  /** Once the audit record is written the caller is answered with the result, and nothing else happens. */
  lemma AuditedIsAnswered(w: World, c: CallerId, input: Input)
    requires c in w.callers && w.callers[c].pc.Auditing?
    ensures var after := Perform(w, Step(c, input));
            after == if input.Tick? then w.(callers := w.callers[c := w.callers[c].(pc := Done(w.callers[c].pc.result))]) else w
  {
  }

  /** What a caller was answered is final: no action of anyone changes it. */
  lemma {:induction false} AnswersStay(w: World, actions: seq<Action>, c: CallerId)
    requires c in w.callers && w.callers[c].pc.Done?
    ensures c in Run(w, actions).callers && Run(w, actions).callers[c] == w.callers[c]
    decreases |actions|
  {
    if actions != [] { AnswersStay(Perform(w, actions[0]), actions[1..], c); }
  }
}
