/** The gateway's decisions and its single-authority retry loop
    (packages/tool-gateway/src/tool-gateway.ts). */
module ToolGateway {
  import opened Foundations
  import opened ToolContract
  import opened InvocationLog

  const NOT_SUBMITTED := "NOT_SUBMITTED"

  function OutcomeOf(def: ToolDefinition, response: ProviderResponse): ProviderOutcome {
    match response
    case Returned(o) => o
    case Threw =>
      ProviderOutcome(def.sideEffectClass != ReadOnly, false, false, None, Some("PROVIDER_EXCEPTION"))
  }

  function MapOutcomeStatus(o: ProviderOutcome, threw: bool): CallStatus {
    if o.resultKnown && o.submitted && !Given(o.errorCode) then Success
    else if o.submitted && !o.resultKnown then OutcomeUnknown
    else if threw && o.submitted then OutcomeUnknown
    else if o.errorCode == Some("TIMEOUT") then Timeout
    else if o.errorCode == Some("VALIDATION_ERROR") then ValidationError
    else if o.errorCode == Some("UNAUTHORIZED") then Unauthorized
    else if o.errorCode == Some("POLICY_DENIED") then PolicyDenied
    else if Given(o.errorCode) then ProviderError else Failed
  }

  /** What a status says about the submission: success and "unknown" are claimed of submitted
      requests only, and everything else is definite or was not submitted. */
  lemma StatusTellsSubmission(o: ProviderOutcome, threw: bool)
    ensures var status := MapOutcomeStatus(o, threw);
            && (status == Success <==> o.submitted && o.resultKnown && !Given(o.errorCode))
            && (status == OutcomeUnknown <==> o.submitted && (!o.resultKnown || (threw && Given(o.errorCode))))
            && (status == Failed <==> !o.submitted && !Given(o.errorCode))
            && (status == Timeout ==> o.errorCode == Some("TIMEOUT"))
  {
  }

  function StatusOf(def: ToolDefinition, response: ProviderResponse): CallStatus {
    MapOutcomeStatus(OutcomeOf(def, response), response.Threw?)
  }

  function MaxAttempts(def: ToolDefinition): nat {
    Max(1, def.maxRetries + 1)
  }

  predicate CanRetry(o: ProviderOutcome, def: ToolDefinition, attempt: nat, maxAttempts: nat) {
    && attempt < maxAttempts
    && o.retryable
    && (def.sideEffectClass == ReadOnly || !o.submitted)
  }

  function BuildResult(request: ToolCallRequest, status: CallStatus, error: ErrorInfo, retryCount: nat, output: Option<string>): ToolCallResult {
    ToolCallResult(request.toolCallId, status, output, if status == Success then None else Some(error), retryCount)
  }

  /** The result built after the given attempt. */
  function AttemptResult(request: ToolCallRequest, def: ToolDefinition, response: ProviderResponse, attempt: nat): ToolCallResult
    requires attempt >= 1
  {
    var o := OutcomeOf(def, response);
    var status := StatusOf(def, response);
    var code := if o.errorCode.Some? then o.errorCode.value else if status == Success then "OK" else "PROVIDER_ERROR";
    BuildResult(request, status, ErrorInfo(code, o.retryable), attempt - 1, o.output)
  }

  function ClosedAttempt(def: ToolDefinition, response: ProviderResponse): AttemptRecord {
    var o := OutcomeOf(def, response);
    var status := StatusOf(def, response);
    AttemptRecord(
      if status == OutcomeUnknown then AttemptUnknown else if status == Success then AttemptCompleted else AttemptFailed,
      Some(o.submitted), Some(o.resultKnown), Some(o.retryable))
  }

  /** The loop goes on after this attempt. */
  predicate RetriesAfter(def: ToolDefinition, response: ProviderResponse, attempt: nat) {
    StatusOf(def, response) != Success && CanRetry(OutcomeOf(def, response), def, attempt, MaxAttempts(def))
  }

  /** `submitted` as it is stored with the claim (tool-gateway.ts:393). */
  predicate StoredSubmitted(result: ToolCallResult) {
    result.status == Success || result.error.None? || result.error.value.code != NOT_SUBMITTED
  }

  /** Persisting this result would leave a claim that somebody may claim again. */
  predicate LeavesReclaimable(result: ToolCallResult) {
    result.status != OutcomeUnknown && !StoredSubmitted(result)
  }

  /** What a provider must not report: a definite, submitted outcome labelled "not submitted". */
  predicate Misreported(o: ProviderOutcome) {
    o.submitted && o.resultKnown && o.errorCode == Some(NOT_SUBMITTED)
  }

  /** A side-effecting attempt that may have been submitted leaves a reclaimable
      claim exactly when its provider misreported it. */
  lemma ReclaimableAfterSubmission(request: ToolCallRequest, def: ToolDefinition, response: ProviderResponse, attempt: nat)
    requires attempt >= 1 && def.sideEffectClass != ReadOnly
    requires OutcomeOf(def, response).submitted
    ensures LeavesReclaimable(AttemptResult(request, def, response, attempt)) <==>
            response.Returned? && Misreported(response.outcome)
    ensures !RetriesAfter(def, response, attempt)
  {
    assert response.Threw? ==> StatusOf(def, response) == OutcomeUnknown;
  }

  /** The log after attempts 1..n have been closed one after the other. */
  function WithClosedAttempts(attempts: map<AttemptKey, AttemptRecord>, id: string, def: ToolDefinition,
                              provider: nat -> ProviderResponse, n: nat): map<AttemptKey, AttemptRecord>
  {
    if n == 0 then attempts
    else WithClosedAttempts(attempts, id, def, provider, n - 1)[(id, n) := ClosedAttempt(def, provider(n))]
  }

  lemma {:induction false} ClosedAttemptsAre1ToN(attempts: map<AttemptKey, AttemptRecord>, id: string, def: ToolDefinition,
                                                provider: nat -> ProviderResponse, n: nat)
    ensures var log := WithClosedAttempts(attempts, id, def, provider, n);
            forall key: AttemptKey ::
              if key.0 == id && 1 <= key.1 <= n then key in log && log[key] == ClosedAttempt(def, provider(key.1))
              else (key in log <==> key in attempts) && (key in attempts ==> log[key] == attempts[key])
  {
    if n > 0 {
      ClosedAttemptsAre1ToN(attempts, id, def, provider, n - 1);
    }
  }

  /** The retry loop of one call, against a provider that answers attempt k with
      `provider(k)`. The repository is left with closed records 1..n for the n
      attempts made; every attempt but the last was allowed to be retried, the last
      was not, and `retryCount` is n - 1. */
  method ExecuteWithRetry(log: InMemoryToolInvocationRepository, request: ToolCallRequest, def: ToolDefinition,
                          provider: nat -> ProviderResponse)
    returns (final: ToolCallResult, n: nat)
    requires request.toolCallId in log.invocations
    modifies log
    ensures 1 <= n <= MaxAttempts(def)
    ensures forall k :: 1 <= k < n ==> RetriesAfter(def, provider(k), k)
    ensures !RetriesAfter(def, provider(n), n)
    ensures final == AttemptResult(request, def, provider(n), n) && final.retryCount == n - 1
    ensures log.attempts == WithClosedAttempts(old(log.attempts), request.toolCallId, def, provider, n)
    ensures log.invocations == old(log.invocations)[request.toolCallId :=
      Finish(old(log.invocations)[request.toolCallId], final.status,
             if final.error.Some? then Some(final.error.value.code) else None)]
  {
    var maxAttempts := MaxAttempts(def);
    var id := request.toolCallId;
    ghost var before := log.attempts;
    var last: Option<ToolCallResult> := None;
    n := 0;
    var stop := false;
    while n < maxAttempts && !stop
      invariant 0 <= n <= maxAttempts
      invariant stop ==> n >= 1
      invariant forall k :: 1 <= k < n ==> RetriesAfter(def, provider(k), k)
      invariant n >= 1 ==> stop == !RetriesAfter(def, provider(n), n)
      invariant n >= 1 ==> last == Some(AttemptResult(request, def, provider(n), n))
      invariant log.attempts == WithClosedAttempts(before, id, def, provider, n)
      invariant log.invocations == old(log.invocations)
    {
      n := n + 1;
      ghost var open := log.attempts;
      log.CreateAttempt(id, n);
      var response := provider(n);
      var outcome := OutcomeOf(def, response);
      var status := MapOutcomeStatus(outcome, response.Threw?);
      var recorded := log.CompleteAttempt(id, n, ClosedAttempt(def, response));
      assert open[(id, n) := OpenAttempt][(id, n) := ClosedAttempt(def, response)] == open[(id, n) := ClosedAttempt(def, response)];
      last := Some(AttemptResult(request, def, response, n));
      stop := status == Success || !CanRetry(outcome, def, n, maxAttempts);
    }
    // The loop body runs at least once, so the original's "no attempt executed" result is never built.
    final := last.value;
    var found := log.CompleteInvocation(id, final.status, if final.error.Some? then Some(final.error.value.code) else None);
  }

  /** A side-effecting call is retried only after attempts that provably submitted nothing. */
  lemma EarlierAttemptsSubmittedNothing(def: ToolDefinition, provider: nat -> ProviderResponse, n: nat)
    requires def.sideEffectClass != ReadOnly
    requires forall k :: 1 <= k < n ==> RetriesAfter(def, provider(k), k)
    ensures forall k :: 1 <= k < n ==> provider(k).Returned? && !provider(k).outcome.submitted && provider(k).outcome.retryable
  {
    forall k | 1 <= k < n
      ensures provider(k).Returned? && !provider(k).outcome.submitted && provider(k).outcome.retryable
    {
      assert RetriesAfter(def, provider(k), k);
    }
  }
}
