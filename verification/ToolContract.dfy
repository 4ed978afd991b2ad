/** Records exchanged between agents, the tool gateway and tool providers
    (packages/shared/src/contracts/tool-contract.ts). */
module ToolContract {
  import opened Foundations

  datatype SideEffectClass = ReadOnly | ReversibleWrite | IrreversibleExternal

  datatype Lifecycle = Draft | Active | Deprecated | Retired

  datatype CallStatus =
    | Success | ValidationError | ProviderError | Timeout
    | Unauthorized | PolicyDenied | OutcomeUnknown | Failed

  /** `details` stands for the contract fields no modelled decision reads
      (description, schemas, risk, cost, configuration). */
  datatype ToolDefinition = ToolDefinition(
    toolDefinitionId: string,
    toolId: string,
    version: string,
    tenantId: Option<string>,
    requiredCapabilities: seq<string>,
    sideEffectClass: SideEffectClass,
    requiredApproval: bool,
    providerId: string,
    enabled: bool,
    maxRetries: int,
    idempotencyRequired: bool,
    lifecycle: Lifecycle,
    details: string)

  datatype ToolCallRequest = ToolCallRequest(
    toolCallId: string,
    tenantId: string,
    idempotencyKey: Option<string>,
    action: Option<string>)

  datatype ErrorInfo = ErrorInfo(code: string, retryable: bool)

  datatype ToolCallResult = ToolCallResult(
    toolCallId: string,
    status: CallStatus,
    output: Option<string>,
    error: Option<ErrorInfo>,
    retryCount: nat)

  /** What a provider reports; `submitted` and `resultKnown` carry submission certainty. */
  datatype ProviderOutcome = ProviderOutcome(
    submitted: bool,
    resultKnown: bool,
    retryable: bool,
    output: Option<string>,
    errorCode: Option<string>)

  datatype ProviderResponse = Returned(outcome: ProviderOutcome) | Threw

  /** Result of resolving a tool reference (tool-registry.interface.ts). */
  datatype ToolResolution =
    | Resolved(definition: ToolDefinition)
    | NotFound
    | ShadowedByTenant
    | NotExecutable
    | VersionRequired
    | Ambiguous

  /** Payload kept with an idempotency claim. */
  datatype StoredOutcome = StoredOutcome(submitted: bool, callResult: ToolCallResult)
}
