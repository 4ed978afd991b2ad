/** Durable invocation and attempt records
    (packages/tool-gateway/src/in-memory-tool-invocation-repository.ts). The original
    keys attempts by the string `${toolCallId}#${attempt}`; Foundations.TaggedInjective
    shows that this string identifies the pair used here. */
module InvocationLog {
  import opened Foundations
  import opened ToolContract

  datatype InvocationStatus = InProgress | Finished(status: CallStatus)

  datatype InvocationRecord = InvocationRecord(status: InvocationStatus, error: Option<string>)

  datatype AttemptStatus = Started | AttemptCompleted | AttemptFailed | AttemptUnknown

  datatype AttemptRecord = AttemptRecord(
    status: AttemptStatus,
    submitted: Option<bool>,
    resultKnown: Option<bool>,
    retryable: Option<bool>)

  type AttemptKey = (string, nat)

  const OpenInvocation: InvocationRecord := InvocationRecord(InProgress, None)

  const OpenAttempt: AttemptRecord := AttemptRecord(Started, None, None, None)

  function Finish(r: InvocationRecord, status: CallStatus, error: Option<string>): InvocationRecord {
    InvocationRecord(Finished(status), if error.Some? then error else r.error)
  }

  class InMemoryToolInvocationRepository {
    var invocations: map<string, InvocationRecord>
    var attempts: map<AttemptKey, AttemptRecord>

    constructor ()
      ensures invocations == map[] && attempts == map[]
    {
      invocations, attempts := map[], map[];
    }

    method CreateInvocation(toolCallId: string)
      modifies this
      ensures invocations == old(invocations)[toolCallId := OpenInvocation]
      ensures attempts == old(attempts)
    {
      invocations := invocations[toolCallId := OpenInvocation];
    }

    /** `found` is false where the original throws. */
    method CompleteInvocation(toolCallId: string, status: CallStatus, error: Option<string>) returns (found: bool)
      modifies this
      ensures found == (toolCallId in old(invocations))
      ensures invocations == if found
              then old(invocations)[toolCallId := Finish(old(invocations)[toolCallId], status, error)]
              else old(invocations)
      ensures attempts == old(attempts)
    {
      found := toolCallId in invocations;
      if found {
        var inv := invocations[toolCallId].(status := Finished(status));
        if error.Some? {
          inv := inv.(error := error);
        }
        invocations := invocations[toolCallId := inv];
      }
    }

    method CreateAttempt(toolCallId: string, attempt: nat)
      modifies this
      ensures attempts == old(attempts)[(toolCallId, attempt) := OpenAttempt]
      ensures invocations == old(invocations)
    {
      attempts := attempts[(toolCallId, attempt) := OpenAttempt];
    }

    method CompleteAttempt(toolCallId: string, attempt: nat, update: AttemptRecord) returns (found: bool)
      modifies this
      ensures found == ((toolCallId, attempt) in old(attempts))
      ensures attempts == if found then old(attempts)[(toolCallId, attempt) := update] else old(attempts)
      ensures invocations == old(invocations)
    {
      found := (toolCallId, attempt) in attempts;
      if found {
        attempts := attempts[(toolCallId, attempt) := update];
      }
    }
  }
}
