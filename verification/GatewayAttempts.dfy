/** What the attempt log says at every crash point, in every interleaving
    (tool-gateway.ts:248-342, in-memory-tool-invocation-repository.ts:31-46). The log is
    keyed by tool call id, so a statement about one caller asks that nobody else uses its id. */
module GatewayAttempts {
  import opened Foundations
  import opened ToolContract
  import opened IdempotencyStore
  import opened InvocationLog
  import opened ToolGateway
  import opened GatewayProtocol

  function UpTo(n: nat): seq<nat> {
    seq(n, i => i + 1)
  }

  /** Attempt numbers of the provider calls caller c has made, in order. */
  function Dispatched(calls: seq<ProviderCall>, c: CallerId): seq<nat> {
    if calls == [] then []
    else
      var last := calls[|calls| - 1];
      Dispatched(calls[..|calls| - 1], c) + if last.caller == c then [last.attempt] else []
  }

  lemma DispatchedAppend(calls: seq<ProviderCall>, call: ProviderCall, c: CallerId)
    ensures Dispatched(calls + [call], c) == Dispatched(calls, c) + if call.caller == c then [call.attempt] else []
  {
    assert (calls + [call])[..|calls|] == calls;
  }

  lemma {:induction false} DispatchedIgnoresFate(calls: seq<ProviderCall>, i: nat, fate: Fate, c: CallerId)
    requires i < |calls|
    ensures Dispatched(calls[i := calls[i].(fate := fate)], c) == Dispatched(calls, c)
  {
    var last := |calls| - 1;
    var changed := calls[i := calls[i].(fate := fate)];
    if i < last {
      assert changed[..last] == calls[..last][i := calls[..last][i].(fate := fate)];
      DispatchedIgnoresFate(calls[..last], i, fate, c);
    } else {
      assert changed[..last] == calls[..last];
    }
  }

  ghost predicate Sole(w: World, c: CallerId)
    requires c in w.callers
  {
    forall d :: d in w.callers && d != c ==> w.callers[d].request.toolCallId != w.callers[c].request.toolCallId
  }

  /** Calls are numbered 1, 2, ... and at most the latest record has no call yet. */
  ghost predicate Numbering(w: World, c: CallerId)
    requires c in w.callers
  {
    var d, n, pc := Dispatched(w.calls, c), w.callers[c].attempt, w.callers[c].pc;
    && d == UpTo(|d|)
    && |d| <= n <= |d| + 1
    && (|d| < n ==> pc.Dispatching? || pc.Crashed?)
    && (pc.Dispatching? ==> |d| < n)
    && (PastBoundary(pc) ==> n >= 1)
  }

  /** The record of a provider call that was followed by another attempt: it is closed
      with what the provider answered, and that answer allowed the retry. */
  ghost predicate ClosedAndRetried(w: World, id: string, call: ProviderCall) {
    && call.fate.Answered?
    && (id, call.attempt) in w.attempts
    && w.attempts[(id, call.attempt)] == ClosedAttempt(call.def, call.fate.response)
    && RetriesAfter(call.def, call.fate.response, call.attempt)
  }

  ghost predicate LastRecord(w: World, id: string, call: ProviderCall) {
    && (id, call.attempt) in w.attempts
    && (w.attempts[(id, call.attempt)] == OpenAttempt ||
        (call.fate.Answered? && w.attempts[(id, call.attempt)] == ClosedAttempt(call.def, call.fate.response)))
  }

  ghost predicate Recorded(w: World, c: CallerId, i: nat)
    requires c in w.callers && i < |w.calls|
  {
    var me, call := w.callers[c], w.calls[i];
    && 1 <= call.attempt <= me.attempt
    && (call.attempt < me.attempt || me.pc.Starting? ==> ClosedAndRetried(w, me.request.toolCallId, call))
    && (call.attempt == me.attempt ==> LastRecord(w, me.request.toolCallId, call))
  }

  /** The attempt records of caller c, where nobody else uses its call id. */
  ghost predicate LogOf(w: World, c: CallerId)
    requires c in w.callers
  {
    var me := w.callers[c];
    var id := me.request.toolCallId;
    && (forall k: nat :: (id, k) in w.attempts <==> 1 <= k <= me.attempt)
    && (|Dispatched(w.calls, c)| < me.attempt ==> w.attempts[(id, me.attempt)] == OpenAttempt)
    && (forall i :: 0 <= i < |w.calls| && w.calls[i].caller == c ==> Recorded(w, c, i))
  }

  /** The caller's latest call, and its definition, as its program counter remembers them. */
  ghost predicate Remembers(w: World, c: CallerId)
    requires c in w.callers
  {
    var me := w.callers[c];
    match me.pc
    case InFlight(def) => Latest(w, c, def, Fate.Pending)
    case Closing(def, r) => Latest(w, c, def, Answered(r))
    case _ => true
  }

  ghost predicate Latest(w: World, c: CallerId, def: ToolDefinition, fate: Fate)
    requires c in w.callers
  {
    var me := w.callers[c];
    && me.call.Some? && me.call.value < |w.calls|
    && var call := w.calls[me.call.value];
       call.caller == c && call.attempt == me.attempt && call.def == def && call.fate == fate
  }

  /** Each caller makes one call per attempt, always for the same tool. */
  ghost predicate OneCallPerAttempt(w: World) {
    forall i, j :: 0 <= i < j < |w.calls| && w.calls[i].caller == w.calls[j].caller ==>
      w.calls[i].attempt < w.calls[j].attempt && w.calls[i].def == w.calls[j].def
  }

  function ToolOf(pc: Pc): Option<ToolDefinition> {
    match pc
    case Starting(def) => Some(def)
    case Dispatching(def) => Some(def)
    case InFlight(def) => Some(def)
    case Closing(def, _) => Some(def)
    case _ => None
  }

  ghost predicate CallsAreOwned(w: World) {
    forall i :: 0 <= i < |w.calls| ==>
      w.calls[i].caller in w.callers && 1 <= w.calls[i].attempt <= w.callers[w.calls[i].caller].attempt &&
      (w.callers[w.calls[i].caller].pc.Dispatching? ==> w.calls[i].attempt < w.callers[w.calls[i].caller].attempt) &&
      ToolOf(w.callers[w.calls[i].caller].pc) in {None, Some(w.calls[i].def)}
  }

  ghost predicate AttemptsAreOwned(w: World) {
    forall key: AttemptKey :: key in w.attempts ==> exists d :: d in w.callers && w.callers[d].request.toolCallId == key.0
  }

  ghost predicate RetryCounted(me: Caller) {
    match me.pc
    case Completing(_, result) => me.attempt >= 1 && result.retryCount == me.attempt - 1
    case Persisting(_, result) => me.attempt >= 1 && result.retryCount == me.attempt - 1
    case Accepting(_, result) => me.attempt >= 1 && result.retryCount == me.attempt - 1
    case Auditing(_, result) => me.attempt >= 1 && result.retryCount == me.attempt - 1
    case Done(result) => me.attempt >= 1 ==> result.retryCount == me.attempt - 1
    case Starting(_) => true
    case Dispatching(_) => true
    case InFlight(_) => true
    case Closing(_, _) => true
    case Crashed => true
    case _ => me.attempt == 0
  }

  ghost predicate CallerInv(w: World, c: CallerId)
    requires c in w.callers
  {
    Numbering(w, c) && Remembers(w, c) && RetryCounted(w.callers[c]) && (Sole(w, c) ==> LogOf(w, c))
  }

  ghost predicate HistoryInv(w: World) {
    OneCallPerAttempt(w) && CallsAreOwned(w) && AttemptsAreOwned(w)
  }

  ghost predicate AttemptInv(w: World) {
    HistoryInv(w) && forall c :: c in w.callers ==> CallerInv(w, c)
  }

  // ---- preservation ----

  /** What a step of caller c leaves alone about the others. */
  ghost predicate LeavesOthers(w: World, w': World, c: CallerId) {
    && c in w'.callers && w'.callers == w.callers[c := w'.callers[c]]
    && |w.calls| <= |w'.calls|
    && (forall i :: 0 <= i < |w.calls| && w.calls[i].caller != c ==> w'.calls[i] == w.calls[i])
    && (forall i :: 0 <= i < |w.calls| ==> w'.calls[i].caller == w.calls[i].caller)
    && (forall i :: |w.calls| <= i < |w'.calls| ==> w'.calls[i].caller == c)
    && (forall d :: d != c ==> Dispatched(w'.calls, d) == Dispatched(w.calls, d))
    && (forall key: AttemptKey :: key.0 != w'.callers[c].request.toolCallId ==>
          (key in w'.attempts <==> key in w.attempts) && (key in w.attempts ==> w'.attempts[key] == w.attempts[key]))
    && (c in w.callers ==> w'.callers[c].request == w.callers[c].request)
  }

  lemma OthersKeepInv(w: World, w': World, c: CallerId, d: CallerId)
    requires LeavesOthers(w, w', c)
    requires d in w.callers && d != c && CallerInv(w, d)
    ensures CallerInv(w', d)
  {
    if Sole(w', d) {
      assert w'.callers[c].request.toolCallId != w'.callers[d].request.toolCallId;
      forall e | e in w.callers && e != d
        ensures w.callers[e].request.toolCallId != w.callers[d].request.toolCallId
      {
        assert e in w'.callers;
      }
      assert LogOf(w, d);
      var id := w.callers[d].request.toolCallId;
      assert forall k: nat :: (id, k) in w'.attempts <==> (id, k) in w.attempts;
      forall i | 0 <= i < |w'.calls| && w'.calls[i].caller == d ensures Recorded(w', d, i) {
        assert i < |w.calls| && w'.calls[i] == w.calls[i] && Recorded(w, d, i);
      }
    }
  }

  lemma SoleBefore(w: World, w': World, c: CallerId)
    requires c in w.callers && c in w'.callers && w'.callers == w.callers[c := w'.callers[c]]
    requires w'.callers[c].request == w.callers[c].request
    ensures Sole(w', c) ==> Sole(w, c)
  {
    if Sole(w', c) {
      forall e | e in w.callers && e != c ensures w.callers[e].request.toolCallId != w.callers[c].request.toolCallId {
        assert e in w'.callers;
      }
    }
  }

  /** A step keeps everything once it keeps the history and its own caller's part. */
  lemma Assemble(w: World, w': World, c: CallerId)
    requires forall d :: d in w.callers ==> CallerInv(w, d)
    requires LeavesOthers(w, w', c)
    requires HistoryInv(w') && CallerInv(w', c)
    ensures AttemptInv(w')
  {
    forall d | d in w'.callers ensures CallerInv(w', d) {
      if d != c { OthersKeepInv(w, w', c, d); }
    }
  }

  lemma AttemptsStayOwned(w: World, w': World, c: CallerId)
    requires AttemptsAreOwned(w)
    requires c in w'.callers && w'.callers == w.callers[c := w'.callers[c]]
    requires c in w.callers ==> w'.callers[c].request == w.callers[c].request
    requires forall key: AttemptKey :: key in w'.attempts ==> key in w.attempts || key.0 == w'.callers[c].request.toolCallId
    ensures AttemptsAreOwned(w')
  {
    forall key: AttemptKey | key in w'.attempts
      ensures exists d :: d in w'.callers && w'.callers[d].request.toolCallId == key.0
    {
      if key.0 == w'.callers[c].request.toolCallId {
      } else {
        var d :| d in w.callers && w.callers[d].request.toolCallId == key.0;
        assert w'.callers[d].request.toolCallId == key.0;
      }
    }
  }

  // A caller that moves on without touching calls or attempt records.

  ghost predicate Quiet(me: Caller, me': Caller) {
    && me'.request == me.request && me'.attempt == me.attempt
    && !me'.pc.Dispatching? && !me'.pc.InFlight? && !me'.pc.Closing?
    && RetryCounted(me')
    && (if me'.pc.Starting? then me.attempt == 0 else me'.pc.Crashed? || !me.pc.Dispatching?)
    && (PastBoundary(me'.pc) ==> me.attempt >= 1)
    && (me.pc.Crashed? ==> me'.pc.Crashed?)
  }

  lemma QuietStepKeepsAttempts(w: World, w': World, c: CallerId)
    requires AttemptInv(w) && c in w.callers
    requires c in w'.callers && w'.callers == w.callers[c := w'.callers[c]]
    requires w'.calls == w.calls && w'.attempts == w.attempts
    requires Quiet(w.callers[c], w'.callers[c])
    ensures AttemptInv(w')
  {
    AttemptsStayOwned(w, w', c);
    QuietCallerKeepsInv(w, w', c);
    Assemble(w, w', c);
  }

  lemma QuietCallerKeepsInv(w: World, w': World, c: CallerId)
    requires c in w.callers && CallerInv(w, c) && CallsAreOwned(w)
    requires c in w'.callers && w'.callers == w.callers[c := w'.callers[c]]
    requires w'.calls == w.calls && w'.attempts == w.attempts
    requires Quiet(w.callers[c], w'.callers[c])
    ensures CallerInv(w', c) && CallsAreOwned(w')
  {
    SoleBefore(w, w', c);
    if Sole(w', c) {
      forall i | 0 <= i < |w'.calls| && w'.calls[i].caller == c ensures Recorded(w', c, i) {
        assert Recorded(w, c, i);
      }
    }
  }

  lemma {:induction false} NoCallsNothingDispatched(calls: seq<ProviderCall>, c: CallerId)
    requires forall i :: 0 <= i < |calls| ==> calls[i].caller != c
    ensures Dispatched(calls, c) == []
  {
    if calls != [] {
      NoCallsNothingDispatched(calls[..|calls| - 1], c);
    }
  }

  lemma NewcomerInv(w: World, w': World, c: CallerId, request: ToolCallRequest)
    requires HistoryInv(w) && c !in w.callers
    requires w' == w.(callers := w.callers[c := Caller(request, Resolving, 0, None)])
    ensures CallerInv(w', c)
  {
    NoCallsNothingDispatched(w.calls, c);
    if Sole(w', c) {
      forall key: AttemptKey | key in w.attempts ensures key.0 != request.toolCallId {
        var d :| d in w.callers && w.callers[d].request.toolCallId == key.0;
        assert d in w'.callers && d != c;
      }
    }
  }

  lemma ArrivalKeepsAttempts(w: World, c: CallerId, request: ToolCallRequest)
    requires AttemptInv(w) && c !in w.callers
    ensures AttemptInv(Perform(w, Arrive(c, request)))
  {
    var w' := Perform(w, Arrive(c, request));
    NewcomerInv(w, w', c, request);
    AttemptsStayOwned(w, w', c);
    Assemble(w, w', c);
  }

  lemma StarterInv(w: World, c: CallerId, def: ToolDefinition)
    requires c in w.callers && CallerInv(w, c) && w.callers[c].pc == Starting(def)
    ensures CallerInv(StartAttempt(w, c, def), c)
  {
    var w' := StartAttempt(w, c, def);
    SoleBefore(w, w', c);
    if Sole(w', c) {
      forall i | 0 <= i < |w'.calls| && w'.calls[i].caller == c ensures Recorded(w', c, i) {
        assert Recorded(w, c, i);
      }
    }
  }

  lemma StartKeepsHistory(w: World, c: CallerId, def: ToolDefinition)
    requires HistoryInv(w) && c in w.callers && w.callers[c].pc == Starting(def)
    ensures HistoryInv(StartAttempt(w, c, def))
  {
    AttemptsStayOwned(w, StartAttempt(w, c, def), c);
  }

  lemma StartKeepsAttempts(w: World, c: CallerId, def: ToolDefinition)
    requires AttemptInv(w) && c in w.callers && w.callers[c].pc == Starting(def)
    ensures AttemptInv(StartAttempt(w, c, def))
  {
    StarterInv(w, c, def);
    StartKeepsHistory(w, c, def);
    Assemble(w, StartAttempt(w, c, def), c);
  }

  lemma DispatcherInv(w: World, c: CallerId, def: ToolDefinition)
    requires c in w.callers && CallerInv(w, c) && w.callers[c].pc == Dispatching(def)
    ensures CallerInv(Dispatch(w, c, def), c)
  {
    var w' := Dispatch(w, c, def);
    DispatchedAppend(w.calls, w'.calls[|w.calls|], c);
    var n := w.callers[c].attempt;
    assert UpTo(n) == UpTo(n - 1) + [n];
    SoleBefore(w, w', c);
    if Sole(w', c) {
      forall i | 0 <= i < |w'.calls| && w'.calls[i].caller == c ensures Recorded(w', c, i) {
        if i < |w.calls| { assert Recorded(w, c, i); }
      }
    }
  }

  lemma DispatchKeepsHistory(w: World, c: CallerId, def: ToolDefinition)
    requires HistoryInv(w) && c in w.callers && w.callers[c].pc == Dispatching(def)
    requires w.callers[c].attempt >= 1
    ensures HistoryInv(Dispatch(w, c, def))
  {
    AttemptsStayOwned(w, Dispatch(w, c, def), c);
  }

  lemma DispatchKeepsAttempts(w: World, c: CallerId, def: ToolDefinition)
    requires AttemptInv(w) && c in w.callers && w.callers[c].pc == Dispatching(def)
    ensures AttemptInv(Dispatch(w, c, def))
  {
    var w' := Dispatch(w, c, def);
    assert CallerInv(w, c);
    forall d | d != c ensures Dispatched(w'.calls, d) == Dispatched(w.calls, d) {
      DispatchedAppend(w.calls, w'.calls[|w.calls|], d);
    }
    DispatcherInv(w, c, def);
    DispatchKeepsHistory(w, c, def);
    Assemble(w, w', c);
  }

  lemma ReceiverInv(w: World, c: CallerId, def: ToolDefinition, r: ProviderResponse)
    requires c in w.callers && CallerInv(w, c) && w.callers[c].pc == InFlight(def)
    ensures CallerInv(ReceiveResponse(w, c, def, r), c)
  {
    var w' := ReceiveResponse(w, c, def, r);
    DispatchedIgnoresFate(w.calls, w.callers[c].call.value, Answered(r), c);
    SoleBefore(w, w', c);
    if Sole(w', c) {
      forall i | 0 <= i < |w'.calls| && w'.calls[i].caller == c ensures Recorded(w', c, i) {
        assert Recorded(w, c, i);
      }
    }
  }

  lemma ResponseKeepsHistory(w: World, c: CallerId, def: ToolDefinition, r: ProviderResponse)
    requires HistoryInv(w) && c in w.callers && w.callers[c].pc == InFlight(def) && Remembers(w, c)
    ensures HistoryInv(ReceiveResponse(w, c, def, r))
  {
    AttemptsStayOwned(w, ReceiveResponse(w, c, def, r), c);
  }

  lemma ResponseKeepsAttempts(w: World, c: CallerId, def: ToolDefinition, r: ProviderResponse)
    requires AttemptInv(w) && c in w.callers && w.callers[c].pc == InFlight(def)
    ensures AttemptInv(ReceiveResponse(w, c, def, r))
  {
    var w' := ReceiveResponse(w, c, def, r);
    assert CallerInv(w, c);
    forall d ensures Dispatched(w'.calls, d) == Dispatched(w.calls, d) {
      DispatchedIgnoresFate(w.calls, w.callers[c].call.value, Answered(r), d);
    }
    ReceiverInv(w, c, def, r);
    ResponseKeepsHistory(w, c, def, r);
    Assemble(w, w', c);
  }

  lemma CloserInv(w: World, c: CallerId, def: ToolDefinition, r: ProviderResponse)
    requires c in w.callers && CallerInv(w, c) && w.callers[c].pc == Closing(def, r)
    requires OneCallPerAttempt(w)
    ensures CallerInv(CloseAttempt(w, c, def, r), c)
  {
    var w' := CloseAttempt(w, c, def, r);
    var mine := w.callers[c].call.value;
    SoleBefore(w, w', c);
    if Sole(w', c) {
      forall i | 0 <= i < |w'.calls| && w'.calls[i].caller == c ensures Recorded(w', c, i) {
        assert Recorded(w, c, i);
        if i < mine { assert w.calls[i].attempt < w.calls[mine].attempt; }
      }
    }
  }

  lemma CloseKeepsHistory(w: World, c: CallerId, def: ToolDefinition, r: ProviderResponse)
    requires HistoryInv(w) && c in w.callers && w.callers[c].pc == Closing(def, r)
    ensures HistoryInv(CloseAttempt(w, c, def, r))
  {
    AttemptsStayOwned(w, CloseAttempt(w, c, def, r), c);
  }

  lemma CloseKeepsAttempts(w: World, c: CallerId, def: ToolDefinition, r: ProviderResponse)
    requires AttemptInv(w) && c in w.callers && w.callers[c].pc == Closing(def, r)
    ensures AttemptInv(CloseAttempt(w, c, def, r))
  {
    var w' := CloseAttempt(w, c, def, r);
    CloserInv(w, c, def, r);
    CloseKeepsHistory(w, c, def, r);
    Assemble(w, w', c);
  }

  predicate Governed(pc: Pc) {
    pc.Resolving? || pc.Authorizing? || pc.Preflighting? || pc.AwaitingReadiness?
  }

  lemma GovernanceGoesOnOrRefuses(request: ToolCallRequest, pc: Pc, input: Input)
    requires Governed(pc)
    ensures var pc' := AfterGovernance(request, pc, input); Governed(pc') || pc'.Recording? || pc'.Done?
  {
  }

  /** The remaining steps are quiet. */
  lemma GovernanceIsQuiet(w: World, c: CallerId, input: Input)
    requires c in w.callers && RetryCounted(w.callers[c]) && Governed(w.callers[c].pc)
    ensures var w' := StepCaller(w, c, input);
            w'.calls == w.calls && w'.attempts == w.attempts && Quiet(w.callers[c], w'.callers[c])
  {
    var me := w.callers[c];
    GovernanceGoesOnOrRefuses(me.request, me.pc, input);
    assert StepCaller(w, c, input) == Move(w, c, AfterGovernance(me.request, me.pc, input));
  }

  /** From the one world to the other, the caller makes a quiet step. */
  ghost predicate QuietStep(w: World, w': World, c: CallerId)
    requires c in w.callers && c in w'.callers
  {
    w'.calls == w.calls && w'.attempts == w.attempts && Quiet(w.callers[c], w'.callers[c])
  }

  lemma ClaimingIsQuiet(w: World, c: CallerId, def: ToolDefinition)
    requires c in w.callers && RetryCounted(w.callers[c]) && w.callers[c].pc == Claiming(def)
    ensures QuietStep(w, TakeClaim(w, c, def), c)
  {
  }

  lemma RecordingIsQuiet(w: World, c: CallerId, def: ToolDefinition, input: Input)
    requires c in w.callers && RetryCounted(w.callers[c]) && w.callers[c].pc == Recording(def) && input.Tick?
    ensures QuietStep(w, StepCaller(w, c, input), c)
  {
  }

  lemma RejectingIsQuiet(w: World, c: CallerId, def: ToolDefinition, record: Record)
    requires c in w.callers && RetryCounted(w.callers[c]) && w.callers[c].pc == Rejecting(def, record)
    ensures QuietStep(w, RejectDuplicate(w, c, record), c)
  {
  }

  lemma CompletingIsQuiet(w: World, c: CallerId, def: ToolDefinition, result: ToolCallResult)
    requires c in w.callers && RetryCounted(w.callers[c]) && w.callers[c].pc == Completing(def, result)
    ensures QuietStep(w, CompleteInvocation(w, c, def, result), c)
  {
  }

  lemma PersistingIsQuiet(w: World, c: CallerId, def: ToolDefinition, result: ToolCallResult)
    requires c in w.callers && RetryCounted(w.callers[c]) && w.callers[c].pc == Persisting(def, result)
    ensures QuietStep(w, PersistOutcome(w, c, def, result), c)
  {
  }

  lemma AcceptingIsQuiet(w: World, c: CallerId, def: ToolDefinition, result: ToolCallResult, outputValid: bool)
    requires c in w.callers && RetryCounted(w.callers[c]) && w.callers[c].pc == Accepting(def, result)
    ensures QuietStep(w, AcceptOutput(w, c, def, result, outputValid), c)
  {
  }

  lemma AuditingIsQuiet(w: World, c: CallerId, def: ToolDefinition, result: ToolCallResult)
    requires c in w.callers && RetryCounted(w.callers[c]) && w.callers[c].pc == Auditing(def, result)
    ensures QuietStep(w, Move(w, c, Done(result)), c)
  {
  }

  /** Every step that neither starts, dispatches, receives nor closes an attempt is quiet, or does nothing. */
  lemma OtherStepsAreQuiet(w: World, c: CallerId, input: Input)
    requires c in w.callers && RetryCounted(w.callers[c])
    requires var pc := w.callers[c].pc; !pc.Starting? && !pc.Dispatching? && !pc.InFlight? && !pc.Closing?
    ensures StepCaller(w, c, input) == w || QuietStep(w, StepCaller(w, c, input), c)
  {
    match w.callers[c].pc
    case Recording(def) => if input.Tick? { RecordingIsQuiet(w, c, def, input); }
    case Claiming(def) => if input.Tick? { ClaimingIsQuiet(w, c, def); }
    case Rejecting(def, record) => if input.Tick? { RejectingIsQuiet(w, c, def, record); }
    case Completing(def, result) => if input.Tick? { CompletingIsQuiet(w, c, def, result); }
    case Persisting(def, result) => if input.Tick? { PersistingIsQuiet(w, c, def, result); }
    case Accepting(def, result) => if input.OutputCheck? { AcceptingIsQuiet(w, c, def, result, input.outputValid); }
    case Auditing(def, result) => if input.Tick? { AuditingIsQuiet(w, c, def, result); }
    case Done(_) =>
    case Crashed =>
    case _ => GovernanceIsQuiet(w, c, input);
  }

  lemma StepKeepsAttempts(w: World, c: CallerId, input: Input)
    requires AttemptInv(w) && c in w.callers
    ensures AttemptInv(StepCaller(w, c, input))
  {
    assert CallerInv(w, c);
    match w.callers[c].pc
    case Starting(def) => if input.Tick? { StartKeepsAttempts(w, c, def); }
    case Dispatching(def) => if input.Tick? { DispatchKeepsAttempts(w, c, def); }
    case InFlight(def) => if input.Response? { ResponseKeepsAttempts(w, c, def, input.response); }
    case Closing(def, r) => if input.Tick? { CloseKeepsAttempts(w, c, def, r); }
    case _ => OtherStepKeepsAttempts(w, c, input);
  }

  lemma OtherStepKeepsAttempts(w: World, c: CallerId, input: Input)
    requires AttemptInv(w) && c in w.callers
    requires var pc := w.callers[c].pc; !pc.Starting? && !pc.Dispatching? && !pc.InFlight? && !pc.Closing?
    ensures AttemptInv(StepCaller(w, c, input))
  {
    assert CallerInv(w, c);
    var w' := StepCaller(w, c, input);
    OtherStepsAreQuiet(w, c, input);
    if w' != w { QuietStepKeepsAttempts(w, w', c); }
  }

  lemma {:induction false} RunKeepsAttempts(w: World, actions: seq<Action>)
    requires AttemptInv(w)
    ensures AttemptInv(Run(w, actions))
    decreases |actions|
  {
    if actions != [] {
      var a := actions[0];
      var w' := Perform(w, a);
      match a {
        case Arrive(c, request) => if c !in w.callers { ArrivalKeepsAttempts(w, c, request); }
        case Step(c, input) => if c in w.callers { StepKeepsAttempts(w, c, input); }
        case Crash(c) => if w' != w { QuietStepKeepsAttempts(w, w', c); }
      }
      RunKeepsAttempts(w', actions[1..]);
    }
  }

  /** At every point of every run, crash points included, the log of a caller whose call
      id nobody else uses holds records 1..n; it has made n provider calls or, if its last
      record is still open, one fewer; every earlier record is closed with what the
      provider answered, and that answer allowed the retry; and n never exceeds the
      tool's limit. */
  lemma AttemptLogAtEveryPoint(actions: seq<Action>, c: CallerId)
    requires var w := Run(Empty, actions); c in w.callers && Sole(w, c)
    ensures var w := Run(Empty, actions);
            var id, n := w.callers[c].request.toolCallId, w.callers[c].attempt;
            var made := Dispatched(w.calls, c);
            && (forall k: nat :: (id, k) in w.attempts <==> 1 <= k <= n)
            && made == UpTo(|made|)
            && (|made| == n || (|made| == n - 1 && w.attempts[(id, n)] == OpenAttempt))
            && (forall i :: 0 <= i < |w.calls| && w.calls[i].caller == c ==>
                  && n <= MaxAttempts(w.calls[i].def)
                  && (w.calls[i].attempt < n ==> ClosedAndRetried(w, id, w.calls[i])))
            && (w.callers[c].pc.Done? && n >= 1 ==> w.callers[c].pc.result.retryCount == n - 1)
  {
    RunKeepsAttempts(Empty, actions);
    var w := Run(Empty, actions);
    assert CallerInv(w, c);
    forall i | 0 <= i < |w.calls| && w.calls[i].caller == c
      ensures w.callers[c].attempt <= MaxAttempts(w.calls[i].def)
      ensures w.calls[i].attempt < w.callers[c].attempt ==> ClosedAndRetried(w, w.callers[c].request.toolCallId, w.calls[i])
    {
      LimitHolds(w, c, i);
      assert Recorded(w, c, i);
    }
  }

  lemma LimitHolds(w: World, c: CallerId, i: nat)
    requires c in w.callers && Numbering(w, c) && LogOf(w, c) && OneCallPerAttempt(w)
    requires i < |w.calls| && w.calls[i].caller == c
    ensures w.callers[c].attempt <= MaxAttempts(w.calls[i].def)
  {
    var n := w.callers[c].attempt;
    if n >= 2 {
      var k := EarlierCall(w, c, n - 1);
      assert Recorded(w, c, k);
      assert RetriesAfter(w.calls[k].def, w.calls[k].fate.response, n - 1);
      assert w.calls[k].def == w.calls[i].def;
    }
  }

  lemma {:induction false} DispatchedWitness(calls: seq<ProviderCall>, c: CallerId, k: nat) returns (i: nat)
    requires k in Dispatched(calls, c)
    ensures i < |calls| && calls[i].caller == c && calls[i].attempt == k
  {
    var last := |calls| - 1;
    if calls[last].caller == c && calls[last].attempt == k {
      i := last;
    } else {
      i := DispatchedWitness(calls[..last], c, k);
    }
  }

  lemma EarlierCall(w: World, c: CallerId, k: nat) returns (i: nat)
    requires c in w.callers && Numbering(w, c) && 1 <= k < w.callers[c].attempt
    ensures i < |w.calls| && w.calls[i].caller == c && w.calls[i].attempt == k
  {
    var d := Dispatched(w.calls, c);
    assert d[k - 1] == k;
    i := DispatchedWitness(w.calls, c, k);
  }
}
