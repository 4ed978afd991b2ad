/** The reasoning engine's repair loop: ask the router, validate, ask again with corrections,
    within attempts and budget (packages/ai-runtime/src/reasoning/llm-reasoning-engine.ts:45-152). */
module ReasoningLoop {
  import opened Foundations
  import opened BudgetLedger
  import opened LlmRouter

  datatype Verdict = Reasoned | BudgetExhaustedFallback | InvalidOutputFallback | Propagated(error: Outcome)

  /** One reasoning request. `invocation` and `valid` say how each attempt's call goes and
      whether its output passes validation. */
  datatype Reasoning = Reasoning(
    idempotencyKey: string,
    request: Request,
    maxRetries: Option<int>,
    invocation: nat -> Call,
    valid: nat -> bool)

  function MaxAttempts(r: Reasoning): int {
    (if r.maxRetries.Some? then r.maxRetries.value else 2) + 1
  }

  /** `${idempotencyKey}:reasoning:${attempt}`. */
  function CallId(r: Reasoning, attempt: nat): string {
    Tagged(r.idempotencyKey + ":reasoning", ':', attempt)
  }

  /** The call of one attempt: the same request under its own call id. */
  function CallAt(r: Reasoning, attempt: nat): Call {
    r.invocation(attempt).(request := r.request.(llmCallId := CallId(r, attempt)))
  }

  /** The pre-check before a repair. */
  predicate Exhausted(budget: Option<Limit>, spent: Charge) {
    budget.Some? && (spent.costUsd >= budget.value.maxCostUsd || spent.tokens >= budget.value.maxTokens)
  }

  /** `made` is the number of calls to the router, `spent` what the successful ones reported. */
  datatype Ending = Ending(charges: map<string, Charges>, made: nat, spent: Charge, verdict: Verdict)

  /** Errors with the code BUDGET_EXHAUSTED, from the router or from a provider, stop the repairs. */
  predicate OutOfBudget(error: Outcome) {
    error == BudgetExhausted || (error.ProviderError? && error.code == "BUDGET_EXHAUSTED")
  }

  /** What the router does on an attempt, given the charges it finds. */
  type Invoker = (map<string, Charges>, nat) -> Result

  function InvokerOf(run: Runner, r: Reasoning): Invoker {
    (charges: map<string, Charges>, attempt: nat) => run(charges, CallAt(r, attempt))
  }

  function Continue(invoke: Invoker, charges: map<string, Charges>, r: Reasoning, attempt: nat, spent: Charge): Ending
    decreases MaxAttempts(r) - attempt
  {
    if attempt >= MaxAttempts(r) then Ending(charges, attempt, spent, InvalidOutputFallback)
    else if attempt > 0 && Exhausted(r.request.budget, spent) then Ending(charges, attempt, spent, BudgetExhaustedFallback)
    else
      var result := invoke(charges, attempt);
      match result.outcome
      case Success(_, usage) =>
        var total := Plus(usage, spent);
        if r.valid(attempt) then Ending(result.charges, attempt + 1, total, Reasoned)
        else Continue(invoke, result.charges, r, attempt + 1, total)
      case error => Ending(result.charges, attempt + 1, spent, if OutOfBudget(error) then BudgetExhaustedFallback else Propagated(error))
  }

  class ProductionReasoningEngine {
    const router: Router

    constructor (router: Router)
      ensures this.router == router
    {
      this.router := router;
    }

    method Reason(r: Reasoning, ghost sum: Sum) returns (verdict: Verdict, made: nat, spent: Charge)
      requires SumsUp(sum)
      modifies router.ledger
      ensures Ending(router.ledger.charges, made, spent, verdict) == Continue(InvokerOf(RunnerOf(sum), r), old(router.ledger.charges), r, 0, Zero)
    {
      spent := Zero;
      made := 0;
      var stoppedByBudget := false;
      ghost var invoke := InvokerOf(RunnerOf(sum), r);
      ghost var whole := Continue(invoke, router.ledger.charges, r, 0, Zero);
      while made < MaxAttempts(r) && !stoppedByBudget
        invariant !stoppedByBudget ==> whole == Continue(invoke, router.ledger.charges, r, made, spent)
        invariant stoppedByBudget ==> whole == Ending(router.ledger.charges, made, spent, BudgetExhaustedFallback)
        decreases MaxAttempts(r) - made, !stoppedByBudget
      {
        if made > 0 && Exhausted(r.request.budget, spent) {
          stoppedByBudget := true;
        } else {
          var attempt := made;
          var outcome, _ := router.Invoke(CallAt(r, attempt), sum);
          made := made + 1;
          match outcome {
          case Success(_, usage) =>
            spent := Plus(usage, spent);
            if r.valid(attempt) {
              return Reasoned, made, spent;
            }
          case error =>
            if !OutOfBudget(error) {
              return Propagated(error), made, spent;
            }
            stoppedByBudget := true;
          }
        }
      }
      verdict := if stoppedByBudget then BudgetExhaustedFallback else InvalidOutputFallback;
    }
  }

  // ---- the loop is a session of fresh calls ----

  function CallsFrom(r: Reasoning, from: nat, n: nat): seq<Call>
    decreases n
  {
    if n == 0 then [] else [CallAt(r, from)] + CallsFrom(r, from + 1, n - 1)
  }

  /** The charges after `n` calls in a row. */
  function Chain(invoke: Invoker, charges: map<string, Charges>, from: nat, n: nat): map<string, Charges>
    decreases n
  {
    if n == 0 then charges else Chain(invoke, invoke(charges, from).charges, from + 1, n - 1)
  }

  /** The loop makes its calls in a row, at most one for each attempt. */
  lemma {:induction false} LoopIsAChain(invoke: Invoker, charges: map<string, Charges>, r: Reasoning, attempt: nat, spent: Charge)
    ensures var e := Continue(invoke, charges, r, attempt, spent);
            && attempt <= e.made <= Max(MaxAttempts(r), attempt)
            && e.charges == Chain(invoke, charges, attempt, e.made - attempt)
    decreases MaxAttempts(r) - attempt
  {
    if attempt < MaxAttempts(r) && !(attempt > 0 && Exhausted(r.request.budget, spent)) {
      var result := invoke(charges, attempt);
      if result.outcome.Success? && !r.valid(attempt) {
        LoopIsAChain(invoke, result.charges, r, attempt + 1, Plus(result.outcome.usage, spent));
      }
    }
  }

  lemma {:induction false} ChainIsASession(run: Runner, charges: map<string, Charges>, r: Reasoning, from: nat, n: nat)
    ensures Chain(InvokerOf(run, r), charges, from, n) == Session(run, charges, CallsFrom(r, from, n)).charges
    decreases n
  {
    if n > 0 {
      var c := CallAt(r, from);
      ChainIsASession(run, run(charges, c).charges, r, from + 1, n - 1);
      SessionCons(run, charges, c, CallsFrom(r, from + 1, n - 1));
    }
  }

  lemma SessionCons(run: Runner, charges: map<string, Charges>, c: Call, rest: seq<Call>)
    ensures Session(run, charges, [c] + rest).charges == Session(run, run(charges, c).charges, rest).charges
  {
    assert ([c] + rest)[1..] == rest;
  }

  lemma {:induction false} CallsAt(r: Reasoning, from: nat, n: nat)
    ensures |CallsFrom(r, from, n)| == n
    ensures forall i :: 0 <= i < n ==> CallsFrom(r, from, n)[i] == CallAt(r, from + i)
    decreases n
  {
    if n > 0 { CallsAt(r, from + 1, n - 1); }
  }

  lemma CallIdsDiffer(r: Reasoning, i: nat, j: nat)
    requires i != j
    ensures CallId(r, i) != CallId(r, j)
  {
    if CallId(r, i) == CallId(r, j) {
      TaggedInjective(r.idempotencyKey + ":reasoning", i, r.idempotencyKey + ":reasoning", j, ':');
    }
  }

  lemma CallsAreFresh(r: Reasoning, budget: Limit, n: nat)
    requires r.request.budget == Some(budget)
    ensures SameExecution(CallsFrom(r, 0, n), r.request.executionId, budget)
  {
    var calls := CallsFrom(r, 0, n);
    CallsAt(r, 0, n);
    forall i, j | 0 <= i < j < n ensures calls[i].request.llmCallId != calls[j].request.llmCallId {
      CallIdsDiffer(r, i, j);
    }
  }

  /** A whole reasoning on the charges it finds. */
  function ReasonOn(run: Runner, charges: map<string, Charges>, r: Reasoning): Ending {
    Continue(InvokerOf(run, r), charges, r, 0, Zero)
  }

  lemma LoopIsASession(run: Runner, charges: map<string, Charges>, r: Reasoning) returns (made: nat)
    ensures var e := ReasonOn(run, charges, r);
            && made == e.made <= Max(MaxAttempts(r), 0)
            && e.charges == Session(run, charges, CallsFrom(r, 0, made)).charges
  {
    made := ReasonOn(run, charges, r).made;
    LoopIsAChain(InvokerOf(run, r), charges, r, 0, Zero);
    ChainIsASession(run, charges, r, 0, made);
  }

  /** No charge of the execution is filed under a key of this reasoning. */
  ghost predicate KeysUnused(bucket: Charges, r: Reasoning) {
    forall attempt: nat :: Unused(bucket, AttemptKeys(CallId(r, attempt)), 1)
  }

  lemma CallsFindTheirKeysUnused(bucket: Charges, r: Reasoning, n: nat)
    requires KeysUnused(bucket, r)
    ensures AllUnused(bucket, CallsFrom(r, 0, n))
  {
    var calls := CallsFrom(r, 0, n);
    CallsAt(r, 0, n);
    forall i | 0 <= i < |calls| ensures Unused(bucket, AttemptKeys(calls[i].request.llmCallId), 1) {
      assert calls[i] == CallAt(r, i);
    }
  }

  /** The trace of all the attempts a reasoning makes. */
  function TraceOf(run: Runner, charges: map<string, Charges>, r: Reasoning): seq<Attempt> {
    Session(run, charges, CallsFrom(r, 0, ReasonOn(run, charges, r).made)).trace
  }

  /** From the charges found to the charges left, the execution accounts for the attempts made. */
  ghost predicate ReasoningAccounts(run: Runner, charges: map<string, Charges>, r: Reasoning, budget: Limit) {
    var id, e, trace := r.request.executionId, ReasonOn(run, charges, r), TraceOf(run, charges, r);
    && e.made <= Max(MaxAttempts(r), 0)
    && Accounts(Accumulated(charges, id), Accumulated(e.charges, id), budget, SumHeld(trace), LastDispatched(trace))
  }

  ghost predicate SessionHolds(run: Runner, charges: map<string, Charges>, calls: seq<Call>, id: string, budget: Limit) {
    var s := Session(run, charges, calls);
    Accounts(Accumulated(charges, id), Accumulated(s.charges, id), budget, SumHeld(s.trace), LastDispatched(s.trace))
  }

  lemma SessionOfRouter(charges: map<string, Charges>, calls: seq<Call>, id: string, budget: Limit)
    requires SameExecution(calls, id, budget) && AllUnused(Bucket(charges, id), calls)
    ensures SessionHolds(RunnerOf(Totals()), charges, calls, id, budget)
  {
    TotalAddsUp();
    SessionAccounts(Totals(), charges, calls, id, budget);
  }

  lemma LoopHolds(run: Runner, charges: map<string, Charges>, r: Reasoning, budget: Limit)
    requires SessionHolds(run, charges, CallsFrom(r, 0, ReasonOn(run, charges, r).made), r.request.executionId, budget)
    ensures ReasoningAccounts(run, charges, r, budget)
  {
    var made := LoopIsASession(run, charges, r);
  }

  lemma RouterHolds(charges: map<string, Charges>, r: Reasoning, budget: Limit, made: nat)
    requires r.request.budget == Some(budget) && KeysUnused(Bucket(charges, r.request.executionId), r)
    ensures SessionHolds(RunnerOf(Totals()), charges, CallsFrom(r, 0, made), r.request.executionId, budget)
  {
    CallsAreFresh(r, budget, made);
    CallsFindTheirKeysUnused(Bucket(charges, r.request.executionId), r, made);
    SessionOfRouter(charges, CallsFrom(r, 0, made), r.request.executionId, budget);
  }

  /** Main theorem: a whole reasoning, with all its repairs and fallbacks, on any ledger without
      its keys, adds to the execution exactly what its attempts hold, and leaves the total above
      the budget by at most what the latest dispatched attempt used beyond its own estimate. */
  lemma ReasoningStaysWithinBudget(charges: map<string, Charges>, r: Reasoning, budget: Limit)
    requires r.request.budget == Some(budget) && KeysUnused(Bucket(charges, r.request.executionId), r)
    ensures ReasoningAccounts(RunnerOf(Totals()), charges, r, budget)
  {
    RouterHolds(charges, r, budget, ReasonOn(RunnerOf(Totals()), charges, r).made);
    LoopHolds(RunnerOf(Totals()), charges, r, budget);
  }

  /** What the calls before attempt `n` reported, as long as they all succeeded. */
  function SpentBefore(invoke: Invoker, charges: map<string, Charges>, from: nat, n: nat, spent: Charge): Charge
    requires from <= n
    decreases n - from
  {
    if from == n then spent
    else
      var result := invoke(charges, from);
      SpentBefore(invoke, result.charges, from + 1, n, if result.outcome.Success? then Plus(result.outcome.usage, spent) else spent)
  }

  /** No repair is bought once the reported usage has reached the budget: before every call but
      the first it was below both limits. */
  lemma {:induction false} NoRepairOnceSpent(invoke: Invoker, charges: map<string, Charges>, r: Reasoning, attempt: nat, spent: Charge, n: nat)
    requires attempt <= n < Continue(invoke, charges, r, attempt, spent).made && n > 0
    ensures !Exhausted(r.request.budget, SpentBefore(invoke, charges, attempt, n, spent))
    decreases n - attempt
  {
    if attempt < n {
      var result := invoke(charges, attempt);
      NoRepairOnceSpent(invoke, result.charges, r, attempt + 1, Plus(result.outcome.usage, spent), n);
    }
  }
}
