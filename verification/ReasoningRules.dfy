/** How a reasoning ends (packages/ai-runtime/src/reasoning/llm-reasoning-engine.ts:52-152). */
module ReasoningRules {
  import opened Foundations
  import opened BudgetLedger
  import opened LlmRouter
  import opened ReasoningLoop

  /** Three attempts, unless another number of retries is configured. */
  lemma AttemptsExactly(r: Reasoning)
    ensures r.maxRetries.None? ==> MaxAttempts(r) == 3
    ensures r.maxRetries.Some? ==> MaxAttempts(r) == r.maxRetries.value + 1
  {
  }

  /** The usage reported has reached a limit. */
  predicate UsedUp(budget: Limit, spent: Charge) {
    spent.costUsd >= budget.maxCostUsd || spent.tokens >= budget.maxTokens
  }

  /** The call of this attempt ended so, on some state of the ledger. */
  ghost predicate CallEnded(invoke: Invoker, attempt: nat, outcome: Outcome) {
    exists charges :: invoke(charges, attempt).outcome == outcome
  }

  predicate NoneValid(r: Reasoning, from: nat, to: nat) {
    forall k :: from <= k < to ==> !r.valid(k)
  }

  /** What the verdict says: a valid output of the last call; or no valid output in all attempts; or a
      budget that is used up, by the usage reported or in the last call; or the error of the last call. */
  ghost predicate Explained(invoke: Invoker, r: Reasoning, from: nat, e: Ending) {
    match e.verdict
    case Reasoned =>
      && from < e.made && r.valid(e.made - 1) && NoneValid(r, from, e.made - 1)
      && exists model, usage :: CallEnded(invoke, e.made - 1, Success(model, usage))
    case InvalidOutputFallback => MaxAttempts(r) <= e.made && NoneValid(r, from, e.made)
    case BudgetExhaustedFallback =>
      || (0 < e.made < MaxAttempts(r) && r.request.budget.Some? && UsedUp(r.request.budget.value, e.spent) && NoneValid(r, from, e.made))
      || (from < e.made && NoneValid(r, from, e.made - 1)
          && (CallEnded(invoke, e.made - 1, BudgetExhausted) || CallEnded(invoke, e.made - 1, ProviderError("BUDGET_EXHAUSTED"))))
    case Propagated(error) =>
      && from < e.made && NoneValid(r, from, e.made - 1) && CallEnded(invoke, e.made - 1, error)
      && !error.Success? && error != BudgetExhausted && error != ProviderError("BUDGET_EXHAUSTED")
  }

  /** Main result: every reasoning ends for the reason its verdict gives, within its attempts. */
  lemma {:induction false} VerdictIsExplained(invoke: Invoker, charges: map<string, Charges>, r: Reasoning, attempt: nat, spent: Charge)
    ensures var e := Continue(invoke, charges, r, attempt, spent);
            && Explained(invoke, r, attempt, e)
            && attempt <= e.made && (e.made > attempt ==> e.made <= MaxAttempts(r))
    decreases MaxAttempts(r) - attempt
  {
    if attempt < MaxAttempts(r) && !(attempt > 0 && Exhausted(r.request.budget, spent)) {
      var result := invoke(charges, attempt);
      assert CallEnded(invoke, attempt, result.outcome);
      if result.outcome.Success? && !r.valid(attempt) {
        VerdictIsExplained(invoke, result.charges, r, attempt + 1, Plus(result.outcome.usage, spent));
      }
    }
  }
}
