/** One turn of the fallback loop, told by prices, tokens and entries of the ledger
    (packages/llm-gateway/src/llm-router.ts:146-306). */
module RouterRules {
  import opened Foundations
  import opened BudgetLedger
  import opened ModelRanking
  import opened LlmRouter

  /** A price of the request goes before the model's. */
  predicate Priced(asked: Option<real>, own: real, price: real) {
    if asked.Some? then price == asked.value else price == own
  }

  /** What is reserved: the output price for all tokens allowed, and at most 1024 tokens. */
  lemma EstimateExactly(request: Request, m: LLMModel, price: real)
    requires Priced(request.costPerOutputTokenUsd, m.costPerOutputTokenUsd, price)
    ensures var estimate := Estimate(request, m);
            && estimate.costUsd == request.maxTokens as real * price
            && estimate.tokens == (if request.maxTokens <= 1024 then request.maxTokens else 1024)
  {
    CostIsProduct(request.maxTokens, price);
  }

  /** What a submitted failure is charged by its usage: input and output tokens, each at its price. */
  lemma UsageExactly(request: Request, m: LLMModel, u: Usage, retryable: bool, code: string, priceIn: real, priceOut: real)
    requires Priced(request.costPerInputTokenUsd, m.costPerInputTokenUsd, priceIn)
    requires Priced(request.costPerOutputTokenUsd, m.costPerOutputTokenUsd, priceOut)
    ensures ActualUsage(request, m, Failure(retryable, true, Some(u), code)) ==
            Some(Charge(u.inputTokens as real * priceIn + u.outputTokens as real * priceOut, u.totalTokens))
  {
    CostIsProduct(u.inputTokens, priceIn);
    CostIsProduct(u.outputTokens, priceOut);
  }

  /** The reservation would go beyond the budget. */
  predicate TooMuch(sum: Sum, bucket: Charges, request: Request, estimate: Charge) {
    request.budget.Some? &&
    (sum(bucket).costUsd + estimate.costUsd > request.budget.value.maxCostUsd
     || sum(bucket).tokens + estimate.tokens > request.budget.value.maxTokens)
  }

  /** Nothing but the entry of one key in one execution's bucket may differ. */
  ghost predicate OnlyEntry(before: map<string, Charges>, after: map<string, Charges>, executionId: string, key: string) {
    && (forall other :: other != executionId ==> Bucket(after, other) == Bucket(before, other))
    && Bucket(after, executionId) - {key} == Bucket(before, executionId) - {key}
  }

  function Entry(charges: map<string, Charges>, executionId: string, key: string): Option<Charge> {
    var bucket := Bucket(charges, executionId);
    if key in bucket then Some(bucket[key]) else None
  }

  /** What a reply leaves under the key of its attempt: what was used, as far as that is known;
      nothing when the request was not submitted; and otherwise what had been reserved. */
  predicate Leaves(reply: Reply, request: Request, m: LLMModel, before: Option<Charge>, after: Option<Charge>) {
    var kept := if request.budget.Some? then Some(Estimate(request, m)) else before;
    match reply
    case Answer(costUsd, totalTokens) => after == Some(Charge(costUsd, totalTokens))
    case Failure(_, submitted, usage, _) =>
      if !submitted then after.None?
      else if usage.None? then after == kept
      else after.Some? && after == ActualUsage(request, m, reply)
    case Exploded => after == kept
  }

  /** How the loop goes on after a reply. A failing listener hides a failure of the provider. */
  predicate GoesOn(reply: Reply, m: LLMModel, listenerFails: bool, next: Next) {
    match reply
    case Answer(costUsd, totalTokens) =>
      if listenerFails then next == Stop(UnexpectedError) else next == Stop(Success(m, Charge(costUsd, totalTokens)))
    case Failure(retryable, _, _, code) =>
      if listenerFails then next == Stop(ListenerError)
      else if retryable then next == GoOn else next == Stop(ProviderError(code))
    case Exploded => next == Stop(UnexpectedError)
  }

  /** What is left of a reservation, if one was made, once the reply is settled. */
  lemma SettledExactly(charges: map<string, Charges>, request: Request, m: LLMModel, key: string, reply: Reply)
    ensures var id := request.executionId;
            var reserved := if request.budget.Some? then Recorded(charges, id, key, Estimate(request, m)) else charges;
            var after := Settle(reserved, request, m, key, reply);
            && OnlyEntry(charges, after, id, key)
            && Leaves(reply, request, m, Entry(charges, id, key), Entry(after, id, key))
  {
  }

  /** One turn, exactly. */
  lemma TurnExactly(g: Setting, charges: map<string, Charges>, request: Request, m: LLMModel, index: nat)
    ensures var t, s := TakeTurn(g, charges, request, m, index), g.situation(index);
            var key, id := g.key(index), request.executionId;
            var over := TooMuch(g.sum, Bucket(charges, id), request, Estimate(request, m));
            && t.attempt.model == m && t.attempt.key == key && t.attempt.estimate == Estimate(request, m)
            && (!s.registered ==> t.charges == charges && t.attempt.fate == Unregistered && t.next == GoOn)
            && (s.registered && !s.ready ==> t.charges == charges && t.attempt.fate == NotReady && t.next == Stop(ReadinessError))
            && (s.registered && s.ready && over ==>
                  t.charges == charges && t.attempt.fate == Blocked
                  && t.next == Stop(if s.listenerFails then ListenerError else BudgetExhausted))
            && (s.registered && s.ready && !over ==>
                  && t.attempt.fate == Dispatched(s.reply)
                  && OnlyEntry(charges, t.charges, id, key)
                  && Leaves(s.reply, request, m, Entry(charges, id, key), Entry(t.charges, id, key))
                  && GoesOn(s.reply, m, s.listenerFails, t.next))
  {
    var t, s := TakeTurn(g, charges, request, m, index), g.situation(index);
    assert Fits(g.sum, charges, request, Estimate(request, m)) <==>
           !TooMuch(g.sum, Bucket(charges, request.executionId), request, Estimate(request, m));
    if t.attempt.fate.Dispatched? { SettledExactly(charges, request, m, g.key(index), s.reply); }
  }

  /** The attempts that count as held: what a dispatched one leaves under a key that was free. */
  lemma HeldExactly(g: Setting, charges: map<string, Charges>, request: Request, m: LLMModel, index: nat)
    requires Entry(charges, request.executionId, g.key(index)).None?
    ensures var t := TakeTurn(g, charges, request, m, index);
            var left := Entry(t.charges, request.executionId, g.key(index));
            t.attempt.actual == if left.Some? then left.value else Zero
  {
    TurnExactly(g, charges, request, m, index);
  }

  /** How many models the configuration allows. A negative number counts from the end of the list. */
  function Allowed(maxAttempts: Option<int>, available: nat): nat {
    match maxAttempts
    case None => available
    case Some(n) => if n >= 0 then Min(n, available) else Max(available + n, 0)
  }

  /** When all models have failed, as many as allowed were tried, best first; otherwise not more. */
  lemma TriesAsManyAsAllowed(sum: Sum, charges: map<string, Charges>, c: Call)
    requires RankCandidates(c.catalog, c.q, c.idBefore).Ranked?
    ensures var ordered, r := RankCandidates(c.catalog, c.q, c.idBefore).models, InvokeSpec(sum, charges, c);
            && |r.trace| <= Allowed(c.maxAttempts, |ordered|) <= |ordered|
            && (forall i :: 0 <= i < |r.trace| ==> r.trace[i].model == ordered[i])
            && (r.outcome.AllProvidersFailed? ==> |r.trace| == Allowed(c.maxAttempts, |ordered|))
  {
    var ordered := RankCandidates(c.catalog, c.q, c.idBefore).models;
    AttemptsArePrefix(SettingOf(sum, c), charges, c.request, Attempted(ordered, c.maxAttempts), 1, false);
  }
}
