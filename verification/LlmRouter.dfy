/** The router's fallback loop over ranked models (packages/llm-gateway/src/llm-router.ts:123-306),
    charging one execution's budget. */
module LlmRouter {
  import opened Foundations
  import opened BudgetLedger
  import opened ModelRanking

  /** The fields of a request that decide the loop. */
  datatype Request = Request(
    executionId: string,
    llmCallId: string,
    maxTokens: int,
    budget: Option<Limit>,
    costPerInputTokenUsd: Option<real>,
    costPerOutputTokenUsd: Option<real>)

  datatype Usage = Usage(inputTokens: int, outputTokens: int, totalTokens: int)

  /** What a provider call ends in. `Exploded` is any exception that is not an LLMProviderError. */
  datatype Reply =
    | Answer(costUsd: real, totalTokens: int)
    | Failure(retryable: bool, submitted: bool, usage: Option<Usage>, code: string)
    | Exploded

  /** The environment of one attempt. `listenerFails`: the usage listener throws. */
  datatype Situation = Situation(registered: bool, ready: bool, reply: Reply, listenerFails: bool)

  datatype Fate = Unregistered | NotReady | Blocked | Dispatched(reply: Reply)

  /** One turn of the loop, as it happened. */
  datatype Attempt = Attempt(model: LLMModel, key: string, estimate: Charge, actual: Charge, fate: Fate)

  datatype Outcome =
    | Success(model: LLMModel, usage: Charge)
    | NoEligibleModel
    | AmbiguousRouting(tied: seq<string>)
    | ReadinessError
    | ListenerError
    | BudgetExhausted
    | ProviderError(code: string)
    | UnexpectedError
    | AllProvidersFailed(retryable: bool)

  const PER_CALL_TOKEN_ESTIMATE: int := 1024

  function PriceIn(request: Request, m: LLMModel): real {
    if request.costPerInputTokenUsd.Some? then request.costPerInputTokenUsd.value else m.costPerInputTokenUsd
  }

  function PriceOut(request: Request, m: LLMModel): real {
    if request.costPerOutputTokenUsd.Some? then request.costPerOutputTokenUsd.value else m.costPerOutputTokenUsd
  }

  /** tokens * perToken, written as repeated addition so that the accounting below stays linear. */
  function Cost(tokens: int, perToken: real): real
    decreases if tokens < 0 then -tokens else tokens
  {
    if tokens == 0 then 0.0
    else if tokens > 0 then Cost(tokens - 1, perToken) + perToken
    else Cost(tokens + 1, perToken) - perToken
  }

  lemma {:induction false} CostIsProduct(tokens: int, perToken: real)
    ensures Cost(tokens, perToken) == tokens as real * perToken
    decreases if tokens < 0 then -tokens else tokens
  {
    if tokens > 0 {
      CostIsProduct(tokens - 1, perToken);
      assert tokens as real == (tokens - 1) as real + 1.0;
    } else if tokens < 0 {
      CostIsProduct(tokens + 1, perToken);
      assert tokens as real == (tokens + 1) as real - 1.0;
    }
  }

  function UsageCost(request: Request, m: LLMModel, u: Usage): real {
    Cost(u.inputTokens, PriceIn(request, m)) + Cost(u.outputTokens, PriceOut(request, m))
  }

  function Estimate(request: Request, m: LLMModel): Charge {
    Charge(Cost(request.maxTokens, PriceOut(request, m)), Min(request.maxTokens, PER_CALL_TOKEN_ESTIMATE))
  }

  /** The usage a reply proves, if it proves any. */
  function ActualUsage(request: Request, m: LLMModel, reply: Reply): Option<Charge> {
    match reply
    case Answer(costUsd, totalTokens) => Some(Charge(costUsd, totalTokens))
    case Failure(_, submitted, usage, _) =>
      if submitted && usage.Some?
      then Some(Charge(UsageCost(request, m, usage.value), usage.value.totalTokens))
      else None
    case Exploded => None
  }

  /** The provider call certainly never left: nothing was consumed. */
  predicate CertainlyFree(reply: Reply) {
    reply.Failure? && !reply.submitted
  }

  // ---- one turn of the loop ----

  datatype Next = GoOn | Stop(outcome: Outcome)

  /** Charges after a dispatched attempt (reserved beforehand when there is a budget). */
  function Settle(charges: map<string, Charges>, request: Request, m: LLMModel, key: string, reply: Reply): map<string, Charges> {
    var actual := ActualUsage(request, m, reply);
    if actual.Some? then Recorded(charges, request.executionId, key, actual.value)
    else if CertainlyFree(reply) then Released(charges, request.executionId, key)
    else charges
  }

  function NextAfter(m: LLMModel, reply: Reply, listenerFails: bool): Next {
    match reply
    case Answer(costUsd, totalTokens) => Stop(if listenerFails then UnexpectedError else Success(m, Charge(costUsd, totalTokens)))
    case Failure(retryable, _, _, code) =>
      if listenerFails then Stop(ListenerError) else if retryable then GoOn else Stop(ProviderError(code))
    case Exploded => Stop(UnexpectedError)
  }

  /** What the attempt ends up holding on the ledger. */
  function Held(request: Request, m: LLMModel, reply: Reply): Charge {
    var actual := ActualUsage(request, m, reply);
    if actual.Some? then actual.value
    else if CertainlyFree(reply) || request.budget.None? then Zero
    else Estimate(request, m)
  }

  /** The sum of the charges of one execution. */
  type Sum = Charges -> Charge

  /** What an invocation runs against: how charges are summed, the ledger key of each
      attempt, and how each attempt goes. */
  datatype Setting = Setting(sum: Sum, key: nat -> string, situation: nat -> Situation)

  /** The keys `${llmCallId}:${attemptIndex}`. */
  function AttemptKeys(llmCallId: string): nat -> string {
    (index: nat) => Tagged(llmCallId, ':', index)
  }

  datatype Turn = Turn(charges: map<string, Charges>, attempt: Attempt, next: Next)

  predicate Fits(sum: Sum, charges: map<string, Charges>, request: Request, estimate: Charge) {
    request.budget.Some? ==> Within(Plus(sum(Bucket(charges, request.executionId)), estimate), request.budget.value)
  }

  function TakeTurn(g: Setting, charges: map<string, Charges>, request: Request, m: LLMModel, index: nat): Turn {
    var s, key, estimate := g.situation(index), g.key(index), Estimate(request, m);
    if !s.registered then Turn(charges, Attempt(m, key, estimate, Zero, Unregistered), GoOn)
    else if !s.ready then Turn(charges, Attempt(m, key, estimate, Zero, NotReady), Stop(ReadinessError))
    else if !Fits(g.sum, charges, request, estimate) then
      Turn(charges, Attempt(m, key, estimate, Zero, Blocked), Stop(if s.listenerFails then ListenerError else BudgetExhausted))
    else
      var reserved := if request.budget.Some? then Recorded(charges, request.executionId, key, estimate) else charges;
      Turn(Settle(reserved, request, m, key, s.reply),
           Attempt(m, key, estimate, Held(request, m, s.reply), Dispatched(s.reply)),
           NextAfter(m, s.reply, s.listenerFails))
  }

  // ---- the loop, and one invocation ----

  datatype Result = Result(charges: map<string, Charges>, trace: seq<Attempt>, outcome: Outcome)

  /** `retryable` collects whether some error so far was retryable. */
  function RunAttempts(g: Setting, charges: map<string, Charges>, request: Request, models: seq<LLMModel>, index: nat,
                       retryable: bool): Result
    decreases |models|
  {
    if models == [] then Result(charges, [], AllProvidersFailed(retryable))
    else
      var t := TakeTurn(g, charges, request, models[0], index);
      if t.next.Stop? then Result(t.charges, [t.attempt], t.next.outcome)
      else
        var rest := RunAttempts(g, t.charges, request, models[1..], index + 1, retryable || t.attempt.fate.Dispatched?);
        Result(rest.charges, [t.attempt] + rest.trace, rest.outcome)
  }

  function Attempted(models: seq<LLMModel>, maxAttempts: Option<int>): seq<LLMModel> {
    SliceTo(models, if maxAttempts.Some? then maxAttempts.value else |models|)
  }

  function RunRanked(g: Setting, charges: map<string, Charges>, request: Request, ranking: Ranking, maxAttempts: Option<int>): Result {
    match ranking
    case NoModel => Result(charges, [], NoEligibleModel)
    case AmbiguousModels(tied) => Result(charges, [], AmbiguousRouting(tied))
    case Ranked(ordered) => RunAttempts(g, charges, request, Attempted(ordered, maxAttempts), 1, false)
  }

  /** One call of `invoke`: the request, the catalogue's answer, the configuration, and how
      each attempt goes. */
  datatype Call = Call(request: Request, q: Query, catalog: seq<LLMModel>, maxAttempts: Option<int>,
                       idBefore: (string, string) -> bool, situation: nat -> Situation)

  function SettingOf(sum: Sum, c: Call): Setting {
    Setting(sum, AttemptKeys(c.request.llmCallId), c.situation)
  }

  function InvokeSpec(sum: Sum, charges: map<string, Charges>, c: Call): Result {
    RunRanked(SettingOf(sum, c), charges, c.request, RankCandidates(c.catalog, c.q, c.idBefore), c.maxAttempts)
  }

  ghost predicate SumsUp(sum: Sum) {
    forall m: Charges :: sum(m) == Total(m)
  }

  /** A result with the attempts made before it. */
  function After(earlier: seq<Attempt>, r: Result): Result {
    Result(r.charges, earlier + r.trace, r.outcome)
  }

  /** One turn of the loop against the rest of the run. */
  lemma LoopStep(g: Setting, charges: map<string, Charges>, request: Request, models: seq<LLMModel>, i: nat, retryable: bool,
                 earlier: seq<Attempt>)
    requires i < |models|
    ensures var t := TakeTurn(g, charges, request, models[i], i + 1);
            After(earlier, RunAttempts(g, charges, request, models[i..], i + 1, retryable)) ==
              if t.next.Stop? then Result(t.charges, earlier + [t.attempt], t.next.outcome)
              else After(earlier + [t.attempt],
                         RunAttempts(g, t.charges, request, models[i + 1..], i + 2, retryable || g.situation(i + 1).registered))
  {
    var t := TakeTurn(g, charges, request, models[i], i + 1);
    assert models[i..][1..] == models[i + 1..];
    if t.next.GoOn? {
      var rest := RunAttempts(g, t.charges, request, models[i + 1..], i + 2, retryable || g.situation(i + 1).registered);
      assert earlier + ([t.attempt] + rest.trace) == earlier + [t.attempt] + rest.trace;
    }
  }

  class Router {
    const ledger: InMemoryExecutionBudgetLedger

    constructor (ledger: InMemoryExecutionBudgetLedger)
      ensures this.ledger == ledger
    {
      this.ledger := ledger;
    }

    /** One turn: reserve, call the provider, settle. */
    method TryModel(request: Request, m: LLMModel, key: string, s: Situation, ghost g: Setting, ghost index: nat)
      returns (next: Next, ghost attempt: Attempt)
      requires key == g.key(index) && s == g.situation(index) && SumsUp(g.sum)
      modifies ledger
      ensures Turn(ledger.charges, attempt, next) == TakeTurn(g, old(ledger.charges), request, m, index)
    {
      var estimate := Estimate(request, m);
      attempt := Attempt(m, key, estimate, Zero, Unregistered);
      if !s.registered {
        return GoOn, attempt;
      }
      if !s.ready {
        return Stop(ReadinessError), attempt.(fate := NotReady);
      }
      if request.budget.Some? {
        var allowed := ledger.TryReserve(request.executionId, key, estimate, request.budget.value);
        if !allowed {
          return Stop(if s.listenerFails then ListenerError else BudgetExhausted), attempt.(fate := Blocked);
        }
      }
      attempt := attempt.(fate := Dispatched(s.reply), actual := Held(request, m, s.reply));
      match s.reply {
      case Answer(costUsd, totalTokens) =>
        ledger.CommitActual(request.executionId, key, Charge(costUsd, totalTokens));
      case Failure(_, submitted, usage, _) =>
        if !submitted {
          ledger.Release(request.executionId, key);
        } else if usage.Some? {
          ledger.CommitActual(request.executionId, key, Charge(UsageCost(request, m, usage.value), usage.value.totalTokens));
        } else {
          ledger.Retain(request.executionId, key);
        }
      case Exploded =>
      }
      next := NextAfter(m, s.reply, s.listenerFails);
    }

    /** The fallback loop. */
    method TryModels(request: Request, attempts: seq<LLMModel>, key: nat -> string, situation: nat -> Situation, ghost sum: Sum)
      returns (outcome: Outcome, ghost trace: seq<Attempt>)
      requires SumsUp(sum)
      modifies ledger
      ensures Result(ledger.charges, trace, outcome) ==
              RunAttempts(Setting(sum, key, situation), old(ledger.charges), request, attempts, 1, false)
    {
      trace := [];
      var retryable := false;
      ghost var g := Setting(sum, key, situation);
      ghost var whole := RunAttempts(g, ledger.charges, request, attempts, 1, false);
      var i := 0;
      while i < |attempts|
        invariant 0 <= i <= |attempts|
        invariant whole == After(trace, RunAttempts(g, ledger.charges, request, attempts[i..], i + 1, retryable))
      {
        LoopStep(g, ledger.charges, request, attempts, i, retryable, trace);
        var next, attempt := TryModel(request, attempts[i], key(i + 1), situation(i + 1), g, i + 1);
        trace := trace + [attempt];
        if next.Stop? {
          return next.outcome, trace;
        }
        retryable := retryable || situation(i + 1).registered;
        i := i + 1;
      }
      assert attempts[i..] == [];
      outcome := AllProvidersFailed(retryable);
    }

    method Invoke(c: Call, ghost sum: Sum) returns (outcome: Outcome, ghost trace: seq<Attempt>)
      requires SumsUp(sum)
      modifies ledger
      ensures Result(ledger.charges, trace, outcome) == InvokeSpec(sum, old(ledger.charges), c)
    {
      var ranking := RankCandidates(c.catalog, c.q, c.idBefore);
      match ranking {
      case NoModel =>
        return NoEligibleModel, [];
      case AmbiguousModels(tied) =>
        return AmbiguousRouting(tied), [];
      case Ranked(ordered) =>
        outcome, trace := TryModels(c.request, Attempted(ordered, c.maxAttempts), AttemptKeys(c.request.llmCallId), c.situation, sum);
      }
    }
  }

  // ---- which models are attempted ----

  predicate AllowsFallback(fate: Fate) {
    fate.Unregistered? || (fate.Dispatched? && fate.reply.Failure? && fate.reply.retryable)
  }

  /** What the last attempt was, for each way of ending before the list does. */
  predicate EndedBy(outcome: Outcome, last: Attempt) {
    match outcome
    case Success(model, usage) => last.model == model && last.fate == Dispatched(Answer(usage.costUsd, usage.tokens))
    case BudgetExhausted => last.fate.Blocked?
    case ReadinessError => last.fate.NotReady?
    case ProviderError(code) =>
      last.fate.Dispatched? && last.fate.reply.Failure? && !last.fate.reply.retryable && last.fate.reply.code == code
    case UnexpectedError => last.fate.Dispatched? && !last.fate.reply.Failure?
    case ListenerError => last.fate.Blocked? || (last.fate.Dispatched? && last.fate.reply.Failure?)
    case _ => false
  }

  predicate SomeDispatched(trace: seq<Attempt>) {
    trace != [] && (trace[0].fate.Dispatched? || SomeDispatched(trace[1..]))
  }

  predicate AllAllowFallback(trace: seq<Attempt>) {
    forall i :: 0 <= i < |trace| ==> AllowsFallback(trace[i].fate)
  }

  /** "All failed" is reported only after the whole list, and as retryable exactly when some
      attempt was or `before` says so; any other outcome is the last attempt's. */
  predicate EndsRightly(outcome: Outcome, trace: seq<Attempt>, available: nat, before: bool) {
    if outcome.AllProvidersFailed? then
      |trace| == available && AllAllowFallback(trace) && (outcome.retryable <==> before || SomeDispatched(trace))
    else
      |trace| > 0 && AllAllowFallback(trace[..|trace| - 1]) && EndedBy(outcome, trace[|trace| - 1])
  }

  lemma TurnShape(g: Setting, charges: map<string, Charges>, request: Request, m: LLMModel, index: nat)
    ensures var t := TakeTurn(g, charges, request, m, index);
            && t.attempt.model == m
            && (t.next.GoOn? ==> AllowsFallback(t.attempt.fate))
            && (t.next.Stop? ==> !t.next.outcome.AllProvidersFailed? && EndedBy(t.next.outcome, t.attempt))
  {
  }

  lemma EndsOneLater(outcome: Outcome, a: Attempt, rest: seq<Attempt>, available: nat, before: bool)
    requires AllowsFallback(a.fate) && EndsRightly(outcome, rest, available, before || a.fate.Dispatched?)
    ensures EndsRightly(outcome, [a] + rest, available + 1, before)
  {
    var trace := [a] + rest;
    assert trace[1..] == rest;
    if rest != [] {
      assert trace[..|trace| - 1] == [a] + rest[..|rest| - 1] && trace[|trace| - 1] == rest[|rest| - 1];
    }
  }

  /** The attempted models are a prefix of the list, every attempt but the last was an
      unregistered provider or a retryable failure, and the last one explains the outcome. */
  predicate FollowsList(r: Result, models: seq<LLMModel>, before: bool) {
    && |r.trace| <= |models|
    && (forall i :: 0 <= i < |r.trace| ==> r.trace[i].model == models[i])
    && EndsRightly(r.outcome, r.trace, |models|, before)
  }

  lemma {:induction false} AttemptsArePrefix(g: Setting, charges: map<string, Charges>, request: Request, models: seq<LLMModel>,
                                             index: nat, retryable: bool)
    ensures FollowsList(RunAttempts(g, charges, request, models, index, retryable), models, retryable)
    decreases |models|
  {
    if models != [] {
      var t := TakeTurn(g, charges, request, models[0], index);
      TurnShape(g, charges, request, models[0], index);
      if t.next.GoOn? {
        var before := retryable || t.attempt.fate.Dispatched?;
        var rest := RunAttempts(g, t.charges, request, models[1..], index + 1, before);
        AttemptsArePrefix(g, t.charges, request, models[1..], index + 1, before);
        EndsOneLater(rest.outcome, t.attempt, rest.trace, |models| - 1, retryable);
      }
    }
  }

  // ---- conservation and the bound ----

  ghost function Accumulated(charges: map<string, Charges>, executionId: string): Charge {
    Total(Bucket(charges, executionId))
  }

  /** `sum` adds up: nothing is zero, and a new key adds its charge. */
  ghost predicate AddsUp(sum: Sum) {
    && sum(map[]) == Zero
    && forall m: Charges, k: string, c: Charge {:trigger sum(m[k := c])} :: k !in m ==> sum(m[k := c]) == Plus(c, sum(m))
  }

  ghost function Totals(): Sum {
    (m: Charges) => Total(m)
  }

  lemma TotalAddsUp()
    ensures AddsUp(Totals())
  {
    forall m: Charges, k: string, c: Charge | k !in m ensures Total(m[k := c]) == Plus(c, Total(m)) {
      TotalOfNew(m, k, c);
    }
  }

  function Minus(a: Charge, b: Charge): Charge {
    Charge(a.costUsd - b.costUsd, a.tokens - b.tokens)
  }

  function SumHeld(trace: seq<Attempt>): Charge {
    if trace == [] then Zero else Plus(trace[0].actual, SumHeld(trace[1..]))
  }

  /** The latest dispatched attempt, if any. */
  function LastDispatched(trace: seq<Attempt>): Option<Attempt> {
    if trace == [] then None
    else
      var later := LastDispatched(trace[1..]);
      if later.Some? then later else if trace[0].fate.Dispatched? then Some(trace[0]) else None
  }

  lemma TraceCons(a: Attempt, rest: seq<Attempt>)
    ensures SumHeld([a] + rest) == Plus(a.actual, SumHeld(rest))
    ensures LastDispatched([a] + rest) ==
            if LastDispatched(rest).Some? then LastDispatched(rest) else if a.fate.Dispatched? then Some(a) else None
  {
    assert ([a] + rest)[1..] == rest;
  }

  lemma {:induction false} TraceAppend(first: seq<Attempt>, rest: seq<Attempt>)
    ensures SumHeld(first + rest) == Plus(SumHeld(first), SumHeld(rest))
    ensures LastDispatched(first + rest) == if LastDispatched(rest).Some? then LastDispatched(rest) else LastDispatched(first)
  {
    if first == [] {
      assert [] + rest == rest;
    } else {
      assert first + rest == [first[0]] + (first[1..] + rest);
      TraceAppend(first[1..], rest);
      TraceCons(first[0], first[1..] + rest);
    }
  }

  /** No charge in the bucket uses a key from `index` on. */
  ghost predicate Unused(bucket: Charges, key: nat -> string, index: nat) {
    forall k: nat :: k >= index ==> key(k) !in bucket
  }

  /** One turn on the execution's bucket: only a dispatched attempt changes it, under its
      own key, and it was admitted with its estimate. */
  predicate TurnOn(sum: Sum, before: Charges, after: Charges, budget: Limit, a: Attempt) {
    if a.fate.Dispatched? then
      && Within(Plus(sum(before), a.estimate), budget)
      && (if CertainlyFree(a.fate.reply) then after == before && a.actual == Zero else after == before[a.key := a.actual])
    else after == before && a.actual == Zero
  }

  lemma TurnBucket(g: Setting, charges: map<string, Charges>, request: Request, m: LLMModel, index: nat)
    requires g.key(index) !in Bucket(charges, request.executionId) && request.budget.Some?
    ensures var t := TakeTurn(g, charges, request, m, index);
            && t.attempt.key == g.key(index)
            && TurnOn(g.sum, Bucket(charges, request.executionId), Bucket(t.charges, request.executionId), request.budget.value, t.attempt)
  {
    var key, estimate, bucket := g.key(index), Estimate(request, m), Bucket(charges, request.executionId);
    assert bucket[key := estimate] - {key} == bucket;
    SettledBucket(Recorded(charges, request.executionId, key, estimate), request, m, key, g.situation(index).reply);
  }

  lemma SettledBucket(charges: map<string, Charges>, request: Request, m: LLMModel, key: string, reply: Reply)
    requires request.executionId in charges && key in charges[request.executionId]
    requires request.budget.Some? && charges[request.executionId][key] == Estimate(request, m)
    ensures var bucket := charges[request.executionId];
            Bucket(Settle(charges, request, m, key, reply), request.executionId) ==
              if CertainlyFree(reply) then bucket - {key} else bucket[key := Held(request, m, reply)]
    ensures CertainlyFree(reply) ==> Held(request, m, reply) == Zero
  {
  }

  /** From total `before` some attempts lead to total `after`: they add what they hold,
      and the latest dispatched one had been admitted within the budget. */
  predicate Accounts(before: Charge, after: Charge, budget: Limit, held: Charge, last: Option<Attempt>) {
    && after == Plus(held, before)
    && match last
       case None => after == before
       case Some(a) => Within(Minus(after, Minus(a.actual, a.estimate)), budget)
  }

  function DispatchedOnly(a: Attempt): Option<Attempt> {
    if a.fate.Dispatched? then Some(a) else None
  }

  lemma TurnAccounts(sum: Sum, before: Charges, after: Charges, budget: Limit, a: Attempt)
    requires AddsUp(sum) && a.key !in before && TurnOn(sum, before, after, budget, a)
    ensures Accounts(sum(before), sum(after), budget, a.actual, DispatchedOnly(a))
  {
  }

  lemma TurnKeepsUnused(sum: Sum, before: Charges, after: Charges, budget: Limit, a: Attempt, key: nat -> string, from: nat)
    requires TurnOn(sum, before, after, budget, a) && Unused(before, key, from)
    requires forall k: nat :: k >= from ==> key(k) != a.key
    ensures Unused(after, key, from)
  {
  }

  lemma AccountsCompose(x: Charge, y: Charge, z: Charge, budget: Limit, held1: Charge, last1: Option<Attempt>, held2: Charge, last2: Option<Attempt>)
    requires Accounts(x, y, budget, held1, last1) && Accounts(y, z, budget, held2, last2)
    ensures Accounts(x, z, budget, Plus(held1, held2), if last2.Some? then last2 else last1)
  {
  }

  ghost predicate DistinctKeys(key: nat -> string) {
    forall i: nat, j: nat :: i != j ==> key(i) != key(j)
  }

  /** Every turn of the run finds its key unused. */
  predicate KeysFresh(g: Setting, charges: map<string, Charges>, request: Request, models: seq<LLMModel>, index: nat)
    decreases |models|
  {
    models == [] ||
    (g.key(index) !in Bucket(charges, request.executionId) &&
     var t := TakeTurn(g, charges, request, models[0], index);
     t.next.GoOn? ==> KeysFresh(g, t.charges, request, models[1..], index + 1))
  }

  lemma {:induction false} DistinctKeysAreFresh(g: Setting, charges: map<string, Charges>, request: Request, models: seq<LLMModel>, index: nat)
    requires DistinctKeys(g.key) && request.budget.Some?
    requires Unused(Bucket(charges, request.executionId), g.key, index)
    ensures KeysFresh(g, charges, request, models, index)
    decreases |models|
  {
    if models != [] {
      var t := TakeTurn(g, charges, request, models[0], index);
      TurnBucket(g, charges, request, models[0], index);
      TurnKeepsUnused(g.sum, Bucket(charges, request.executionId), Bucket(t.charges, request.executionId), request.budget.value,
                      t.attempt, g.key, index + 1);
      if t.next.GoOn? {
        DistinctKeysAreFresh(g, t.charges, request, models[1..], index + 1);
      }
    }
  }

  lemma FirstTurnAccounts(g: Setting, charges: map<string, Charges>, request: Request, m: LLMModel, index: nat)
    requires AddsUp(g.sum) && request.budget.Some? && g.key(index) !in Bucket(charges, request.executionId)
    ensures var t := TakeTurn(g, charges, request, m, index);
            Accounts(g.sum(Bucket(charges, request.executionId)), g.sum(Bucket(t.charges, request.executionId)), request.budget.value,
                     t.attempt.actual, DispatchedOnly(t.attempt))
  {
    var t := TakeTurn(g, charges, request, m, index);
    TurnBucket(g, charges, request, m, index);
    TurnAccounts(g.sum, Bucket(charges, request.executionId), Bucket(t.charges, request.executionId), request.budget.value, t.attempt);
  }

  /** A turn followed by the rest of the loop. */
  lemma TurnThenRest(x: Charge, y: Charge, z: Charge, budget: Limit, a: Attempt, rest: seq<Attempt>)
    requires Accounts(x, y, budget, a.actual, DispatchedOnly(a))
    requires Accounts(y, z, budget, SumHeld(rest), LastDispatched(rest))
    ensures Accounts(x, z, budget, SumHeld([a] + rest), LastDispatched([a] + rest))
  {
    AccountsCompose(x, y, z, budget, a.actual, DispatchedOnly(a), SumHeld(rest), LastDispatched(rest));
    TraceCons(a, rest);
  }

  /** Every turn of the run, taken alone, is accounted for. */
  predicate TurnsAccount(g: Setting, charges: map<string, Charges>, request: Request, models: seq<LLMModel>, index: nat)
    requires request.budget.Some?
    decreases |models|
  {
    models == [] ||
    (var t := TakeTurn(g, charges, request, models[0], index);
     && Accounts(g.sum(Bucket(charges, request.executionId)), g.sum(Bucket(t.charges, request.executionId)), request.budget.value,
                 t.attempt.actual, DispatchedOnly(t.attempt))
     && (t.next.GoOn? ==> TurnsAccount(g, t.charges, request, models[1..], index + 1)))
  }

  lemma {:induction false} FreshTurnsAccount(g: Setting, charges: map<string, Charges>, request: Request, models: seq<LLMModel>, index: nat)
    requires AddsUp(g.sum) && request.budget.Some? && KeysFresh(g, charges, request, models, index)
    ensures TurnsAccount(g, charges, request, models, index)
    decreases |models|
  {
    if models != [] {
      var t := TakeTurn(g, charges, request, models[0], index);
      FirstTurnAccounts(g, charges, request, models[0], index);
      if t.next.GoOn? {
        FreshTurnsAccount(g, t.charges, request, models[1..], index + 1);
      }
    }
  }

  lemma {:induction false} RunAccounts(g: Setting, charges: map<string, Charges>, request: Request, models: seq<LLMModel>, index: nat,
                                       retryable: bool)
    requires request.budget.Some? && TurnsAccount(g, charges, request, models, index)
    ensures var r := RunAttempts(g, charges, request, models, index, retryable);
            Accounts(g.sum(Bucket(charges, request.executionId)), g.sum(Bucket(r.charges, request.executionId)), request.budget.value,
                     SumHeld(r.trace), LastDispatched(r.trace))
    decreases |models|
  {
    if models != [] {
      var t := TakeTurn(g, charges, request, models[0], index);
      var x, y := g.sum(Bucket(charges, request.executionId)), g.sum(Bucket(t.charges, request.executionId));
      if t.next.GoOn? {
        RunAccounts(g, t.charges, request, models[1..], index + 1, retryable || t.attempt.fate.Dispatched?);
        var rest := RunAttempts(g, t.charges, request, models[1..], index + 1, retryable || t.attempt.fate.Dispatched?);
        TurnThenRest(x, y, g.sum(Bucket(rest.charges, request.executionId)), request.budget.value, t.attempt, rest.trace);
      } else {
        TurnThenRest(x, y, y, request.budget.value, t.attempt, []);
        assert [t.attempt] + [] == [t.attempt];
      }
    }
  }

  lemma {:induction false} RunKeepsUnused(g: Setting, charges: map<string, Charges>, request: Request, models: seq<LLMModel>, index: nat,
                                          retryable: bool, key: nat -> string)
    requires DistinctKeys(g.key) && request.budget.Some?
    requires Unused(Bucket(charges, request.executionId), g.key, index)
    requires Unused(Bucket(charges, request.executionId), key, 1) && forall i: nat, j: nat :: g.key(i) != key(j)
    ensures Unused(Bucket(RunAttempts(g, charges, request, models, index, retryable).charges, request.executionId), key, 1)
    decreases |models|
  {
    if models != [] {
      var t := TakeTurn(g, charges, request, models[0], index);
      var budget, x, y := request.budget.value, Bucket(charges, request.executionId), Bucket(t.charges, request.executionId);
      TurnBucket(g, charges, request, models[0], index);
      TurnKeepsUnused(g.sum, x, y, budget, t.attempt, key, 1);
      if t.next.GoOn? {
        TurnKeepsUnused(g.sum, x, y, budget, t.attempt, g.key, index + 1);
        RunKeepsUnused(g, t.charges, request, models[1..], index + 1, retryable || t.attempt.fate.Dispatched?, key);
      }
    }
  }

  // ---- many invocations, one execution ----

  /** How a call turns the charges it finds into a result. */
  type Runner = (map<string, Charges>, Call) -> Result

  function RunnerOf(sum: Sum): Runner {
    (charges: map<string, Charges>, c: Call) => InvokeSpec(sum, charges, c)
  }

  /** Sequential invocations: final charges and all attempts made. */
  function Session(run: Runner, charges: map<string, Charges>, calls: seq<Call>): Result
    decreases |calls|
  {
    if calls == [] then Result(charges, [], NoEligibleModel)
    else
      var first := run(charges, calls[0]);
      var rest := Session(run, first.charges, calls[1..]);
      Result(rest.charges, first.trace + rest.trace, rest.outcome)
  }

  predicate SameExecution(calls: seq<Call>, executionId: string, budget: Limit) {
    && (forall i :: 0 <= i < |calls| ==> calls[i].request.executionId == executionId && calls[i].request.budget == Some(budget))
    && (forall i, j :: 0 <= i < j < |calls| ==> calls[i].request.llmCallId != calls[j].request.llmCallId)
  }

  ghost predicate AllUnused(bucket: Charges, calls: seq<Call>) {
    forall i :: 0 <= i < |calls| ==> Unused(bucket, AttemptKeys(calls[i].request.llmCallId), 1)
  }

  lemma CallKeysDistinct(id: string)
    ensures DistinctKeys(AttemptKeys(id))
  {
    var key := AttemptKeys(id);
    forall i: nat, j: nat | i != j ensures key(i) != key(j) {
      if Tagged(id, ':', i) == Tagged(id, ':', j) { TaggedInjective(id, i, id, j, ':'); }
    }
  }

  lemma CallsShareNoKey(id: string, other: string)
    requires id != other
    ensures forall i: nat, j: nat :: AttemptKeys(id)(i) != AttemptKeys(other)(j)
  {
    forall i: nat, j: nat ensures AttemptKeys(id)(i) != AttemptKeys(other)(j) {
      if Tagged(id, ':', i) == Tagged(other, ':', j) { TaggedInjective(id, i, other, j, ':'); }
    }
  }

  lemma RunOnDistinctKeys(g: Setting, charges: map<string, Charges>, request: Request, models: seq<LLMModel>)
    requires AddsUp(g.sum) && DistinctKeys(g.key) && request.budget.Some?
    requires Unused(Bucket(charges, request.executionId), g.key, 1)
    ensures TurnsAccount(g, charges, request, models, 1)
  {
    DistinctKeysAreFresh(g, charges, request, models, 1);
    FreshTurnsAccount(g, charges, request, models, 1);
  }

  lemma RankedAccounts(g: Setting, charges: map<string, Charges>, request: Request, ranking: Ranking, maxAttempts: Option<int>)
    requires request.budget.Some?
    requires ranking.Ranked? ==> TurnsAccount(g, charges, request, Attempted(ranking.models, maxAttempts), 1)
    ensures var r := RunRanked(g, charges, request, ranking, maxAttempts);
            Accounts(g.sum(Bucket(charges, request.executionId)), g.sum(Bucket(r.charges, request.executionId)), request.budget.value,
                     SumHeld(r.trace), LastDispatched(r.trace))
  {
    if ranking.Ranked? {
      RunAccounts(g, charges, request, Attempted(ranking.models, maxAttempts), 1, false);
    }
  }

  lemma RankedKeepsUnused(g: Setting, charges: map<string, Charges>, request: Request, ranking: Ranking, maxAttempts: Option<int>, key: nat -> string)
    requires DistinctKeys(g.key) && request.budget.Some?
    requires Unused(Bucket(charges, request.executionId), g.key, 1)
    requires Unused(Bucket(charges, request.executionId), key, 1) && forall i: nat, j: nat :: g.key(i) != key(j)
    ensures Unused(Bucket(RunRanked(g, charges, request, ranking, maxAttempts).charges, request.executionId), key, 1)
  {
    if ranking.Ranked? {
      RunKeepsUnused(g, charges, request, Attempted(ranking.models, maxAttempts), 1, false, key);
    }
  }

  lemma LaterCallsStayUnused(sum: Sum, charges: map<string, Charges>, calls: seq<Call>, executionId: string, budget: Limit)
    requires calls != [] && SameExecution(calls, executionId, budget) && AllUnused(Bucket(charges, executionId), calls)
    ensures SameExecution(calls[1..], executionId, budget)
    ensures AllUnused(Bucket(InvokeSpec(sum, charges, calls[0]).charges, executionId), calls[1..])
  {
    var c := calls[0];
    CallKeysDistinct(c.request.llmCallId);
    forall i | 0 <= i < |calls[1..]|
      ensures Unused(Bucket(InvokeSpec(sum, charges, c).charges, executionId), AttemptKeys(calls[1..][i].request.llmCallId), 1)
    {
      var later := calls[i + 1].request.llmCallId;
      CallsShareNoKey(c.request.llmCallId, later);
      RankedKeepsUnused(SettingOf(sum, c), charges, c.request, RankCandidates(c.catalog, c.q, c.idBefore), c.maxAttempts, AttemptKeys(later));
    }
  }

  lemma {:induction false} SessionAccounts(sum: Sum, charges: map<string, Charges>, calls: seq<Call>, executionId: string, budget: Limit)
    requires AddsUp(sum) && SameExecution(calls, executionId, budget) && AllUnused(Bucket(charges, executionId), calls)
    ensures var r := Session(RunnerOf(sum), charges, calls);
            Accounts(sum(Bucket(charges, executionId)), sum(Bucket(r.charges, executionId)), budget, SumHeld(r.trace), LastDispatched(r.trace))
    decreases |calls|
  {
    if calls != [] {
      var c := calls[0];
      var first := InvokeSpec(sum, charges, c);
      CallKeysDistinct(c.request.llmCallId);
      var g, ranking := SettingOf(sum, c), RankCandidates(c.catalog, c.q, c.idBefore);
      if ranking.Ranked? {
        RunOnDistinctKeys(g, charges, c.request, Attempted(ranking.models, c.maxAttempts));
      }
      RankedAccounts(g, charges, c.request, ranking, c.maxAttempts);
      LaterCallsStayUnused(sum, charges, calls, executionId, budget);
      SessionAccounts(sum, first.charges, calls[1..], executionId, budget);
      var rest := Session(RunnerOf(sum), first.charges, calls[1..]);
      AccountsCompose(sum(Bucket(charges, executionId)), sum(Bucket(first.charges, executionId)), sum(Bucket(rest.charges, executionId)), budget,
                      SumHeld(first.trace), LastDispatched(first.trace), SumHeld(rest.trace), LastDispatched(rest.trace));
      TraceAppend(first.trace, rest.trace);
    }
  }

  /** The total is what the attempts hold, and within the budget but for the overshoot of the
      latest dispatched attempt. */
  predicate ConservedAndBounded(total: Charge, trace: seq<Attempt>, budget: Limit) {
    && total == SumHeld(trace)
    && match LastDispatched(trace)
       case None => total == Zero
       case Some(last) =>
         && total.costUsd <= budget.maxCostUsd + (last.actual.costUsd - last.estimate.costUsd)
         && total.tokens <= budget.maxTokens + (last.actual.tokens - last.estimate.tokens)
  }

  /** Main theorem: after any sequence of invocations of one execution with fresh call ids,
      the accumulated charge is exactly what the attempts hold (actual usage where known,
      the estimate where submitted with unknown usage or after an unexpected exception,
      nothing otherwise), and it exceeds the budget by at most what the latest dispatched
      attempt used beyond its own estimate, in cost and in tokens. */
  lemma BudgetConservedAndBounded(calls: seq<Call>, executionId: string, budget: Limit)
    requires SameExecution(calls, executionId, budget)
    ensures var r := Session(RunnerOf(Totals()), map[], calls);
            ConservedAndBounded(Accumulated(r.charges, executionId), r.trace, budget)
  {
    TotalAddsUp();
    SessionAccounts(Totals(), map[], calls, executionId, budget);
  }
}
