/** Per-execution budget accounting (packages/llm-gateway/src/execution-budget-ledger.ts).
    Costs are reals: rounding is not modelled. */
module BudgetLedger {

  datatype Charge = Charge(costUsd: real, tokens: int)

  datatype Limit = Limit(maxCostUsd: real, maxTokens: int)

  const Zero: Charge := Charge(0.0, 0)

  function Plus(a: Charge, b: Charge): Charge {
    Charge(a.costUsd + b.costUsd, a.tokens + b.tokens)
  }

  /** Cost and tokens both stay within the limit. */
  predicate Within(c: Charge, limit: Limit) {
    c.costUsd <= limit.maxCostUsd && c.tokens <= limit.maxTokens
  }

  type Charges = map<string, Charge>

  function Bucket(charges: map<string, Charges>, executionId: string): Charges {
    if executionId in charges then charges[executionId] else map[]
  }

  ghost function Total(m: Charges): Charge {
    if m == map[] then Zero
    else
      var k :| k in m;
      Plus(m[k], Total(m - {k}))
  }

  lemma PlusSwaps(a: Charge, b: Charge, c: Charge)
    ensures Plus(a, Plus(b, c)) == Plus(b, Plus(a, c))
  {
  }

  lemma {:induction false} TotalSplit(m: Charges, k: string)
    requires k in m
    ensures Total(m) == Plus(m[k], Total(m - {k}))
  {
    var j :| j in m && Total(m) == Plus(m[j], Total(m - {j}));
    if j != k {
      TotalSplit(m - {j}, k);
      TotalSplit(m - {k}, j);
      assert m - {j} - {k} == m - {k} - {j};
      var rest := Total(m - {j} - {k});
      assert Total(m - {j}) == Plus(m[k], rest) && Total(m - {k}) == Plus(m[j], rest);
      PlusSwaps(m[j], m[k], rest);
    } else {
      assert Total(m) == Plus(m[k], Total(m - {k}));
    }
  }

  /** A new charge adds itself and taking it back restores the rest. */
  lemma TotalOfNew(m: Charges, k: string, c: Charge)
    requires k !in m
    ensures Total(m[k := c]) == Plus(c, Total(m))
    ensures m[k := c] - {k} == m
  {
    TotalSplit(m[k := c], k);
    assert m[k := c] - {k} == m;
  }

  class InMemoryExecutionBudgetLedger {
    var charges: map<string, Charges>

    constructor ()
      ensures charges == map[]
    {
      charges := map[];
    }

    method GetAccumulated(executionId: string) returns (sum: Charge)
      ensures sum == Total(Bucket(charges, executionId))
    {
      if executionId !in charges {
        return Zero;
      }
      var bucket := charges[executionId];
      var costUsd, tokens := 0.0, 0;
      var left := bucket.Keys;
      assert (map k | k in left :: bucket[k]) == bucket;
      while left != {}
        invariant left <= bucket.Keys
        invariant Plus(Charge(costUsd, tokens), Total(map k | k in left :: bucket[k])) == Total(bucket)
        decreases left
      {
        var k :| k in left;
        ghost var rest := map j | j in left :: bucket[j];
        TotalSplit(rest, k);
        assert rest - {k} == map j | j in left - {k} :: bucket[j];
        costUsd, tokens := costUsd + bucket[k].costUsd, tokens + bucket[k].tokens;
        left := left - {k};
      }
      sum := Charge(costUsd, tokens);
    }

    /** Recorded exactly when the accumulated charges plus the estimate fit the budget. */
    method TryReserve(executionId: string, attemptKey: string, estimate: Charge, budget: Limit) returns (allowed: bool)
      modifies this
      ensures allowed == Within(Plus(Total(Bucket(old(charges), executionId)), estimate), budget)
      ensures charges == if allowed then Recorded(old(charges), executionId, attemptKey, estimate) else old(charges)
    {
      var accumulated := GetAccumulated(executionId);
      if accumulated.costUsd + estimate.costUsd > budget.maxCostUsd {
        return false;
      }
      if accumulated.tokens + estimate.tokens > budget.maxTokens {
        return false;
      }
      Record(executionId, attemptKey, estimate);
      allowed := true;
    }

    method Record(executionId: string, attemptKey: string, c: Charge)
      modifies this
      ensures charges == Recorded(old(charges), executionId, attemptKey, c)
    {
      if executionId !in charges {
        charges := charges[executionId := map[]];
      }
      charges := charges[executionId := charges[executionId][attemptKey := c]];
    }

    method CommitActual(executionId: string, attemptKey: string, actual: Charge)
      modifies this
      ensures charges == Recorded(old(charges), executionId, attemptKey, actual)
    {
      Record(executionId, attemptKey, actual);
    }

    method Release(executionId: string, attemptKey: string)
      modifies this
      ensures charges == Released(old(charges), executionId, attemptKey)
    {
      if executionId in charges {
        charges := charges[executionId := charges[executionId] - {attemptKey}];
      }
    }

    method Retain(executionId: string, attemptKey: string)
      ensures charges == old(charges)
    {
    }
  }

  function Recorded(charges: map<string, Charges>, executionId: string, attemptKey: string, c: Charge): map<string, Charges> {
    charges[executionId := Bucket(charges, executionId)[attemptKey := c]]
  }

  function Released(charges: map<string, Charges>, executionId: string, attemptKey: string): map<string, Charges> {
    if executionId in charges then charges[executionId := charges[executionId] - {attemptKey}] else charges
  }
}
