/** The visible semantics of the claim store
    (packages/application/src/test-doubles/idempotency-store.ts). Expiry times are
    stored by the original but never consulted by `claim`, so they are not kept. */
module IdempotencyStore {
  import opened Foundations
  import opened ToolContract

  datatype ClaimStatus = Pending | Completed | FailedClaim

  datatype Record = Record(result: Option<StoredOutcome>, status: ClaimStatus)

  datatype ClaimResult = Claimed | Existing(record: Record)

  function StoreKey(tenantId: string, scope: string, key: string): string {
    tenantId + ":" + scope + ":" + key
  }

  /** Only a failure that provably submitted nothing may be claimed again. */
  predicate Reclaimable(r: Record) {
    r.status == FailedClaim && r.result.Some? && !r.result.value.submitted
  }

  predicate Claimable(entries: map<string, Record>, k: string) {
    k in entries ==> Reclaimable(entries[k])
  }

  const Fresh: Record := Record(None, Pending)

  class InMemoryIdempotencyStore {
    var entries: map<string, Record>

    constructor ()
      ensures entries == map[]
    {
      entries := map[];
    }

    method Get(tenantId: string, scope: string, key: string) returns (r: Option<Record>)
      ensures r.Some? <==> StoreKey(tenantId, scope, key) in entries
      ensures r.Some? ==> r.value == entries[StoreKey(tenantId, scope, key)]
    {
      var k := StoreKey(tenantId, scope, key);
      if k !in entries {
        return None;
      }
      r := Some(entries[k]);
    }

    method Set(tenantId: string, scope: string, key: string, result: StoredOutcome, status: Option<ClaimStatus>)
      modifies this
      ensures var s := if status.Some? then status.value else Completed;
              entries == old(entries)[StoreKey(tenantId, scope, key) := Record(Some(result), s)]
    {
      var k := StoreKey(tenantId, scope, key);
      entries := entries[k := Record(Some(result), if status.Some? then status.value else Completed)];
    }

    method Claim(tenantId: string, scope: string, key: string) returns (r: ClaimResult)
      modifies this
      ensures var k := StoreKey(tenantId, scope, key);
              if Claimable(old(entries), k)
              then r == Claimed && entries == old(entries)[k := Fresh]
              else r == Existing(old(entries)[k]) && entries == old(entries)
    {
      var k := StoreKey(tenantId, scope, key);
      if k in entries {
        var existing := entries[k];
        var canReclaim := existing.status == FailedClaim && existing.result.Some? && !existing.result.value.submitted;
        if !canReclaim {
          return Existing(existing);
        }
      }
      entries := entries[k := Fresh];
      r := Claimed;
    }

    method Clear()
      modifies this
      ensures entries == map[]
    {
      entries := map[];
    }
  }

  /** Tenants whose ids contain no colon never share a claim. */
  lemma TenantsNeverShareAClaim(t1: string, s1: string, k1: string, t2: string, s2: string, k2: string)
    requires Without(t1, ':') && Without(t2, ':')
    requires StoreKey(t1, s1, k1) == StoreKey(t2, s2, k2)
    ensures t1 == t2
  {
    var rest1, rest2 := s1 + ":" + k1, s2 + ":" + k2;
    assert StoreKey(t1, s1, k1) == t1 + [':'] + rest1;
    assert StoreKey(t2, s2, k2) == t2 + [':'] + rest2;
    FirstSeparator(t1, rest1, t2, rest2, ':');
  }
}
