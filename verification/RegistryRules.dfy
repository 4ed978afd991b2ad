/** Resolution and the changes of the registry, told row by row
    (packages/tool-gateway/src/tool-resolution.ts:23-100 and in-memory-tool-registry.ts:6-38, 102-132). */
module RegistryRules {
  import opened Foundations
  import opened ToolContract
  import opened ToolResolver
  import opened ToolRegistry

  // ---- what a reference resolves to ----

  predicate Runs(d: ToolDefinition) {
    d.enabled && d.lifecycle == Active
  }

  /** A row of the scope with the tool and the version. */
  predicate Row(defs: Catalog, scope: Option<string>, toolId: string, version: string, d: ToolDefinition) {
    d in defs && d.tenantId == scope && d.toolId == toolId && d.version == version
  }

  predicate NoRow(defs: Catalog, scope: Option<string>, toolId: string, version: string) {
    forall d :: d in defs ==> !Row(defs, scope, toolId, version, d)
  }

  /** By tool and version: the tenant's own row goes before the global one, even when it cannot run. */
  lemma VersionResolvesExactly(defs: Catalog, tenantId: string, toolId: string, version: string, own: ToolDefinition, shared: ToolDefinition)
    requires WellFormed(defs) && toolId != "" && version != ""
    ensures var r := ResolveExecutable(defs, tenantId, Reference(None, Some(toolId), Some(version)));
            && (Row(defs, Some(tenantId), toolId, version, own) ==> r == if Runs(own) then Resolved(own) else ShadowedByTenant)
            && (NoRow(defs, Some(tenantId), toolId, version) && Row(defs, None, toolId, version, shared) ==>
                  r == if Runs(shared) then Resolved(shared) else NotExecutable)
            && (NoRow(defs, Some(tenantId), toolId, version) && NoRow(defs, None, toolId, version) ==> r == NotFound)
  {
    var candidates := FindByToolVersion(defs, tenantId, toolId, version);
    var scoped := OfTool(candidates, toolId, version);
    assert forall d :: d in scoped <==> d in defs && d.toolId == toolId && d.version == version && Visible(d, tenantId);
    if Row(defs, Some(tenantId), toolId, version, own) {
      FoundInScope(defs, scoped, own);
    } else if Row(defs, None, toolId, version, shared) {
      FoundInScope(defs, scoped, shared);
    }
  }

  predicate SeenBy(tenantId: string, d: ToolDefinition) {
    d.tenantId.None? || d.tenantId.value == tenantId
  }

  /** By id: a row of another tenant is as good as none; a row of the tenant with the same tool and
      version shadows a global one; and what is left runs or does not. */
  lemma IdResolvesExactly(defs: Catalog, tenantId: string, id: string, toolId: Option<string>, version: Option<string>, d: ToolDefinition)
    requires WellFormed(defs) && id != ""
    ensures var r := ResolveExecutable(defs, tenantId, Reference(Some(id), toolId, version));
            && ((forall e :: e in defs && e.toolDefinitionId == id ==> !SeenBy(tenantId, e)) ==> r == NotFound)
            && (d in defs && d.toolDefinitionId == id && SeenBy(tenantId, d) ==>
                  if d.tenantId.None? && !NoRow(defs, Some(tenantId), d.toolId, d.version) then r == ShadowedByTenant
                  else r == if Runs(d) then Resolved(d) else NotExecutable)
  {
    var ref := Reference(Some(id), toolId, version);
    var candidates := Candidates(defs, tenantId, ref);
    var found := FindById(defs, id);
    if d in defs && d.toolDefinitionId == id && SeenBy(tenantId, d) {
      FoundById(defs, defs, d);
      IdCandidate(defs, tenantId, d);
    } else if forall e :: e in defs && e.toolDefinitionId == id ==> !SeenBy(tenantId, e) {
      assert candidates == [];
    }
  }

  lemma IdCandidate(defs: Catalog, tenantId: string, d: ToolDefinition)
    requires WellFormed(defs) && d in defs && SeenBy(tenantId, d)
    ensures var r := ResolveExact(d.toolDefinitionId, FindByToolVersion(defs, tenantId, d.toolId, d.version), tenantId);
            if d.tenantId.None? && !NoRow(defs, Some(tenantId), d.toolId, d.version) then r == ShadowedByTenant
            else r == if Runs(d) then Resolved(d) else NotExecutable
  {
    var candidates := FindByToolVersion(defs, tenantId, d.toolId, d.version);
    FoundById(defs, candidates, d);
    var own := FindInScope(candidates, Some(tenantId));
    if d.tenantId.Some? {
      FoundInScope(defs, candidates, d);
    } else {
      if own.Some? {
        assert Row(defs, Some(tenantId), d.toolId, d.version, own.value);
        SameIdSame(defs, own.value, d);
      } else {
        assert forall e :: e in defs && Row(defs, Some(tenantId), d.toolId, d.version, e) ==> e in candidates;
      }
    }
  }

  /** Without an id: a tool needs a version, and a version alone means nothing. */
  lemma OtherReferencesResolve(defs: Catalog, tenantId: string, ref: Reference)
    requires ref.toolDefinitionId.None? || ref.toolDefinitionId.value == ""
    ensures var r := ResolveExecutable(defs, tenantId, ref);
            && (ref.toolId.None? || ref.toolId.value == "" ==> r == Ambiguous)
            && (ref.toolId.Some? && ref.toolId.value != "" && (ref.version.None? || ref.version.value == "") ==> r == VersionRequired)
  {
  }

  // ---- what a change does ----

  predicate IsStepForward(from: Lifecycle, to: Lifecycle) {
    (from == Draft && to == Active) || (from == Active && to == Deprecated) || (from == Deprecated && to == Retired)
  }

  /** A definition is taken exactly when no row has its id, and none its scope, tool and version; it
      stands last, a draft unless a lifecycle is given. */
  lemma RegisterExactly(defs: Catalog, d: ToolDefinition, lifecycle: Option<Lifecycle>)
    ensures var after := Step(defs, Register(d, lifecycle));
            if forall i :: 0 <= i < |defs| ==>
                 && defs[i].toolDefinitionId != d.toolDefinitionId
                 && !(defs[i].tenantId == d.tenantId && defs[i].toolId == d.toolId && defs[i].version == d.version)
            then after == defs + [d.(lifecycle := if lifecycle.Some? then lifecycle.value else Draft)]
            else after == defs
  {
  }

  /** The row with the id, if the tenant owns it. */
  predicate OwnRow(defs: Catalog, tenantId: string, id: string, i: nat) {
    i < |defs| && defs[i].toolDefinitionId == id && defs[i].tenantId == Some(tenantId)
  }

  /** A lifecycle moves exactly one step forward, and only on the tenant's own row; nothing else changes. */
  lemma TransitionExactly(defs: Catalog, tenantId: string, id: string, to: Lifecycle)
    requires WellFormed(defs)
    ensures var after := Step(defs, TransitionLifecycle(tenantId, id, to));
            && (forall i: nat :: OwnRow(defs, tenantId, id, i) ==>
                  after == if IsStepForward(defs[i].lifecycle, to) then defs[i := defs[i].(lifecycle := to)] else defs)
            && ((forall i: nat :: !OwnRow(defs, tenantId, id, i)) ==> after == defs)
  {
    OwnRowIsFound(defs, tenantId, id);
  }

  lemma EnableExactly(defs: Catalog, tenantId: string, id: string, enabled: bool)
    requires WellFormed(defs)
    ensures var after := Step(defs, SetEnabled(tenantId, id, enabled));
            && (forall i: nat :: OwnRow(defs, tenantId, id, i) ==> after == defs[i := defs[i].(enabled := enabled)])
            && ((forall i: nat :: !OwnRow(defs, tenantId, id, i)) ==> after == defs)
  {
    OwnRowIsFound(defs, tenantId, id);
  }

  lemma OwnRowIsFound(defs: Catalog, tenantId: string, id: string)
    requires WellFormed(defs)
    ensures forall i: nat :: OwnRow(defs, tenantId, id, i) ==> IndexOf(defs, id) == i
    ensures Mutable(defs, tenantId, id) <==> exists i: nat :: OwnRow(defs, tenantId, id, i)
  {
    forall i: nat | OwnRow(defs, tenantId, id, i) ensures IndexOf(defs, id) == i {
    }
    if Mutable(defs, tenantId, id) { assert OwnRow(defs, tenantId, id, IndexOf(defs, id)); }
  }
}
