/** Which definition a tool reference means for a tenant
    (packages/tool-gateway/src/tool-resolution.ts:23-100 and in-memory-tool-registry.ts:40-52, 84-100).
    Definitions are listed in the order of their registration. */
module ToolResolver {
  import opened Foundations
  import opened ToolContract

  type Catalog = seq<ToolDefinition>

  datatype Reference = Reference(toolDefinitionId: Option<string>, toolId: Option<string>, version: Option<string>)

  predicate Visible(d: ToolDefinition, tenantId: string) {
    d.tenantId == None || d.tenantId == Some(tenantId)
  }

  predicate Executable(d: ToolDefinition) {
    d.lifecycle == Active && d.enabled
  }

  predicate SameTool(d: ToolDefinition, e: ToolDefinition) {
    d.toolId == e.toolId && d.version == e.version
  }

  // ---- lookups ----

  /** `definitions.get(id)`. */
  function FindById(defs: Catalog, id: string): (r: Option<ToolDefinition>)
    ensures r.Some? ==> r.value in defs && r.value.toolDefinitionId == id
    ensures r.None? ==> forall d :: d in defs ==> d.toolDefinitionId != id
  {
    if defs == [] then None else if defs[0].toolDefinitionId == id then Some(defs[0]) else FindById(defs[1..], id)
  }

  /** `candidates.find((d) => d.tenantId === scope)`. */
  function FindInScope(defs: Catalog, scope: Option<string>): (r: Option<ToolDefinition>)
    ensures r.Some? ==> r.value in defs && r.value.tenantId == scope
    ensures r.None? ==> forall d :: d in defs ==> d.tenantId != scope
  {
    if defs == [] then None else if defs[0].tenantId == scope then Some(defs[0]) else FindInScope(defs[1..], scope)
  }

  /** `candidates.filter((d) => d.toolId === toolId && d.version === version)`. */
  function OfTool(defs: Catalog, toolId: string, version: string): (r: Catalog)
    ensures forall d :: d in r <==> d in defs && d.toolId == toolId && d.version == version
  {
    if defs == [] then []
    else (if defs[0].toolId == toolId && defs[0].version == version then [defs[0]] else []) + OfTool(defs[1..], toolId, version)
  }

  function VisibleTo(defs: Catalog, tenantId: string): (r: Catalog)
    ensures forall d :: d in r <==> d in defs && Visible(d, tenantId)
  {
    if defs == [] then [] else (if Visible(defs[0], tenantId) then [defs[0]] else []) + VisibleTo(defs[1..], tenantId)
  }

  function GetById(defs: Catalog, tenantId: string, id: string): Option<ToolDefinition> {
    var d := FindById(defs, id);
    if d.None? || !Visible(d.value, tenantId) then None else d
  }

  function FindByToolVersion(defs: Catalog, tenantId: string, toolId: string, version: string): Catalog {
    VisibleTo(OfTool(defs, toolId, version), tenantId)
  }

  // ---- resolution ----

  function ResolveExact(id: string, candidates: Catalog, tenantId: string): ToolResolution {
    var exact, tenantDef := FindById(candidates, id), FindInScope(candidates, Some(tenantId));
    if exact.None? || !Visible(exact.value, tenantId) then NotFound
    else if tenantDef.Some? then
      if tenantDef.value.toolDefinitionId != exact.value.toolDefinitionId then ShadowedByTenant
      else if Executable(tenantDef.value) then Resolved(tenantDef.value) else NotExecutable
    else if Executable(exact.value) then Resolved(exact.value) else NotExecutable
  }

  function ResolveVersion(toolId: string, version: string, candidates: Catalog, tenantId: string): ToolResolution {
    var scoped := OfTool(candidates, toolId, version);
    var own, shared := FindInScope(scoped, Some(tenantId)), FindInScope(scoped, None);
    if own.Some? then (if Executable(own.value) then Resolved(own.value) else ShadowedByTenant)
    else if shared.Some? then (if Executable(shared.value) then Resolved(shared.value) else NotExecutable)
    else NotFound
  }

  function ResolveToolDefinition(ref: Reference, candidates: Catalog, tenantId: string): ToolResolution {
    if Given(ref.toolDefinitionId) then ResolveExact(ref.toolDefinitionId.value, candidates, tenantId)
    else if Given(ref.toolId) && !Given(ref.version) then VersionRequired
    else if Given(ref.toolId) && Given(ref.version) then ResolveVersion(ref.toolId.value, ref.version.value, candidates, tenantId)
    else Ambiguous
  }

  function Candidates(defs: Catalog, tenantId: string, ref: Reference): Catalog {
    if Given(ref.toolDefinitionId) then
      var exact := GetById(defs, tenantId, ref.toolDefinitionId.value);
      if exact.Some? then FindByToolVersion(defs, tenantId, exact.value.toolId, exact.value.version) else []
    else if Given(ref.toolId) && Given(ref.version) then FindByToolVersion(defs, tenantId, ref.toolId.value, ref.version.value)
    else []
  }

  function ResolveExecutable(defs: Catalog, tenantId: string, ref: Reference): ToolResolution {
    ResolveToolDefinition(ref, Candidates(defs, tenantId, ref), tenantId)
  }

  // ---- what resolution means ----

  /** Ids are unique, and so are scope, tool and version together. */
  predicate WellFormed(defs: Catalog) {
    forall i, j :: 0 <= i < j < |defs| ==>
      && defs[i].toolDefinitionId != defs[j].toolDefinitionId
      && !(defs[i].tenantId == defs[j].tenantId && SameTool(defs[i], defs[j]))
  }

  /** The definition a tenant is bound to: its own, or the global one when it has none of
      that tool and version. */
  predicate Binds(defs: Catalog, tenantId: string, d: ToolDefinition) {
    && d in defs
    && Visible(d, tenantId)
    && (d.tenantId == None ==> forall e :: e in defs && e.tenantId == Some(tenantId) ==> !SameTool(e, d))
  }

  function ById(d: ToolDefinition): Reference {
    Reference(Some(d.toolDefinitionId), None, None)
  }

  function ByVersion(d: ToolDefinition): Reference {
    Reference(None, Some(d.toolId), Some(d.version))
  }

  lemma SameIdSame(defs: Catalog, d: ToolDefinition, e: ToolDefinition)
    requires WellFormed(defs) && d in defs && e in defs
    ensures d.toolDefinitionId == e.toolDefinitionId ==> d == e
    ensures d.tenantId == e.tenantId && SameTool(d, e) ==> d == e
  {
    var i :| 0 <= i < |defs| && defs[i] == d;
    var j :| 0 <= j < |defs| && defs[j] == e;
  }

  lemma FoundById(defs: Catalog, candidates: Catalog, d: ToolDefinition)
    requires WellFormed(defs) && d in candidates && forall c :: c in candidates ==> c in defs
    ensures FindById(candidates, d.toolDefinitionId) == Some(d)
  {
    SameIdSame(defs, d, FindById(candidates, d.toolDefinitionId).value);
  }

  /** The tenant's own definition among those of one tool and version. */
  lemma FoundInScope(defs: Catalog, candidates: Catalog, d: ToolDefinition)
    requires WellFormed(defs) && d in candidates && forall c :: c in candidates ==> c in defs && SameTool(c, d)
    ensures FindInScope(candidates, d.tenantId) == Some(d)
  {
    SameIdSame(defs, d, FindInScope(candidates, d.tenantId).value);
  }

  lemma ExactMeansBinding(defs: Catalog, tenantId: string, d: ToolDefinition)
    requires WellFormed(defs) && d in defs && Visible(d, tenantId)
    ensures ResolveExact(d.toolDefinitionId, FindByToolVersion(defs, tenantId, d.toolId, d.version), tenantId) == Resolved(d)
            <==> Binds(defs, tenantId, d) && Executable(d)
  {
    var candidates := FindByToolVersion(defs, tenantId, d.toolId, d.version);
    FoundById(defs, candidates, d);
    var own := FindInScope(candidates, Some(tenantId));
    if d.tenantId == Some(tenantId) {
      FoundInScope(defs, candidates, d);
    } else if own.Some? {
      assert own.value in defs && SameTool(own.value, d);
      SameIdSame(defs, own.value, d);
    } else {
      forall e | e in defs && e.tenantId == Some(tenantId) ensures !SameTool(e, d) {
        assert e !in candidates;
      }
    }
  }

  lemma VersionMeansBinding(defs: Catalog, tenantId: string, d: ToolDefinition)
    requires WellFormed(defs) && d in defs && Visible(d, tenantId)
    ensures ResolveVersion(d.toolId, d.version, FindByToolVersion(defs, tenantId, d.toolId, d.version), tenantId) == Resolved(d)
            <==> Binds(defs, tenantId, d) && Executable(d)
  {
    var scoped := OfTool(FindByToolVersion(defs, tenantId, d.toolId, d.version), d.toolId, d.version);
    FoundInScope(defs, scoped, d);
    var own := FindInScope(scoped, Some(tenantId));
    if d.tenantId == None {
      if own.Some? {
        assert own.value in defs && SameTool(own.value, d);
      } else {
        forall e | e in defs && e.tenantId == Some(tenantId) ensures !SameTool(e, d) {
          assert e !in scoped;
        }
      }
    }
  }

  /** The candidates are all the visible definitions of one tool and version. */
  lemma CandidatesOfOneTool(defs: Catalog, tenantId: string, ref: Reference, c: ToolDefinition)
    requires c in Candidates(defs, tenantId, ref)
    ensures Candidates(defs, tenantId, ref) == FindByToolVersion(defs, tenantId, c.toolId, c.version)
    ensures c in defs && Visible(c, tenantId)
  {
  }

  /** A resolved definition is a candidate; a global one only without an own candidate. */
  lemma ResolvedFromCandidates(ref: Reference, candidates: Catalog, tenantId: string, toolId: string, version: string)
    requires forall c :: c in candidates ==> c.toolId == toolId && c.version == version
    requires !Given(ref.toolDefinitionId) && Given(ref.toolId) && Given(ref.version) && candidates != [] ==>
               ref.toolId.value == toolId && ref.version.value == version
    ensures var r := ResolveToolDefinition(ref, candidates, tenantId);
            r.Resolved? ==>
              && r.definition in candidates && Executable(r.definition)
              && (r.definition.tenantId == None ==> forall e :: e in candidates ==> e.tenantId != Some(tenantId))
  {
    if !Given(ref.toolDefinitionId) && Given(ref.toolId) && Given(ref.version) {
      assert forall c :: c in candidates ==> c in OfTool(candidates, ref.toolId.value, ref.version.value);
    }
  }

  /** Whatever the reference, only a visible, executable, binding definition is resolved. */
  lemma OnlyBindingsResolve(defs: Catalog, tenantId: string, ref: Reference)
    ensures var r := ResolveExecutable(defs, tenantId, ref);
            r.Resolved? ==> Binds(defs, tenantId, r.definition) && Executable(r.definition)
  {
    var candidates := Candidates(defs, tenantId, ref);
    if candidates != [] {
      var c := candidates[0];
      CandidatesOfOneTool(defs, tenantId, ref, c);
      ResolvedFromCandidates(ref, candidates, tenantId, c.toolId, c.version);
      BindingIsInCandidates(defs, tenantId, c, ResolveExecutable(defs, tenantId, ref));
    }
  }

  lemma BindingIsInCandidates(defs: Catalog, tenantId: string, c: ToolDefinition, r: ToolResolution)
    requires r.Resolved? ==> r.definition in FindByToolVersion(defs, tenantId, c.toolId, c.version)
    requires r.Resolved? && r.definition.tenantId == None ==>
               forall e :: e in FindByToolVersion(defs, tenantId, c.toolId, c.version) ==> e.tenantId != Some(tenantId)
    ensures r.Resolved? ==> Binds(defs, tenantId, r.definition)
  {
    if r.Resolved? && r.definition.tenantId == None {
      forall e | e in defs && e.tenantId == Some(tenantId) ensures !SameTool(e, r.definition) {
        assert e !in FindByToolVersion(defs, tenantId, c.toolId, c.version);
      }
    }
  }

  lemma IdMeansBinding(defs: Catalog, tenantId: string, d: ToolDefinition)
    requires WellFormed(defs) && d in defs && Visible(d, tenantId) && d.toolDefinitionId != ""
    ensures ResolveExecutable(defs, tenantId, ById(d)) == Resolved(d) <==> Binds(defs, tenantId, d) && Executable(d)
  {
    FoundById(defs, defs, d);
    assert Candidates(defs, tenantId, ById(d)) == FindByToolVersion(defs, tenantId, d.toolId, d.version);
    ExactMeansBinding(defs, tenantId, d);
  }

  /** Resolution by id and by tool and version agree, and both give exactly the executable
      definition the tenant is bound to. */
  lemma ResolvesExactly(defs: Catalog, tenantId: string, d: ToolDefinition)
    requires WellFormed(defs) && d in defs
    ensures d.toolDefinitionId != "" ==>
              (ResolveExecutable(defs, tenantId, ById(d)) == Resolved(d) <==> Binds(defs, tenantId, d) && Executable(d))
    ensures d.toolId != "" && d.version != "" ==>
              (ResolveExecutable(defs, tenantId, ByVersion(d)) == Resolved(d) <==> Binds(defs, tenantId, d) && Executable(d))
  {
    OnlyBindingsResolve(defs, tenantId, ById(d));
    OnlyBindingsResolve(defs, tenantId, ByVersion(d));
    if Visible(d, tenantId) {
      if d.toolDefinitionId != "" { IdMeansBinding(defs, tenantId, d); }
      VersionMeansBinding(defs, tenantId, d);
    }
  }
}
