/** The in-memory tool registry: registration, forward-only lifecycle, and discovery of what a
    tenant may execute (packages/tool-gateway/src/in-memory-tool-registry.ts:18-133). */
module ToolRegistry {
  import opened Foundations
  import opened ToolContract
  import opened ToolResolver

  // ---- changes, as functions of the catalogue ----

  function Forward(l: Lifecycle): Option<Lifecycle> {
    match l
    case Draft => Some(Active)
    case Active => Some(Deprecated)
    case Deprecated => Some(Retired)
    case Retired => None
  }

  /** Position of an id, or the length when it is absent. */
  function IndexOf(defs: Catalog, id: string): (i: nat)
    ensures i <= |defs| && (i < |defs| ==> defs[i].toolDefinitionId == id)
    ensures forall k :: 0 <= k < i ==> defs[k].toolDefinitionId != id
  {
    if defs == [] || defs[0].toolDefinitionId == id then 0 else 1 + IndexOf(defs[1..], id)
  }

  predicate Clashes(defs: Catalog, d: ToolDefinition) {
    exists i :: 0 <= i < |defs| && (defs[i].toolDefinitionId == d.toolDefinitionId || (defs[i].tenantId == d.tenantId && SameTool(defs[i], d)))
  }

  datatype Change =
    | Register(definition: ToolDefinition, lifecycle: Option<Lifecycle>)
    | TransitionLifecycle(tenantId: string, id: string, to: Lifecycle)
    | SetEnabled(tenantId: string, id: string, enabled: bool)

  function Stored(d: ToolDefinition, lifecycle: Option<Lifecycle>): ToolDefinition {
    d.(lifecycle := if lifecycle.Some? then lifecycle.value else Draft)
  }

  /** The row a tenant may change: only its own. */
  predicate Mutable(defs: Catalog, tenantId: string, id: string) {
    IndexOf(defs, id) < |defs| && defs[IndexOf(defs, id)].tenantId == Some(tenantId)
  }

  /** The stored definition a change produces, unless it is refused. */
  function Changed(defs: Catalog, c: Change): Option<ToolDefinition> {
    match c
    case Register(d, lifecycle) => if Clashes(defs, d) then None else Some(Stored(d, lifecycle))
    case TransitionLifecycle(tenantId, id, to) =>
      if Mutable(defs, tenantId, id) && Forward(defs[IndexOf(defs, id)].lifecycle) == Some(to)
      then Some(defs[IndexOf(defs, id)].(lifecycle := to)) else None
    case SetEnabled(tenantId, id, enabled) =>
      if Mutable(defs, tenantId, id) then Some(defs[IndexOf(defs, id)].(enabled := enabled)) else None
  }

  function Step(defs: Catalog, c: Change): Catalog {
    var changed := Changed(defs, c);
    if changed.None? then defs
    else if c.Register? then defs + [changed.value]
    else defs[IndexOf(defs, c.id) := changed.value]
  }

  function Run(defs: Catalog, changes: seq<Change>): Catalog
    decreases |changes|
  {
    if changes == [] then defs else Run(Step(defs, changes[0]), changes[1..])
  }

  // ---- what every run keeps ----

  function Rank(l: Lifecycle): nat {
    match l
    case Draft => 0
    case Active => 1
    case Deprecated => 2
    case Retired => 3
  }

  /** Everything but the lifecycle and the switch. */
  function Contract(d: ToolDefinition): ToolDefinition {
    d.(lifecycle := Draft, enabled := false)
  }

  /** `later` is the same row, further on. */
  predicate Continues(d: ToolDefinition, later: ToolDefinition) {
    && Contract(later) == Contract(d)
    && Rank(d.lifecycle) <= Rank(later.lifecycle)
    && (d.tenantId == None ==> later == d)
  }

  predicate Extends(defs: Catalog, later: Catalog) {
    |defs| <= |later| && forall i :: 0 <= i < |defs| ==> Continues(defs[i], later[i])
  }

  lemma StepKeeps(defs: Catalog, c: Change)
    requires WellFormed(defs)
    ensures WellFormed(Step(defs, c)) && Extends(defs, Step(defs, c))
  {
  }

  /** In every run ids stay unique, as do scope, tool and version together; no row disappears,
      moves or changes its contract; lifecycles only move forward; global rows never change. */
  lemma {:induction false} RunsOnlyExtend(defs: Catalog, changes: seq<Change>)
    requires WellFormed(defs)
    ensures WellFormed(Run(defs, changes)) && Extends(defs, Run(defs, changes))
    decreases |changes|
  {
    if changes != [] {
      StepKeeps(defs, changes[0]);
      RunsOnlyExtend(Step(defs, changes[0]), changes[1..]);
    }
  }

  predicate ActsFor(c: Change, tenantId: string) {
    !c.Register? && c.tenantId == tenantId
  }

  /** A tenant's rows change only by that tenant's own calls. */
  lemma {:induction false} OtherScopesUntouched(defs: Catalog, changes: seq<Change>, tenantId: string, i: nat)
    requires i < |defs| && defs[i].tenantId == Some(tenantId)
    requires forall k :: 0 <= k < |changes| ==> !ActsFor(changes[k], tenantId)
    ensures |Run(defs, changes)| > i && Run(defs, changes)[i] == defs[i]
    decreases |changes|
  {
    if changes != [] {
      assert !ActsFor(changes[0], tenantId);
      OtherScopesUntouched(Step(defs, changes[0]), changes[1..], tenantId, i);
    }
  }

  /** Once deprecated or retired, a definition is never resolved again. */
  lemma RetirementIsFinal(defs: Catalog, changes: seq<Change>, i: nat, tenantId: string, ref: Reference)
    requires WellFormed(defs) && i < |defs| && Rank(defs[i].lifecycle) > Rank(Active)
    ensures |Run(defs, changes)| > i && ResolveExecutable(Run(defs, changes), tenantId, ref) != Resolved(Run(defs, changes)[i])
  {
    RunsOnlyExtend(defs, changes);
    assert Continues(defs[i], Run(defs, changes)[i]);
    OnlyBindingsResolve(Run(defs, changes), tenantId, ref);
  }

  // ---- discovery ----

  /** The grouping key `${toolId}@${version}`. */
  function KeyOf(d: ToolDefinition): string {
    d.toolId + "@" + d.version
  }

  predicate Capable(d: ToolDefinition, capabilities: seq<string>) {
    forall i :: 0 <= i < |d.requiredCapabilities| ==> d.requiredCapabilities[i] in capabilities
  }

  datatype Group = Group(key: string, members: Catalog)

  /** `byTool.set(key, [...arr, d])` on a map in insertion order. */
  function Added(groups: seq<Group>, d: ToolDefinition): seq<Group> {
    if groups == [] then [Group(KeyOf(d), [d])]
    else if groups[0].key == KeyOf(d) then [groups[0].(members := groups[0].members + [d])] + groups[1..]
    else [groups[0]] + Added(groups[1..], d)
  }

  function Grouped(defs: Catalog, tenantId: string): seq<Group> {
    if defs == [] then []
    else
      var groups, last := Grouped(defs[..|defs| - 1], tenantId), defs[|defs| - 1];
      if Visible(last, tenantId) then Added(groups, last) else groups
  }

  /** The tenant's own member, or the first global one. */
  function Effective(g: Group, tenantId: string): Option<ToolDefinition> {
    var own := FindInScope(g.members, Some(tenantId));
    if own.Some? then own else FindInScope(g.members, None)
  }

  predicate Offers(g: Group, tenantId: string, capabilities: seq<string>, d: ToolDefinition) {
    Effective(g, tenantId) == Some(d) && Executable(d) && Capable(d, capabilities)
  }

  // ---- what a group holds ----

  /** The visible definitions with a key, in order. */
  function Members(defs: Catalog, tenantId: string, key: string): Catalog {
    if defs == [] then []
    else
      var last := defs[|defs| - 1];
      Members(defs[..|defs| - 1], tenantId, key) + (if Visible(last, tenantId) && KeyOf(last) == key then [last] else [])
  }

  predicate HasKey(groups: seq<Group>, key: string) {
    exists i :: 0 <= i < |groups| && groups[i].key == key
  }

  /** Distinct keys, and each group holds exactly its members. */
  predicate Partition(groups: seq<Group>, defs: Catalog, tenantId: string) {
    && (forall i, j :: 0 <= i < j < |groups| ==> groups[i].key != groups[j].key)
    && (forall i :: 0 <= i < |groups| ==> groups[i].members == Members(defs, tenantId, groups[i].key))
    && (forall i :: 0 <= i < |defs| && Visible(defs[i], tenantId) ==> HasKey(groups, KeyOf(defs[i])))
  }

  lemma {:induction false} AddedShape(groups: seq<Group>, d: ToolDefinition)
    requires forall i, j :: 0 <= i < j < |groups| ==> groups[i].key != groups[j].key
    ensures var after := Added(groups, d);
            && |groups| <= |after| <= |groups| + 1
            && (forall i :: 0 <= i < |groups| ==>
                  after[i] == Group(groups[i].key, groups[i].members + if groups[i].key == KeyOf(d) then [d] else []))
            && (|after| > |groups| <==> forall i :: 0 <= i < |groups| ==> groups[i].key != KeyOf(d))
            && (|after| > |groups| ==> after[|groups|] == Group(KeyOf(d), [d]))
  {
    if groups != [] && groups[0].key != KeyOf(d) {
      AddedShape(groups[1..], d);
      var rest := Added(groups[1..], d);
      assert Added(groups, d) == [groups[0]] + rest;
      assert forall i :: 1 <= i < |groups| ==> Added(groups, d)[i] == rest[i - 1] && groups[i] == groups[1..][i - 1];
      assert |rest| > |groups[1..]| ==> Added(groups, d)[|groups|] == rest[|groups[1..]|];
    }
  }

  lemma {:induction false} NoMembersWithoutKey(defs: Catalog, tenantId: string, key: string)
    requires forall i :: 0 <= i < |defs| && Visible(defs[i], tenantId) ==> KeyOf(defs[i]) != key
    ensures Members(defs, tenantId, key) == []
  {
    if defs != [] {
      NoMembersWithoutKey(defs[..|defs| - 1], tenantId, key);
    }
  }

  lemma AddedHasKey(groups: seq<Group>, d: ToolDefinition, key: string)
    requires forall i, j :: 0 <= i < j < |groups| ==> groups[i].key != groups[j].key
    requires HasKey(groups, key) || key == KeyOf(d)
    ensures HasKey(Added(groups, d), key)
  {
    var after := Added(groups, d);
    AddedShape(groups, d);
    if HasKey(groups, key) {
      var g :| 0 <= g < |groups| && groups[g].key == key;
      assert after[g].key == key;
    } else {
      assert after[|groups|].key == key;
    }
  }

  lemma AddedMembers(groups: seq<Group>, defs: Catalog, d: ToolDefinition, tenantId: string)
    requires Partition(groups, defs, tenantId) && Visible(d, tenantId)
    ensures var after := Added(groups, d);
            forall i :: 0 <= i < |after| ==> after[i].members == Members(defs + [d], tenantId, after[i].key)
  {
    var after, all := Added(groups, d), defs + [d];
    AddedShape(groups, d);
    assert all[..|all| - 1] == defs;
    if |after| > |groups| {
      forall i | 0 <= i < |defs| && Visible(defs[i], tenantId) ensures KeyOf(defs[i]) != KeyOf(d) {
        assert HasKey(groups, KeyOf(defs[i]));
      }
      NoMembersWithoutKey(defs, tenantId, KeyOf(d));
    }
  }

  lemma AddedKeepsPartition(groups: seq<Group>, defs: Catalog, d: ToolDefinition, tenantId: string)
    requires Partition(groups, defs, tenantId) && Visible(d, tenantId)
    ensures Partition(Added(groups, d), defs + [d], tenantId)
  {
    var all := defs + [d];
    AddedMembers(groups, defs, d, tenantId);
    AddedShape(groups, d);
    forall i | 0 <= i < |all| && Visible(all[i], tenantId) ensures HasKey(Added(groups, d), KeyOf(all[i])) {
      if i < |defs| { assert HasKey(groups, KeyOf(defs[i])); }
      AddedHasKey(groups, d, KeyOf(all[i]));
    }
  }

  lemma SkippedKeepsPartition(groups: seq<Group>, defs: Catalog, d: ToolDefinition, tenantId: string)
    requires Partition(groups, defs, tenantId) && !Visible(d, tenantId)
    ensures Partition(groups, defs + [d], tenantId)
  {
    assert (defs + [d])[..|defs + [d]| - 1] == defs;
  }

  lemma {:induction false} GroupedPartitions(defs: Catalog, tenantId: string)
    ensures Partition(Grouped(defs, tenantId), defs, tenantId)
  {
    if defs != [] {
      var front, last := defs[..|defs| - 1], defs[|defs| - 1];
      assert defs == front + [last];
      GroupedPartitions(front, tenantId);
      if Visible(last, tenantId) {
        AddedKeepsPartition(Grouped(front, tenantId), front, last, tenantId);
      } else {
        SkippedKeepsPartition(Grouped(front, tenantId), front, last, tenantId);
      }
    }
  }

  // ---- what is offered ----

  function Offered(groups: seq<Group>, n: nat, tenantId: string, capabilities: seq<string>): Catalog
    requires n <= |groups|
  {
    if n == 0 then []
    else
      var effective := Effective(groups[n - 1], tenantId);
      Offered(groups, n - 1, tenantId, capabilities) +
      (if effective.Some? && Executable(effective.value) && Capable(effective.value, capabilities) then [effective.value] else [])
  }

  function Discover(defs: Catalog, tenantId: string, capabilities: seq<string>): Catalog {
    var groups := Grouped(defs, tenantId);
    Offered(groups, |groups|, tenantId, capabilities)
  }

  lemma {:induction false} OfferedByAGroup(groups: seq<Group>, n: nat, tenantId: string, capabilities: seq<string>, d: ToolDefinition)
    requires n <= |groups|
    ensures d in Offered(groups, n, tenantId, capabilities) <==> exists i :: 0 <= i < n && Offers(groups[i], tenantId, capabilities, d)
  {
    if n > 0 {
      OfferedByAGroup(groups, n - 1, tenantId, capabilities, d);
      assert Offers(groups[n - 1], tenantId, capabilities, d) <==>
             d in Offered(groups, n, tenantId, capabilities)[|Offered(groups, n - 1, tenantId, capabilities)|..];
    }
  }

  /** The first definition with this key and scope, or the length. */
  function FirstWith(defs: Catalog, key: string, scope: Option<string>): (i: nat)
    ensures i <= |defs| && (i < |defs| ==> KeyOf(defs[i]) == key && defs[i].tenantId == scope)
    ensures forall k :: 0 <= k < i ==> !(KeyOf(defs[k]) == key && defs[k].tenantId == scope)
  {
    if defs == [] then 0
    else if KeyOf(defs[0]) == key && defs[0].tenantId == scope then 0
    else 1 + FirstWith(defs[1..], key, scope)
  }

  lemma {:induction false} FindInScopeAppend(a: Catalog, b: Catalog, scope: Option<string>)
    ensures FindInScope(a + b, scope) == if FindInScope(a, scope).Some? then FindInScope(a, scope) else FindInScope(b, scope)
  {
    if a == [] {
      assert a + b == b;
    } else {
      assert (a + b)[1..] == a[1..] + b;
      FindInScopeAppend(a[1..], b, scope);
    }
  }

  lemma FirstWithSnoc(front: Catalog, last: ToolDefinition, key: string, scope: Option<string>)
    ensures FirstWith(front + [last], key, scope) ==
            if FirstWith(front, key, scope) < |front| then FirstWith(front, key, scope)
            else if KeyOf(last) == key && last.tenantId == scope then |front| else |front| + 1
  {
    var defs, i, k := front + [last], FirstWith(front, key, scope), FirstWith(front + [last], key, scope);
    assert forall j :: 0 <= j < |front| ==> front[j] == defs[j];
    assert defs[|front|] == last;
    assert i < |front| ==> front[i] == defs[i];
  }

  lemma {:induction false} FirstMember(defs: Catalog, tenantId: string, key: string, scope: Option<string>)
    requires scope == None || scope == Some(tenantId)
    ensures var i := FirstWith(defs, key, scope);
            FindInScope(Members(defs, tenantId, key), scope) == if i < |defs| then Some(defs[i]) else None
  {
    if defs != [] {
      var front, last := defs[..|defs| - 1], defs[|defs| - 1];
      assert defs == front + [last];
      FirstMember(front, tenantId, key, scope);
      FirstWithSnoc(front, last, key, scope);
      var added := if Visible(last, tenantId) && KeyOf(last) == key then [last] else [];
      FindInScopeAppend(Members(front, tenantId, key), added, scope);
    }
  }

  /** The definition a tenant is offered for a key: the first own one, or the first global one. */
  function EffectiveByKey(defs: Catalog, tenantId: string, key: string): nat {
    var own := FirstWith(defs, key, Some(tenantId));
    if own < |defs| then own else FirstWith(defs, key, None)
  }

  lemma OfferedByItsKey(defs: Catalog, tenantId: string, capabilities: seq<string>, i: nat)
    requires WellFormed(defs) && i < |defs|
    ensures defs[i] in Discover(defs, tenantId, capabilities) <==>
            Visible(defs[i], tenantId) && EffectiveByKey(defs, tenantId, KeyOf(defs[i])) == i && Executable(defs[i]) && Capable(defs[i], capabilities)
  {
    var groups, d := Grouped(defs, tenantId), defs[i];
    GroupedPartitions(defs, tenantId);
    OfferedByAGroup(groups, |groups|, tenantId, capabilities, d);
    forall g | 0 <= g < |groups|
      ensures Effective(groups[g], tenantId) == Some(d) <==>
              Visible(d, tenantId) && groups[g].key == KeyOf(d) && EffectiveByKey(defs, tenantId, KeyOf(d)) == i
    {
      EffectiveOfGroup(defs, tenantId, groups[g], i);
    }
    if Visible(d, tenantId) {
      assert HasKey(groups, KeyOf(d));
    }
  }

  lemma EffectiveOfGroup(defs: Catalog, tenantId: string, g: Group, i: nat)
    requires WellFormed(defs) && i < |defs| && g.members == Members(defs, tenantId, g.key)
    ensures Effective(g, tenantId) == Some(defs[i]) <==>
            Visible(defs[i], tenantId) && g.key == KeyOf(defs[i]) && EffectiveByKey(defs, tenantId, KeyOf(defs[i])) == i
  {
    FirstMember(defs, tenantId, g.key, Some(tenantId));
    FirstMember(defs, tenantId, g.key, None);
    var k := EffectiveByKey(defs, tenantId, g.key);
    assert k < |defs| && k != i ==> defs[k].toolDefinitionId != defs[i].toolDefinitionId;
  }

  /** Another tool or version with the same key stands in front of the definition at `i`: an
      own one in front of a global one, or an earlier one of the same scope. */
  predicate Crowded(defs: Catalog, tenantId: string, i: nat)
    requires i < |defs|
  {
    exists j :: 0 <= j < |defs| && StandsBefore(defs, tenantId, j, i)
  }

  predicate StandsBefore(defs: Catalog, tenantId: string, j: nat, i: nat)
    requires i < |defs| && j < |defs|
  {
    && KeyOf(defs[j]) == KeyOf(defs[i]) && !SameTool(defs[j], defs[i])
    && (if defs[j].tenantId == Some(tenantId) && defs[i].tenantId == None then true
        else defs[j].tenantId == defs[i].tenantId && j < i)
  }

  lemma FirstUnlessCrowded(defs: Catalog, tenantId: string, i: nat)
    requires WellFormed(defs) && i < |defs| && Visible(defs[i], tenantId)
    ensures EffectiveByKey(defs, tenantId, KeyOf(defs[i])) == i <==> Binds(defs, tenantId, defs[i]) && !Crowded(defs, tenantId, i)
  {
    var d, key := defs[i], KeyOf(defs[i]);
    var own, shared := FirstWith(defs, key, Some(tenantId)), FirstWith(defs, key, None);
    if d.tenantId == None && own < |defs| {
      assert SameTool(defs[own], d) || StandsBefore(defs, tenantId, own, i);
    } else {
      var first := if d.tenantId == None then shared else own;
      assert first <= i;
      assert first < i ==> StandsBefore(defs, tenantId, first, i);
      assert first == i ==> forall j :: 0 <= j < |defs| ==> !StandsBefore(defs, tenantId, j, i);
      if d.tenantId == None {
        forall e | e in defs && e.tenantId == Some(tenantId) ensures !SameTool(e, d) {
          assert KeyOf(e) != key;
        }
      }
    }
  }

  /** The exact condition, for every catalogue: discovery offers a definition if and only if
      the tenant is bound to it, it is executable, the capabilities suffice, and no other tool
      or version with the same key stands before it. */
  lemma DiscoveredExactly(defs: Catalog, tenantId: string, capabilities: seq<string>, i: nat)
    requires WellFormed(defs) && i < |defs|
    ensures defs[i] in Discover(defs, tenantId, capabilities) <==>
            Binds(defs, tenantId, defs[i]) && Executable(defs[i]) && Capable(defs[i], capabilities) && !Crowded(defs, tenantId, i)
  {
    OfferedByItsKey(defs, tenantId, capabilities, i);
    if Visible(defs[i], tenantId) { FirstUnlessCrowded(defs, tenantId, i); }
  }

  /** Main theorem: in every reachable registry whose tool ids hold no '@', discovery offers a
      definition exactly when resolution, by id or by tool and version, gives it and the
      capabilities suffice. */
  lemma DiscoveryMatchesResolution(changes: seq<Change>, tenantId: string, capabilities: seq<string>, i: nat)
    requires i < |Run([], changes)|
    requires forall k :: 0 <= k < |Run([], changes)| ==> Without(Run([], changes)[k].toolId, '@')
    ensures var defs := Run([], changes);
            var offered := defs[i] in Discover(defs, tenantId, capabilities);
            && (defs[i].toolDefinitionId != "" ==>
                  (offered <==> ResolveExecutable(defs, tenantId, ById(defs[i])) == Resolved(defs[i]) && Capable(defs[i], capabilities)))
            && (defs[i].toolId != "" && defs[i].version != "" ==>
                  (offered <==> ResolveExecutable(defs, tenantId, ByVersion(defs[i])) == Resolved(defs[i]) && Capable(defs[i], capabilities)))
  {
    var defs := Run([], changes);
    RunsOnlyExtend([], changes);
    DiscoveredExactly(defs, tenantId, capabilities, i);
    ResolvesExactly(defs, tenantId, defs[i]);
    forall j | 0 <= j < |defs| && KeyOf(defs[j]) == KeyOf(defs[i]) ensures SameTool(defs[j], defs[i]) {
      FirstSeparator(defs[j].toolId, defs[j].version, defs[i].toolId, defs[i].version, '@');
    }
    assert !Crowded(defs, tenantId, i);
  }

  lemma SharedKeyHides(first: ToolDefinition, second: ToolDefinition, tenantId: string)
    requires first.toolDefinitionId != second.toolDefinitionId && !SameTool(first, second) && KeyOf(first) == KeyOf(second)
    requires first.tenantId == None && second.tenantId == None && second.toolDefinitionId != "" && Executable(second)
    ensures WellFormed([first, second])
    ensures ResolveExecutable([first, second], tenantId, ById(second)) == Resolved(second)
    ensures second !in Discover([first, second], tenantId, [])
  {
    var defs := [first, second];
    assert defs[1] == second;
    ResolvesExactly(defs, tenantId, second);
    DiscoveredExactly(defs, tenantId, [], 1);
    assert StandsBefore(defs, tenantId, 0, 1);
  }

  /** Why the '@' matters: two tools whose keys coincide, both resolvable, one never offered. */
  lemma AtSignHidesATool(first: ToolDefinition, tenantId: string)
    requires first.toolDefinitionId == "1" && first.toolId == "a@b" && first.version == "c"
    requires first.tenantId == None && Executable(first) && first.requiredCapabilities == []
    ensures var second := first.(toolDefinitionId := "2", toolId := "a", version := "b@c");
            && WellFormed([first, second])
            && ResolveExecutable([first, second], tenantId, ById(second)) == Resolved(second)
            && second !in Discover([first, second], tenantId, [])
  {
    var second := first.(toolDefinitionId := "2", toolId := "a", version := "b@c");
    assert |first.toolId| == 3 && |second.toolId| == 1;
    assert first.toolDefinitionId[0] != second.toolDefinitionId[0];
    assert "a@b" + "@" + "c" == "a" + "@" + "b@c";
    SharedKeyHides(first, second, tenantId);
  }

  // ---- the registry ----

  class InMemoryToolRegistry {
    var definitions: Catalog

    constructor ()
      ensures definitions == []
    {
      definitions := [];
    }

    /** `None` is a refused registration: a known id, or a known scope, tool and version. */
    method RegisterDefinition(d: ToolDefinition, lifecycle: Option<Lifecycle>) returns (stored: Option<ToolDefinition>)
      modifies this
      ensures stored == Changed(old(definitions), Register(d, lifecycle))
      ensures definitions == Step(old(definitions), Register(d, lifecycle))
    {
      if FindById(definitions, d.toolDefinitionId).Some? {
        return None;
      }
      for i := 0 to |definitions|
        invariant forall k :: 0 <= k < i ==> !(definitions[k].tenantId == d.tenantId && SameTool(definitions[k], d))
      {
        if definitions[i].tenantId == d.tenantId && SameTool(definitions[i], d) {
          return None;
        }
      }
      stored := Some(Stored(d, lifecycle));
      definitions := definitions + [stored.value];
    }

    /** The tenant's own row, if the id names one. */
    method GetMutableOwn(tenantId: string, id: string) returns (d: Option<ToolDefinition>)
      ensures d == if Mutable(definitions, tenantId, id) then Some(definitions[IndexOf(definitions, id)]) else None
    {
      var at := IndexOf(definitions, id);
      if at == |definitions| || definitions[at].tenantId != Some(tenantId) {
        return None;
      }
      d := Some(definitions[at]);
    }

    method Transition(tenantId: string, id: string, to: Lifecycle) returns (updated: Option<ToolDefinition>)
      modifies this
      ensures updated == Changed(old(definitions), TransitionLifecycle(tenantId, id, to))
      ensures definitions == Step(old(definitions), TransitionLifecycle(tenantId, id, to))
    {
      var d := GetMutableOwn(tenantId, id);
      if d.None? || Forward(d.value.lifecycle) != Some(to) {
        return None;
      }
      updated := Some(d.value.(lifecycle := to));
      definitions := definitions[IndexOf(definitions, id) := updated.value];
    }

    method Enable(tenantId: string, id: string, enabled: bool) returns (updated: Option<ToolDefinition>)
      modifies this
      ensures updated == Changed(old(definitions), SetEnabled(tenantId, id, enabled))
      ensures definitions == Step(old(definitions), SetEnabled(tenantId, id, enabled))
    {
      var d := GetMutableOwn(tenantId, id);
      if d.None? {
        return None;
      }
      updated := Some(d.value.(enabled := enabled));
      definitions := definitions[IndexOf(definitions, id) := updated.value];
    }

    /** Groups the visible definitions, then keeps what each group may offer. */
    method DiscoverExecutable(tenantId: string, capabilities: seq<string>) returns (executable: Catalog)
      ensures executable == Discover(definitions, tenantId, capabilities)
    {
      var byTool: seq<Group> := [];
      assert definitions[..0] == [];
      for i := 0 to |definitions|
        invariant byTool == Grouped(definitions[..i], tenantId)
      {
        assert definitions[..i + 1][..i] == definitions[..i];
        if Visible(definitions[i], tenantId) {
          byTool := Added(byTool, definitions[i]);
        }
      }
      assert definitions[..|definitions|] == definitions;
      executable := [];
      for i := 0 to |byTool|
        invariant executable == Offered(byTool, i, tenantId, capabilities)
      {
        var effective := Effective(byTool[i], tenantId);
        if effective.Some? && Executable(effective.value) && Capable(effective.value, capabilities) {
          executable := executable + [effective.value];
        }
      }
    }
  }
}
