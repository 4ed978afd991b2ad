/** What `addTask` and the unvalidated ways into EXECUTING do to a plan, exactly
    (packages/domain/src/mission/mission.ts:191-204, 274-280, 351-412). */
module MissionPlans {
  import opened Foundations
  import opened JsText
  import opened TaskGraph
  import opened MissionStatus
  import opened Mission
  import opened MissionRuns

  // ---- one more task in a graph ----

  /** There is a walk from a to b; a task reaches itself. */
  ghost predicate Reaches(g: Graph, a: string, b: string) {
    exists p :: Walk(g, p) && p[0] == a && p[|p| - 1] == b
  }

  lemma ReachClosesCycle(g: Graph, id: string, deps: seq<string>, d: string)
    requires id !in g && d in deps && Reaches(g, d, id)
    ensures !Acyclic(g[id := deps])
  {
    var p :| Walk(g, p) && p[0] == d && p[|p| - 1] == id;
    var loop := [id] + p;
    forall i | 0 <= i < |loop| - 1 ensures Edge(g[id := deps], loop[i], loop[i + 1]) {
      if i > 0 { assert Edge(g, p[i - 1], p[i]); }
    }
    assert Cycle(g[id := deps], loop);
  }

  /** A cycle can be entered at any of its tasks. */
  lemma Rotated(g: Graph, p: seq<string>, i: nat) returns (q: seq<string>)
    requires Cycle(g, p) && i < |p| - 1
    ensures Cycle(g, q) && q[0] == p[i]
  {
    q := p[i..] + p[1..i + 1];
    forall k | 0 <= k < |q| - 1 ensures Edge(g, q[k], q[k + 1]) {
      if k < |p| - 1 - i {
        assert Edge(g, p[i + k], p[i + k + 1]);
      } else {
        var m := k - (|p| - 1 - i);
        assert q[k] == p[m] && q[k + 1] == p[m + 1];
        assert Edge(g, p[m], p[m + 1]);
      }
    }
  }

  /** The first return to the start of a cycle. */
  function Return(q: seq<string>, j: nat): (k: nat)
    requires 1 <= j < |q| && q[|q| - 1] == q[0]
    ensures j <= k < |q| && q[k] == q[0] && forall m :: j <= m < k ==> q[m] != q[0]
    decreases |q| - j
  {
    if q[j] == q[0] then j else Return(q, j + 1)
  }

  lemma CycleComesThrough(g: Graph, id: string, deps: seq<string>, p: seq<string>) returns (d: string)
    requires Acyclic(g) && id !in g && Cycle(g[id := deps], p)
    ensures d in deps && Reaches(g, d, id)
  {
    var i := EntersAt(g, id, deps, p);
    var q := Rotated(g[id := deps], p, i);
    var k := Return(q, 1);
    var walk := q[1..k + 1];
    assert Edge(g[id := deps], q[0], q[1]);
    forall m | 0 <= m < |walk| - 1 ensures Edge(g, walk[m], walk[m + 1]) {
      assert Edge(g[id := deps], q[m + 1], q[m + 2]);
    }
    assert Walk(g, walk) && walk[0] == q[1] && walk[|walk| - 1] == id;
    d := q[1];
  }

  lemma AvoidingCycleWasThere(g: Graph, id: string, deps: seq<string>, p: seq<string>)
    requires Cycle(g[id := deps], p) && forall k :: 0 <= k < |p| - 1 ==> p[k] != id
    ensures Cycle(g, p)
  {
    forall k | 0 <= k < |p| - 1 ensures Edge(g, p[k], p[k + 1]) {
      assert Edge(g[id := deps], p[k], p[k + 1]);
    }
  }

  lemma EntersAt(g: Graph, id: string, deps: seq<string>, p: seq<string>) returns (i: nat)
    requires Acyclic(g) && Cycle(g[id := deps], p)
    ensures i < |p| - 1 && p[i] == id
  {
    if forall k :: 0 <= k < |p| - 1 ==> p[k] != id {
      AvoidingCycleWasThere(g, id, deps, p);
      assert false;
    }
    i :| i < |p| - 1 && p[i] == id;
  }

  lemma OldCycleStays(g: Graph, id: string, deps: seq<string>, p: seq<string>)
    requires id !in g && Cycle(g, p)
    ensures Cycle(g[id := deps], p)
  {
    forall k | 0 <= k < |p| - 1 ensures Edge(g[id := deps], p[k], p[k + 1]) {
      assert Edge(g, p[k], p[k + 1]);
    }
  }

  /** The exact condition: with a new task the graph is acyclic if and only if it was before and
      none of the task's dependencies reaches it. */
  lemma NewTaskKeepsAcyclicExactly(g: Graph, id: string, deps: seq<string>)
    requires id !in g
    ensures Acyclic(g[id := deps]) <==> Acyclic(g) && forall d :: d in deps ==> !Reaches(g, d, id)
  {
    var grown := g[id := deps];
    if !Acyclic(g) {
      var p :| Cycle(g, p);
      OldCycleStays(g, id, deps, p);
    } else if d :| d in deps && Reaches(g, d, id) {
      ReachClosesCycle(g, id, deps, d);
    } else {
      forall p ensures !Cycle(grown, p) {
        if Cycle(grown, p) {
          var d := CycleComesThrough(g, id, deps, p);
        }
      }
    }
  }

  /** The same of `addTask`: an accepted task builds a cycle exactly when one of its
      dependencies is itself or already depends on it. */
  lemma AddTaskKeepsAcyclicExactly(s: MissionState, props: TaskProps)
    requires DistinctIds(PropsOf(s.tasks)) && MayAdd(s, props)
    ensures Acyclic(GraphOfTasks(AddTask(s, props).0.tasks)) <==>
            Acyclic(GraphOfTasks(s.tasks)) && forall d :: d in props.dependsOn ==> !Reaches(GraphOfTasks(s.tasks), d, props.id)
  {
    var grown := s.tasks + [NewTask(props)];
    assert PropsOf(grown)[..|s.tasks|] == PropsOf(s.tasks);
    GraphOfDistinct(PropsOf(s.tasks));
    NewTaskKeepsAcyclicExactly(GraphOfTasks(s.tasks), props.id, props.dependsOn);
  }

  // ---- what a cycle costs ----

  ghost predicate Promising(s: MissionState, i: nat) {
    i < |s.tasks| && s.tasks[i].status == TaskPending && Groundable(GraphOfTasks(s.tasks), s.tasks[i].props.id)
  }

  /** Whatever was added, an executing mission whose unfinished tasks are pending can go on
      exactly when some pending task rests on finitely many layers of existing tasks. */
  lemma CanGoOnExactly(s: MissionState)
    requires s.status == Executing && Settled(s.tasks) && MissionRuns.Scheduled(s.tasks)
    ensures (exists id :: StartTask(s, id).1 == Ok) <==> (exists i: nat :: Promising(s, i))
  {
    if id :| StartTask(s, id).1 == Ok {
      ReadyTaskIsGroundable(s.tasks, FindTask(s.tasks, id));
      assert Promising(s, FindTask(s.tasks, id));
    }
    if exists i: nat :: Promising(s, i) {
      var i: nat :| Promising(s, i);
      var n: nat :| Grounded(GraphOfTasks(s.tasks), s.tasks[i].props.id, n);
      var k := StartableBelow(s.tasks, i, n);
      FindTaskOfDistinct(s.tasks, k);
      assert StartTask(s, s.tasks[k].props.id).1 == Ok;
    }
  }

  // ---- additions to a well-formed plan ----

  /** Complete tasks that depend on known ones, and not in a circle among themselves. */
  ghost predicate SoundAdditions(plan: seq<TaskProps>, added: seq<TaskProps>) {
    && (forall i :: 0 <= i < |added| ==> Complete(added[i]) && DependsOnKnown(added[i], Ids(plan) + Ids(added)))
    && Acyclic(GraphOf(added))
  }

  lemma IdsOfBoth(plan: seq<TaskProps>, added: seq<TaskProps>)
    ensures Ids(plan + added) == Ids(plan) + Ids(added)
  {
    var both := plan + added;
    assert forall i :: 0 <= i < |plan| ==> both[i] == plan[i];
    assert forall i :: 0 <= i < |added| ==> both[|plan| + i] == added[i];
  }

  lemma DistinctParts(plan: seq<TaskProps>, added: seq<TaskProps>)
    requires DistinctIds(plan + added)
    ensures DistinctIds(plan) && DistinctIds(added) && Ids(plan) !! Ids(added)
  {
    var both := plan + added;
    assert forall i :: 0 <= i < |plan| ==> both[i] == plan[i];
    assert forall i :: 0 <= i < |added| ==> both[|plan| + i] == added[i];
  }

  lemma GraphOfBoth(plan: seq<TaskProps>, added: seq<TaskProps>)
    requires DistinctIds(plan + added)
    ensures DistinctIds(plan) && DistinctIds(added) && GraphOf(plan).Keys == Ids(plan) && GraphOf(added).Keys == Ids(added)
    ensures GraphOf(plan + added) == GraphOf(plan) + GraphOf(added) && Ids(plan) !! Ids(added)
  {
    var both := plan + added;
    DistinctParts(plan, added);
    GraphOfDistinct(both);
    GraphOfDistinct(plan);
    GraphOfDistinct(added);
    IdsOfBoth(plan, added);
    forall a | a in Ids(both) ensures GraphOf(both)[a] == (GraphOf(plan) + GraphOf(added))[a] {
      var i :| 0 <= i < |both| && both[i].id == a;
      if i < |plan| { assert both[i] == plan[i]; } else { assert both[i] == added[i - |plan|]; }
    }
  }

  /** A walk that enters a closed set of tasks stays there. */
  lemma {:induction false} StaysInside(g: Graph, inside: set<string>, p: seq<string>, k: nat, m: nat)
    requires Walk(g, p) && k <= m < |p| && p[k] in inside
    requires forall a, b :: a in inside && Edge(g, a, b) ==> b in inside
    ensures p[m] in inside
    decreases m - k
  {
    if k < m {
      assert Edge(g, p[k], p[k + 1]);
      StaysInside(g, inside, p, k + 1, m);
    }
  }

  /** Two graphs side by side, the first closed: a cycle lies in one of them. */
  lemma CycleOnOneSide(g: Graph, h: Graph, p: seq<string>)
    requires Closed(g) && g.Keys !! h.Keys && Cycle(g + h, p)
    ensures Cycle(g, p) || Cycle(h, p)
  {
    var both := g + h;
    if p[0] in g {
      forall i | 0 <= i < |p| - 1 ensures Edge(g, p[i], p[i + 1]) {
        StaysInside(both, g.Keys, p, 0, i);
        assert Edge(both, p[i], p[i + 1]);
      }
    } else {
      forall i | 0 <= i < |p| - 1 ensures Edge(h, p[i], p[i + 1]) {
        assert Edge(both, p[i], p[i + 1]);
        if p[i] in g { StaysInside(both, g.Keys, p, i, |p| - 1); }
      }
    }
  }

  lemma CycleOfPart(g: Graph, h: Graph, p: seq<string>)
    requires g.Keys !! h.Keys && Cycle(h, p)
    ensures Cycle(g + h, p)
  {
    forall i | 0 <= i < |p| - 1 ensures Edge(g + h, p[i], p[i + 1]) {
      assert Edge(h, p[i], p[i + 1]);
    }
  }

  lemma AcyclicSideBySide(g: Graph, h: Graph)
    requires Closed(g) && Acyclic(g) && g.Keys !! h.Keys
    ensures Acyclic(g + h) <==> Acyclic(h)
  {
    if Acyclic(g + h) {
      forall p ensures !Cycle(h, p) {
        if Cycle(h, p) { CycleOfPart(g, h, p); }
      }
    }
    if Acyclic(h) {
      forall p ensures !Cycle(g + h, p) {
        if Cycle(g + h, p) { CycleOnOneSide(g, h, p); }
      }
    }
  }

  predicate InOrder(tasks: seq<TaskProps>, ids: set<string>) {
    forall i :: 0 <= i < |tasks| ==> Complete(tasks[i]) && DependsOnKnown(tasks[i], ids)
  }

  lemma InOrderTogether(plan: seq<TaskProps>, added: seq<TaskProps>)
    requires InOrder(plan, Ids(plan))
    ensures InOrder(plan + added, Ids(plan) + Ids(added)) <==> InOrder(added, Ids(plan) + Ids(added))
  {
    var both, ids := plan + added, Ids(plan) + Ids(added);
    assert forall i :: 0 <= i < |added| ==> both[|plan| + i] == added[i];
    forall i | 0 <= i < |plan| ensures Complete(both[i]) && DependsOnKnown(both[i], ids) {
      assert both[i] == plan[i] && DependsOnKnown(plan[i], Ids(plan));
    }
  }

  /** Additions keep a well-formed plan well formed exactly when they are sound. */
  lemma AdditionsKeepExactly(plan: seq<TaskProps>, added: seq<TaskProps>, planVersion: int)
    requires WellFormedPlan(plan, planVersion) && DistinctIds(plan + added)
    ensures WellFormedPlan(plan + added, planVersion) <==> SoundAdditions(plan, added)
  {
    KnownDependenciesClose(plan);
    GraphOfBoth(plan, added);
    IdsOfBoth(plan, added);
    AcyclicSideBySide(GraphOf(plan), GraphOf(added));
    InOrderTogether(plan, added);
  }

  // ---- whole runs ----

  /** The actions that accept a plan after looking at it. */
  ghost predicate Certifies(s: MissionState, a: Action) {
    || (a.Validate? && PlanValid(s).1 == Ok)
    || (a.Revise? && Replan(s, a.version, a.newTasks).1 == Ok)
  }

  /** The number of actions up to the last certifying one; zero when there is none. */
  ghost function LastCertified(s: MissionState, actions: seq<Action>): (k: nat)
    ensures k <= |actions|
    decreases |actions|
  {
    if actions == [] then 0
    else
      var later := LastCertified(Apply(s, actions[0]), actions[1..]);
      if later > 0 then later + 1 else if Certifies(s, actions[0]) then 1 else 0
  }

  /** The tasks that `addTask` accepted, in order. */
  ghost function Additions(s: MissionState, actions: seq<Action>): seq<TaskProps>
    decreases |actions|
  {
    if actions == [] then []
    else AddedBy(s, actions[0]) + Additions(Apply(s, actions[0]), actions[1..])
  }

  function AddedBy(s: MissionState, a: Action): seq<TaskProps> {
    if a.Add? && MayAdd(s, a.props) then [a.props] else []
  }

  lemma OnlyAdditionsChangeThePlan(s: MissionState, a: Action)
    requires !Certifies(s, a)
    ensures PropsOf(Apply(s, a).tasks) == PropsOf(s.tasks) + AddedBy(s, a)
    ensures Apply(s, a).planVersion == s.planVersion
  {
  }

  lemma CertifiedIsWellFormed(s: MissionState, a: Action)
    requires Certifies(s, a)
    ensures WellFormedPlan(PropsOf(Apply(s, a).tasks), Apply(s, a).planVersion)
  {
    if a.Revise? { assert PropsOf(Apply(s, a).tasks) == a.newTasks; }
  }

  /** `later` has the plan of `base` with the given tasks added. */
  ghost predicate Grown(base: MissionState, later: MissionState, added: seq<TaskProps>) {
    PropsOf(later.tasks) == PropsOf(base.tasks) + added && later.planVersion == base.planVersion
  }

  lemma {:induction false} UncertifiedRunGrows(s: MissionState, actions: seq<Action>)
    requires LastCertified(s, actions) == 0
    ensures Grown(s, Run(s, actions), Additions(s, actions))
    decreases |actions|
  {
    if actions != [] {
      OnlyAdditionsChangeThePlan(s, actions[0]);
      UncertifiedRunGrows(Apply(s, actions[0]), actions[1..]);
    }
  }

  /** The run splits behind its last certifying action, and that action left a well-formed plan. */
  lemma {:induction false} SplitAtCertified(s: MissionState, actions: seq<Action>)
    ensures var k := LastCertified(s, actions);
            var base := Run(s, actions[..k]);
            && Run(s, actions) == Run(base, actions[k..])
            && LastCertified(base, actions[k..]) == 0
            && (k > 0 ==> WellFormedPlan(PropsOf(base.tasks), base.planVersion))
            && (k == 0 ==> base == s)
    decreases |actions|
  {
    var k := LastCertified(s, actions);
    if k == 0 {
      assert actions[..0] == [] && actions[0..] == actions;
    } else {
      var a, rest := actions[0], actions[1..];
      var next := Apply(s, a);
      SplitAtCertified(next, rest);
      assert actions[..k][0] == a && actions[..k][1..] == rest[..k - 1] && actions[k..] == rest[k - 1..];
      if k == 1 { CertifiedIsWellFormed(s, a); }
    }
  }

  /** The exact condition, for every run from an empty mission, by whatever way it got into its
      status: the plan is well formed if and only if it was certified (or started with a positive
      version) and everything added since is sound. */
  lemma PlanIsWellFormedExactly(status: MissionStatus, planVersion: int, actions: seq<Action>)
    ensures var start := MissionState(status, planVersion, []);
            var k := LastCertified(start, actions);
            var base, later := Run(start, actions[..k]), Run(start, actions);
            WellFormedPlan(PropsOf(later.tasks), later.planVersion) <==>
              (k > 0 || planVersion > 0) && SoundAdditions(PropsOf(base.tasks), Additions(base, actions[k..]))
  {
    var start := MissionState(status, planVersion, []);
    var k := LastCertified(start, actions);
    var base, later := Run(start, actions[..k]), Run(start, actions);
    SplitAtCertified(start, actions);
    UncertifiedRunGrows(base, actions[k..]);
    RunKeepsScheduled(start, actions);
    if k > 0 || planVersion > 0 {
      if k == 0 { EmptyPlanIsWellFormed(planVersion); assert PropsOf(base.tasks) == []; }
      AdditionsKeepExactly(PropsOf(base.tasks), Additions(base, actions[k..]), base.planVersion);
    }
  }

  lemma EmptyPlanIsWellFormed(planVersion: int)
    requires planVersion > 0
    ensures WellFormedPlan([], planVersion)
  {
    forall p ensures !Cycle(GraphOf([]), p) {
      if |p| >= 2 { assert !Edge(GraphOf([]), p[0], p[1]); }
    }
  }

  // ---- three ways to execute a plan that validation refuses ----

  /** A task without an agent. */
  const Unassigned: TaskProps := TaskProps("a", "", None, [], "k", None)

  ghost predicate ExecutesRefusedPlan(actions: seq<Action>) {
    var s := Run(MissionState(Draft, 1, []), actions);
    s.status == Executing && !WellFormedPlan(PropsOf(s.tasks), s.planVersion)
  }

  lemma Prepend(s: MissionState, a: Action, next: MissionState, rest: seq<Action>, last: MissionState)
    requires Apply(s, a) == next && Run(next, rest) == last
    ensures Run(s, [a] + rest) == last
  {
    assert ([a] + rest)[1..] == rest;
  }

  lemma UnassignedIsRefused(s: MissionState)
    requires s.tasks == [NewTask(Unassigned)]
    ensures !WellFormedPlan(PropsOf(s.tasks), s.planVersion)
  {
    assert PropsOf(s.tasks)[0] == Unassigned && !Complete(Unassigned);
  }

  /** A mission that holds only the unassigned task, or nothing. */
  function WithUnassigned(status: MissionStatus): MissionState {
    MissionState(status, 1, [NewTask(Unassigned)])
  }

  function EmptyMission(status: MissionStatus): MissionState {
    MissionState(status, 1, [])
  }

  lemma UnassignedIsAdded(status: MissionStatus)
    requires !Terminal(status)
    ensures Apply(EmptyMission(status), Add(Unassigned)) == WithUnassigned(status)
  {
  }

  /** `resume` leads from PLANNING to EXECUTING without validation. */
  lemma ResumeSkipsValidation()
    ensures ExecutesRefusedPlan([Add(Unassigned)] + ([Move(Approved)] + ([Move(Planning)] + ([Move(Executing)] + []))))
  {
    var last := WithUnassigned(Executing);
    Prepend(WithUnassigned(Planning), Move(Executing), last, [], last);
    Prepend(WithUnassigned(Approved), Move(Planning), WithUnassigned(Planning), [Move(Executing)] + [], last);
    Prepend(WithUnassigned(Draft), Move(Approved), WithUnassigned(Approved), [Move(Planning)] + ([Move(Executing)] + []), last);
    UnassignedIsAdded(Draft);
    Prepend(EmptyMission(Draft), Add(Unassigned), WithUnassigned(Draft), [Move(Approved)] + ([Move(Planning)] + ([Move(Executing)] + [])), last);
    UnassignedIsRefused(last);
  }

  /** So does a pause begun in PLANNING. */
  lemma PauseSkipsValidation()
    ensures ExecutesRefusedPlan([Add(Unassigned)] + ([Move(Approved)] + ([Move(Planning)] + ([Move(Paused)] + ([Move(Executing)] + [])))))
  {
    var last := WithUnassigned(Executing);
    Prepend(WithUnassigned(Paused), Move(Executing), last, [], last);
    Prepend(WithUnassigned(Planning), Move(Paused), WithUnassigned(Paused), [Move(Executing)] + [], last);
    Prepend(WithUnassigned(Approved), Move(Planning), WithUnassigned(Planning), [Move(Paused)] + ([Move(Executing)] + []), last);
    Prepend(WithUnassigned(Draft), Move(Approved), WithUnassigned(Approved), [Move(Planning)] + ([Move(Paused)] + ([Move(Executing)] + [])), last);
    UnassignedIsAdded(Draft);
    Prepend(EmptyMission(Draft), Add(Unassigned), WithUnassigned(Draft),
            [Move(Approved)] + ([Move(Planning)] + ([Move(Paused)] + ([Move(Executing)] + []))), last);
    UnassignedIsRefused(last);
  }

  /** And `addTask` spoils a plan that was validated. */
  lemma AddTaskSpoilsValidatedPlan()
    ensures ExecutesRefusedPlan([Move(Approved)] + ([Move(Planning)] + ([Validate] + ([Add(Unassigned)] + []))))
  {
    var last := WithUnassigned(Executing);
    UnassignedIsAdded(Executing);
    Prepend(EmptyMission(Executing), Add(Unassigned), last, [], last);
    EmptyPlanIsWellFormed(1);
    assert PropsOf(EmptyMission(Planning).tasks) == [];
    Prepend(EmptyMission(Planning), Validate, EmptyMission(Executing), [Add(Unassigned)] + [], last);
    Prepend(EmptyMission(Approved), Move(Planning), EmptyMission(Planning), [Validate] + ([Add(Unassigned)] + []), last);
    Prepend(EmptyMission(Draft), Move(Approved), EmptyMission(Approved), [Move(Planning)] + ([Validate] + ([Add(Unassigned)] + [])), last);
    UnassignedIsRefused(last);
  }
}
