/** The guard in front of a lead's feature snapshot: `isJsonSafe` walks an object graph that
    may share objects or contain cycles (packages/domain/src/intelligence/lead.ts:83-112). */
module JsonSafety {
  import opened Foundations

  type Ref = nat

  /** A JavaScript value. `Unserialisable` is a function, undefined, a symbol or a bigint. */
  datatype Value =
    | Null
    | Text(text: string)
    | Flag(flag: bool)
    | Number(value: real)
    | NotFinite
    | Unserialisable
    | Object(ref: Ref)

  /** `Exotic` is a Date, RegExp, Map or Set. */
  datatype Node = List(items: seq<Value>) | Record(keys: seq<string>, values: seq<Value>) | Exotic

  type Heap = map<Ref, Node>

  function Children(n: Node): seq<Value> {
    match n
    case List(items) => items
    case Record(_, values) => values
    case Exotic => []
  }

  predicate Known(heap: Heap, v: Value) {
    v.Object? ==> v.ref in heap
  }

  predicate AllKnown(heap: Heap, vs: seq<Value>) {
    forall i :: 0 <= i < |vs| ==> Known(heap, vs[i])
  }

  /** Every reference in the heap leads to a node of the heap. */
  predicate Closed(heap: Heap) {
    forall r :: r in heap ==> AllKnown(heap, Children(heap[r]))
  }

  // ---- the graph, by paths ----

  /** Where a path of child positions leads, starting from the row `vs`. */
  function Follow(heap: Heap, vs: seq<Value>, path: seq<nat>): Option<Value>
    requires Closed(heap) && AllKnown(heap, vs)
    decreases |path|
  {
    if path == [] || path[0] >= |vs| then None
    else if |path| == 1 then Some(vs[path[0]])
    else if vs[path[0]].Object? then Follow(heap, Children(heap[vs[path[0]].ref]), path[1..])
    else None
  }

  /** What JSON can carry at a place: a primitive, a list or a plain record. */
  predicate Carriable(heap: Heap, v: Value)
    requires Known(heap, v)
  {
    match v
    case Object(r) => !heap[r].Exotic?
    case NotFinite => false
    case Unserialisable => false
    case _ => true
  }

  ghost predicate AllCarriable(heap: Heap, vs: seq<Value>)
    requires Closed(heap) && AllKnown(heap, vs)
  {
    forall p :: Follow(heap, vs, p).Some? ==> Known(heap, Follow(heap, vs, p).value) && Carriable(heap, Follow(heap, vs, p).value)
  }

  /** The path leads to the object `r`. */
  predicate Reaches(heap: Heap, vs: seq<Value>, path: seq<nat>, r: Ref)
    requires Closed(heap) && AllKnown(heap, vs)
  {
    Follow(heap, vs, path) == Some(Object(r))
  }

  /** No object is reached along two paths: no sharing and, in particular, no cycle. */
  ghost predicate NoneTwice(heap: Heap, vs: seq<Value>)
    requires Closed(heap) && AllKnown(heap, vs)
  {
    forall p, q, r :: Reaches(heap, vs, p, r) && Reaches(heap, vs, q, r) ==> p == q
  }

  /** What hangs below the row is a forest with JSON leaves. */
  ghost predicate Tidy(heap: Heap, vs: seq<Value>)
    requires Closed(heap) && AllKnown(heap, vs)
  {
    AllCarriable(heap, vs) && NoneTwice(heap, vs)
  }

  /** The objects reachable from the row. */
  ghost function Touch(heap: Heap, vs: seq<Value>): set<Ref>
    requires Closed(heap) && AllKnown(heap, vs)
  {
    set r | r in heap && exists p :: Reaches(heap, vs, p, r)
  }

  // ---- how a row splits ----

  lemma FollowKnown(heap: Heap, vs: seq<Value>, p: seq<nat>)
    requires Closed(heap) && AllKnown(heap, vs)
    ensures Follow(heap, vs, p).Some? ==> Known(heap, Follow(heap, vs, p).value)
    decreases |p|
  {
    if p != [] && p[0] < |vs| && |p| > 1 && vs[p[0]].Object? {
      FollowKnown(heap, Children(heap[vs[p[0]].ref]), p[1..]);
    }
  }

  lemma ReachedIsTouched(heap: Heap, vs: seq<Value>, p: seq<nat>, r: Ref)
    requires Closed(heap) && AllKnown(heap, vs) && Reaches(heap, vs, p, r)
    ensures r in Touch(heap, vs)
  {
    FollowKnown(heap, vs, p);
  }

  function Shift(p: seq<nat>, offset: nat): seq<nat>
    requires p != []
  {
    [p[0] + offset] + p[1..]
  }

  lemma FollowLeft(heap: Heap, a: seq<Value>, b: seq<Value>, p: seq<nat>)
    requires Closed(heap) && AllKnown(heap, a) && AllKnown(heap, b)
    requires p != [] && p[0] < |a|
    ensures AllKnown(heap, a + b) && Follow(heap, a + b, p) == Follow(heap, a, p)
  {
  }

  lemma FollowRight(heap: Heap, a: seq<Value>, b: seq<Value>, p: seq<nat>)
    requires Closed(heap) && AllKnown(heap, a) && AllKnown(heap, b) && p != []
    ensures AllKnown(heap, a + b) && Follow(heap, a + b, Shift(p, |a|)) == Follow(heap, b, p)
  {
    assert Shift(p, |a|)[1..] == p[1..];
  }

  /** A path through a + b is a path through a, or a shifted path through b. */
  lemma FollowAppend(heap: Heap, a: seq<Value>, b: seq<Value>, p: seq<nat>)
    requires Closed(heap) && AllKnown(heap, a) && AllKnown(heap, b) && p != []
    ensures AllKnown(heap, a + b)
    ensures p[0] < |a| ==> Follow(heap, a + b, p) == Follow(heap, a, p)
    ensures p[0] >= |a| ==> Follow(heap, a + b, p) == Follow(heap, b, [p[0] - |a|] + p[1..])
  {
    if p[0] < |a| {
      FollowLeft(heap, a, b, p);
    } else {
      var q := [p[0] - |a|] + p[1..];
      FollowRight(heap, a, b, q);
      assert Shift(q, |a|) == p;
    }
  }

  lemma TouchAppend(heap: Heap, a: seq<Value>, b: seq<Value>)
    requires Closed(heap) && AllKnown(heap, a) && AllKnown(heap, b)
    ensures AllKnown(heap, a + b) && Touch(heap, a + b) == Touch(heap, a) + Touch(heap, b)
  {
    forall r | r in Touch(heap, a + b) ensures r in Touch(heap, a) + Touch(heap, b) {
      var p :| Reaches(heap, a + b, p, r);
      FollowAppend(heap, a, b, p);
      if p[0] < |a| { assert Reaches(heap, a, p, r); } else { assert Reaches(heap, b, [p[0] - |a|] + p[1..], r); }
    }
    forall r | r in Touch(heap, a) ensures r in Touch(heap, a + b) {
      var p :| Reaches(heap, a, p, r);
      FollowLeft(heap, a, b, p);
      assert Reaches(heap, a + b, p, r);
    }
    forall r | r in Touch(heap, b) ensures r in Touch(heap, a + b) {
      var p :| Reaches(heap, b, p, r);
      FollowRight(heap, a, b, p);
      assert Reaches(heap, a + b, Shift(p, |a|), r);
    }
  }

  lemma TidyParts(heap: Heap, a: seq<Value>, b: seq<Value>)
    requires Closed(heap) && AllKnown(heap, a) && AllKnown(heap, b) && AllKnown(heap, a + b) && Tidy(heap, a + b)
    ensures Tidy(heap, a) && Tidy(heap, b) && Touch(heap, a) !! Touch(heap, b)
  {
    forall p | Follow(heap, a, p).Some? ensures Follow(heap, a + b, p) == Follow(heap, a, p) {
      FollowLeft(heap, a, b, p);
    }
    forall p | Follow(heap, b, p).Some? ensures p != [] && Follow(heap, a + b, Shift(p, |a|)) == Follow(heap, b, p) {
      FollowRight(heap, a, b, p);
    }
    forall p, q, r | Reaches(heap, a, p, r) && Reaches(heap, a, q, r) ensures p == q {
      assert Reaches(heap, a + b, p, r) && Reaches(heap, a + b, q, r);
    }
    forall p, q, r | Reaches(heap, b, p, r) && Reaches(heap, b, q, r) ensures p == q {
      assert Reaches(heap, a + b, Shift(p, |a|), r) && Reaches(heap, a + b, Shift(q, |a|), r);
      assert Shift(p, |a|)[0] == Shift(q, |a|)[0] && Shift(p, |a|)[1..] == p[1..] && Shift(q, |a|)[1..] == q[1..];
      assert p == [p[0]] + p[1..] && q == [q[0]] + q[1..];
    }
    PartsApart(heap, a, b);
  }

  lemma PartsApart(heap: Heap, a: seq<Value>, b: seq<Value>)
    requires Closed(heap) && AllKnown(heap, a) && AllKnown(heap, b) && AllKnown(heap, a + b) && NoneTwice(heap, a + b)
    ensures Touch(heap, a) !! Touch(heap, b)
  {
    forall r | r in Touch(heap, a) ensures r !in Touch(heap, b) {
      var p :| Reaches(heap, a, p, r);
      FollowLeft(heap, a, b, p);
      assert Reaches(heap, a + b, p, r);
      forall q ensures !Reaches(heap, b, q, r) {
        if q != [] {
          FollowRight(heap, a, b, q);
          assert Shift(q, |a|) != p;
          assert !Reaches(heap, a + b, Shift(q, |a|), r);
        }
      }
    }
  }

  lemma TidyWhole(heap: Heap, a: seq<Value>, b: seq<Value>)
    requires Closed(heap) && AllKnown(heap, a) && AllKnown(heap, b) && AllKnown(heap, a + b)
    requires Tidy(heap, a) && Tidy(heap, b) && Touch(heap, a) !! Touch(heap, b)
    ensures Tidy(heap, a + b)
  {
    forall p | Follow(heap, a + b, p).Some?
      ensures Known(heap, Follow(heap, a + b, p).value) && Carriable(heap, Follow(heap, a + b, p).value)
    {
      FollowAppend(heap, a, b, p);
    }
    forall p, q, r | Reaches(heap, a + b, p, r) && Reaches(heap, a + b, q, r) ensures p == q {
      WholeNoneTwice(heap, a, b, p, q, r);
    }
  }

  lemma WholeNoneTwice(heap: Heap, a: seq<Value>, b: seq<Value>, p: seq<nat>, q: seq<nat>, r: Ref)
    requires Closed(heap) && AllKnown(heap, a) && AllKnown(heap, b) && AllKnown(heap, a + b)
    requires NoneTwice(heap, a) && NoneTwice(heap, b) && Touch(heap, a) !! Touch(heap, b)
    requires Reaches(heap, a + b, p, r) && Reaches(heap, a + b, q, r)
    ensures p == q
  {
    FollowAppend(heap, a, b, p);
    FollowAppend(heap, a, b, q);
    SidesAgree(heap, a, b, p, q, r);
    if p[0] < |a| {
      assert Reaches(heap, a, p, r) && Reaches(heap, a, q, r);
    } else {
      var p', q' := [p[0] - |a|] + p[1..], [q[0] - |a|] + q[1..];
      assert Reaches(heap, b, p', r) && Reaches(heap, b, q', r);
      assert p'[0] == q'[0] && p'[1..] == p[1..] && q'[1..] == q[1..];
      assert p == [p[0]] + p[1..] && q == [q[0]] + q[1..];
    }
  }

  /** Two paths to one object leave through the same part of the row. */
  lemma SidesAgree(heap: Heap, a: seq<Value>, b: seq<Value>, p: seq<nat>, q: seq<nat>, r: Ref)
    requires Closed(heap) && AllKnown(heap, a) && AllKnown(heap, b) && AllKnown(heap, a + b)
    requires Touch(heap, a) !! Touch(heap, b)
    requires Reaches(heap, a + b, p, r) && Reaches(heap, a + b, q, r)
    ensures p[0] < |a| <==> q[0] < |a|
  {
    forall s | Reaches(heap, a + b, s, r) ensures if s[0] < |a| then r in Touch(heap, a) else r in Touch(heap, b) {
      FollowAppend(heap, a, b, s);
      if s[0] < |a| {
        ReachedIsTouched(heap, a, s, r);
      } else {
        ReachedIsTouched(heap, b, [s[0] - |a|] + s[1..], r);
      }
    }
  }

  // ---- one value ----

  lemma LeafTidy(heap: Heap, v: Value)
    requires Closed(heap) && !v.Object?
    ensures Touch(heap, [v]) == {}
    ensures Tidy(heap, [v]) <==> Carriable(heap, v)
  {
    assert Follow(heap, [v], [0]) == Some(v);
    forall p | Follow(heap, [v], p).Some? ensures p == [0] {
    }
  }

  lemma FollowBelow(heap: Heap, v: Value, p: seq<nat>)
    requires Closed(heap) && Known(heap, v) && v.Object?
    ensures p != [] ==> Follow(heap, [v], [0] + p) == Follow(heap, Children(heap[v.ref]), p)
    ensures Follow(heap, [v], [0]) == Some(v)
    ensures Follow(heap, [v], p).Some? && p != [0] ==> p[0] == 0 && p[1..] != [] && Follow(heap, [v], p) == Follow(heap, Children(heap[v.ref]), p[1..])
  {
    assert ([0] + p)[1..] == p;
    if |p| == 1 && p[0] == 0 { assert p == [0]; }
  }

  lemma ObjectTouch(heap: Heap, v: Value)
    requires Closed(heap) && Known(heap, v) && v.Object?
    ensures Touch(heap, [v]) == {v.ref} + Touch(heap, Children(heap[v.ref]))
  {
    var kids := Children(heap[v.ref]);
    forall r | r in Touch(heap, [v]) ensures r in {v.ref} + Touch(heap, kids) {
      var p :| Reaches(heap, [v], p, r);
      FollowBelow(heap, v, p);
      if p != [0] { assert Reaches(heap, kids, p[1..], r); }
    }
    FollowBelow(heap, v, []);
    assert Reaches(heap, [v], [0], v.ref);
    forall r | r in Touch(heap, kids) ensures r in Touch(heap, [v]) {
      var p :| Reaches(heap, kids, p, r);
      FollowBelow(heap, v, p);
      assert Reaches(heap, [v], [0] + p, r);
    }
  }

  lemma ObjectTidyDown(heap: Heap, v: Value)
    requires Closed(heap) && Known(heap, v) && v.Object? && Tidy(heap, [v])
    ensures Carriable(heap, v) && Tidy(heap, Children(heap[v.ref])) && v.ref !in Touch(heap, Children(heap[v.ref]))
  {
    var kids := Children(heap[v.ref]);
    FollowBelow(heap, v, []);
    assert Reaches(heap, [v], [0], v.ref);
    forall p | p != [] ensures Follow(heap, [v], [0] + p) == Follow(heap, kids, p) {
      FollowBelow(heap, v, p);
    }
    forall p, q, r | Reaches(heap, kids, p, r) && Reaches(heap, kids, q, r) ensures p == q {
      assert Reaches(heap, [v], [0] + p, r) && Reaches(heap, [v], [0] + q, r);
      assert ([0] + p)[1..] == p && ([0] + q)[1..] == q;
    }
    forall p ensures !Reaches(heap, kids, p, v.ref) {
      if p != [] {
        assert [0] + p != [0];
        assert !Reaches(heap, [v], [0] + p, v.ref);
      }
    }
  }

  lemma ObjectTidyUp(heap: Heap, v: Value)
    requires Closed(heap) && Known(heap, v) && v.Object?
    requires Carriable(heap, v) && Tidy(heap, Children(heap[v.ref])) && v.ref !in Touch(heap, Children(heap[v.ref]))
    ensures Tidy(heap, [v])
  {
    var kids := Children(heap[v.ref]);
    forall p | Follow(heap, [v], p).Some?
      ensures Known(heap, Follow(heap, [v], p).value) && Carriable(heap, Follow(heap, [v], p).value)
    {
      FollowBelow(heap, v, p);
    }
    forall p, q, r | Reaches(heap, [v], p, r) && Reaches(heap, [v], q, r) ensures p == q {
      FollowBelow(heap, v, p);
      FollowBelow(heap, v, q);
      forall s | s != [0] && Reaches(heap, [v], s, r) ensures r in Touch(heap, kids) && s == [0] + s[1..] && Reaches(heap, kids, s[1..], r) {
        FollowBelow(heap, v, s);
        ReachedIsTouched(heap, kids, s[1..], r);
      }
    }
  }

  // ---- the walk ----

  /** The row is a forest of JSON data, none of it in `before`. */
  ghost predicate Clear(heap: Heap, vs: seq<Value>, before: set<Ref>)
    requires Closed(heap) && AllKnown(heap, vs)
  {
    Tidy(heap, vs) && Touch(heap, vs) !! before
  }

  /** An object is clear when it is new and its row is clear of it, too. */
  lemma ObjectClear(heap: Heap, v: Value, before: set<Ref>)
    requires Closed(heap) && Known(heap, v) && v.Object?
    ensures Clear(heap, [v], before) <==>
            !heap[v.ref].Exotic? && v.ref !in before && Clear(heap, Children(heap[v.ref]), before + {v.ref})
    ensures before + Touch(heap, [v]) == before + {v.ref} + Touch(heap, Children(heap[v.ref]))
  {
    var kids := Children(heap[v.ref]);
    ObjectTouch(heap, v);
    if Tidy(heap, [v]) { ObjectTidyDown(heap, v); }
    if Carriable(heap, v) && Tidy(heap, kids) && v.ref !in Touch(heap, kids) { ObjectTidyUp(heap, v); }
  }

  /** `isJsonSafe` with its shared `seen` set. */
  class JsonSafetyCheck {
    const heap: Heap
    var seen: set<Ref>

    constructor (heap: Heap)
      ensures this.heap == heap && seen == {}
    {
      this.heap := heap;
      seen := {};
    }

    /** True exactly when the value is a tree of JSON data that meets nothing seen before;
        then exactly its objects have been added. */
    method IsJsonSafe(v: Value) returns (safe: bool)
      requires Closed(heap) && Known(heap, v) && seen <= heap.Keys
      modifies this
      ensures old(seen) <= seen <= heap.Keys
      ensures safe <==> Clear(heap, [v], old(seen))
      ensures safe ==> seen == old(seen) + Touch(heap, [v])
      decreases |heap.Keys - seen|, 0
    {
      if !v.Object? {
        LeafTidy(heap, v);
        return v.Null? || v.Text? || v.Flag? || v.Number?;
      }
      ObjectClear(heap, v, seen);
      if heap[v.ref].Exotic? || v.ref in seen {
        return false;
      }
      SubsetCardinality(heap.Keys - (seen + {v.ref}), heap.Keys - seen);
      seen := seen + {v.ref};
      safe := Every(Children(heap[v.ref]));
    }

    /** `values.every((v) => isJsonSafe(v, seen))`. */
    method Every(vs: seq<Value>) returns (safe: bool)
      requires Closed(heap) && AllKnown(heap, vs) && seen <= heap.Keys
      modifies this
      ensures old(seen) <= seen <= heap.Keys
      ensures safe <==> Clear(heap, vs, old(seen))
      ensures safe ==> seen == old(seen) + Touch(heap, vs)
      decreases |heap.Keys - seen|, 1
    {
      var i := 0;
      EmptyTidy(heap);
      assert vs[..0] == [];
      while i < |vs|
        invariant 0 <= i <= |vs|
        invariant old(seen) <= seen <= heap.Keys
        invariant Passed(heap, vs[..i], old(seen), seen)
      {
        SubsetCardinality(heap.Keys - seen, heap.Keys - old(seen));
        ghost var before := seen;
        var good := IsJsonSafe(vs[i]);
        if !good {
          RowFails(heap, vs, i, old(seen), before);
          return false;
        }
        RowPasses(heap, vs, i, old(seen), before);
        i := i + 1;
      }
      assert vs[..i] == vs;
      safe := true;
    }
  }

  /** The row is tidy, met nothing in `before`, and `after` adds exactly its objects. */
  ghost predicate Passed(heap: Heap, vs: seq<Value>, before: set<Ref>, after: set<Ref>)
    requires Closed(heap) && AllKnown(heap, vs)
  {
    Clear(heap, vs, before) && after == before + Touch(heap, vs)
  }

  lemma RowPasses(heap: Heap, vs: seq<Value>, i: nat, before: set<Ref>, middle: set<Ref>)
    requires Closed(heap) && AllKnown(heap, vs) && i < |vs| && Passed(heap, vs[..i], before, middle)
    requires Clear(heap, [vs[i]], middle)
    ensures Passed(heap, vs[..i + 1], before, middle + Touch(heap, [vs[i]]))
  {
    RowStep(heap, vs, i);
  }

  lemma RowFails(heap: Heap, vs: seq<Value>, i: nat, before: set<Ref>, middle: set<Ref>)
    requires Closed(heap) && AllKnown(heap, vs) && i < |vs| && Passed(heap, vs[..i], before, middle)
    requires !Clear(heap, [vs[i]], middle)
    ensures !Clear(heap, vs, before)
  {
    RowStep(heap, vs, i);
  }

  lemma EmptyTidy(heap: Heap)
    requires Closed(heap)
    ensures Tidy(heap, []) && Touch(heap, []) == {}
  {
    assert forall p :: Follow(heap, [], p) == None;
  }

  /** One more value of a row. */
  lemma RowStep(heap: Heap, vs: seq<Value>, i: nat)
    requires Closed(heap) && AllKnown(heap, vs) && i < |vs|
    ensures Touch(heap, vs[..i + 1]) == Touch(heap, vs[..i]) + Touch(heap, [vs[i]])
    ensures Touch(heap, vs[..i + 1]) <= Touch(heap, vs)
    ensures Tidy(heap, vs[..i + 1]) <==> Tidy(heap, vs[..i]) && Tidy(heap, [vs[i]]) && Touch(heap, vs[..i]) !! Touch(heap, [vs[i]])
    ensures Tidy(heap, vs) ==> Tidy(heap, vs[..i + 1])
  {
    var a, b, c := vs[..i], [vs[i]], vs[i + 1..];
    assert vs[..i + 1] == a + b && vs == (a + b) + c;
    TouchAppend(heap, a, b);
    TouchAppend(heap, a + b, c);
    if Tidy(heap, vs) { TidyParts(heap, a + b, c); }
    if Tidy(heap, a + b) { TidyParts(heap, a, b); }
    if Tidy(heap, a) && Tidy(heap, b) && Touch(heap, a) !! Touch(heap, b) { TidyWhole(heap, a, b); }
  }

  /** A fresh check of one value: `isJsonSafe(value)` as `evaluate` calls it. */
  method SafeForSnapshot(heap: Heap, v: Value) returns (safe: bool)
    requires Closed(heap) && Known(heap, v)
    ensures safe <==> Tidy(heap, [v])
  {
    var check := new JsonSafetyCheck(heap);
    safe := check.IsJsonSafe(v);
  }

  // ---- the deep clone that follows ----

  datatype Json =
    | JNull
    | JText(text: string)
    | JFlag(flag: bool)
    | JNumber(value: real)
    | JList(items: seq<Json>)
    | JRecord(keys: seq<string>, values: seq<Json>)

  /** A tidy object's row is tidy and reaches strictly less. */
  lemma RowReachesLess(heap: Heap, v: Value)
    requires Closed(heap) && Known(heap, v) && v.Object? && Tidy(heap, [v])
    ensures !heap[v.ref].Exotic? && Tidy(heap, Children(heap[v.ref]))
    ensures |Touch(heap, Children(heap[v.ref]))| < |Touch(heap, [v])|
  {
    ObjectTidyDown(heap, v);
    ObjectTouch(heap, v);
    SubsetCardinality(Touch(heap, Children(heap[v.ref])), Touch(heap, [v]));
  }

  /** The parts of a tidy row are tidy and reach no more. */
  lemma RowSplits(heap: Heap, vs: seq<Value>)
    requires Closed(heap) && AllKnown(heap, vs) && vs != [] && Tidy(heap, vs)
    ensures Tidy(heap, [vs[0]]) && Tidy(heap, vs[1..])
    ensures |Touch(heap, [vs[0]])| <= |Touch(heap, vs)| && |Touch(heap, vs[1..])| <= |Touch(heap, vs)|
  {
    assert vs == [vs[0]] + vs[1..];
    TidyParts(heap, [vs[0]], vs[1..]);
    TouchAppend(heap, [vs[0]], vs[1..]);
    SubsetCardinality(Touch(heap, [vs[0]]), Touch(heap, vs));
    SubsetCardinality(Touch(heap, vs[1..]), Touch(heap, vs));
  }

  /** The clone of a safe value; that it is defined at all is the point: the walk below the
      value is well founded. */
  ghost function Clone(heap: Heap, v: Value): Json
    requires Closed(heap) && Known(heap, v) && Tidy(heap, [v])
    decreases |Touch(heap, [v])|, 0, 0
  {
    match v
    case Null => JNull
    case Text(t) => JText(t)
    case Flag(b) => JFlag(b)
    case Number(x) => JNumber(x)
    case Object(r) =>
      RowReachesLess(heap, v);
      (match heap[r]
       case List(items) => JList(CloneRow(heap, items))
       case Record(keys, values) => JRecord(keys, CloneRow(heap, values)))
    case _ => LeafTidy(heap, v); assert false; JNull
  }

  ghost function CloneRow(heap: Heap, vs: seq<Value>): (js: seq<Json>)
    requires Closed(heap) && AllKnown(heap, vs) && Tidy(heap, vs)
    ensures |js| == |vs|
    decreases |Touch(heap, vs)|, 1, |vs|
  {
    if vs == [] then []
    else
      RowSplits(heap, vs);
      [Clone(heap, vs[0])] + CloneRow(heap, vs[1..])
  }

  function JsonChildren(j: Json): seq<Json> {
    match j
    case JList(items) => items
    case JRecord(_, values) => values
    case _ => []
  }

  function FollowJson(js: seq<Json>, path: seq<nat>): Option<Json>
    decreases |path|
  {
    if path == [] || path[0] >= |js| then None
    else if |path| == 1 then Some(js[path[0]])
    else FollowJson(JsonChildren(js[path[0]]), path[1..])
  }

  /** The same data at one place: equal primitives, or containers of the same kind, keys and size. */
  predicate SameData(heap: Heap, v: Value, j: Json)
    requires Known(heap, v)
  {
    match v
    case Null => j == JNull
    case Text(t) => j == JText(t)
    case Flag(b) => j == JFlag(b)
    case Number(x) => j == JNumber(x)
    case Object(r) =>
      (match heap[r]
       case List(items) => j.JList? && |j.items| == |items|
       case Record(keys, values) => j.JRecord? && j.keys == keys && |j.values| == |values|
       case Exotic => false)
    case _ => false
  }

  /** What a path finds in the heap and in the clone is the same data, or nothing in both. */
  predicate SamePlace(heap: Heap, there: Option<Value>, copy: Option<Json>) {
    if there.None? then copy.None?
    else copy.Some? && Known(heap, there.value) && SameData(heap, there.value, copy.value)
  }

  /** The clone carries the same data at every path, and has no other paths. */
  lemma {:induction false} CloneKeepsEveryPath(heap: Heap, vs: seq<Value>, path: seq<nat>)
    requires Closed(heap) && AllKnown(heap, vs) && Tidy(heap, vs)
    ensures SamePlace(heap, Follow(heap, vs, path), FollowJson(CloneRow(heap, vs), path))
    decreases |path|, |vs|
  {
    if path != [] && vs != [] {
      RowSplits(heap, vs);
      if path[0] > 0 {
        var q := [path[0] - 1] + path[1..];
        assert q[1..] == path[1..];
        CloneKeepsEveryPath(heap, vs[1..], q);
      } else if |path| > 1 && vs[0].Object? {
        RowReachesLess(heap, vs[0]);
        CloneKeepsEveryPath(heap, Children(heap[vs[0].ref]), path[1..]);
      } else {
        CloneOfHead(heap, vs[0]);
      }
    }
  }

  lemma CloneOfHead(heap: Heap, v: Value)
    requires Closed(heap) && Known(heap, v) && Tidy(heap, [v])
    ensures SameData(heap, v, Clone(heap, v))
    ensures !v.Object? ==> JsonChildren(Clone(heap, v)) == []
  {
    if v.Object? { RowReachesLess(heap, v); } else { LeafTidy(heap, v); }
  }
}
