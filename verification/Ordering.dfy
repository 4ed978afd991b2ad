/** Stable sorting, and the facts that tell on what its result depends: a sorted list is determined
    by its contents where the order tells its elements apart, and by their places where it does not. */
module Ordering {

  ghost predicate Strict<T(!new)>(less: (T, T) -> bool) {
    && (forall a :: !less(a, a))
    && (forall a, b, c :: less(a, b) && less(b, c) ==> less(a, c))
  }

  /** Any two different elements of the list are comparable. */
  predicate Comparable<T(==)>(less: (T, T) -> bool, xs: seq<T>) {
    forall i, j :: 0 <= i < j < |xs| ==> less(xs[i], xs[j]) || less(xs[j], xs[i])
  }

  predicate Sorted<T>(less: (T, T) -> bool, xs: seq<T>) {
    forall i, j :: 0 <= i < j < |xs| ==> less(xs[i], xs[j])
  }

  function Insert<T>(less: (T, T) -> bool, x: T, xs: seq<T>): seq<T> {
    if xs == [] then [x] else if less(xs[0], x) then [xs[0]] + Insert(less, x, xs[1..]) else [x] + xs
  }

  function Sort<T>(less: (T, T) -> bool, xs: seq<T>): seq<T> {
    if xs == [] then [] else Insert(less, xs[0], Sort(less, xs[1..]))
  }

  lemma {:induction false} InsertContents<T>(less: (T, T) -> bool, x: T, xs: seq<T>)
    ensures multiset(Insert(less, x, xs)) == multiset{x} + multiset(xs)
  {
    if xs != [] {
      assert xs == [xs[0]] + xs[1..];
      if less(xs[0], x) { InsertContents(less, x, xs[1..]); }
    }
  }

  lemma {:induction false} SortContents<T>(less: (T, T) -> bool, xs: seq<T>)
    ensures multiset(Sort(less, xs)) == multiset(xs)
    ensures |Sort(less, xs)| == |xs|
  {
    if xs != [] {
      assert xs == [xs[0]] + xs[1..];
      SortContents(less, xs[1..]);
      InsertContents(less, xs[0], Sort(less, xs[1..]));
      assert |multiset(Sort(less, xs))| == |multiset(xs)|;
    }
  }

  lemma {:induction false} InsertSorted<T(!new)>(less: (T, T) -> bool, x: T, xs: seq<T>)
    requires Strict(less) && Sorted(less, xs)
    requires forall y :: y in xs ==> less(x, y) || less(y, x)
    ensures Sorted(less, Insert(less, x, xs))
  {
    if xs != [] && less(xs[0], x) {
      var rest := Insert(less, x, xs[1..]);
      InsertSorted(less, x, xs[1..]);
      InsertContents(less, x, xs[1..]);
      forall j | 0 <= j < |rest| ensures less(xs[0], rest[j]) {
        assert rest[j] in multiset(rest);
        assert xs[0] in xs;
        if rest[j] != x {
          assert rest[j] in xs[1..];
        }
      }
    }
  }

  lemma {:induction false} SortSorted<T(!new)>(less: (T, T) -> bool, xs: seq<T>)
    requires Strict(less) && Comparable(less, xs)
    ensures Sorted(less, Sort(less, xs))
  {
    if xs != [] {
      assert forall i, j :: 0 <= i < j < |xs[1..]| ==> xs[1..][i] == xs[i + 1] && xs[1..][j] == xs[j + 1];
      SortSorted(less, xs[1..]);
      SortContents(less, xs[1..]);
      forall y | y in Sort(less, xs[1..]) ensures less(xs[0], y) || less(y, xs[0]) {
        assert y in multiset(xs[1..]);
        var k :| 0 <= k < |xs[1..]| && xs[1..][k] == y;
        assert y == xs[k + 1];
      }
      InsertSorted(less, xs[0], Sort(less, xs[1..]));
    }
  }

  lemma HeadFirst<T(!new)>(less: (T, T) -> bool, ys: seq<T>, y: T)
    requires Sorted(less, ys) && y in ys
    ensures y == ys[0] || less(ys[0], y)
  {
    var i :| 0 <= i < |ys| && ys[i] == y;
  }

  // ---- orders that do not tell all elements apart ----

  /** Strict, and elements that are not ordered either way compare alike with all others. */
  ghost predicate Weak<T(!new)>(less: (T, T) -> bool) {
    Strict(less) && forall a, b, c :: less(a, c) ==> less(a, b) || less(b, c)
  }

  predicate InOrder<T>(less: (T, T) -> bool, xs: seq<T>) {
    forall i, j :: 0 <= i < j < |xs| ==> !less(xs[j], xs[i])
  }

  lemma {:induction false} InsertInOrder<T(!new)>(less: (T, T) -> bool, x: T, xs: seq<T>)
    requires Weak(less) && InOrder(less, xs)
    ensures InOrder(less, Insert(less, x, xs))
  {
    if xs != [] && less(xs[0], x) {
      var rest := Insert(less, x, xs[1..]);
      InsertInOrder(less, x, xs[1..]);
      InsertContents(less, x, xs[1..]);
      forall j | 0 <= j < |rest| ensures !less(rest[j], xs[0]) {
        assert rest[j] in multiset(rest);
        assert rest[j] == x || rest[j] in xs[1..];
      }
    } else {
      forall j | 0 <= j < |xs| ensures !less(xs[j], x) {
        assert j == 0 || !less(xs[j], xs[0]);
      }
    }
  }

  lemma {:induction false} SortInOrder<T(!new)>(less: (T, T) -> bool, xs: seq<T>)
    requires Weak(less)
    ensures InOrder(less, Sort(less, xs))
  {
    if xs != [] {
      SortInOrder(less, xs[1..]);
      InsertInOrder(less, xs[0], Sort(less, xs[1..]));
    }
  }

  /** Different elements of the list are ordered one way or the other. */
  ghost predicate ToldApart<T(!new)>(less: (T, T) -> bool, xs: seq<T>) {
    forall x, y :: x in xs && y in xs && x != y ==> less(x, y) || less(y, x)
  }

  lemma SameHead<T(!new)>(less: (T, T) -> bool, xs: seq<T>, ys: seq<T>)
    requires ToldApart(less, xs) && InOrder(less, xs) && InOrder(less, ys)
    requires multiset(xs) == multiset(ys) && xs != [] && ys != []
    ensures xs[0] == ys[0]
  {
    assert xs[0] in multiset(ys) && ys[0] in multiset(xs);
    var i :| 0 <= i < |ys| && ys[i] == xs[0];
    var j :| 0 <= j < |xs| && xs[j] == ys[0];
    assert i == 0 || !less(ys[i], ys[0]);
    assert j == 0 || !less(xs[j], xs[0]);
  }

  /** A list whose elements are told apart has one order only. */
  lemma {:induction false} OrderedUnique<T(!new)>(less: (T, T) -> bool, xs: seq<T>, ys: seq<T>)
    requires ToldApart(less, xs) && InOrder(less, xs) && InOrder(less, ys)
    requires multiset(xs) == multiset(ys)
    ensures xs == ys
  {
    assert |multiset(xs)| == |multiset(ys)|;
    if xs != [] {
      SameHead(less, xs, ys);
      assert xs == [xs[0]] + xs[1..] && ys == [ys[0]] + ys[1..];
      assert multiset(xs[1..]) == multiset(xs) - multiset{xs[0]};
      assert multiset(ys[1..]) == multiset(ys) - multiset{ys[0]};
      OrderedUnique(less, xs[1..], ys[1..]);
    }
  }

  lemma SortIgnoresOrder<T(!new)>(less: (T, T) -> bool, xs: seq<T>, ys: seq<T>)
    requires Weak(less) && ToldApart(less, xs) && multiset(xs) == multiset(ys)
    ensures Sort(less, xs) == Sort(less, ys)
  {
    SortInOrder(less, xs);
    SortInOrder(less, ys);
    SortContents(less, xs);
    SortContents(less, ys);
    SortedToldApart(less, xs);
    OrderedUnique(less, Sort(less, xs), Sort(less, ys));
  }

  lemma SortedToldApart<T(!new)>(less: (T, T) -> bool, xs: seq<T>)
    requires ToldApart(less, xs)
    ensures ToldApart(less, Sort(less, xs))
  {
    SortContents(less, xs);
    forall x | x in Sort(less, xs) ensures x in xs {
      assert x in multiset(Sort(less, xs));
    }
  }

  function Filter<T>(keep: T -> bool, xs: seq<T>): seq<T> {
    if xs == [] then [] else (if keep(xs[0]) then [xs[0]] else []) + Filter(keep, xs[1..])
  }

  lemma {:induction false} FilterContents<T>(keep: T -> bool, xs: seq<T>, x: T)
    ensures multiset(Filter(keep, xs))[x] == if keep(x) then multiset(xs)[x] else 0
  {
    if xs != [] {
      assert xs == [xs[0]] + xs[1..];
      FilterContents(keep, xs[1..], x);
    }
  }

  lemma FilterMembers<T>(keep: T -> bool, xs: seq<T>)
    ensures forall x :: x in Filter(keep, xs) <==> x in xs && keep(x)
  {
    forall x ensures x in Filter(keep, xs) <==> x in xs && keep(x) {
      FilterContents(keep, xs, x);
      assert x in Filter(keep, xs) <==> x in multiset(Filter(keep, xs));
      assert x in xs <==> x in multiset(xs);
    }
  }

  lemma FilterStep<T>(keep: T -> bool, xs: seq<T>)
    requires xs != []
    ensures Filter(keep, xs) == (if keep(xs[0]) then [xs[0]] else []) + Filter(keep, xs[1..])
  {
  }

  lemma AppendThree<T>(a: seq<T>, b: seq<T>, c: seq<T>)
    ensures a + (b + c) == a + b + c
  {
  }

  lemma {:induction false} FilterAppend<T>(keep: T -> bool, xs: seq<T>, ys: seq<T>)
    ensures Filter(keep, xs + ys) == Filter(keep, xs) + Filter(keep, ys)
  {
    if xs == [] {
      assert xs + ys == ys;
    } else {
      var here := if keep(xs[0]) then [xs[0]] else [];
      FilterAppend(keep, xs[1..], ys);
      FilterStep(keep, xs + ys);
      assert (xs + ys)[0] == xs[0] && (xs + ys)[1..] == xs[1..] + ys;
      assert Filter(keep, xs) == here + Filter(keep, xs[1..]);
      AppendThree(here, Filter(keep, xs[1..]), Filter(keep, ys));
    }
  }

  lemma FilterPair<T>(keep: T -> bool, a: T, b: T, rest: seq<T>)
    requires keep(a) && keep(b)
    ensures Filter(keep, [a, b] + rest) == [a, b] + Filter(keep, rest)
  {
    FilterAppend(keep, [a, b], rest);
    assert [a, b][1..] == [b];
  }

  lemma FilterThree<T>(keep: T -> bool, a: T, b: T, c: T)
    ensures Filter(keep, [a, b, c]) == (if keep(a) then [a] else []) + (if keep(b) then [b] else []) + (if keep(c) then [c] else [])
  {
    assert [a, b, c][1..] == [b, c] && [b, c][1..] == [c] && [c][1..] == [];
    FilterStep(keep, [a, b, c]);
    FilterStep(keep, [b, c]);
    FilterStep(keep, [c]);
  }

  lemma SortThree<T>(less: (T, T) -> bool, a: T, b: T, c: T)
    requires !less(b, a) && !less(c, b)
    ensures Sort(less, [a, b, c]) == [a, b, c]
  {
    assert [a, b, c][1..] == [b, c] && [b, c][1..] == [c] && [c][1..] == [];
    assert Sort(less, [c]) == Insert(less, c, []) == [c];
    assert Sort(less, [b, c]) == Insert(less, b, [c]) == [b] + [c] == [b, c];
    assert Sort(less, [a, b, c]) == Insert(less, a, [b, c]) == [a] + [b, c];
  }

  lemma TwoKept<T>(keep: T -> bool, xs: seq<T>, i: nat)
    requires 0 < i < |xs| && keep(xs[0]) && keep(xs[i])
    ensures |Filter(keep, xs)| > 1
  {
    FilterMembers(keep, xs[1..]);
    assert xs[1..][i - 1] == xs[i];
    assert xs[i] in Filter(keep, xs[1..]);
  }

  function Without<T>(ys: seq<T>, i: nat): seq<T>
    requires i < |ys|
  {
    ys[..i] + ys[i + 1..]
  }

  lemma WithoutContents<T>(ys: seq<T>, i: nat)
    requires i < |ys|
    ensures multiset(Without(ys, i)) == multiset(ys) - multiset{ys[i]}
    ensures |Without(ys, i)| == |ys| - 1
  {
    assert ys == ys[..i] + ([ys[i]] + ys[i + 1..]);
  }

  lemma BringForward<T>(xs: seq<T>, a: T) returns (rest: seq<T>)
    requires a in xs
    ensures multiset(xs) == multiset{a} + multiset(rest)
  {
    var i: nat :| i < |xs| && xs[i] == a;
    WithoutContents(xs, i);
    rest := Without(xs, i);
  }

  lemma PairContents<T>(a: T, b: T, rest: seq<T>)
    ensures multiset([a, b] + rest) == multiset{a} + (multiset{b} + multiset(rest))
  {
    assert [a, b] + rest == [a] + ([b] + rest);
  }

  lemma BringPairForward<T>(xs: seq<T>, a: T, b: T) returns (rest: seq<T>)
    requires a in xs && b in xs && a != b
    ensures multiset([a, b] + rest) == multiset(xs) && multiset([b, a] + rest) == multiset(xs)
  {
    var others := BringForward(xs, a);
    assert b in multiset(xs) && b !in multiset{a};
    assert b in multiset(others);
    rest := BringForward(others, b);
    PairContents(a, b, rest);
    PairContents(b, a, rest);
  }

  lemma FilterWithout<T>(keep: T -> bool, ys: seq<T>, i: nat)
    requires i < |ys|
    ensures multiset(Filter(keep, ys)) == (if keep(ys[i]) then multiset{ys[i]} else multiset{}) + multiset(Filter(keep, Without(ys, i)))
  {
    var before, behind := ys[..i], ys[i..];
    assert ys == before + behind;
    FilterAppend(keep, before, behind);
    FilterAppend(keep, before, behind[1..]);
    assert behind[1..] == ys[i + 1..] && behind[0] == ys[i];
    FilterStep(keep, behind);
  }

  lemma {:induction false} FilterOfSameContents<T>(keep: T -> bool, xs: seq<T>, ys: seq<T>)
    requires multiset(xs) == multiset(ys)
    ensures multiset(Filter(keep, xs)) == multiset(Filter(keep, ys))
  {
    assert |multiset(xs)| == |multiset(ys)|;
    if xs != [] {
      assert xs[0] in multiset(ys);
      var i: nat :| i < |ys| && ys[i] == xs[0];
      WithoutContents(xs, 0);
      WithoutContents(ys, i);
      FilterOfSameContents(keep, Without(xs, 0), Without(ys, i));
      FilterWithout(keep, xs, 0);
      FilterWithout(keep, ys, i);
    }
  }

  // ---- stability ----

  function AlikeTo<T>(less: (T, T) -> bool, a: T): T -> bool {
    x => !less(a, x) && !less(x, a)
  }

  lemma {:induction false} InsertIsStable<T(!new)>(less: (T, T) -> bool, x: T, xs: seq<T>, a: T)
    requires Weak(less)
    ensures Filter(AlikeTo(less, a), Insert(less, x, xs)) == Filter(AlikeTo(less, a), [x] + xs)
  {
    var keep := AlikeTo(less, a);
    FilterAppend(keep, [x], xs);
    if xs != [] && less(xs[0], x) {
      InsertIsStable(less, x, xs[1..], a);
      FilterAppend(keep, [x], xs[1..]);
      assert keep(x) ==> !keep(xs[0]);
      assert Filter(keep, [x]) == if keep(x) then [x] else [];
      assert Filter(keep, Insert(less, x, xs)) == (if keep(xs[0]) then [xs[0]] else []) + Filter(keep, Insert(less, x, xs[1..]));
    }
  }

  /** Elements the order does not tell apart stay in the order they came in. */
  lemma {:induction false} SortIsStable<T(!new)>(less: (T, T) -> bool, xs: seq<T>, a: T)
    requires Weak(less)
    ensures Filter(AlikeTo(less, a), Sort(less, xs)) == Filter(AlikeTo(less, a), xs)
  {
    if xs != [] {
      var keep := AlikeTo(less, a);
      SortIsStable(less, xs[1..], a);
      InsertIsStable(less, xs[0], Sort(less, xs[1..]), a);
      FilterAppend(keep, [xs[0]], Sort(less, xs[1..]));
      FilterAppend(keep, [xs[0]], xs[1..]);
      assert xs == [xs[0]] + xs[1..];
    }
  }
}
