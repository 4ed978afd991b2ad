/** Shared vocabulary: optional values, the string keys the repository builds by
    concatenation, and two counting facts about finite sequences and sets. */
module Foundations {

  datatype Option<+T> = None | Some(value: T)

  /** JavaScript treats the empty string as false, so an optional string counts as
      "given" only when it is present and not empty. */
  predicate Given(s: Option<string>) {
    s.Some? && s.value != ""
  }

  function Abs(x: int): int {
    if x < 0 then -x else x
  }

  function Max(a: int, b: int): int {
    if a < b then b else a
  }

  function Min(a: int, b: int): int {
    if a < b then a else b
  }

  /** Array.prototype.slice(0, end). */
  function SliceTo<T>(xs: seq<T>, end: int): seq<T> {
    if end < 0 then xs[..Max(|xs| + end, 0)] else xs[..Min(end, |xs|)]
  }

  // ---- keys of the form `${prefix}${separator}${number}` ----

  function Digit(d: nat): char
    requires d < 10
  {
    '0' + d as char
  }

  function Decimal(n: nat): (s: string)
    ensures |s| >= 1
    ensures forall i :: 0 <= i < |s| ==> '0' <= s[i] <= '9'
  {
    if n < 10 then [Digit(n)] else Decimal(n / 10) + [Digit(n % 10)]
  }

  lemma {:induction false} DecimalInjective(m: nat, n: nat)
    requires Decimal(m) == Decimal(n)
    ensures m == n
  {
    var s, t := Decimal(m), Decimal(n);
    assert s[|s| - 1] == Digit(m % 10) && t[|t| - 1] == Digit(n % 10);
    if m < 10 || n < 10 {
      assert |s| == 1;
    } else {
      assert s[..|s| - 1] == Decimal(m / 10) && t[..|t| - 1] == Decimal(n / 10);
      DecimalInjective(m / 10, n / 10);
    }
  }

  function Tagged(prefix: string, separator: char, n: nat): string {
    prefix + [separator] + Decimal(n)
  }

  predicate Without(s: string, c: char) {
    forall i :: 0 <= i < |s| ==> s[i] != c
  }

  /** Text free of the separator on the right: the last separator is in the same place. */
  lemma LastSeparator(p: string, a: string, q: string, b: string, separator: char)
    requires Without(a, separator) && Without(b, separator)
    requires p + [separator] + a == q + [separator] + b
    ensures p == q && a == b
  {
    var s, t := p + [separator] + a, q + [separator] + b;
    assert s[|p|] == separator && t[|q|] == separator;
    assert forall i :: |p| < i < |s| ==> s[i] == a[i - |p| - 1];
    assert forall i :: |q| < i < |t| ==> t[i] == b[i - |q| - 1];
    assert |p| == |q|;
    assert s[..|p|] == p && t[..|q|] == q;
    assert s[|p| + 1..] == a && t[|q| + 1..] == b;
  }

  /** Text free of the separator on the left: the first separator is in the same place. */
  lemma FirstSeparator(p: string, a: string, q: string, b: string, separator: char)
    requires Without(p, separator) && Without(q, separator)
    requires p + [separator] + a == q + [separator] + b
    ensures p == q && a == b
  {
    var s, t := p + [separator] + a, q + [separator] + b;
    assert s[|p|] == separator && t[|q|] == separator;
    assert forall i :: 0 <= i < |p| ==> s[i] == p[i];
    assert forall i :: 0 <= i < |q| ==> t[i] == q[i];
    assert |p| == |q|;
    assert s[..|p|] == p && t[..|q|] == q;
    assert s[|p| + 1..] == a && t[|q| + 1..] == b;
  }

  /** Distinct (prefix, number) pairs never share a key. */
  lemma TaggedInjective(p: string, m: nat, q: string, n: nat, separator: char)
    requires !('0' <= separator <= '9')
    requires Tagged(p, separator, m) == Tagged(q, separator, n)
    ensures p == q && m == n
  {
    LastSeparator(p, Decimal(m), q, Decimal(n), separator);
    DecimalInjective(m, n);
  }

  // ---- counting ----

  lemma {:induction false} Pigeonhole<T>(p: seq<T>, s: set<T>)
    requires forall i :: 0 <= i < |p| ==> p[i] in s
    requires |p| > |s|
    ensures exists i, j :: 0 <= i < j < |p| && p[i] == p[j]
  {
    var last := |p| - 1;
    if exists i :: 0 <= i < last && p[i] == p[last] {
      var i :| 0 <= i < last && p[i] == p[last];
    } else {
      var q := p[..last];
      assert p[last] in s;
      forall i | 0 <= i < |q| ensures q[i] in s - {p[last]} {
        assert q[i] == p[i];
      }
      assert |s - {p[last]}| == |s| - 1;
      Pigeonhole(q, s - {p[last]});
      var i, j :| 0 <= i < j < |q| && q[i] == q[j];
      assert p[i] == p[j];
    }
  }

  lemma SubsetCardinality<T>(a: set<T>, b: set<T>)
    requires a <= b
    ensures |a| <= |b|
    ensures a != b ==> |a| < |b|
  {
    assert b == a + (b - a);
    assert |b| == |a| + |b - a|;
  }
}
