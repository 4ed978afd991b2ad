/** A signal's dedup identity and the hash inside it (packages/domain/src/intelligence/signal.ts:95-107). */
module SignalHash {
  import opened Foundations

  /** A UTF-16 code unit, as `charCodeAt` returns it. */
  type CodeUnit = x: int | 0 <= x < 0x1_0000

  const WORD: int := 0x1_0000_0000
  const HALF: int := 0x8000_0000

  /** The conversion behind `| 0` and `<<`: the residue modulo 2^32 in [-2^31, 2^31). */
  function ToInt32(x: int): (r: int)
    ensures -HALF <= r < HALF && (x - r) % WORD == 0
  {
    var m := x % WORD;
    if m < HALF then m else m - WORD
  }

  function ShiftLeft5(x: int): int {
    ToInt32(x * 32)
  }

  /** The code units as the digits of a number in base 31. */
  function Polynomial(input: seq<CodeUnit>): int {
    if input == [] then 0 else Polynomial(input[..|input| - 1]) * 31 + input[|input| - 1]
  }

  function Power31(n: nat): int {
    if n == 0 then 1 else 31 * Power31(n - 1)
  }

  /** The polynomial, term by term: appending shifts by a power of 31. */
  lemma {:induction false} PolynomialAppend(a: seq<CodeUnit>, b: seq<CodeUnit>)
    ensures Polynomial(a + b) == Polynomial(a) * Power31(|b|) + Polynomial(b)
    decreases |b|
  {
    if b == [] {
      assert a + b == a;
    } else {
      var front := b[..|b| - 1];
      assert (a + b)[..|a + b| - 1] == a + front;
      PolynomialAppend(a, front);
      var p, q := Polynomial(a), Power31(|front|);
      assert (p * q) * 31 == p * (31 * q);
    }
  }

  /** Equal residues have equal representatives. */
  lemma SameResidue(x: int, y: int)
    ensures ToInt32(x) == ToInt32(y) <==> (x - y) % WORD == 0
  {
    var a, b := x / WORD, y / WORD;
    assert x == a * WORD + x % WORD && y == b * WORD + y % WORD;
  }

  lemma Multiple(x: int, r: int)
    requires (x - r) % WORD == 0
    ensures x == r + (x - r) / WORD * WORD
  {
  }

  lemma Congruent(x: int, y: int, k: int)
    requires x - y == k * WORD
    ensures ToInt32(x) == ToInt32(y)
  {
    assert (k * WORD) % WORD == 0;
    SameResidue(x, y);
  }

  /** One turn of the loop on representatives computes one digit of the polynomial. */
  lemma TurnIsHorner(p: int, chr: int)
    ensures ToInt32(ShiftLeft5(ToInt32(p)) - ToInt32(p) + chr) == ToInt32(p * 31 + chr)
  {
    var h := ToInt32(p);
    var s := ShiftLeft5(h);
    Multiple(p, h);
    Multiple(h * 32, s);
    Congruent(p * 31 + chr, s - h + chr, 31 * ((p - h) / WORD) + (h * 32 - s) / WORD);
  }

  function Base36Digit(d: int): char
    requires 0 <= d < 36
  {
    if d < 10 then '0' + d as char else 'a' + (d - 10) as char
  }

  /** Number.prototype.toString(36). */
  function Base36(n: nat): (s: string)
    ensures |s| >= 1
  {
    if n < 36 then [Base36Digit(n)] else Base36(n / 36) + [Base36Digit(n % 36)]
  }

  lemma {:induction false} Base36Injective(m: nat, n: nat)
    requires Base36(m) == Base36(n)
    ensures m == n
  {
    var s, t := Base36(m), Base36(n);
    assert s[|s| - 1] == Base36Digit(m % 36) && t[|t| - 1] == Base36Digit(n % 36);
    if m < 36 || n < 36 {
      assert |s| == 1;
    } else {
      assert s[..|s| - 1] == Base36(m / 36) && t[..|t| - 1] == Base36(n / 36);
      Base36Injective(m / 36, n / 36);
    }
  }

  /** For every string the loop computes its base-31 polynomial as a signed 32-bit number; the
      magnitude is at most 2^31. */
  method HashString(input: seq<CodeUnit>) returns (text: string, ghost hash: int)
    ensures hash == ToInt32(Polynomial(input)) && Abs(hash) <= HALF
    ensures text == Base36(Abs(ToInt32(Polynomial(input))))
  {
    var current := 0;
    assert input[..0] == [];
    for i := 0 to |input|
      invariant current == ToInt32(Polynomial(input[..i]))
    {
      var chr := input[i];
      assert input[..i + 1][..i] == input[..i];
      TurnIsHorner(Polynomial(input[..i]), chr);
      current := ToInt32(ShiftLeft5(current) - current + chr);
    }
    assert input[..|input|] == input;
    hash := current;
    text := Base36(Abs(current));
  }

  function HashText(input: seq<CodeUnit>): string {
    Base36(Abs(ToInt32(Polynomial(input))))
  }

  lemma NegatedResidue(x: int)
    ensures Abs(ToInt32(-x)) == Abs(ToInt32(x))
  {
    var h := ToInt32(x);
    var k := (x - h) / WORD;
    Multiple(x, h);
    if h == -HALF {
      Congruent(-x, h, -k + 1);
    } else {
      Congruent(-x, -h, -k);
    }
  }

  /** Exactly when two strings share a hash: their polynomials agree up to sign modulo 2^32. */
  lemma CollidesExactly(a: seq<CodeUnit>, b: seq<CodeUnit>)
    ensures HashText(a) == HashText(b) <==>
            (Polynomial(a) - Polynomial(b)) % WORD == 0 || (Polynomial(a) + Polynomial(b)) % WORD == 0
  {
    var p, q := Polynomial(a), Polynomial(b);
    if HashText(a) == HashText(b) { Base36Injective(Abs(ToInt32(p)), Abs(ToInt32(q))); }
    SameResidue(p, q);
    SameResidue(p, -q);
    NegatedResidue(q);
    SignOfResidue(p, q);
  }

  lemma SignOfResidue(p: int, q: int)
    requires Abs(ToInt32(-q)) == Abs(ToInt32(q))
    ensures Abs(ToInt32(p)) == Abs(ToInt32(q)) <==> ToInt32(p) == ToInt32(q) || ToInt32(p) == ToInt32(-q)
  {
    var h := ToInt32(q);
    if h == -HALF || h == 0 {
      assert Abs(ToInt32(-q)) == Abs(h);
    } else {
      var k := (q - h) / WORD;
      assert q - h == k * WORD;
      assert -q - (-h) == (-k) * WORD;
      SameResidue(-q, -h);
      assert ToInt32(-q) == -h;
    }
  }

  // ---- the identity ----

  /** White space, as `trim` and the pattern class for it understand it. */
  predicate IsSpace(u: CodeUnit) {
    || 0x0009 <= u <= 0x000D || u == 0x0020 || u == 0x00A0 || u == 0x1680 || 0x2000 <= u <= 0x200A
    || u == 0x2028 || u == 0x2029 || u == 0x202F || u == 0x205F || u == 0x3000 || u == 0xFEFF
  }

  function SkipSpaces(s: seq<CodeUnit>): (r: seq<CodeUnit>)
    ensures |r| <= |s| && (r != [] ==> !IsSpace(r[0]) && r[|r| - 1] == s[|s| - 1])
    ensures s != [] && IsSpace(s[0]) ==> |r| < |s|
    ensures s != [] && !IsSpace(s[|s| - 1]) ==> r != []
  {
    if s != [] && IsSpace(s[0]) then SkipSpaces(s[1..]) else s
  }

  function DropSpaces(s: seq<CodeUnit>): (r: seq<CodeUnit>)
    ensures r != [] ==> !IsSpace(r[|r| - 1]) && s != [] && r[0] == s[0]
  {
    if s != [] && IsSpace(s[|s| - 1]) then DropSpaces(s[..|s| - 1]) else s
  }

  /** Every run of white space becomes one space. */
  function Squeeze(s: seq<CodeUnit>): seq<CodeUnit>
    decreases |s|
  {
    if s == [] then []
    else if IsSpace(s[0]) then [0x0020] + Squeeze(SkipSpaces(s))
    else [s[0]] + Squeeze(s[1..])
  }

  predicate Spaced(s: seq<CodeUnit>) {
    forall i :: 0 <= i < |s| && IsSpace(s[i]) ==> s[i] == 0x0020 && (i + 1 < |s| ==> !IsSpace(s[i + 1]))
  }

  predicate Trimmed(s: seq<CodeUnit>) {
    s != [] ==> !IsSpace(s[0]) && !IsSpace(s[|s| - 1])
  }

  type Lower = seq<CodeUnit> -> seq<CodeUnit>

  function Normalized(lower: Lower, observed: seq<CodeUnit>): seq<CodeUnit> {
    lower(Squeeze(DropSpaces(SkipSpaces(observed))))
  }

  lemma SpacedCons(u: CodeUnit, t: seq<CodeUnit>)
    requires Spaced(t) && (IsSpace(u) ==> u == 0x0020 && (t != [] ==> !IsSpace(t[0])))
    ensures Spaced([u] + t)
  {
  }

  lemma {:induction false} SqueezeSpaces(s: seq<CodeUnit>)
    ensures Spaced(Squeeze(s)) && (Squeeze(s) == [] <==> s == [])
    ensures s != [] ==> (IsSpace(Squeeze(s)[0]) <==> IsSpace(s[0]))
    decreases |s|
  {
    if s != [] {
      var rest := if IsSpace(s[0]) then SkipSpaces(s) else s[1..];
      SqueezeSpaces(rest);
      SpacedCons(Squeeze(s)[0], Squeeze(rest));
    }
  }

  lemma {:induction false} SqueezeKeepsTheEnd(s: seq<CodeUnit>)
    requires s != [] && !IsSpace(s[|s| - 1])
    ensures Squeeze(s) != [] && Squeeze(s)[|Squeeze(s)| - 1] == s[|s| - 1]
    decreases |s|
  {
    var rest := if IsSpace(s[0]) then SkipSpaces(s) else s[1..];
    if rest != [] { SqueezeKeepsTheEnd(rest); }
  }

  lemma {:induction false} SpacedIsSqueezed(s: seq<CodeUnit>)
    requires Spaced(s)
    ensures Squeeze(s) == s
    decreases |s|
  {
    if s != [] {
      assert forall i :: 0 <= i < |s| - 1 ==> s[1..][i] == s[i + 1];
      SpacedIsSqueezed(s[1..]);
      if IsSpace(s[0]) { assert SkipSpaces(s) == s[1..]; }
    }
  }

  /** What is hashed is trimmed and single-spaced before it is lower-cased, and such text is left alone. */
  lemma WhatIsHashed(observed: seq<CodeUnit>)
    ensures var clean := Squeeze(DropSpaces(SkipSpaces(observed)));
            && Trimmed(clean) && Spaced(clean)
            && (Trimmed(observed) && Spaced(observed) ==> clean == observed)
  {
    var trimmed := DropSpaces(SkipSpaces(observed));
    SqueezeSpaces(trimmed);
    if trimmed != [] { SqueezeKeepsTheEnd(trimmed); }
    if Spaced(observed) { SpacedIsSqueezed(observed); }
  }

  /** The scope of an identity: tenant, workspace, account and signal type. */
  datatype Scope = Scope(tenantId: string, workspaceId: string, accountId: string, signalType: string)

  function ScopeText(p: Scope): string {
    p.tenantId + ":" + p.workspaceId + ":" + p.accountId + ":" + p.signalType
  }

  /** No part of the scope holds a colon. */
  predicate Plain(p: Scope) {
    Without(p.tenantId, ':') && Without(p.workspaceId, ':') && Without(p.accountId, ':') && Without(p.signalType, ':')
  }

  /** Scopes without colons in their parts never read the same. */
  lemma ScopesApart(p: Scope, q: Scope)
    requires Plain(p) && Plain(q)
    ensures ScopeText(p) == ScopeText(q) <==> p == q
  {
    if ScopeText(p) == ScopeText(q) {
      LastSeparator(p.tenantId + ":" + p.workspaceId + ":" + p.accountId, p.signalType,
                    q.tenantId + ":" + q.workspaceId + ":" + q.accountId, q.signalType, ':');
      LastSeparator(p.tenantId + ":" + p.workspaceId, p.accountId, q.tenantId + ":" + q.workspaceId, q.accountId, ':');
      LastSeparator(p.tenantId, p.workspaceId, q.tenantId, q.workspaceId, ':');
    }
  }

  function DedupIdentity(p: Scope, lower: Lower, observed: seq<CodeUnit>): string {
    ScopeText(p) + ":" + HashText(Normalized(lower, observed))
  }

  lemma {:induction false} Base36HasNoColon(n: nat)
    ensures Without(Base36(n), ':')
  {
    if n >= 36 { Base36HasNoColon(n / 36); }
  }

  /** Exactly when two signals share an identity: their scopes read the same and the polynomials
      of their normalised texts agree up to sign modulo 2^32. */
  lemma IdentitiesCollideExactly(p: Scope, a: seq<CodeUnit>, q: Scope, b: seq<CodeUnit>, lower: Lower)
    ensures var x, y := Polynomial(Normalized(lower, a)), Polynomial(Normalized(lower, b));
            DedupIdentity(p, lower, a) == DedupIdentity(q, lower, b) <==>
              ScopeText(p) == ScopeText(q) && ((x - y) % WORD == 0 || (x + y) % WORD == 0)
  {
    var x, y := Normalized(lower, a), Normalized(lower, b);
    Base36HasNoColon(Abs(ToInt32(Polynomial(x))));
    Base36HasNoColon(Abs(ToInt32(Polynomial(y))));
    CollidesExactly(x, y);
    if DedupIdentity(p, lower, a) == DedupIdentity(q, lower, b) {
      LastSeparator(ScopeText(p), HashText(x), ScopeText(q), HashText(y), ':');
    }
  }

  /** Lower-casing leaves ASCII text without capitals alone. */
  ghost predicate LeavesLowerAscii(lower: Lower) {
    forall s: seq<CodeUnit> :: (forall i :: 0 <= i < |s| ==> s[i] < 128 && !(65 <= s[i] <= 90)) ==> lower(s) == s
  }

  lemma TwoDigits(x: CodeUnit, y: CodeUnit)
    ensures Polynomial([x, y]) == 31 * x + y
  {
    assert [x, y][..1] == [x] && [x][..0] == [];
    assert Polynomial([x]) == x;
  }

  predicate PlainLower(s: seq<CodeUnit>) {
    forall i :: 0 <= i < |s| ==> 33 <= s[i] < 128 && !(65 <= s[i] <= 90)
  }

  /** ASCII text without spaces and capitals is hashed as it stands. */
  lemma HashedAsItStands(lower: Lower, s: seq<CodeUnit>)
    requires LeavesLowerAscii(lower) && PlainLower(s)
    ensures Normalized(lower, s) == s
  {
    assert Trimmed(s) && Spaced(s);
    WhatIsHashed(s);
  }

  /** The identity does not separate all signals: "az" and "b[" are trimmed, single-spaced and
      lower-case, so both are hashed as they stand, and they share an identity. */
  lemma DifferentSignalsCollide(p: Scope, lower: Lower)
    requires LeavesLowerAscii(lower)
    ensures [97, 122] != [98, 91] && Normalized(lower, [97, 122]) == [97, 122] && Normalized(lower, [98, 91]) == [98, 91]
    ensures DedupIdentity(p, lower, [97, 122]) == DedupIdentity(p, lower, [98, 91])
  {
    HashedAsItStands(lower, [97, 122]);
    HashedAsItStands(lower, [98, 91]);
    TwoDigits(97, 122);
    TwoDigits(98, 91);
    IdentitiesCollideExactly(p, [97, 122], p, [98, 91], lower);
  }
}
