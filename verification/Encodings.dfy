/** Byte encodings used by the protected channels: base64url without padding (section 5 of
    RFC 4648) and hexadecimal (packages/application/src/services/contact-channel-protector.ts:30-37, 145-156). */
module Encodings {
  import opened Foundations

  type Byte = x: int | 0 <= x < 256
  type Bytes = seq<Byte>
  type Sextet = x: int | 0 <= x < 64

  // ---- base64, as Buffer.toString('base64') and Buffer.from(…, 'base64') do it ----

  function Char64(n: Sextet): char {
    if n < 26 then 'A' + n as char
    else if n < 52 then 'a' + (n - 26) as char
    else if n < 62 then '0' + (n - 52) as char
    else if n == 62 then '+'
    else '/'
  }

  function Value64(c: char): Option<Sextet> {
    if 'A' <= c <= 'Z' then Some((c as int) - ('A' as int))
    else if 'a' <= c <= 'z' then Some((c as int) - ('a' as int) + 26)
    else if '0' <= c <= '9' then Some((c as int) - ('0' as int) + 52)
    else if c == '+' then Some(62)
    else if c == '/' then Some(63)
    else None
  }

  function Sextets(b: Bytes): seq<Sextet> {
    if |b| == 0 then []
    else if |b| == 1 then [b[0] / 4, (b[0] % 4) * 16]
    else if |b| == 2 then [b[0] / 4, (b[0] % 4) * 16 + b[1] / 16, (b[1] % 16) * 4]
    else [b[0] / 4, (b[0] % 4) * 16 + b[1] / 16, (b[1] % 16) * 4 + b[2] / 64, b[2] % 64] + Sextets(b[3..])
  }

  function Text64(xs: seq<Sextet>): string {
    seq(|xs|, i requires 0 <= i < |xs| => Char64(xs[i]))
  }

  function Padding(b: Bytes): string {
    if |b| % 3 == 1 then "==" else if |b| % 3 == 2 then "=" else ""
  }

  function Encode64(b: Bytes): string {
    Text64(Sextets(b)) + Padding(b)
  }

  /** The decoder passes over characters outside the alphabet. */
  function Values(s: string): seq<Sextet> {
    if s == "" then []
    else (if Value64(s[0]).Some? then [Value64(s[0]).value] else []) + Values(s[1..])
  }

  /** Four sextets make three bytes; what is left over makes the bytes it completes. */
  function Packed(xs: seq<Sextet>): Bytes {
    if |xs| < 2 then []
    else if |xs| == 2 then [High(xs[0], xs[1])]
    else if |xs| == 3 then [High(xs[0], xs[1]), Middle(xs[1], xs[2])]
    else [High(xs[0], xs[1]), Middle(xs[1], xs[2]), Low(xs[2], xs[3])] + Packed(xs[4..])
  }

  function High(a: Sextet, b: Sextet): Byte { a * 4 + b / 16 }

  function Middle(b: Sextet, c: Sextet): Byte { (b % 16) * 16 + c / 4 }

  function Low(c: Sextet, d: Sextet): Byte { (c % 4) * 64 + d }

  function Decode64(s: string): Bytes {
    Packed(Values(s))
  }

  // ---- base64url ----

  function Replace(s: string, what: char, with: char): string {
    seq(|s|, i requires 0 <= i < |s| => if s[i] == what then with else s[i])
  }

  function StripPadding(s: string): string {
    if s != "" && s[|s| - 1] == '=' then StripPadding(s[..|s| - 1]) else s
  }

  function ToBase64Url(b: Bytes): string {
    StripPadding(Replace(Replace(Encode64(b), '+', '-'), '/', '_'))
  }

  function FromBase64Url(s: string): Bytes {
    Decode64(Replace(Replace(s, '-', '+'), '_', '/'))
  }

  /** The alphabet of base64url. */
  predicate IsUrlChar(c: char) {
    'A' <= c <= 'Z' || 'a' <= c <= 'z' || '0' <= c <= '9' || c == '-' || c == '_'
  }

  function UrlText(xs: seq<Sextet>): string {
    Replace(Replace(Text64(xs), '+', '-'), '/', '_')
  }

  lemma {:induction false} StripsOnlyPadding(s: string, pad: string)
    requires s != "" ==> s[|s| - 1] != '='
    requires forall i :: 0 <= i < |pad| ==> pad[i] == '='
    ensures StripPadding(s + pad) == s
    decreases |pad|
  {
    if pad == "" {
      assert s + pad == s;
    } else {
      assert (s + pad)[..|s + pad| - 1] == s + pad[..|pad| - 1];
      StripsOnlyPadding(s, pad[..|pad| - 1]);
    }
  }

  lemma UrlTextIsUrl(xs: seq<Sextet>)
    ensures |UrlText(xs)| == |xs|
    ensures forall i :: 0 <= i < |xs| ==> IsUrlChar(UrlText(xs)[i])
    ensures Replace(Replace(UrlText(xs), '-', '+'), '_', '/') == Text64(xs)
  {
  }

  lemma EncodedShape(b: Bytes)
    ensures ToBase64Url(b) == UrlText(Sextets(b))
  {
    var xs, pad := Sextets(b), Padding(b);
    UrlTextIsUrl(xs);
    assert Replace(Replace(Encode64(b), '+', '-'), '/', '_') == UrlText(xs) + pad;
    StripsOnlyPadding(UrlText(xs), pad);
  }

  /** The text of an encoding is in the alphabet, so it needs no escaping and holds no dot. */
  lemma EncodedIsUrl(b: Bytes)
    ensures forall i :: 0 <= i < |ToBase64Url(b)| ==> IsUrlChar(ToBase64Url(b)[i])
  {
    EncodedShape(b);
    UrlTextIsUrl(Sextets(b));
  }

  lemma {:induction false} TextReadsBack(xs: seq<Sextet>)
    ensures Values(Text64(xs)) == xs
  {
    if xs != [] {
      assert Text64(xs)[1..] == Text64(xs[1..]);
      TextReadsBack(xs[1..]);
    }
  }

  lemma ThreeBytes(a: Byte, b: Byte, c: Byte)
    ensures High(a / 4, (a % 4) * 16 + b / 16) == a
    ensures Middle((a % 4) * 16 + b / 16, (b % 16) * 4 + c / 64) == b
    ensures Low((b % 16) * 4 + c / 64, c % 64) == c
  {
  }

  lemma {:induction false} BytesReadBack(b: Bytes)
    ensures Packed(Sextets(b)) == b
  {
    if |b| >= 3 {
      var xs := Sextets(b);
      ThreeBytes(b[0], b[1], b[2]);
      assert xs[4..] == Sextets(b[3..]);
      BytesReadBack(b[3..]);
      assert b == [b[0], b[1], b[2]] + b[3..];
    }
  }

  /** Every byte string survives base64url. */
  lemma Base64UrlRoundTrip(b: Bytes)
    ensures FromBase64Url(ToBase64Url(b)) == b
  {
    EncodedShape(b);
    UrlTextIsUrl(Sextets(b));
    TextReadsBack(Sextets(b));
    BytesReadBack(b);
  }

  // ---- hexadecimal ----

  predicate IsHexDigit(c: char) {
    '0' <= c <= '9' || 'a' <= c <= 'f' || 'A' <= c <= 'F'
  }

  function HexValue(c: char): (n: int)
    requires IsHexDigit(c)
    ensures 0 <= n < 16
  {
    if c <= '9' then (c as int) - ('0' as int)
    else if 'a' <= c then (c as int) - ('a' as int) + 10
    else (c as int) - ('A' as int) + 10
  }

  function HexChar(n: int): char
    requires 0 <= n < 16
  {
    if n < 10 then '0' + n as char else 'a' + (n - 10) as char
  }

  predicate IsHex(s: string) {
    forall i :: 0 <= i < |s| ==> IsHexDigit(s[i])
  }

  function FromHex(s: string): (b: Bytes)
    requires IsHex(s)
    ensures |b| == |s| / 2
  {
    if |s| < 2 then [] else [HexValue(s[0]) * 16 + HexValue(s[1])] + FromHex(s[2..])
  }

  function ToHex(b: Bytes): string {
    if b == [] then "" else [HexChar(b[0] / 16), HexChar(b[0] % 16)] + ToHex(b[1..])
  }

  /** Keys pass through hexadecimal unchanged. */
  lemma {:induction false} HexRoundTrip(b: Bytes)
    ensures |ToHex(b)| == 2 * |b| && IsHex(ToHex(b)) && FromHex(ToHex(b)) == b
  {
    if b != [] {
      HexRoundTrip(b[1..]);
      assert ToHex(b)[2..] == ToHex(b[1..]);
    }
  }
}
