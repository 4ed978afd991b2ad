/** The few string operations of ECMAScript that the repository's checks rely on. */
module JsText {

  /** White space and line terminators, as removed by `trim`. */
  predicate IsWhitespace(c: char) {
    || '\U{0009}' <= c <= '\U{000D}' || c == '\U{0020}' || c == '\U{00A0}' || c == '\U{1680}'
    || '\U{2000}' <= c <= '\U{200A}' || c == '\U{2028}' || c == '\U{2029}' || c == '\U{202F}'
    || c == '\U{205F}' || c == '\U{3000}' || c == '\U{FEFF}'
  }

  function TrimStart(s: string): string {
    if s != "" && IsWhitespace(s[0]) then TrimStart(s[1..]) else s
  }

  function TrimEnd(s: string): string {
    if s != "" && IsWhitespace(s[|s| - 1]) then TrimEnd(s[..|s| - 1]) else s
  }

  function Trim(s: string): string {
    TrimEnd(TrimStart(s))
  }

  predicate Blank(s: string) {
    forall i :: 0 <= i < |s| ==> IsWhitespace(s[i])
  }

  /** No white space at either end. */
  predicate Trimmed(s: string) {
    s != "" ==> !IsWhitespace(s[0]) && !IsWhitespace(s[|s| - 1])
  }

  lemma {:induction false} TrimStartShape(s: string)
    ensures TrimStart(s) != "" ==> !IsWhitespace(TrimStart(s)[0])
    ensures Blank(s) <==> TrimStart(s) == ""
  {
    if s != "" && IsWhitespace(s[0]) {
      TrimStartShape(s[1..]);
      assert forall i :: 1 <= i < |s| ==> s[i] == s[1..][i - 1];
    }
  }

  lemma {:induction false} TrimEndShape(s: string)
    ensures Trimmed(TrimEnd(s)) || (s != "" && IsWhitespace(s[0]))
    ensures s != "" && !IsWhitespace(s[0]) ==> TrimEnd(s) != "" && TrimEnd(s)[0] == s[0]
  {
    if s != "" && IsWhitespace(s[|s| - 1]) {
      TrimEndShape(s[..|s| - 1]);
    }
  }

  /** `trim` strips both ends, and leaves nothing exactly when there was nothing but white space. */
  lemma TrimShape(s: string)
    ensures Trimmed(Trim(s))
    ensures Trim(s) == "" <==> Blank(s)
  {
    TrimStartShape(s);
    TrimEndShape(TrimStart(s));
  }

  lemma TrimOfTrimmed(s: string)
    requires Trimmed(s)
    ensures Trim(s) == s
  {
  }

  lemma {:induction false} TrimStartOfPadded(blank: string, s: string)
    requires Blank(blank) && (s != "" ==> !IsWhitespace(s[0]))
    ensures TrimStart(blank + s) == s
  {
    if blank == "" {
      assert blank + s == s;
    } else {
      assert (blank + s)[0] == blank[0] && (blank + s)[1..] == blank[1..] + s;
      TrimStartOfPadded(blank[1..], s);
    }
  }

  lemma {:induction false} TrimEndOfPadded(s: string, blank: string)
    requires Blank(blank) && (s != "" ==> !IsWhitespace(s[|s| - 1]))
    ensures TrimEnd(s + blank) == s
    decreases |blank|
  {
    if blank == "" {
      assert s + blank == s;
    } else {
      var last := |blank| - 1;
      assert (s + blank)[|s + blank| - 1] == blank[last] && (s + blank)[..|s + blank| - 1] == s + blank[..last];
      TrimEndOfPadded(s, blank[..last]);
    }
  }

  /** `trim` takes away exactly the white space around a text. */
  lemma TrimOfPadded(before: string, s: string, behind: string)
    requires Blank(before) && Blank(behind) && Trimmed(s)
    ensures Trim(before + s + behind) == s
  {
    if s == "" {
      assert Blank(before + s + behind);
      TrimShape(before + s + behind);
    } else {
      assert before + s + behind == before + (s + behind);
      TrimStartOfPadded(before, s + behind);
      TrimEndOfPadded(s, behind);
    }
  }
}
