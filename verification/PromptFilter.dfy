/** The replacement behind the safe output: every "ignore previous instructions", in any case of its
    letters, becomes "[FILTERED]"
    (packages/ai-runtime/src/output-validator/structured-output-validator.ts:136-145). */
module PromptFilter {
  const Phrase := "ignore previous instructions"
  const Filler := "[FILTERED]"

  /** The flag i without u folds ASCII letters only, where letters of the phrase are concerned. */
  function Lower(c: char): char {
    if 'A' <= c <= 'Z' then c - 'A' + 'a' else c
  }

  predicate StartsWith(text: string, part: string) {
    |part| <= |text| && forall i :: 0 <= i < |part| ==> Lower(text[i]) == part[i]
  }

  predicate PhraseAt(text: string, i: nat) {
    i <= |text| && StartsWith(text[i..], Phrase)
  }

  predicate HasPhrase(text: string) {
    exists i: nat :: i <= |text| && PhraseAt(text, i)
  }

  /** `replace` from left to right, going on behind each match. */
  function Filtered(text: string): string {
    if text == "" then ""
    else if PhraseAt(text, 0) then Filler + Filtered(text[|Phrase|..])
    else [text[0]] + Filtered(text[1..])
  }

  lemma PhraseFurther(text: string, i: nat)
    requires 0 < i <= |text|
    ensures PhraseAt(text, i) <==> PhraseAt(text[1..], i - 1)
  {
    assert text[i..] == text[1..][i - 1..];
  }

  /** A bracket ends every match, so that the filtered text starts only with what the text starts with. */
  lemma {:induction false} FilteredStart(text: string, part: string)
    requires StartsWith(Filtered(text), part) && '[' !in part
    ensures StartsWith(text, part)
  {
    if part != "" {
      assert Lower(Filtered(text)[0]) == part[0] && part[0] in part;
      if PhraseAt(text, 0) {
        assert false;
      } else {
        assert Filtered(text) == [text[0]] + Filtered(text[1..]);
        assert forall i :: 0 <= i < |part| - 1 ==> Filtered(text[1..])[i] == Filtered(text)[i + 1];
        FilteredStart(text[1..], part[1..]);
        assert forall i :: 0 < i < |part| ==> text[i] == text[1..][i - 1] && part[i] == part[1..][i - 1];
      }
    }
  }

  /** The filler neither holds the phrase nor begins one. */
  lemma NoPhraseInFiller(rest: string, i: nat)
    requires i < |Filler|
    ensures !PhraseAt(Filler + rest, i)
  {
    var text := Filler + rest;
    assert Phrase[0] == 'i' && Phrase[1] == 'g' && |text[i..]| > 0;
    assert text[i..][0] == Filler[i] && (i == 2 ==> text[i..][1] == Filler[3]);
    if PhraseAt(text, i) {
      assert false;
    }
  }

  lemma {:induction false} FilteredIsClean(text: string)
    ensures !HasPhrase(Filtered(text))
  {
    var out := Filtered(text);
    if text == "" {
      assert !StartsWith("", Phrase);
    } else if PhraseAt(text, 0) {
      var rest := Filtered(text[|Phrase|..]);
      FilteredIsClean(text[|Phrase|..]);
      forall i: nat | i <= |out| ensures !PhraseAt(out, i) {
        if i < |Filler| {
          NoPhraseInFiller(rest, i);
        } else {
          assert out[i..] == rest[i - |Filler|..];
          assert !PhraseAt(rest, i - |Filler|);
        }
      }
    } else {
      var rest := Filtered(text[1..]);
      FilteredIsClean(text[1..]);
      forall i: nat | i <= |out| ensures !PhraseAt(out, i) {
        if i == 0 {
          if PhraseAt(out, 0) {
            assert out[0..] == out && text[0..] == text;
            FilteredStart(text, Phrase);
            assert false;
          }
        } else {
          PhraseFurther(out, i);
          assert out[1..] == rest;
          assert !PhraseAt(rest, i - 1);
        }
      }
    }
  }

  lemma {:induction false} CleanTextStays(text: string)
    requires !HasPhrase(text)
    ensures Filtered(text) == text
  {
    if text != "" {
      assert !PhraseAt(text, 0);
      forall i: nat | i <= |text| - 1 ensures !PhraseAt(text[1..], i) {
        PhraseFurther(text, i + 1);
      }
      CleanTextStays(text[1..]);
    }
  }

  /** The filter changes exactly the texts that hold the phrase, and leaves it in none. */
  lemma FilterRemovesThePhrase(text: string)
    ensures !HasPhrase(Filtered(text))
    ensures Filtered(text) == text <==> !HasPhrase(text)
    ensures Filtered(Filtered(text)) == Filtered(text)
  {
    FilteredIsClean(text);
    CleanTextStays(Filtered(text));
    if !HasPhrase(text) { CleanTextStays(text); }
  }

  /** The phrase, in some case of its letters. */
  predicate IsPhrase(m: string) {
    |m| == |Phrase| && StartsWith(m, Phrase)
  }

  /** The phrase counts in capitals as well, letter by letter. */
  lemma IsPhraseExactly(m: string)
    ensures IsPhrase(m) <==>
            |m| == |Phrase| && forall i :: 0 <= i < |m| ==>
              m[i] == Phrase[i] || ('a' <= Phrase[i] <= 'z' && m[i] == Phrase[i] - 'a' + 'A')
  {
    if |m| == |Phrase| {
      forall i | 0 <= i < |m|
        ensures Lower(m[i]) == Phrase[i] <==> m[i] == Phrase[i] || ('a' <= Phrase[i] <= 'z' && m[i] == Phrase[i] - 'a' + 'A')
      {
        assert !('A' <= Phrase[i] <= 'Z') by { NoCapitals(i); }
      }
    }
  }

  lemma NoCapitals(i: nat)
    requires i < |Phrase|
    ensures Phrase[i] == ' ' || 'a' <= Phrase[i] <= 'z'
  {
  }

  lemma FilterReplaces(m: string, rest: string)
    requires IsPhrase(m)
    ensures Filtered(m + rest) == Filler + Filtered(rest)
  {
    var text := m + rest;
    assert text[0..] == text && text[|Phrase|..] == rest;
    assert forall i :: 0 <= i < |m| ==> text[i] == m[i];
    assert PhraseAt(text, 0);
  }

  lemma FilterKeeps(c: char, rest: string)
    requires !PhraseAt([c] + rest, 0)
    ensures Filtered([c] + rest) == [c] + Filtered(rest)
  {
    assert ([c] + rest)[1..] == rest;
  }

  /** The first phrase of the text stands behind `before`. */
  predicate FirstPhraseBehind(before: string, behind: string) {
    forall i :: 0 <= i < |before| ==> !PhraseAt(before + behind, i)
  }

  lemma FirstPhraseFurther(before: string, behind: string)
    requires before != "" && FirstPhraseBehind(before, behind)
    ensures !PhraseAt(before + behind, 0) && before + behind == [before[0]] + (before[1..] + behind)
    ensures FirstPhraseBehind(before[1..], behind)
  {
    var text := before + behind;
    assert text[1..] == before[1..] + behind;
    forall i | 0 <= i < |before[1..]| ensures !PhraseAt(before[1..] + behind, i) {
      PhraseFurther(text, i + 1);
    }
  }

  lemma Regrouped(before: string, behind: string)
    requires before != ""
    ensures [before[0]] + (before[1..] + behind) == before + behind
  {
  }

  /** Up to the first phrase a text is kept as it is; the filler takes the place of that phrase; and
      what comes behind is filtered in its turn. */
  lemma {:induction false} FilterReplacesTheFirst(before: string, m: string, rest: string)
    requires IsPhrase(m) && FirstPhraseBehind(before, m + rest)
    ensures Filtered(before + (m + rest)) == before + (Filler + Filtered(rest))
    decreases |before|
  {
    if before == "" {
      assert before + (m + rest) == m + rest;
      FilterReplaces(m, rest);
    } else {
      FirstPhraseFurther(before, m + rest);
      FilterReplacesTheFirst(before[1..], m, rest);
      FilterKeeps(before[0], before[1..] + (m + rest));
      Regrouped(before, Filler + Filtered(rest));
    }
  }

  /** A text is clean pieces with phrases between them. */
  function Joined(pieces: seq<string>, between: seq<string>): string
    requires |pieces| == |between| + 1
  {
    if between == [] then pieces[0] else pieces[0] + (between[0] + Joined(pieces[1..], between[1..]))
  }

  /** The next phrase stands where its piece ends, and none before it. */
  ghost predicate Apart(pieces: seq<string>, phrases: seq<string>)
    requires |pieces| == |phrases| + 1
    decreases |phrases|
  {
    if phrases == [] then !HasPhrase(pieces[0])
    else
      && IsPhrase(phrases[0])
      && FirstPhraseBehind(pieces[0], phrases[0] + Joined(pieces[1..], phrases[1..]))
      && Apart(pieces[1..], phrases[1..])
  }

  /** Main result: what is filtered is the same pieces, with the filler between them. */
  lemma {:induction false} FilterKeepsThePieces(pieces: seq<string>, phrases: seq<string>)
    requires |pieces| == |phrases| + 1 && Apart(pieces, phrases)
    ensures Filtered(Joined(pieces, phrases)) == Joined(pieces, seq(|phrases|, _ => Filler))
    decreases |phrases|
  {
    var fillers := seq(|phrases|, _ => Filler);
    if phrases == [] {
      CleanTextStays(pieces[0]);
    } else {
      var rest := Joined(pieces[1..], phrases[1..]);
      FilterReplacesTheFirst(pieces[0], phrases[0], rest);
      FilterKeepsThePieces(pieces[1..], phrases[1..]);
      assert fillers[1..] == seq(|phrases| - 1, _ => Filler);
      assert fillers[1..] == seq(|phrases[1..]|, _ => Filler);
    }
  }
}
