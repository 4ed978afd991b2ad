/** The PII patterns of a validation policy. A policy is shared by all validations, and a regular
    expression with the flag g or y remembers where its last match ended, so that one validation
    changes what the next one sees
    (packages/ai-runtime/src/output-validator/structured-output-validator.ts:57-66). */
module PiiPatterns {
  import opened Foundations

  /** `find` gives the end of the first match at or after an index; `remembers` is the flag g or y. */
  datatype Pattern = Pattern(find: (string, nat) -> Option<nat>, remembers: bool, lastIndex: nat)

  predicate Matches(p: Pattern, json: string) {
    p.find(json, 0).Some?
  }

  /** `pattern.test(json)` in the state the pattern is in. */
  predicate Fires(p: Pattern, json: string) {
    if p.remembers then p.lastIndex <= |json| && p.find(json, p.lastIndex).Some? else Matches(p, json)
  }

  function Tested(p: Pattern, json: string): Pattern {
    if !p.remembers then p
    else if Fires(p, json) then p.(lastIndex := p.find(json, p.lastIndex).value)
    else p.(lastIndex := 0)
  }

  predicate NoneFires(patterns: seq<Pattern>, json: string) {
    forall i :: 0 <= i < |patterns| ==> !Fires(patterns[i], json)
  }

  /** What the policy asks for: no pattern matches when its search starts at the head of the text. */
  predicate NoPii(patterns: seq<Pattern>, json: string) {
    forall i :: 0 <= i < |patterns| ==> !Matches(patterns[i], json)
  }

  /** The patterns after one detection: tested up to the first that fires. */
  function AfterDetection(patterns: seq<Pattern>, json: string): (after: seq<Pattern>)
    ensures |after| == |patterns|
  {
    if patterns == [] then []
    else
      [Tested(patterns[0], json)] +
      if Fires(patterns[0], json) then patterns[1..] else AfterDetection(patterns[1..], json)
  }

  /** `after` tells the state of the first `i` patterns, none of which fires. */
  ghost predicate SilentSoFar(patterns: seq<Pattern>, after: seq<Pattern>, i: nat, json: string)
    requires i <= |patterns|
  {
    NoneFires(patterns[..i], json) && AfterDetection(patterns, json) == after + AfterDetection(patterns[i..], json)
  }

  lemma DetectNext(patterns: seq<Pattern>, after: seq<Pattern>, i: nat, json: string)
    requires i < |patterns| && SilentSoFar(patterns, after, i, json)
    ensures var next := after + [Tested(patterns[i], json)];
            if Fires(patterns[i], json)
            then !NoneFires(patterns, json) && AfterDetection(patterns, json) == next + patterns[i + 1..]
            else SilentSoFar(patterns, next, i + 1, json)
  {
    var rest, next := patterns[i..], [Tested(patterns[i], json)];
    assert rest[0] == patterns[i] && rest[1..] == patterns[i + 1..];
    assert patterns[..i + 1] == patterns[..i] + [patterns[i]];
    var others := if Fires(patterns[i], json) then patterns[i + 1..] else AfterDetection(patterns[i + 1..], json);
    assert AfterDetection(rest, json) == next + others;
    assert after + (next + others) == after + next + others;
  }

  lemma DetectNone(patterns: seq<Pattern>, after: seq<Pattern>, json: string)
    requires SilentSoFar(patterns, after, |patterns|, json)
    ensures NoneFires(patterns, json) && AfterDetection(patterns, json) == after
  {
    assert patterns[..|patterns|] == patterns;
    assert AfterDetection(patterns[|patterns|..], json) == [];
  }

  method DetectPii(patterns: seq<Pattern>, json: string) returns (found: bool, after: seq<Pattern>)
    ensures found <==> !NoneFires(patterns, json)
    ensures after == AfterDetection(patterns, json)
  {
    after := [];
    assert SilentSoFar(patterns, after, 0, json) by {
      assert patterns[0..] == patterns;
    }
    for i := 0 to |patterns|
      invariant SilentSoFar(patterns, after, i, json)
    {
      DetectNext(patterns, after, i, json);
      after := after + [Tested(patterns[i], json)];
      if Fires(patterns[i], json) {
        return true, after + patterns[i + 1..];
      }
    }
    DetectNone(patterns, after, json);
    found := false;
  }

  // ---- many validations under one policy ----

  /** Whether each validation in a row finds PII. */
  function Findings(patterns: seq<Pattern>, texts: seq<string>): (found: seq<bool>)
    ensures |found| == |texts|
    decreases texts
  {
    if texts == [] then []
    else [!NoneFires(patterns, texts[0])] + Findings(AfterDetection(patterns, texts[0]), texts[1..])
  }

  predicate EveryFindingIsRight(patterns: seq<Pattern>, texts: seq<string>) {
    forall i :: 0 <= i < |texts| ==> (Findings(patterns, texts)[i] <==> !NoPii(patterns, texts[i]))
  }

  predicate Fresh(patterns: seq<Pattern>) {
    forall i :: 0 <= i < |patterns| ==> patterns[i].lastIndex == 0
  }

  predicate Flagged(patterns: seq<Pattern>, flags: seq<bool>) {
    |patterns| == |flags| && forall i :: 0 <= i < |flags| ==> patterns[i].remembers == flags[i]
  }

  /** The validator serialises only objects and arrays. */
  predicate Serialised(json: string) {
    |json| >= 2 && ((json[0] == '{' && json[|json| - 1] == '}') || (json[0] == '[' && json[|json| - 1] == ']'))
  }

  predicate AllSerialised(texts: seq<string>) {
    forall i :: 0 <= i < |texts| ==> Serialised(texts[i])
  }

  /** Patterns with these flags, new with the policy, judge every row of outputs rightly. */
  ghost predicate Reliable(flags: seq<bool>) {
    forall patterns, texts ::
      Flagged(patterns, flags) && Fresh(patterns) && AllSerialised(texts) ==> EveryFindingIsRight(patterns, texts)
  }

  lemma {:induction false} UnflaggedPatternsStay(patterns: seq<Pattern>, json: string)
    requires forall i :: 0 <= i < |patterns| ==> !patterns[i].remembers
    ensures AfterDetection(patterns, json) == patterns
    ensures NoneFires(patterns, json) <==> NoPii(patterns, json)
  {
    if patterns != [] {
      UnflaggedPatternsStay(patterns[1..], json);
      assert patterns == [patterns[0]] + patterns[1..];
    }
  }

  lemma {:induction false} UnflaggedPatternsJudgeRightly(patterns: seq<Pattern>, texts: seq<string>)
    requires forall i :: 0 <= i < |patterns| ==> !patterns[i].remembers
    ensures EveryFindingIsRight(patterns, texts)
  {
    if texts != [] {
      UnflaggedPatternsStay(patterns, texts[0]);
      UnflaggedPatternsJudgeRightly(patterns, texts[1..]);
    }
  }

  /** A new pattern that matches the whole of a text that is not empty, or nothing. */
  function WholeText(matching: bool, flag: bool): (p: Pattern)
    ensures forall json :: Matches(p, json) <==> matching && json != ""
    ensures forall json :: matching && json != "" ==> p.find(json, 0) == Some(|json|) && p.find(json, |json|) == None
  {
    Pattern((json: string, from: nat) => if matching && from < |json| then Some(|json|) else None, flag, 0)
  }

  /** Patterns with given flags of which only the one at `i` matches anything. */
  function OnlyOneMatches(flags: seq<bool>, i: nat): (patterns: seq<Pattern>)
    ensures |patterns| == |flags|
    ensures forall k :: 0 <= k < |flags| ==> patterns[k] == WholeText(k == i, flags[k])
  {
    seq(|flags|, k requires 0 <= k < |flags| => WholeText(k == i, flags[k]))
  }

  lemma {:induction false} SilentUpTo(patterns: seq<Pattern>, i: nat, json: string)
    requires i < |patterns| && Fires(patterns[i], json) && NoneFires(patterns[..i], json)
    ensures AfterDetection(patterns, json)[i] == Tested(patterns[i], json)
    ensures forall k :: i < k < |patterns| ==> AfterDetection(patterns, json)[k] == patterns[k]
    ensures forall k :: 0 <= k < i ==> AfterDetection(patterns, json)[k] == Tested(patterns[k], json)
  {
    if i > 0 {
      assert patterns[..i][0] == patterns[0];
      assert patterns[1..][..i - 1] == patterns[..i][1..];
      SilentUpTo(patterns[1..], i - 1, json);
    }
  }

  lemma NoneFiresApart(patterns: seq<Pattern>, i: nat, json: string)
    requires i < |patterns|
    ensures NoneFires(patterns, json) <==>
            NoneFires(patterns[..i], json) && !Fires(patterns[i], json) && NoneFires(patterns[i + 1..], json)
  {
    assert patterns == patterns[..i] + [patterns[i]] + patterns[i + 1..];
    if NoneFires(patterns[..i], json) && !Fires(patterns[i], json) && NoneFires(patterns[i + 1..], json) {
      forall k | 0 <= k < |patterns| ensures !Fires(patterns[k], json) {
        if k < i { assert patterns[k] == patterns[..i][k]; }
        if k > i { assert patterns[k] == patterns[i + 1..][k - i - 1]; }
      }
    }
  }

  /** New patterns fire exactly where they match. */
  lemma SameFindings(after: seq<Pattern>, patterns: seq<Pattern>, json: string)
    requires after == patterns && Fresh(patterns)
    ensures NoneFires(after, json) <==> NoPii(patterns, json)
  {
    assert forall i :: 0 <= i < |patterns| ==> (Fires(patterns[i], json) <==> Matches(patterns[i], json));
  }

  lemma FindingOnce(patterns: seq<Pattern>, json: string)
    ensures Findings(patterns, [json]) == [!NoneFires(patterns, json)]
  {
    assert [json][1..] == [];
  }

  /** A flagged pattern that is the first to fire on a text, and finds nothing more behind that
      match, hides the text from the next validation exactly when no later pattern fires on it. */
  lemma {:induction false} SecondLookExactly(patterns: seq<Pattern>, i: nat, json: string)
    requires Fresh(patterns)
    requires i < |patterns| && Matches(patterns[i], json) && NoPii(patterns[..i], json)
    ensures Findings(patterns, [json, json]) ==
            [true, !patterns[i].remembers || Fires(Tested(patterns[i], json), json) || !NoPii(patterns[i + 1..], json)]
  {
    assert Fires(patterns[i], json);
    assert NoneFires(patterns[..i], json);
    SilentUpTo(patterns, i, json);
    var after := AfterDetection(patterns, json);
    NoneFiresApart(after, i, json);
    SameFindings(after[i + 1..], patterns[i + 1..], json);
    assert NoneFires(after[..i], json) by {
      assert forall k :: 0 <= k < i ==> patterns[..i][k] == patterns[k] && after[..i][k] == Tested(patterns[k], json);
    }
    assert !NoneFires(patterns, json);
    assert [json, json][1..] == [json];
    FindingOnce(after, json);
  }

  /** The failing input: the same output, validated twice against a flagged pattern that matches
      the whole of it, is found once. */
  lemma FlaggedPatternForgets(flags: seq<bool>, i: nat, json: string)
    requires i < |flags| && flags[i] && json != ""
    ensures var patterns := OnlyOneMatches(flags, i);
            && Flagged(patterns, flags) && Fresh(patterns)
            && Findings(patterns, [json, json]) == [true, false]
            && !NoPii(patterns, json)
  {
    var patterns := OnlyOneMatches(flags, i);
    assert Matches(patterns[i], json);
    assert forall k :: 0 <= k < i ==> patterns[..i][k] == patterns[k];
    assert forall k :: i < k < |flags| ==> !Matches(patterns[k], json);
    SecondLookExactly(patterns, i, json);
  }

  /** And a third validation finds it again: a pattern that found nothing starts over. */
  lemma ForgottenIsFoundAgain(flags: seq<bool>, i: nat, json: string)
    requires i < |flags| && flags[i] && json != ""
    ensures AfterDetection(AfterDetection(OnlyOneMatches(flags, i), json), json) == OnlyOneMatches(flags, i)
    ensures Findings(OnlyOneMatches(flags, i), [json, json, json]) == [true, false, true]
  {
    var patterns := OnlyOneMatches(flags, i);
    FlaggedPatternForgets(flags, i, json);
    var after := AfterDetection(patterns, json);
    assert Findings(patterns, [json, json])[1] == Findings(after, [json])[0] by { assert [json, json][1..] == [json]; }
    FindingOnce(after, json);
    SilentDetection(after, json);
    assert NoneFires(patterns[..i], json) by {
      assert forall k :: 0 <= k < i ==> patterns[..i][k] == patterns[k];
    }
    SilentUpTo(patterns, i, json);
    var again := AfterDetection(after, json);
    assert forall k :: 0 <= k < |patterns| ==> again[k] == patterns[k];
    assert again == patterns;
    assert [json, json, json][1..] == [json, json] && [json, json][1..] == [json];
    FindingOnce(patterns, json);
    assert Findings(patterns, [json, json])[0];
  }

  lemma {:induction false} SilentDetection(patterns: seq<Pattern>, json: string)
    requires NoneFires(patterns, json)
    ensures forall k :: 0 <= k < |patterns| ==> AfterDetection(patterns, json)[k] == Tested(patterns[k], json)
  {
    if patterns != [] { SilentDetection(patterns[1..], json); }
  }

  lemma FlaggedIsUnreliable(flags: seq<bool>, i: nat, json: string)
    requires i < |flags| && flags[i] && Serialised(json)
    ensures !Reliable(flags)
  {
    FlaggedPatternForgets(flags, i, json);
    var patterns, texts := OnlyOneMatches(flags, i), [json, json];
    assert AllSerialised(texts);
    assert !Findings(patterns, texts)[1];
    assert !EveryFindingIsRight(patterns, texts);
  }

  /** A policy finds PII exactly where there is some, however often it is used, if and only if none
      of its patterns carries the flag g or y. */
  lemma PolicyIsReliableExactly(flags: seq<bool>)
    ensures Reliable(flags) <==> forall i :: 0 <= i < |flags| ==> !flags[i]
  {
    if forall i :: 0 <= i < |flags| ==> !flags[i] {
      forall patterns, texts | Flagged(patterns, flags) && Fresh(patterns)
        ensures EveryFindingIsRight(patterns, texts)
      {
        UnflaggedPatternsJudgeRightly(patterns, texts);
      }
    } else {
      var i: nat :| i < |flags| && flags[i];
      FlaggedIsUnreliable(flags, i, "{}");
    }
  }
}
