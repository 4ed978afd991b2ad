/** The ranking told in the models' own fields
    (packages/llm-gateway/src/llm-router.ts:308-373). */
module RankingOrder {
  import opened Foundations
  import opened BudgetLedger
  import opened Ordering
  import opened ModelRanking

  // ---- which models are ranked ----

  predicate FitsBudget(m: LLMModel, maxTokens: int, budget: Limit) {
    && maxTokens <= budget.maxTokens
    && (m.costPerOutputTokenUsd <= 0.0 ==> budget.maxCostUsd >= 0.0)
    && (m.costPerOutputTokenUsd > 0.0 ==> m.costPerOutputTokenUsd * maxTokens as real <= budget.maxCostUsd)
  }

  /** What the query asks of a model. */
  predicate Suits(m: LLMModel, q: Query) {
    && m.active
    && q.maxTokens <= m.maxContextTokens
    && (q.structuredOutputRequired ==> m.supportsStructuredOutput)
    && (q.budget.Some? ==> FitsBudget(m, q.maxTokens, q.budget.value))
    && (q.modelFamily.Some? && q.modelFamily.value != "" ==> m.family == q.modelFamily)
    && (q.modelId.Some? && q.modelId.value != "" ==> Some(m.modelId) == q.modelId)
  }

  /** A ranked list holds exactly the models of the catalogue that suit the query, and there is
      no list exactly when none does. */
  lemma RankedExactly(models: seq<LLMModel>, q: Query, idBefore: (string, string) -> bool)
    requires Weak(idBefore)
    ensures var ranking := RankCandidates(models, q, idBefore);
            && (ranking.NoModel? <==> forall m :: m in models ==> !Suits(m, q))
            && (ranking.Ranked? ==> forall m :: m in ranking.models <==> m in models && Suits(m, q))
  {
    var scored := Scored(models, q, idBefore);
    ScoredMembers(models, q, idBefore);
    if scored != [] { assert scored[0] in scored; }
  }

  // ---- which comes first ----

  /** How far the latency class of a model is from the one asked for; unknown classes count as one,
      far behind the known ones. */
  predicate Nearer(asked: string, a: string, b: string) {
    match Place(asked)
    case Some(place) =>
      (match (Place(a), Place(b))
       case (Some(x), Some(y)) => Abs(x - place) < Abs(y - place)
       case (Some(_), None) => true
       case (None, _) => false)
    case None =>
      (match (Place(a), Place(b))
       case (Some(x), Some(y)) => x > y
       case (None, Some(_)) => true
       case (_, None) => false)
  }

  /** From the most to the least urgent. */
  function Place(latencyClass: string): Option<int> {
    if latencyClass == "interactive" then Some(0)
    else if latencyClass == "background" then Some(1)
    else if latencyClass == "batch" then Some(2)
    else None
  }

  predicate Able(m: LLMModel, q: Query) {
    q.capability in m.capabilities
  }

  /** Ahead by priority; a model without the capability counts as 1000 behind its own. */
  predicate MoreUrgent(q: Query, a: LLMModel, b: LLMModel) {
    if Able(a, q) == Able(b, q) then a.priority < b.priority
    else if Able(a, q) then a.priority < b.priority + 1000
    else a.priority + 1000 < b.priority
  }

  /** By priority, then by output price, then by nearness of the latency class. */
  predicate Preferred(q: Query, a: LLMModel, b: LLMModel) {
    || MoreUrgent(q, a, b)
    || (!MoreUrgent(q, b, a) && a.costPerOutputTokenUsd < b.costPerOutputTokenUsd)
    || (!MoreUrgent(q, b, a) && a.costPerOutputTokenUsd == b.costPerOutputTokenUsd
        && Nearer(q.latencyClass, a.latencyClass, b.latencyClass))
  }

  lemma NearerExactly(asked: string, a: string, b: string)
    ensures Nearer(asked, a, b) <==> Abs(LatencyRank(a) - LatencyRank(asked)) < Abs(LatencyRank(b) - LatencyRank(asked))
  {
  }

  lemma PreferredExactly(q: Query, a: LLMModel, b: LLMModel)
    requires Suits(a, q) && Suits(b, q)
    ensures Preferred(q, a, b) <==> Beats(ScoreOf(a, q), ScoreOf(b, q))
  {
    NearerExactly(q.latencyClass, a.latencyClass, b.latencyClass);
  }

  /** Where a preferred model stands: in every ranked list before the other. */
  lemma PreferredComesFirst(models: seq<LLMModel>, q: Query, idBefore: (string, string) -> bool, i: nat, j: nat)
    requires Weak(idBefore) && RankCandidates(models, q, idBefore).Ranked?
    requires var r := RankCandidates(models, q, idBefore).models; i < |r| && j < |r| && Preferred(q, r[i], r[j])
    ensures i < j
  {
    var r, less := RankCandidates(models, q, idBefore).models, Precedes(q, idBefore);
    RankedExactly(models, q, idBefore);
    RankedHeadBeatsAll(models, q, idBefore);
    assert r[i] in r && r[j] in r;
    PreferredExactly(q, r[i], r[j]);
    PrecedesIsWeak(q, idBefore);
    assert less(r[i], r[j]);
  }

  /** The model called first is preferred to all others of the list. */
  lemma HeadIsPreferred(models: seq<LLMModel>, q: Query, idBefore: (string, string) -> bool, i: nat)
    requires Weak(idBefore) && RankCandidates(models, q, idBefore).Ranked?
    requires 0 < i < |RankCandidates(models, q, idBefore).models|
    ensures var r := RankCandidates(models, q, idBefore).models; Preferred(q, r[0], r[i])
  {
    var r := RankCandidates(models, q, idBefore).models;
    RankedExactly(models, q, idBefore);
    RankedHeadBeatsAll(models, q, idBefore);
    assert r[0] in r && r[i] in r;
    PreferredExactly(q, r[0], r[i]);
  }

  /** Models of which neither is preferred stand in the locale's order of their ids. */
  lemma ParGoesById(models: seq<LLMModel>, q: Query, idBefore: (string, string) -> bool, i: nat, j: nat)
    requires Weak(idBefore) && RankCandidates(models, q, idBefore).Ranked?
    requires var r := RankCandidates(models, q, idBefore).models;
             && i < |r| && j < |r| && !Preferred(q, r[i], r[j]) && !Preferred(q, r[j], r[i])
             && idBefore(r[i].modelId, r[j].modelId)
    ensures i < j
  {
    var r, less := RankCandidates(models, q, idBefore).models, Precedes(q, idBefore);
    RankedExactly(models, q, idBefore);
    RankedHeadBeatsAll(models, q, idBefore);
    assert r[i] in r && r[j] in r;
    PreferredExactly(q, r[i], r[j]);
    PreferredExactly(q, r[j], r[i]);
    ScoresComparable(ScoreOf(r[i], q), ScoreOf(r[j], q));
    PrecedesIsWeak(q, idBefore);
    assert less(r[i], r[j]);
  }

  /** No model that suits the query is preferred to this one. */
  predicate Foremost(models: seq<LLMModel>, q: Query, m: LLMModel) {
    m in models && Suits(m, q) && forall other :: other in models && Suits(other, q) ==> !Preferred(q, other, m)
  }

  lemma {:induction false} IdsOfMembers(models: seq<LLMModel>, id: string)
    ensures id in IdsOf(models) <==> exists m :: m in models && m.modelId == id
    ensures |IdsOf(models)| == |models|
  {
    if models != [] {
      IdsOfMembers(models[1..], id);
      assert models == [models[0]] + models[1..];
      if m :| m in models[1..] && m.modelId == id { assert m in models; }
    }
  }

  /** An ambiguity error names exactly the models to which none is preferred, and there are several. */
  lemma AmbiguousExactly(models: seq<LLMModel>, q: Query, idBefore: (string, string) -> bool, id: string)
    requires Weak(idBefore) && RankCandidates(models, q, idBefore).AmbiguousModels?
    ensures var tied := RankCandidates(models, q, idBefore).tied;
            |tied| > 1 && (id in tied <==> exists m :: Foremost(models, q, m) && m.modelId == id)
  {
    var scored := Scored(models, q, idBefore);
    var tied := Filter(ScoresLike(scored[0], q), scored);
    IdsOfMembers(tied, id);
    FilterMembers(ScoresLike(scored[0], q), scored);
    ScoredMembers(models, q, idBefore);
    forall m ensures m in tied <==> Foremost(models, q, m) {
      TiedIsForemost(models, q, idBefore, m);
    }
  }

  lemma ScoredMembers(models: seq<LLMModel>, q: Query, idBefore: (string, string) -> bool)
    ensures forall m :: m in Scored(models, q, idBefore) <==> m in models && Suits(m, q)
  {
    var eligible, scored := EligibleModels(models, q), Scored(models, q, idBefore);
    assert forall m :: Eligible(m, q) <==> Suits(m, q);
    FilterMembers(m => Eligible(m, q), models);
    SortContents(Precedes(q, idBefore), eligible);
    assert forall m :: (m in scored <==> m in multiset(scored)) && (m in eligible <==> m in multiset(eligible));
  }

  lemma HeadUnbeaten(models: seq<LLMModel>, q: Query, idBefore: (string, string) -> bool, m: LLMModel)
    requires Weak(idBefore) && m in Scored(models, q, idBefore)
    ensures !Beats(ScoreOf(m, q), ScoreOf(Scored(models, q, idBefore)[0], q))
  {
    var less, scored := Precedes(q, idBefore), Scored(models, q, idBefore);
    PrecedesIsWeak(q, idBefore);
    SortInOrder(less, EligibleModels(models, q));
    var i :| 0 <= i < |scored| && scored[i] == m;
    if i > 0 { assert !less(scored[i], scored[0]); } else { BeatsIsWeak(ScoreOf(m, q), ScoreOf(m, q), ScoreOf(m, q)); }
  }

  lemma TiedIsForemost(models: seq<LLMModel>, q: Query, idBefore: (string, string) -> bool, m: LLMModel)
    requires Weak(idBefore) && Scored(models, q, idBefore) != []
    ensures var scored := Scored(models, q, idBefore);
            m in scored && ScoreOf(m, q) == ScoreOf(scored[0], q) <==> Foremost(models, q, m)
  {
    var scored := Scored(models, q, idBefore);
    var head := scored[0];
    ScoredMembers(models, q, idBefore);
    assert head in scored;
    if m in scored && ScoreOf(m, q) == ScoreOf(head, q) {
      forall other | other in models && Suits(other, q) ensures !Preferred(q, other, m) {
        HeadUnbeaten(models, q, idBefore, other);
        PreferredExactly(q, other, m);
      }
    }
    if Foremost(models, q, m) {
      HeadUnbeaten(models, q, idBefore, m);
      PreferredExactly(q, head, m);
      ScoresComparable(ScoreOf(m, q), ScoreOf(head, q));
    }
  }
}
