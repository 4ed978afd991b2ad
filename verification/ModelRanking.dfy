/** Candidate ranking of the router (packages/llm-gateway/src/llm-router.ts:308-373). */
module ModelRanking {
  import opened Foundations
  import opened Ordering
  import opened BudgetLedger

  datatype LLMModel = LLMModel(
    modelId: string,
    providerId: string,
    family: Option<string>,
    capabilities: seq<string>,
    maxContextTokens: int,
    costPerInputTokenUsd: real,
    costPerOutputTokenUsd: real,
    supportsStructuredOutput: bool,
    latencyClass: string,
    active: bool,
    priority: int)

  datatype Query = Query(
    capability: string,
    maxTokens: int,
    structuredOutputRequired: bool,
    budget: Option<Limit>,
    latencyClass: string,
    modelFamily: Option<string>,
    modelId: Option<string>)

  datatype Score = Score(priority: int, cost: real, latency: int)

  predicate Eligible(m: LLMModel, q: Query) {
    && m.active
    && m.maxContextTokens >= q.maxTokens
    && (q.structuredOutputRequired ==> m.supportsStructuredOutput)
    && (q.budget.Some? ==>
          && (if m.costPerOutputTokenUsd > 0.0 then m.costPerOutputTokenUsd * q.maxTokens as real else 0.0) <= q.budget.value.maxCostUsd
          && q.maxTokens <= q.budget.value.maxTokens)
    && (Given(q.modelFamily) ==> m.family == q.modelFamily)
    && (Given(q.modelId) ==> m.modelId == q.modelId.value)
  }

  function LatencyRank(latencyClass: string): int {
    if latencyClass == "interactive" then 1
    else if latencyClass == "background" then 2
    else if latencyClass == "batch" then 3
    else 9
  }

  function ScoreOf(m: LLMModel, q: Query): Score {
    var distance := LatencyRank(m.latencyClass) - LatencyRank(q.latencyClass);
    Score(
      m.priority + (if q.capability in m.capabilities then 0 else 1000)
                 + (if !q.structuredOutputRequired || m.supportsStructuredOutput then 0 else 1000),
      m.costPerOutputTokenUsd,
      if distance < 0 then -distance else distance)
  }

  /** Strictly better on (priority, cost, latency). */
  predicate Beats(a: Score, b: Score) {
    || a.priority < b.priority
    || (a.priority == b.priority && a.cost < b.cost)
    || (a.priority == b.priority && a.cost == b.cost && a.latency < b.latency)
  }

  /** The comparator: by score, then by model id in the locale's order. */
  predicate ComesBefore(q: Query, idBefore: (string, string) -> bool, a: LLMModel, b: LLMModel) {
    Beats(ScoreOf(a, q), ScoreOf(b, q)) || (ScoreOf(a, q) == ScoreOf(b, q) && idBefore(a.modelId, b.modelId))
  }

  function Precedes(q: Query, idBefore: (string, string) -> bool): (LLMModel, LLMModel) -> bool {
    (a: LLMModel, b: LLMModel) => ComesBefore(q, idBefore, a, b)
  }

  datatype Ranking = NoModel | AmbiguousModels(tied: seq<string>) | Ranked(models: seq<LLMModel>)

  function EligibleModels(models: seq<LLMModel>, q: Query): seq<LLMModel> {
    Filter(m => Eligible(m, q), models)
  }

  function IdsOf(models: seq<LLMModel>): seq<string> {
    if models == [] then [] else [models[0].modelId] + IdsOf(models[1..])
  }

  function Scored(models: seq<LLMModel>, q: Query, idBefore: (string, string) -> bool): seq<LLMModel> {
    Sort(Precedes(q, idBefore), EligibleModels(models, q))
  }

  function ScoresLike(best: LLMModel, q: Query): LLMModel -> bool {
    (m: LLMModel) => ScoreOf(m, q) == ScoreOf(best, q)
  }

  function Routed(scored: seq<LLMModel>, q: Query): Ranking {
    if scored == [] then NoModel
    else
      var tied := Filter(ScoresLike(scored[0], q), scored);
      if |tied| > 1 then AmbiguousModels(IdsOf(tied)) else Ranked(scored)
  }

  function RankCandidates(models: seq<LLMModel>, q: Query, idBefore: (string, string) -> bool): Ranking {
    Routed(Scored(models, q, idBefore), q)
  }

  lemma BeatsIsWeak(a: Score, b: Score, c: Score)
    ensures !Beats(a, a)
    ensures Beats(a, b) && Beats(b, c) ==> Beats(a, c)
    ensures Beats(a, c) ==> Beats(a, b) || Beats(b, c)
  {
  }

  lemma ScoresComparable(a: Score, b: Score)
    ensures Beats(a, b) || Beats(b, a) || a == b
  {
  }

  lemma PrecedesIsWeak(q: Query, idBefore: (string, string) -> bool)
    requires Weak(idBefore)
    ensures Weak(Precedes(q, idBefore))
  {
    var less := Precedes(q, idBefore);
    forall a: LLMModel ensures !less(a, a) {
      assert less(a, a) == ComesBefore(q, idBefore, a, a);
    }
    forall a: LLMModel, b: LLMModel, c: LLMModel
      ensures less(a, b) && less(b, c) ==> less(a, c)
      ensures less(a, c) ==> less(a, b) || less(b, c)
    {
      WeakAt(q, idBefore, a, b, c);
    }
  }

  lemma WeakAt(q: Query, idBefore: (string, string) -> bool, a: LLMModel, b: LLMModel, c: LLMModel)
    requires Weak(idBefore)
    ensures ComesBefore(q, idBefore, a, b) && ComesBefore(q, idBefore, b, c) ==> ComesBefore(q, idBefore, a, c)
    ensures ComesBefore(q, idBefore, a, c) ==> ComesBefore(q, idBefore, a, b) || ComesBefore(q, idBefore, b, c)
  {
    BeatsIsWeak(ScoreOf(a, q), ScoreOf(b, q), ScoreOf(c, q));
    ScoresComparable(ScoreOf(a, q), ScoreOf(b, q));
    ScoresComparable(ScoreOf(b, q), ScoreOf(c, q));
  }

  /** No two different eligible models tie: same score, and ids the locale ranks equal. */
  ghost predicate NoTies(models: seq<LLMModel>, q: Query, idBefore: (string, string) -> bool) {
    ToldApart(Precedes(q, idBefore), EligibleModels(models, q))
  }

  /** Without ties ranking is a function of the contents of the catalogue: every reordering gives
      the same ranked list, or the same ambiguity error. */
  lemma RankingIgnoresCatalogOrder(models: seq<LLMModel>, reordered: seq<LLMModel>, q: Query, idBefore: (string, string) -> bool)
    requires Weak(idBefore) && NoTies(models, q, idBefore)
    requires multiset(models) == multiset(reordered)
    ensures RankCandidates(models, q, idBefore) == RankCandidates(reordered, q, idBefore)
  {
    PrecedesIsWeak(q, idBefore);
    FilterOfSameContents(m => Eligible(m, q), models, reordered);
    SortIgnoresOrder(Precedes(q, idBefore), EligibleModels(models, q), EligibleModels(reordered, q));
  }

  /** The catalogue decides between two tied models. */
  lemma TiedModelsFollowTheCatalog(rest: seq<LLMModel>, a: LLMModel, b: LLMModel, q: Query, idBefore: (string, string) -> bool)
    requires Weak(idBefore)
    requires a != b && Eligible(a, q) && Eligible(b, q)
    requires !ComesBefore(q, idBefore, a, b) && !ComesBefore(q, idBefore, b, a)
    ensures Scored([a, b] + rest, q, idBefore) != Scored([b, a] + rest, q, idBefore)
  {
    var less, eligible := Precedes(q, idBefore), (m: LLMModel) => Eligible(m, q);
    var alike := AlikeTo(less, a);
    PrecedesIsWeak(q, idBefore);
    FilterPair(eligible, a, b, rest);
    FilterPair(eligible, b, a, rest);
    var others := Filter(eligible, rest);
    FilterPair(alike, a, b, others);
    FilterPair(alike, b, a, others);
    SortIsStable(less, [a, b] + others, a);
    SortIsStable(less, [b, a] + others, a);
    assert Filter(alike, [a, b] + others)[0] == a;
    assert Filter(alike, [b, a] + others)[0] == b;
  }

  ghost predicate IgnoresCatalogOrder(models: seq<LLMModel>, q: Query, idBefore: (string, string) -> bool) {
    forall reordered :: multiset(reordered) == multiset(models) ==>
      RankCandidates(reordered, q, idBefore) == RankCandidates(models, q, idBefore)
  }

  lemma TiedPair(models: seq<LLMModel>, q: Query, idBefore: (string, string) -> bool) returns (a: LLMModel, b: LLMModel)
    requires !NoTies(models, q, idBefore)
    ensures a in models && b in models && a != b && Eligible(a, q) && Eligible(b, q)
    ensures !ComesBefore(q, idBefore, a, b) && !ComesBefore(q, idBefore, b, a)
  {
    var less := Precedes(q, idBefore);
    a, b :| a in EligibleModels(models, q) && b in EligibleModels(models, q) && a != b && !less(a, b) && !less(b, a);
    FilterMembers(m => Eligible(m, q), models);
  }

  lemma TiesMatter(models: seq<LLMModel>, q: Query, idBefore: (string, string) -> bool)
    requires Weak(idBefore) && RankCandidates(models, q, idBefore).Ranked? && !NoTies(models, q, idBefore)
    ensures !IgnoresCatalogOrder(models, q, idBefore)
  {
    var a, b := TiedPair(models, q, idBefore);
    var rest := BringPairForward(models, a, b);
    TiedModelsFollowTheCatalog(rest, a, b, q, idBefore);
    TwoRankings(models, [a, b] + rest, [b, a] + rest, q, idBefore);
  }

  lemma TwoRankings(models: seq<LLMModel>, one: seq<LLMModel>, other: seq<LLMModel>, q: Query, idBefore: (string, string) -> bool)
    requires RankCandidates(models, q, idBefore).Ranked?
    requires multiset(one) == multiset(models) && multiset(other) == multiset(models)
    requires Scored(one, q, idBefore) != Scored(other, q, idBefore)
    ensures !IgnoresCatalogOrder(models, q, idBefore)
  {
    RankedIsScored(one, q, idBefore);
    RankedIsScored(other, q, idBefore);
  }

  lemma RankedIsScored(models: seq<LLMModel>, q: Query, idBefore: (string, string) -> bool)
    ensures RankCandidates(models, q, idBefore).Ranked? ==>
              RankCandidates(models, q, idBefore) == Ranked(Scored(models, q, idBefore))
  {
  }

  /** A ranked list is the same for every order of the catalogue if and only if no two different
      models tie on score and id. */
  lemma CatalogOrderMattersExactly(models: seq<LLMModel>, q: Query, idBefore: (string, string) -> bool)
    requires Weak(idBefore) && RankCandidates(models, q, idBefore).Ranked?
    ensures IgnoresCatalogOrder(models, q, idBefore) <==> NoTies(models, q, idBefore)
  {
    if NoTies(models, q, idBefore) {
      forall reordered | multiset(reordered) == multiset(models)
        ensures RankCandidates(reordered, q, idBefore) == RankCandidates(models, q, idBefore)
      {
        RankingIgnoresCatalogOrder(models, reordered, q, idBefore);
      }
    } else {
      TiesMatter(models, q, idBefore);
    }
  }

  /** A model of the failing catalogue: all alike but for id and priority. */
  function Plain(id: string, priority: int): LLMModel {
    LLMModel(id, "provider", None, ["chat"], 1000, 1.0, 1.0, true, "interactive", true, priority)
  }

  function Ask(): Query {
    Query("chat", 100, false, None, "interactive", None, None)
  }

  /** The failing input: behind a strictly best model two models of equal score, whose different
      ids the locale ranks equal, as it does the composed and the decomposed form of a letter. */
  lemma TiedCatalog(best: string, x: string, y: string, idBefore: (string, string) -> bool)
    requires x != y && !idBefore(x, y) && !idBefore(y, x)
    ensures var head, a, b := Plain(best, 0), Plain(x, 1), Plain(y, 1);
            && RankCandidates([head, a, b], Ask(), idBefore) == Ranked([head, a, b])
            && RankCandidates([head, b, a], Ask(), idBefore) == Ranked([head, b, a])
            && [head, a, b] != [head, b, a]
  {
    TiedBehindHead(best, x, y, idBefore);
    TiedBehindHead(best, y, x, idBefore);
    assert [Plain(best, 0), Plain(x, 1), Plain(y, 1)][1].modelId == x;
    assert [Plain(best, 0), Plain(y, 1), Plain(x, 1)][1].modelId == y;
  }

  lemma TiedBehindHead(best: string, x: string, y: string, idBefore: (string, string) -> bool)
    requires !idBefore(y, x)
    ensures var models := [Plain(best, 0), Plain(x, 1), Plain(y, 1)];
            RankCandidates(models, Ask(), idBefore) == Ranked(models)
  {
    var q, head, a, b := Ask(), Plain(best, 0), Plain(x, 1), Plain(y, 1);
    assert ScoreOf(head, q).priority == 0 && ScoreOf(a, q).priority == 1 && ScoreOf(b, q) == ScoreOf(a, q);
    FilterThree(m => Eligible(m, q), head, a, b);
    assert EligibleModels([head, a, b], q) == [head, a, b];
    SortThree(Precedes(q, idBefore), head, a, b);
    assert Scored([head, a, b], q, idBefore) == [head, a, b];
    FilterThree(ScoresLike(head, q), head, a, b);
    assert Filter(ScoresLike(head, q), [head, a, b]) == [head];
  }

  /** The ranked list holds exactly the eligible models, in order, and its head strictly beats all
      others on (priority, cost, latency). */
  lemma RankedHeadBeatsAll(models: seq<LLMModel>, q: Query, idBefore: (string, string) -> bool)
    requires Weak(idBefore) && RankCandidates(models, q, idBefore).Ranked?
    ensures var r := RankCandidates(models, q, idBefore).models;
            && r != [] && multiset(r) == multiset(EligibleModels(models, q))
            && InOrder(Precedes(q, idBefore), r)
            && forall i :: 0 < i < |r| ==> Beats(ScoreOf(r[0], q), ScoreOf(r[i], q))
  {
    var r := RankCandidates(models, q, idBefore).models;
    var a := EligibleModels(models, q);
    var less := Precedes(q, idBefore);
    PrecedesIsWeak(q, idBefore);
    SortInOrder(less, a);
    SortContents(less, a);
    var sameScore := ScoresLike(r[0], q);
    forall i | 0 < i < |r| ensures Beats(ScoreOf(r[0], q), ScoreOf(r[i], q)) {
      assert !less(r[i], r[0]);
      ScoresComparable(ScoreOf(r[i], q), ScoreOf(r[0], q));
      if ScoreOf(r[i], q) == ScoreOf(r[0], q) {
        TwoKept(sameScore, r, i);
      }
    }
  }
}
