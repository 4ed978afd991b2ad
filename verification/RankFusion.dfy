/** Reciprocal rank fusion of ranked channels, for memories and for knowledge chunks
    (packages/ai-runtime/src/memory/durable-memory-retriever.ts:81-130 and
    packages/ai-runtime/src/knowledge/durable-knowledge-retriever.ts:60-100). */
module RankFusion {
  import opened Foundations
  import opened Ordering

  /** A memory is identified by id and version; a knowledge chunk by its id, with version 0. */
  datatype Key = Key(id: string, version: nat)

  datatype Candidate = Candidate(key: Key, content: string)

  datatype Channel = Channel(name: string, candidates: seq<Candidate>)

  datatype Kind = Memory | Knowledge

  /** The text under which the accumulating map files a candidate. */
  function MapKey(kind: Kind, k: Key): string {
    match kind
    case Memory => Tagged(k.id, '#', k.version)
    case Knowledge => k.id
  }

  predicate Fits(kind: Kind, k: Key) {
    kind == Knowledge ==> k.version == 0
  }

  lemma MapKeyIsFaithful(kind: Kind, a: Key, b: Key)
    requires Fits(kind, a) && Fits(kind, b)
    ensures MapKey(kind, a) == MapKey(kind, b) <==> a == b
  {
    if kind == Memory && MapKey(kind, a) == MapKey(kind, b) {
      TaggedInjective(a.id, a.version, b.id, b.version, '#');
    }
  }

  function Denominator(k: real, rank: nat): real {
    k + rank as real
  }

  /** A score: a sum of weights, infinite as soon as one of them is. */
  datatype Amount = Finite(value: real) | Infinite

  const Nothing := Finite(0.0)

  function Plus(a: Amount, b: Amount): Amount {
    if a.Infinite? || b.Infinite? then Infinite else Finite(a.value + b.value)
  }

  predicate Exceeds(a: Amount, b: Amount) {
    b.Finite? && (a.Infinite? || a.value > b.value)
  }

  lemma PlusLaws(a: Amount, b: Amount, c: Amount)
    ensures Plus(Plus(a, b), c) == Plus(a, Plus(b, c)) && Plus(a, b) == Plus(b, a) && Plus(a, Nothing) == a
  {
  }

  /** 1 / (k + rank), with the rank counted from one; dividing by zero gives infinity. */
  function Weight(k: real): nat -> Amount {
    (index: nat) => if Denominator(k, index + 1) == 0.0 then Infinite else Finite(1.0 / Denominator(k, index + 1))
  }

  // ---- the reference: scores as sums over the channels ----

  /** What the first `n` places of one channel give to a key. */
  function ChannelScore(candidates: seq<Candidate>, n: nat, key: Key, weight: nat -> Amount): Amount
    requires n <= |candidates|
  {
    if n == 0 then Nothing
    else Plus(ChannelScore(candidates, n - 1, key, weight), if candidates[n - 1].key == key then weight(n - 1) else Nothing)
  }

  function Score(channels: seq<Channel>, key: Key, weight: nat -> Amount): Amount {
    if channels == [] then Nothing
    else
      var last := channels[|channels| - 1].candidates;
      Plus(Score(channels[..|channels| - 1], key, weight), ChannelScore(last, |last|, key, weight))
  }

  predicate In(key: Key, candidates: seq<Candidate>) {
    exists i :: 0 <= i < |candidates| && candidates[i].key == key
  }

  predicate Occurs(channels: seq<Channel>, key: Key) {
    exists c :: 0 <= c < |channels| && In(key, channels[c].candidates)
  }

  // ---- the accumulation ----

  datatype Entry = Entry(candidate: Candidate, score: Amount, channels: set<string>)

  datatype Hit = Hit(name: string, candidate: Candidate, weight: Amount)

  function ChannelHits(ch: Channel, n: nat, weight: nat -> Amount): seq<Hit>
    requires n <= |ch.candidates|
  {
    if n == 0 then [] else ChannelHits(ch, n - 1, weight) + [Hit(ch.name, ch.candidates[n - 1], weight(n - 1))]
  }

  function Hits(channels: seq<Channel>, weight: nat -> Amount): seq<Hit> {
    if channels == [] then []
    else
      var last := channels[|channels| - 1];
      Hits(channels[..|channels| - 1], weight) + ChannelHits(last, |last.candidates|, weight)
  }

  function ScoreIn(hits: seq<Hit>, key: Key): Amount {
    if hits == [] then Nothing
    else
      var last := hits[|hits| - 1];
      Plus(ScoreIn(hits[..|hits| - 1], key), if last.candidate.key == key then last.weight else Nothing)
  }

  function NamesIn(hits: seq<Hit>, key: Key): set<string> {
    if hits == [] then {}
    else
      var last := hits[|hits| - 1];
      NamesIn(hits[..|hits| - 1], key) + (if last.candidate.key == key then {last.name} else {})
  }

  /** The candidate first seen under a key. */
  function FirstIn(hits: seq<Hit>, key: Key): Option<Candidate> {
    if hits == [] then None
    else
      var earlier, last := FirstIn(hits[..|hits| - 1], key), hits[|hits| - 1];
      if earlier.Some? then earlier else if last.candidate.key == key then Some(last.candidate) else None
  }

  predicate Tells(e: Entry, hits: seq<Hit>) {
    && FirstIn(hits, e.candidate.key) == Some(e.candidate)
    && e.score == ScoreIn(hits, e.candidate.key)
    && e.channels == NamesIn(hits, e.candidate.key)
  }

  predicate Lists(entries: seq<Entry>, key: Key) {
    exists i :: 0 <= i < |entries| && entries[i].candidate.key == key
  }

  predicate DistinctKeys(entries: seq<Entry>) {
    forall i, j :: 0 <= i < j < |entries| ==> entries[i].candidate.key != entries[j].candidate.key
  }

  /** One entry for each key hit, telling its first candidate, its summed score and its channels. */
  ghost predicate Collects(entries: seq<Entry>, hits: seq<Hit>) {
    && DistinctKeys(entries)
    && (forall i :: 0 <= i < |entries| ==> Tells(entries[i], hits))
    && (forall key :: FirstIn(hits, key).Some? ==> Lists(entries, key))
  }

  function Credited(e: Entry, h: Hit): Entry {
    e.(score := Plus(e.score, h.weight), channels := e.channels + {h.name})
  }

  lemma {:induction false} Unseen(hits: seq<Hit>, key: Key)
    requires FirstIn(hits, key).None?
    ensures ScoreIn(hits, key) == Nothing && NamesIn(hits, key) == {}
  {
    if hits != [] { Unseen(hits[..|hits| - 1], key); }
  }

  lemma {:induction false} FirstHasItsKey(hits: seq<Hit>, key: Key)
    ensures FirstIn(hits, key).Some? ==> FirstIn(hits, key).value.key == key
  {
    if hits != [] { FirstHasItsKey(hits[..|hits| - 1], key); }
  }

  lemma TellsLater(e: Entry, hits: seq<Hit>, h: Hit)
    requires Tells(e, hits)
    ensures Tells(if e.candidate.key == h.candidate.key then Credited(e, h) else e, hits + [h])
  {
    assert (hits + [h])[..|hits|] == hits;
  }

  lemma CreditKeepsCollects(entries: seq<Entry>, hits: seq<Hit>, h: Hit, at: nat)
    requires Collects(entries, hits) && at < |entries| && entries[at].candidate.key == h.candidate.key
    ensures Collects(entries[at := Credited(entries[at], h)], hits + [h])
  {
    var after := entries[at := Credited(entries[at], h)];
    assert (hits + [h])[..|hits|] == hits;
    forall i | 0 <= i < |after| ensures Tells(after[i], hits + [h]) {
      TellsLater(entries[i], hits, h);
    }
    forall key | FirstIn(hits + [h], key).Some? ensures Lists(after, key) {
      if key == h.candidate.key {
        assert after[at].candidate.key == key;
      } else {
        assert Lists(entries, key);
        var i :| 0 <= i < |entries| && entries[i].candidate.key == key;
        assert after[i].candidate.key == key;
      }
    }
  }

  lemma NewKeepsCollects(entries: seq<Entry>, hits: seq<Hit>, h: Hit)
    requires Collects(entries, hits) && !Lists(entries, h.candidate.key)
    ensures Collects(entries + [Entry(h.candidate, h.weight, {h.name})], hits + [h])
  {
    var after := entries + [Entry(h.candidate, h.weight, {h.name})];
    assert (hits + [h])[..|hits|] == hits;
    Unseen(hits, h.candidate.key);
    forall i | 0 <= i < |entries| ensures Tells(after[i], hits + [h]) {
      assert entries[i].candidate.key != h.candidate.key;
      TellsLater(entries[i], hits, h);
    }
    forall key | FirstIn(hits + [h], key).Some? ensures Lists(after, key) {
      if key == h.candidate.key {
        assert after[|entries|].candidate.key == key;
      } else {
        assert Lists(entries, key);
        var i :| 0 <= i < |entries| && entries[i].candidate.key == key;
        assert after[i].candidate.key == key;
      }
    }
  }

  // ---- the order of the result ----

  datatype Row = Row(key: Key, score: Amount)

  /** Higher score first; then id, then version. */
  predicate Precedes(idBefore: (string, string) -> bool, a: Row, b: Row) {
    if a.score != b.score then Exceeds(a.score, b.score)
    else if a.key.id != b.key.id then idBefore(a.key.id, b.key.id)
    else a.key.version < b.key.version
  }

  function RowOf(e: Entry): Row {
    Row(e.candidate.key, e.score)
  }

  function EntryOrder(idBefore: (string, string) -> bool): (Entry, Entry) -> bool {
    (a: Entry, b: Entry) => Precedes(idBefore, RowOf(a), RowOf(b))
  }

  /** The string order of the runtime, as far as it is used: a strict total order. */
  ghost predicate TotalOrder(idBefore: (string, string) -> bool) {
    Strict(idBefore) && forall a, b :: a != b ==> idBefore(a, b) || idBefore(b, a)
  }

  lemma PrecedesTransitive(idBefore: (string, string) -> bool, a: Row, b: Row, c: Row)
    requires TotalOrder(idBefore) && Precedes(idBefore, a, b) && Precedes(idBefore, b, c)
    ensures Precedes(idBefore, a, c)
  {
  }

  lemma EntryOrderStrict(idBefore: (string, string) -> bool)
    requires TotalOrder(idBefore)
    ensures Strict(EntryOrder(idBefore))
  {
    var less := EntryOrder(idBefore);
    forall a: Entry, b: Entry, c: Entry | less(a, b) && less(b, c) ensures less(a, c) {
      PrecedesTransitive(idBefore, RowOf(a), RowOf(b), RowOf(c));
    }
  }

  lemma NoBetterBehind(idBefore: (string, string) -> bool, a: Entry, b: Entry)
    requires EntryOrder(idBefore)(a, b)
    ensures !Exceeds(b.score, a.score)
  {
    assert Precedes(idBefore, RowOf(a), RowOf(b));
  }

  lemma EntriesComparable(idBefore: (string, string) -> bool, entries: seq<Entry>)
    requires TotalOrder(idBefore) && DistinctKeys(entries)
    ensures Comparable(EntryOrder(idBefore), entries)
  {
    var less := EntryOrder(idBefore);
    forall i, j | 0 <= i < j < |entries| ensures less(entries[i], entries[j]) || less(entries[j], entries[i]) {
      assert entries[i].candidate.key != entries[j].candidate.key;
    }
  }

  /** A sorted list with the same members collects the same. */
  lemma SameMembersCollect(idBefore: (string, string) -> bool, entries: seq<Entry>, fused: seq<Entry>, hits: seq<Hit>)
    requires Strict(EntryOrder(idBefore)) && Sorted(EntryOrder(idBefore), fused) && Collects(entries, hits)
    requires forall e :: e in fused <==> e in entries
    ensures Collects(fused, hits)
  {
    forall i, j | 0 <= i < j < |fused| ensures fused[i].candidate.key != fused[j].candidate.key {
      assert EntryOrder(idBefore)(fused[i], fused[j]) && fused[i] in entries && fused[j] in entries;
    }
    forall i | 0 <= i < |fused| ensures Tells(fused[i], hits) {
      assert fused[i] in entries;
    }
    forall key | FirstIn(hits, key).Some? ensures Lists(fused, key) {
      assert Lists(entries, key);
      var i :| 0 <= i < |entries| && entries[i].candidate.key == key;
      assert entries[i] in fused;
    }
  }

  /** Sorting keeps what the entries collect. */
  lemma SortedCollects(idBefore: (string, string) -> bool, entries: seq<Entry>, hits: seq<Hit>)
    requires TotalOrder(idBefore) && Collects(entries, hits)
    ensures Sorted(EntryOrder(idBefore), Sort(EntryOrder(idBefore), entries))
    ensures Collects(Sort(EntryOrder(idBefore), entries), hits)
  {
    var less := EntryOrder(idBefore);
    EntryOrderStrict(idBefore);
    EntriesComparable(idBefore, entries);
    SortSorted(less, entries);
    SortContents(less, entries);
    forall e ensures e in Sort(less, entries) <==> e in entries {
      assert e in Sort(less, entries) <==> e in multiset(Sort(less, entries));
      assert e in entries <==> e in multiset(entries);
    }
    SameMembersCollect(idBefore, entries, Sort(less, entries), hits);
  }

  // ---- fusion ----

  /** Position of the entry filed under a map key, or the length. */
  function Find(kind: Kind, entries: seq<Entry>, mapKey: string): (i: nat)
    ensures i <= |entries| && (i < |entries| ==> MapKey(kind, entries[i].candidate.key) == mapKey)
    ensures forall k :: 0 <= k < i ==> MapKey(kind, entries[k].candidate.key) != mapKey
  {
    if entries == [] || MapKey(kind, entries[0].candidate.key) == mapKey then 0 else 1 + Find(kind, entries[1..], mapKey)
  }

  predicate AllFit(kind: Kind, channels: seq<Channel>) {
    forall c, i :: 0 <= c < |channels| && 0 <= i < |channels[c].candidates| ==> Fits(kind, channels[c].candidates[i].key)
  }

  predicate EntriesFit(kind: Kind, entries: seq<Entry>) {
    forall i :: 0 <= i < |entries| ==> Fits(kind, entries[i].candidate.key)
  }

  /** One candidate of one channel: credit its entry, or start one. */
  method Record(kind: Kind, entries: seq<Entry>, h: Hit, ghost hits: seq<Hit>) returns (after: seq<Entry>)
    requires Fits(kind, h.candidate.key) && EntriesFit(kind, entries)
    requires Collects(entries, hits)
    ensures Collects(after, hits + [h]) && EntriesFit(kind, after)
  {
    var at := Find(kind, entries, MapKey(kind, h.candidate.key));
    forall i | 0 <= i < |entries|
      ensures MapKey(kind, entries[i].candidate.key) == MapKey(kind, h.candidate.key) <==> entries[i].candidate.key == h.candidate.key
    {
      MapKeyIsFaithful(kind, entries[i].candidate.key, h.candidate.key);
    }
    if at < |entries| {
      CreditKeepsCollects(entries, hits, h, at);
      after := entries[at := Credited(entries[at], h)];
    } else {
      NewKeepsCollects(entries, hits, h);
      after := entries + [Entry(h.candidate, h.weight, {h.name})];
    }
  }

  /** All candidates of one channel. */
  method RecordChannel(kind: Kind, entries: seq<Entry>, ch: Channel, weight: nat -> Amount, ghost before: seq<Hit>)
      returns (after: seq<Entry>)
    requires Collects(entries, before) && EntriesFit(kind, entries)
    requires forall i :: 0 <= i < |ch.candidates| ==> Fits(kind, ch.candidates[i].key)
    ensures Collects(after, before + ChannelHits(ch, |ch.candidates|, weight)) && EntriesFit(kind, after)
  {
    after := entries;
    assert before + ChannelHits(ch, 0, weight) == before;
    for i := 0 to |ch.candidates|
      invariant Collects(after, before + ChannelHits(ch, i, weight)) && EntriesFit(kind, after)
    {
      var h := Hit(ch.name, ch.candidates[i], weight(i));
      ghost var soFar := before + ChannelHits(ch, i, weight);
      assert before + ChannelHits(ch, i + 1, weight) == soFar + [h];
      after := Record(kind, after, h, soFar);
    }
  }

  /** The fused list: one entry for each key of the union of the channels, strictly sorted. */
  method Fuse(kind: Kind, channels: seq<Channel>, k: real, idBefore: (string, string) -> bool) returns (fused: seq<Entry>)
    requires AllFit(kind, channels) && TotalOrder(idBefore)
    ensures Collects(fused, Hits(channels, Weight(k)))
    ensures Sorted(EntryOrder(idBefore), fused)
  {
    var weight := Weight(k);
    var entries: seq<Entry> := [];
    assert channels[..0] == [];
    for c := 0 to |channels|
      invariant Collects(entries, Hits(channels[..c], weight)) && EntriesFit(kind, entries)
    {
      assert channels[..c + 1][..c] == channels[..c];
      entries := RecordChannel(kind, entries, channels[c], weight, Hits(channels[..c], weight));
    }
    assert channels[..|channels|] == channels;
    SortedCollects(idBefore, entries, Hits(channels, weight));
    fused := Sort(EntryOrder(idBefore), entries);
  }

  // ---- the accumulation against the reference ----

  lemma {:induction false} ScoreInAppend(a: seq<Hit>, b: seq<Hit>, key: Key)
    ensures ScoreIn(a + b, key) == Plus(ScoreIn(a, key), ScoreIn(b, key))
    decreases |b|
  {
    if b == [] {
      assert a + b == a;
      PlusLaws(ScoreIn(a, key), Nothing, Nothing);
    } else {
      var front, last := b[..|b| - 1], b[|b| - 1];
      assert (a + b)[..|a + b| - 1] == a + front && (a + b)[|a + b| - 1] == last;
      ScoreInAppend(a, front, key);
      PlusLaws(ScoreIn(a, key), ScoreIn(front, key), if last.candidate.key == key then last.weight else Nothing);
    }
  }

  lemma {:induction false} NamesInAppend(a: seq<Hit>, b: seq<Hit>, key: Key)
    ensures NamesIn(a + b, key) == NamesIn(a, key) + NamesIn(b, key)
    ensures FirstIn(a + b, key).Some? <==> FirstIn(a, key).Some? || FirstIn(b, key).Some?
    decreases |b|
  {
    if b == [] {
      assert a + b == a;
    } else {
      var front := b[..|b| - 1];
      assert (a + b)[..|a + b| - 1] == a + front;
      NamesInAppend(a, front, key);
    }
  }

  predicate InFirst(candidates: seq<Candidate>, n: nat, key: Key)
    requires n <= |candidates|
  {
    exists i :: 0 <= i < n && candidates[i].key == key
  }

  lemma {:induction false} ChannelHitsScore(ch: Channel, n: nat, key: Key, weight: nat -> Amount)
    requires n <= |ch.candidates|
    ensures ScoreIn(ChannelHits(ch, n, weight), key) == ChannelScore(ch.candidates, n, key, weight)
  {
    if n > 0 {
      var hits := ChannelHits(ch, n, weight);
      ChannelHitsScore(ch, n - 1, key, weight);
      assert hits[..|hits| - 1] == ChannelHits(ch, n - 1, weight);
    }
  }

  lemma InOneMore(candidates: seq<Candidate>, n: nat, key: Key)
    requires 0 < n <= |candidates|
    ensures InFirst(candidates, n, key) <==> InFirst(candidates, n - 1, key) || candidates[n - 1].key == key
  {
  }

  lemma {:induction false} ChannelHitsNames(ch: Channel, n: nat, key: Key, weight: nat -> Amount)
    requires n <= |ch.candidates|
    ensures var hits := ChannelHits(ch, n, weight);
            && (FirstIn(hits, key).Some? <==> InFirst(ch.candidates, n, key))
            && NamesIn(hits, key) == if InFirst(ch.candidates, n, key) then {ch.name} else {}
  {
    if n > 0 {
      var hits := ChannelHits(ch, n, weight);
      ChannelHitsNames(ch, n - 1, key, weight);
      InOneMore(ch.candidates, n, key);
      assert hits[..|hits| - 1] == ChannelHits(ch, n - 1, weight);
    }
  }

  /** The names of the channels a key appears in. */
  function NamesOf(channels: seq<Channel>, key: Key): set<string> {
    set c | 0 <= c < |channels| && In(key, channels[c].candidates) :: channels[c].name
  }

  lemma NamesOfSnoc(front: seq<Channel>, last: Channel, key: Key)
    ensures NamesOf(front + [last], key) == NamesOf(front, key) + (if In(key, last.candidates) then {last.name} else {})
    ensures Occurs(front + [last], key) <==> Occurs(front, key) || In(key, last.candidates)
  {
    var channels := front + [last];
    assert channels[|front|] == last && forall c :: 0 <= c < |front| ==> channels[c] == front[c];
  }

  lemma {:induction false} HitsScore(channels: seq<Channel>, key: Key, weight: nat -> Amount)
    ensures var hits := Hits(channels, weight);
            && ScoreIn(hits, key) == Score(channels, key, weight)
            && (FirstIn(hits, key).Some? <==> Occurs(channels, key))
            && NamesIn(hits, key) == NamesOf(channels, key)
  {
    if channels != [] {
      var front, last := channels[..|channels| - 1], channels[|channels| - 1];
      assert channels == front + [last];
      HitsScore(front, key, weight);
      ChannelHitsScore(last, |last.candidates|, key, weight);
      ChannelHitsNames(last, |last.candidates|, key, weight);
      ScoreInAppend(Hits(front, weight), ChannelHits(last, |last.candidates|, weight), key);
      NamesInAppend(Hits(front, weight), ChannelHits(last, |last.candidates|, weight), key);
      NamesOfSnoc(front, last, key);
      assert In(key, last.candidates) <==> InFirst(last.candidates, |last.candidates|, key);
    }
  }

  /** Main result: a fused list holds each key of the union of the channels exactly once, with
      the sum of 1/(k + rank) over all its places and with exactly the channels it appears in. */
  lemma FusedIsTheUnion(fused: seq<Entry>, channels: seq<Channel>, weight: nat -> Amount)
    requires Collects(fused, Hits(channels, weight))
    ensures DistinctKeys(fused)
    ensures forall key :: Lists(fused, key) <==> Occurs(channels, key)
    ensures forall i :: 0 <= i < |fused| ==> fused[i].score == Score(channels, fused[i].candidate.key, weight)
    ensures forall i :: 0 <= i < |fused| ==> fused[i].channels == NamesOf(channels, fused[i].candidate.key)
  {
    var hits := Hits(channels, weight);
    forall key ensures Lists(fused, key) <==> Occurs(channels, key) {
      HitsScore(channels, key, weight);
      if Lists(fused, key) {
        var i :| 0 <= i < |fused| && fused[i].candidate.key == key;
        assert Tells(fused[i], hits);
      }
    }
    forall i | 0 <= i < |fused|
      ensures fused[i].score == Score(channels, fused[i].candidate.key, weight) && fused[i].channels == NamesOf(channels, fused[i].candidate.key)
    {
      assert Tells(fused[i], hits);
      HitsScore(channels, fused[i].candidate.key, weight);
    }
  }

  // ---- independence of the channel order ----

  function Rows(entries: seq<Entry>): seq<Row> {
    seq(|entries|, i requires 0 <= i < |entries| => RowOf(entries[i]))
  }

  function RowOrder(idBefore: (string, string) -> bool): (Row, Row) -> bool {
    (a: Row, b: Row) => Precedes(idBefore, a, b)
  }

  /** Strictly sorted lists with the same members are equal. */
  lemma {:induction false} SortedByMembers(less: (Row, Row) -> bool, xs: seq<Row>, ys: seq<Row>)
    requires Strict(less) && Sorted(less, xs) && Sorted(less, ys)
    requires forall r :: r in xs <==> r in ys
    ensures xs == ys
  {
    assert ys == [] || ys[0] in ys;
    if xs != [] {
      assert xs[0] in ys && ys[0] in xs;
      HeadFirst(less, ys, xs[0]);
      HeadFirst(less, xs, ys[0]);
      forall r ensures r in xs[1..] <==> r in ys[1..] {
        assert r in xs[1..] <==> r in xs && r != xs[0];
        assert r in ys[1..] <==> r in ys && r != ys[0];
      }
      SortedByMembers(less, xs[1..], ys[1..]);
    }
  }

  lemma RowMembers(fused: seq<Entry>, channels: seq<Channel>, weight: nat -> Amount, r: Row)
    requires Collects(fused, Hits(channels, weight))
    ensures r in Rows(fused) <==> Occurs(channels, r.key) && r.score == Score(channels, r.key, weight)
  {
    FusedIsTheUnion(fused, channels, weight);
    if r in Rows(fused) {
      var i :| 0 <= i < |fused| && RowOf(fused[i]) == r;
      assert Lists(fused, r.key);
    }
    if Occurs(channels, r.key) && r.score == Score(channels, r.key, weight) {
      assert Lists(fused, r.key);
      var i :| 0 <= i < |fused| && fused[i].candidate.key == r.key;
      assert Rows(fused)[i] == r;
    }
  }

  lemma {:induction false} ScoreAppend(a: seq<Channel>, b: seq<Channel>, key: Key, weight: nat -> Amount)
    ensures Score(a + b, key, weight) == Plus(Score(a, key, weight), Score(b, key, weight))
    decreases |b|
  {
    if b == [] {
      assert a + b == a;
    } else {
      assert (a + b)[..|a + b| - 1] == a + b[..|b| - 1];
      ScoreAppend(a, b[..|b| - 1], key, weight);
      var last := b[|b| - 1].candidates;
      PlusLaws(Score(a, key, weight), Score(b[..|b| - 1], key, weight), ChannelScore(last, |last|, key, weight));
    }
  }

  lemma ScoreWithout(channels: seq<Channel>, i: nat, key: Key, weight: nat -> Amount)
    requires i < |channels|
    ensures Score(channels, key, weight) == Plus(Score([channels[i]], key, weight), Score(Ordering.Without(channels, i), key, weight))
  {
    assert channels == channels[..i] + ([channels[i]] + channels[i + 1..]);
    ScoreAppend(channels[..i], [channels[i]] + channels[i + 1..], key, weight);
    ScoreAppend([channels[i]], channels[i + 1..], key, weight);
    ScoreAppend(channels[..i], channels[i + 1..], key, weight);
    var before, here, behind := Score(channels[..i], key, weight), Score([channels[i]], key, weight), Score(channels[i + 1..], key, weight);
    PlusLaws(before, here, behind);
    PlusLaws(here, before, behind);
  }

  lemma {:induction false} ScoreIgnoresOrder(xs: seq<Channel>, ys: seq<Channel>, key: Key, weight: nat -> Amount)
    requires multiset(xs) == multiset(ys)
    ensures Score(xs, key, weight) == Score(ys, key, weight)
  {
    assert |multiset(xs)| == |multiset(ys)|;
    if xs != [] {
      assert xs[0] in multiset(ys);
      var i: nat :| i < |ys| && ys[i] == xs[0];
      WithoutContents(xs, 0);
      WithoutContents(ys, i);
      ScoreIgnoresOrder(Ordering.Without(xs, 0), Ordering.Without(ys, i), key, weight);
      ScoreWithout(xs, 0, key, weight);
      ScoreWithout(ys, i, key, weight);
    }
  }

  lemma OccursIgnoresOrder(xs: seq<Channel>, ys: seq<Channel>, key: Key)
    requires multiset(xs) == multiset(ys) && Occurs(xs, key)
    ensures Occurs(ys, key)
  {
    var c :| 0 <= c < |xs| && In(key, xs[c].candidates);
    assert xs[c] in multiset(ys);
    var d :| 0 <= d < |ys| && ys[d] == xs[c];
  }

  /** Main result: ids, versions, scores and their order do not depend on the order in which
      the channels are fused. */
  lemma ChannelOrderIrrelevant(fused: seq<Entry>, other: seq<Entry>, xs: seq<Channel>, ys: seq<Channel>, weight: nat -> Amount,
                               idBefore: (string, string) -> bool)
    requires TotalOrder(idBefore) && multiset(xs) == multiset(ys)
    requires Collects(fused, Hits(xs, weight)) && Sorted(EntryOrder(idBefore), fused)
    requires Collects(other, Hits(ys, weight)) && Sorted(EntryOrder(idBefore), other)
    ensures Rows(fused) == Rows(other)
  {
    var less := RowOrder(idBefore);
    forall r ensures r in Rows(fused) <==> r in Rows(other) {
      RowMembers(fused, xs, weight, r);
      RowMembers(other, ys, weight, r);
      ScoreIgnoresOrder(xs, ys, r.key, weight);
      if Occurs(xs, r.key) { OccursIgnoresOrder(xs, ys, r.key); }
      if Occurs(ys, r.key) { OccursIgnoresOrder(ys, xs, r.key); }
    }
    SortedRows(fused, idBefore);
    SortedRows(other, idBefore);
    SortedByMembers(less, Rows(fused), Rows(other));
  }

  lemma SortedRows(fused: seq<Entry>, idBefore: (string, string) -> bool)
    requires TotalOrder(idBefore) && Sorted(EntryOrder(idBefore), fused)
    ensures Sorted(RowOrder(idBefore), Rows(fused)) && Strict(RowOrder(idBefore))
  {
    var less := RowOrder(idBefore);
    forall i, j | 0 <= i < j < |fused| ensures less(Rows(fused)[i], Rows(fused)[j]) {
      assert EntryOrder(idBefore)(fused[i], fused[j]);
    }
    forall a: Row, b: Row, c: Row | less(a, b) && less(b, c) ensures less(a, c) {
      PrecedesTransitive(idBefore, a, b, c);
    }
  }

  // ---- the slice, and dominance ----

  /** The slice keeps the best: every result kept precedes every result cut off. */
  lemma SliceKeepsTheBest(fused: seq<Entry>, resultLimit: int, idBefore: (string, string) -> bool)
    requires Sorted(EntryOrder(idBefore), fused)
    ensures var kept := SliceTo(fused, resultLimit);
            && kept <= fused
            && (forall i, j :: 0 <= i < |kept| <= j < |fused| ==> Precedes(idBefore, RowOf(kept[i]), RowOf(fused[j])))
            && (resultLimit >= 0 ==> |kept| == Min(resultLimit, |fused|))
  {
    var less, kept := EntryOrder(idBefore), SliceTo(fused, resultLimit);
    forall i, j | 0 <= i < |kept| <= j < |fused| ensures Precedes(idBefore, RowOf(kept[i]), RowOf(fused[j])) {
      assert less(fused[i], fused[j]);
    }
  }

  /** Weights are positive and fall with the rank. */
  ghost predicate Falling(weight: nat -> Amount) {
    && (forall i: nat :: Exceeds(weight(i), Nothing))
    && (forall i: nat, j: nat :: i < j ==> Exceeds(weight(i), weight(j)))
  }

  lemma ReciprocalFalls(a: real, b: real)
    requires 0.0 < a < b
    ensures 1.0 / a > 1.0 / b > 0.0
  {
    assert 1.0 / a - 1.0 / b == (b - a) / (a * b);
  }

  lemma WeightFalls(k: real)
    requires k >= -1.0
    ensures Falling(Weight(k))
  {
    var weight := Weight(k);
    forall i: nat, j: nat | i < j ensures Exceeds(weight(i), weight(j)) && Exceeds(weight(i), Nothing) {
      var a, b := Denominator(k, i + 1), Denominator(k, j + 1);
      if a > 0.0 { ReciprocalFalls(a, b); }
    }
    forall i: nat ensures Exceeds(weight(i), Nothing) {
      assert Exceeds(weight(i), weight(i + 1));
    }
  }

  /** The key stands at one place of the channel at most. */
  predicate AtMostOnce(candidates: seq<Candidate>, key: Key) {
    forall i, j :: 0 <= i < j < |candidates| ==> !(candidates[i].key == key && candidates[j].key == key)
  }

  /** Wherever `b` appears in the channel, `a` appears earlier. */
  predicate Ahead(candidates: seq<Candidate>, a: Key, b: Key) {
    forall i :: 0 <= i < |candidates| && candidates[i].key == b ==> InFirst(candidates, i, a)
  }

  lemma {:induction false} ScoreAtLeast(candidates: seq<Candidate>, n: nat, key: Key, weight: nat -> Amount)
    requires n <= |candidates| && Falling(weight)
    ensures !Exceeds(Nothing, ChannelScore(candidates, n, key, weight))
    ensures forall i :: 0 <= i < n && candidates[i].key == key ==> !Exceeds(weight(i), ChannelScore(candidates, n, key, weight))
  {
    if n > 0 {
      ScoreAtLeast(candidates, n - 1, key, weight);
      assert Exceeds(weight(n - 1), Nothing);
    }
  }

  lemma {:induction false} AbsentScoresNothing(candidates: seq<Candidate>, n: nat, key: Key, weight: nat -> Amount)
    requires n <= |candidates| && !InFirst(candidates, n, key)
    ensures ChannelScore(candidates, n, key, weight) == Nothing
  {
    if n > 0 { AbsentScoresNothing(candidates, n - 1, key, weight); }
  }

  lemma {:induction false} ScoreOfOnce(candidates: seq<Candidate>, n: nat, i: nat, key: Key, weight: nat -> Amount)
    requires i < n <= |candidates| && candidates[i].key == key && AtMostOnce(candidates, key)
    ensures ChannelScore(candidates, n, key, weight) == weight(i)
  {
    if i == n - 1 {
      AbsentScoresNothing(candidates, n - 1, key, weight);
    } else {
      ScoreOfOnce(candidates, n - 1, i, key, weight);
    }
  }

  /** `b` is finite, `a` is no less, and more if it is to be. */
  predicate Leads(a: Amount, b: Amount, strictly: bool) {
    b.Finite? && !Exceeds(b, a) && (strictly ==> Exceeds(a, b))
  }

  lemma LeadsAdd(a: Amount, b: Amount, s: bool, c: Amount, d: Amount, t: bool)
    requires Leads(a, b, s) && Leads(c, d, t)
    ensures Leads(Plus(a, c), Plus(b, d), s || t)
  {
  }

  lemma ChannelDominance(candidates: seq<Candidate>, a: Key, b: Key, weight: nat -> Amount)
    requires Falling(weight) && AtMostOnce(candidates, b) && Ahead(candidates, a, b)
    ensures var n := |candidates|;
            Leads(ChannelScore(candidates, n, a, weight), ChannelScore(candidates, n, b, weight), In(b, candidates))
  {
    var n := |candidates|;
    ScoreAtLeast(candidates, n, a, weight);
    if In(b, candidates) {
      var j: nat :| j < n && candidates[j].key == b;
      ScoreOfOnce(candidates, n, j, b, weight);
      assert InFirst(candidates, j, a);
      var i: nat :| i < j && candidates[i].key == a;
      assert Exceeds(weight(i), weight(j)) && Exceeds(weight(j), Nothing);
    } else {
      AbsentScoresNothing(candidates, n, b, weight);
    }
  }

  /** In every channel `b` stands once at most, and behind `a`. */
  predicate AheadEverywhere(channels: seq<Channel>, a: Key, b: Key) {
    forall c :: 0 <= c < |channels| ==> AtMostOnce(channels[c].candidates, b) && Ahead(channels[c].candidates, a, b)
  }

  lemma {:induction false} ScoreDominance(channels: seq<Channel>, a: Key, b: Key, weight: nat -> Amount)
    requires Falling(weight) && AheadEverywhere(channels, a, b)
    ensures Leads(Score(channels, a, weight), Score(channels, b, weight), Occurs(channels, b))
  {
    if channels != [] {
      var front, last := channels[..|channels| - 1], channels[|channels| - 1];
      assert channels == front + [last];
      ScoreDominance(front, a, b, weight);
      ChannelDominance(last.candidates, a, b, weight);
      NamesOfSnoc(front, last, b);
      var n := |last.candidates|;
      LeadsAdd(Score(front, a, weight), Score(front, b, weight), Occurs(front, b),
               ChannelScore(last.candidates, n, a, weight), ChannelScore(last.candidates, n, b, weight), In(b, last.candidates));
    }
  }

  /** A candidate ranked ahead of another in every channel the other appears in precedes it in the
      fused list. */
  lemma Dominance(fused: seq<Entry>, channels: seq<Channel>, k: real, idBefore: (string, string) -> bool, i: nat, j: nat)
    requires k >= -1.0 && TotalOrder(idBefore)
    requires Collects(fused, Hits(channels, Weight(k))) && Sorted(EntryOrder(idBefore), fused)
    requires i < |fused| && j < |fused| && AheadEverywhere(channels, fused[i].candidate.key, fused[j].candidate.key)
    ensures i < j
  {
    var weight := Weight(k);
    WeightFalls(k);
    FusedIsTheUnion(fused, channels, weight);
    assert Lists(fused, fused[j].candidate.key);
    ScoreDominance(channels, fused[i].candidate.key, fused[j].candidate.key, weight);
    assert Exceeds(fused[i].score, fused[j].score);
    assert !EntryOrder(idBefore)(fused[j], fused[i]);
  }

  // ---- dominance, exactly ----

  /** The accumulation, hit by hit. */
  function Collected(hits: seq<Hit>): seq<Entry> {
    if hits == [] then []
    else
      var entries, h := Collected(hits[..|hits| - 1]), hits[|hits| - 1];
      var at := PlaceOf(entries, h.candidate.key);
      if at < |entries| then entries[at := Credited(entries[at], h)] else entries + [Entry(h.candidate, h.weight, {h.name})]
  }

  function PlaceOf(entries: seq<Entry>, key: Key): (i: nat)
    ensures i <= |entries| && (i < |entries| <==> Lists(entries, key)) && (i < |entries| ==> entries[i].candidate.key == key)
  {
    if entries == [] then 0 else if entries[0].candidate.key == key then 0
    else
      assert Lists(entries, key) <==> Lists(entries[1..], key) by { ListsFurther(entries, key); }
      1 + PlaceOf(entries[1..], key)
  }

  lemma ListsFurther(entries: seq<Entry>, key: Key)
    requires entries != [] && entries[0].candidate.key != key
    ensures Lists(entries, key) <==> Lists(entries[1..], key)
  {
    if Lists(entries, key) {
      var i :| 0 <= i < |entries| && entries[i].candidate.key == key;
      assert entries[1..][i - 1].candidate.key == key;
    }
  }

  lemma {:induction false} CollectedCollects(hits: seq<Hit>)
    ensures Collects(Collected(hits), hits)
  {
    if hits != [] {
      var front, h := hits[..|hits| - 1], hits[|hits| - 1];
      CollectedCollects(front);
      assert front + [h] == hits;
      var at := PlaceOf(Collected(front), h.candidate.key);
      if at < |Collected(front)| { CreditKeepsCollects(Collected(front), front, h, at); }
      else { NewKeepsCollects(Collected(front), front, h); }
    }
  }

  /** Everywhere ahead, and yet not before the other in the fused list. */
  ghost predicate Overtaken(fused: seq<Entry>, channels: seq<Channel>, k: real, idBefore: (string, string) -> bool, i: nat, j: nat) {
    && Collects(fused, Hits(channels, Weight(k))) && Sorted(EntryOrder(idBefore), fused)
    && i < |fused| && j < |fused|
    && AheadEverywhere(channels, fused[i].candidate.key, fused[j].candidate.key)
    && i >= j
  }

  const Leader := Candidate(Key("a", 0), "")
  const Second := Candidate(Key("b", 0), "")
  const Third := Candidate(Key("c", 0), "")

  /** The failing input: the leader's own weights are negative. Down to -3 a lower place in its one
      channel outweighs it, below that a second channel does harm. */
  function Overtaking(k: real): seq<Channel> {
    if k >= -3.0 then [Channel("x", [Leader, Third, Second])] else [Channel("x", [Leader, Second]), Channel("y", [Leader])]
  }

  lemma OvertakingIsAhead(k: real)
    ensures AheadEverywhere(Overtaking(k), Leader.key, Second.key)
  {
    forall c | 0 <= c < |Overtaking(k)|
      ensures AtMostOnce(Overtaking(k)[c].candidates, Second.key) && Ahead(Overtaking(k)[c].candidates, Leader.key, Second.key)
    {
      var candidates := Overtaking(k)[c].candidates;
      assert candidates[0] == Leader;
      forall i | 0 <= i < |candidates| && candidates[i].key == Second.key ensures InFirst(candidates, i, Leader.key) {
        assert candidates[0].key == Leader.key;
      }
    }
  }

  lemma OneChannel(ch: Channel, key: Key, weight: nat -> Amount)
    ensures Score([ch], key, weight) == ChannelScore(ch.candidates, |ch.candidates|, key, weight)
  {
    assert [ch][..0] == [];
    PlusLaws(Nothing, ChannelScore(ch.candidates, |ch.candidates|, key, weight), Nothing);
  }

  lemma ShortSums(a: Candidate, c: Candidate, b: Candidate, weight: nat -> Amount)
    requires a.key != b.key && a.key != c.key && b.key != c.key
    ensures var channels := [Channel("x", [a, c, b])];
            Score(channels, a.key, weight) == weight(0) && Score(channels, b.key, weight) == weight(2)
  {
    OneChannel(Channel("x", [a, c, b]), a.key, weight);
    OneChannel(Channel("x", [a, c, b]), b.key, weight);
    ScoreOfOnce([a, c, b], 3, 0, a.key, weight);
    ScoreOfOnce([a, c, b], 3, 2, b.key, weight);
  }

  lemma ShortScore(k: real)
    requires -3.0 <= k < -1.0
    ensures Exceeds(Score(Overtaking(k), Second.key, Weight(k)), Score(Overtaking(k), Leader.key, Weight(k)))
  {
    var first, third := Denominator(k, 1), Denominator(k, 3);
    assert Leader.key.id[0] != Second.key.id[0] && Leader.key.id[0] != Third.key.id[0] && Second.key.id[0] != Third.key.id[0];
    ShortSums(Leader, Third, Second, Weight(k));
    NegativeReciprocal(first);
    assert Weight(k)(0) == Finite(1.0 / first);
    if third != 0.0 { PositiveReciprocal(third); }
  }

  lemma TwoChannels(one: Channel, two: Channel, key: Key, weight: nat -> Amount)
    ensures Score([one, two], key, weight) ==
            Plus(ChannelScore(one.candidates, |one.candidates|, key, weight), ChannelScore(two.candidates, |two.candidates|, key, weight))
  {
    assert [one, two][..1] == [one];
    OneChannel(one, key, weight);
  }

  lemma PairScores(a: Candidate, b: Candidate, weight: nat -> Amount)
    requires a.key != b.key
    ensures ChannelScore([a, b], 2, a.key, weight) == weight(0) && ChannelScore([a, b], 2, b.key, weight) == weight(1)
  {
    ScoreOfOnce([a, b], 2, 0, a.key, weight);
    ScoreOfOnce([a, b], 2, 1, b.key, weight);
  }

  lemma SingleScores(a: Candidate, b: Candidate, weight: nat -> Amount)
    requires a.key != b.key
    ensures ChannelScore([a], 1, a.key, weight) == weight(0) && ChannelScore([a], 1, b.key, weight) == Nothing
  {
    ScoreOfOnce([a], 1, 0, a.key, weight);
    AbsentScoresNothing([a], 1, b.key, weight);
  }

  lemma LongSums(a: Candidate, b: Candidate, weight: nat -> Amount)
    requires a.key != b.key
    ensures var channels := [Channel("x", [a, b]), Channel("y", [a])];
            Score(channels, a.key, weight) == Plus(weight(0), weight(0)) && Score(channels, b.key, weight) == Plus(weight(1), Nothing)
  {
    TwoChannels(Channel("x", [a, b]), Channel("y", [a]), a.key, weight);
    TwoChannels(Channel("x", [a, b]), Channel("y", [a]), b.key, weight);
    PairScores(a, b, weight);
    SingleScores(a, b, weight);
  }

  lemma LongScore(k: real)
    requires k < -3.0
    ensures Exceeds(Score(Overtaking(k), Second.key, Weight(k)), Score(Overtaking(k), Leader.key, Weight(k)))
  {
    var first, second := Denominator(k, 1), Denominator(k, 2);
    assert Leader.key.id[0] != Second.key.id[0];
    LongSums(Leader, Second, Weight(k));
    TwiceNegative(first);
    assert second == first + 1.0;
    assert Weight(k)(0) == Finite(1.0 / first) && Weight(k)(1) == Finite(1.0 / second);
  }

  lemma NegativeReciprocal(a: real)
    requires a < 0.0
    ensures 1.0 / a < 0.0
  {
  }

  lemma PositiveReciprocal(a: real)
    requires a > 0.0
    ensures 1.0 / a > 0.0
  {
  }

  lemma NegativeFalls(a: real, b: real)
    requires b < a < 0.0
    ensures 1.0 / a < 1.0 / b
  {
    ReciprocalFalls(-a, -b);
    assert 1.0 / -a == -(1.0 / a) && 1.0 / -b == -(1.0 / b);
  }

  lemma TwiceNegative(a: real)
    requires a < -2.0
    ensures 1.0 / a + 1.0 / a < 1.0 / (a + 1.0)
  {
    var half := a / 2.0;
    NegativeFalls(half, a + 1.0);
    assert a == 2.0 * half;
    assert 1.0 / a + 1.0 / a == 1.0 / half;
  }

  lemma BothOccur(k: real)
    ensures Occurs(Overtaking(k), Leader.key) && Occurs(Overtaking(k), Second.key)
  {
    var candidates := Overtaking(k)[0].candidates;
    assert candidates[0] == Leader && candidates[|candidates| - 1] == Second;
    assert In(Leader.key, candidates) && In(Second.key, candidates);
  }

  lemma NegativeConstantOvertakes(k: real, idBefore: (string, string) -> bool) returns (fused: seq<Entry>, i: nat, j: nat)
    requires k < -1.0 && TotalOrder(idBefore)
    ensures Overtaken(fused, Overtaking(k), k, idBefore, i, j)
  {
    var hits := Hits(Overtaking(k), Weight(k));
    CollectedCollects(hits);
    SortedCollects(idBefore, Collected(hits), hits);
    fused := Sort(EntryOrder(idBefore), Collected(hits));
    BothOccur(k);
    if k >= -3.0 { ShortScore(k); } else { LongScore(k); }
    i, j := PlacedByScore(fused, Overtaking(k), Weight(k), idBefore, Leader.key, Second.key);
    OvertakingIsAhead(k);
  }

  lemma PlacedByScore(fused: seq<Entry>, channels: seq<Channel>, weight: nat -> Amount, idBefore: (string, string) -> bool, a: Key, b: Key)
      returns (i: nat, j: nat)
    requires Collects(fused, Hits(channels, weight)) && Sorted(EntryOrder(idBefore), fused)
    requires Occurs(channels, a) && Occurs(channels, b) && Exceeds(Score(channels, b, weight), Score(channels, a, weight))
    ensures i < |fused| && j < |fused| && fused[i].candidate.key == a && fused[j].candidate.key == b && i >= j
  {
    FusedIsTheUnion(fused, channels, weight);
    assert Lists(fused, a) && Lists(fused, b);
    i :| i < |fused| && fused[i].candidate.key == a;
    j :| j < |fused| && fused[j].candidate.key == b;
    assert fused[i].score == Score(channels, a, weight) && fused[j].score == Score(channels, b, weight);
    if i < j { NoBetterBehind(idBefore, fused[i], fused[j]); }
  }

  /** Main result: a candidate ahead of another in every channel the other appears in precedes it,
      in all fused lists, if and only if the constant is at least -1. */
  lemma DominanceExactly(k: real, idBefore: (string, string) -> bool)
    requires TotalOrder(idBefore)
    ensures (forall fused, channels, i, j :: !Overtaken(fused, channels, k, idBefore, i, j)) <==> k >= -1.0
  {
    if k >= -1.0 {
      forall fused, channels, i: nat, j: nat ensures !Overtaken(fused, channels, k, idBefore, i, j) {
        if Overtaken(fused, channels, k, idBefore, i, j) { Dominance(fused, channels, k, idBefore, i, j); }
      }
    } else {
      var fused, i, j := NegativeConstantOvertakes(k, idBefore);
    }
  }
}
