/** The truncated search against a reference: every matching row, ranked. */
module SearchExact {
  import opened Ranking
  import opened Search

  /** The reference: all matching rows of both tables, without models or limits, ranked by score. */
  function AllMatching(m: Memory, q: Request): seq<Row> {
    Where(WantedItem(q), m.items) + Where(WantedSummary(q), m.summaries)
  }

  function Exact(m: Memory, q: Request): seq<Keyed<Row>> {
    SortDesc(Scored(AllMatching(m, q)))
  }

  // ---- Counting rows by score

  function CountRows(rows: seq<Row>, v: real): nat {
    CountAtLeast(Scored(rows), v)
  }

  lemma CountRowsConcat(a: seq<Row>, b: seq<Row>, v: real)
    ensures CountRows(a + b, v) == CountRows(a, v) + CountRows(b, v)
  {
    ScoredConcat(a, b);
    CountConcat(Scored(a), Scored(b), v);
  }

  lemma CountFewRows(x: Row, v: real)
    ensures CountRows([x], v) == (if Score(x) >= v then 1 else 0) && CountRows([], v) == 0
  {
    var none: seq<Row> := [];
    assert Scored(none) == [] && CountRows(none, v) == 0;
    var one := Scored([x]);
    assert one[0].key == Score(x) && one[1..] == [];
    assert CountAtLeast(one, v) == (if one[0].key >= v then 1 else 0) + CountAtLeast(one[1..], v);
  }

  lemma {:induction false} InsertCountRows(x: Keyed<Row>, s: seq<Keyed<Row>>, v: real)
    ensures CountRows(Values(Insert(x, s)), v) == CountRows(Values(s), v) + (if Score(x.value) >= v then 1 else 0)
  {
    if s == [] || s[0].key <= x.key {
      assert Values([x] + s) == [x.value] + Values(s);
      CountRowsConcat([x.value], Values(s), v);
      CountFewRows(x.value, v);
    } else {
      InsertCountRows(x, s[1..], v);
      var t := Insert(x, s[1..]);
      assert Values([s[0]] + t) == [s[0].value] + Values(t);
      assert Values(s) == [s[0].value] + Values(s[1..]);
      CountRowsConcat([s[0].value], Values(t), v);
      CountRowsConcat([s[0].value], Values(s[1..]), v);
      CountFewRows(s[0].value, v);
    }
  }

  lemma {:induction false} SortCountRows(s: seq<Keyed<Row>>, v: real)
    ensures CountRows(Values(SortDesc(s)), v) == CountRows(Values(s), v)
  {
    if s != [] {
      SortCountRows(s[1..], v);
      InsertCountRows(s[0], SortDesc(s[1..]), v);
      assert Values(s) == [s[0].value] + Values(s[1..]);
      CountRowsConcat([s[0].value], Values(s[1..]), v);
      CountFewRows(s[0].value, v);
    }
  }

  /** A LIMIT splits a pool into what it lets through and what it cuts off. */
  lemma PoolSplits(pool: seq<Row>, lim: nat, v: real)
    ensures CountRows(Nearest(pool, lim), v) + CountRows(CutOff(pool, lim), v) == CountRows(pool, v)
    ensures |Nearest(pool, lim)| + |CutOff(pool, lim)| == |pool|
  {
    var sorted := SortDesc(BySimilarity(pool));
    SortFacts(BySimilarity(pool));
    SortCountRows(BySimilarity(pool), v);
    assert Values(BySimilarity(pool)) == pool;
    assert Values(sorted) == Nearest(pool, lim) + CutOff(pool, lim);
    CountRowsConcat(Nearest(pool, lim), CutOff(pool, lim), v);
  }

  lemma {:induction false} QueriesSplit(pool: nat -> seq<Row>, models: seq<nat>, lim: nat, v: real)
    ensures CountRows(Fetched(pool, models, lim), v) + CountRows(Left(pool, models, lim), v)
            == CountRows(Matching(pool, models), v)
    ensures |Fetched(pool, models, lim)| + |Left(pool, models, lim)| == |Matching(pool, models)|
  {
    if models != [] {
      var front, last := models[..|models| - 1], models[|models| - 1];
      QueriesSplit(pool, front, lim, v);
      PoolSplits(pool(last), lim, v);
      CountRowsConcat(Fetched(pool, front, lim), Nearest(pool(last), lim), v);
      CountRowsConcat(Left(pool, front, lim), CutOff(pool(last), lim), v);
      CountRowsConcat(Matching(pool, front), pool(last), v);
    }
  }

  // ---- The models partition the rows

  lemma {:induction false} ModelsFacts(rows: seq<Row>)
    ensures forall r :: r in rows ==> r.model in Models(rows)
    ensures forall i, j :: 0 <= i < j < |Models(rows)| ==> Models(rows)[i] != Models(rows)[j]
  {
    if rows != [] {
      ModelsFacts(rows[..|rows| - 1]);
      assert rows == rows[..|rows| - 1] + [rows[|rows| - 1]];
    }
  }

  /** Adding a row in front adds it to the pool of its own model only. */
  lemma {:induction false} MatchingGrows(p: Row -> bool, x: Row, rows: seq<Row>, models: seq<nat>, v: real)
    requires forall i, j :: 0 <= i < j < |models| ==> models[i] != models[j]
    ensures var inc := if p(x) && x.model in models then 1 else 0;
            && CountRows(Matching(OfModel(p, [x] + rows), models), v)
               == CountRows(Matching(OfModel(p, rows), models), v) + (if Score(x) >= v then inc else 0)
            && |Matching(OfModel(p, [x] + rows), models)| == |Matching(OfModel(p, rows), models)| + inc
  {
    if models != [] {
      var front, last := models[..|models| - 1], models[|models| - 1];
      MatchingGrows(p, x, rows, front, v);
      assert ([x] + rows)[1..] == rows;
      var with, without := OfModel(p, [x] + rows)(last), OfModel(p, rows)(last);
      assert with == (if p(x) && x.model == last then [x] else []) + without;
      CountRowsConcat([x], without, v);
      CountFewRows(x, v);
      CountRowsConcat(Matching(OfModel(p, [x] + rows), front), with, v);
      CountRowsConcat(Matching(OfModel(p, rows), front), without, v);
      assert x.model in models <==> x.model in front || x.model == last;
      assert [] + without == without;
    }
  }

  lemma {:induction false} MatchingNothing(p: Row -> bool, models: seq<nat>)
    ensures Matching(OfModel(p, []), models) == []
  {
    if models != [] {
      MatchingNothing(p, models[..|models| - 1]);
    }
  }

  lemma {:induction false} ModelsPartition(p: Row -> bool, rows: seq<Row>, models: seq<nat>, v: real)
    requires forall i, j :: 0 <= i < j < |models| ==> models[i] != models[j]
    requires forall r :: r in rows && p(r) ==> r.model in models
    ensures CountRows(Matching(OfModel(p, rows), models), v) == CountRows(Where(p, rows), v)
    ensures |Matching(OfModel(p, rows), models)| == |Where(p, rows)|
  {
    if rows == [] {
      MatchingNothing(p, models);
    } else {
      ModelsPartition(p, rows[1..], models, v);
      MatchingGrows(p, rows[0], rows[1..], models, v);
      assert rows == [rows[0]] + rows[1..];
      CountRowsConcat(if p(rows[0]) then [rows[0]] else [], Where(p, rows[1..]), v);
      CountFewRows(rows[0], v);
    }
  }

  lemma ItemModelsComplete(m: Memory, q: Request)
    ensures forall r :: r in m.items && WantedItem(q)(r) ==> r.model in ItemModels(m, q)
    ensures forall r :: r in m.summaries && WantedSummary(q)(r) ==> r.model in SummaryModels(m, q)
  {
    ModelsFacts(ActiveItems(m.items, q));
    ModelsFacts(OwnSummaries(m.summaries, q));
    WhereFacts(Active(q), m.items);
    WhereFacts(WantedSummary(q), m.summaries);
  }

  /** Nothing is lost or duplicated: candidates and rows left behind make up all matching rows. */
  lemma CandidatesAndLeft(m: Memory, q: Request, limit: nat, v: real)
    ensures CountRows(Candidates(m, q, limit), v)
            + CountRows(LeftItems(m, q, limit), v) + CountRows(LeftSummaries(m, q, limit), v)
            == CountRows(AllMatching(m, q), v)
    ensures |Candidates(m, q, limit)| + |LeftItems(m, q, limit)| + |LeftSummaries(m, q, limit)| == |AllMatching(m, q)|
  {
    ItemModelsComplete(m, q);
    ModelsFacts(ActiveItems(m.items, q));
    ModelsFacts(OwnSummaries(m.summaries, q));
    ModelsPartition(WantedItem(q), m.items, ItemModels(m, q), v);
    ModelsPartition(WantedSummary(q), m.summaries, SummaryModels(m, q), v);
    QueriesSplit(Items(m, q), ItemModels(m, q), limit, v);
    QueriesSplit(Summaries(m, q), SummaryModels(m, q), limit / 2, v);
    CountRowsConcat(
      Fetched(Items(m, q), ItemModels(m, q), limit), Fetched(Summaries(m, q), SummaryModels(m, q), limit / 2), v);
    CountRowsConcat(Where(WantedItem(q), m.items), Where(WantedSummary(q), m.summaries), v);
  }

  lemma NoneCounted(rows: seq<Row>, v: real)
    requires forall r :: r in rows ==> Score(r) < v
    ensures CountRows(rows, v) == 0
  {
    NoneAtLeast(Scored(rows), v);
  }

  /** Position by position, a count decides which of two rankings is ahead. */
  lemma FoundAt(m: Memory, q: Request, limit: nat, v: real, i: nat)
    requires 0 <= q.topK && i < |Found(m, q, limit)|
    ensures Found(m, q, limit)[i].key >= v <==> i < CountRows(Candidates(m, q, limit), v)
  {
    var scored := Scored(Candidates(m, q, limit));
    SortFacts(scored);
    SortCount(scored, v);
    PrefixIsCounted(SortDesc(scored), v, i);
  }

  lemma ExactAt(m: Memory, q: Request, v: real, i: nat)
    requires i < |Exact(m, q)|
    ensures Exact(m, q)[i].key >= v <==> i < CountRows(AllMatching(m, q), v)
  {
    var scored := Scored(AllMatching(m, q));
    SortFacts(scored);
    SortCount(scored, v);
    PrefixIsCounted(SortDesc(scored), v, i);
  }

  lemma ExactLength(m: Memory, q: Request)
    ensures |Exact(m, q)| == |AllMatching(m, q)|
  {
    SortFacts(Scored(AllMatching(m, q)));
  }

  lemma FoundWithinExact(m: Memory, q: Request, limit: nat)
    requires 0 <= q.topK
    ensures |Found(m, q, limit)| <= |Exact(m, q)|
    ensures LeftItems(m, q, limit) == [] && LeftSummaries(m, q, limit) == [] ==>
              |Found(m, q, limit)| == if q.topK < |Exact(m, q)| then q.topK else |Exact(m, q)|
  {
    CandidatesAndLeft(m, q, limit, 0.0);
    RerankedLength(Candidates(m, q, limit), q.topK);
    ExactLength(m, q);
  }

  lemma LeftScoresBelow(m: Memory, q: Request, limit: nat, i: nat, v: real)
    requires (forall r :: r in m.items ==> Plausible(r)) && (forall r :: r in m.summaries ==> PlausibleSummary(r))
    requires 0 <= q.topK <= limit / 2 && i < |Found(m, q, limit)|
    requires Found(m, q, limit)[i].key + 0.5 < v
    ensures CountRows(LeftItems(m, q, limit), v) == 0 && CountRows(LeftSummaries(m, q, limit), v) == 0
  {
    forall x | x in LeftItems(m, q, limit) ensures Score(x) < v {
      ItemGap(m, q, limit, x, i);
    }
    forall x | x in LeftSummaries(m, q, limit) ensures Score(x) < v {
      SummaryGap(m, q, limit, x, i);
    }
    NoneCounted(LeftItems(m, q, limit), v);
    NoneCounted(LeftSummaries(m, q, limit), v);
  }

  lemma {:induction false} FetchedIsLong(pool: nat -> seq<Row>, models: seq<nat>, lim: nat, model: nat)
    requires model in models
    ensures |Fetched(pool, models, lim)| >= |Nearest(pool(model), lim)|
  {
    var front, last := models[..|models| - 1], models[|models| - 1];
    if model != last {
      FetchedIsLong(pool, front, lim, model);
    }
  }

  /** A query that left something behind let its limit through. */
  lemma LeftMeansFull(pool: nat -> seq<Row>, models: seq<nat>, lim: nat)
    requires Left(pool, models, lim) != []
    ensures |Fetched(pool, models, lim)| >= lim
  {
    var model := LeftByItsQuery(pool, models, lim, Left(pool, models, lim)[0]);
    NearestIsFull(pool(model), lim);
    FetchedIsLong(pool, models, lim, model);
  }

  /** The search returns as many results as exact ranking would. */
  lemma FoundLength(m: Memory, q: Request, limit: nat)
    requires 0 <= q.topK <= limit / 2
    ensures |Found(m, q, limit)| == if q.topK < |Exact(m, q)| then q.topK else |Exact(m, q)|
  {
    CandidatesAndLeft(m, q, limit, 0.0);
    RerankedLength(Candidates(m, q, limit), q.topK);
    ExactLength(m, q);
    if LeftItems(m, q, limit) != [] {
      LeftMeansFull(Items(m, q), ItemModels(m, q), limit);
    }
    if LeftSummaries(m, q, limit) != [] {
      LeftMeansFull(Summaries(m, q), SummaryModels(m, q), limit / 2);
    }
  }

  /**
   * The search returns as many results as exact ranking would, and rank by rank the i-th score
   * returned is at most the i-th best score there is, and at most 0.5 below it.
   */
  lemma NearExact(m: Memory, q: Request, limit: nat, i: nat)
    requires (forall r :: r in m.items ==> Plausible(r)) && (forall r :: r in m.summaries ==> PlausibleSummary(r))
    requires 0 <= q.topK <= limit / 2
    ensures |Found(m, q, limit)| == if q.topK < |Exact(m, q)| then q.topK else |Exact(m, q)|
    ensures i < |Found(m, q, limit)| ==>
              Found(m, q, limit)[i].key <= Exact(m, q)[i].key <= Found(m, q, limit)[i].key + 0.5
  {
    FoundLength(m, q, limit);
    if i < |Found(m, q, limit)| {
      NearExactAt(m, q, limit, i);
    }
  }

  lemma NearExactAt(m: Memory, q: Request, limit: nat, i: nat)
    requires (forall r :: r in m.items ==> Plausible(r)) && (forall r :: r in m.summaries ==> PlausibleSummary(r))
    requires 0 <= q.topK <= limit / 2 && i < |Found(m, q, limit)| && i < |Exact(m, q)|
    ensures Found(m, q, limit)[i].key <= Exact(m, q)[i].key <= Found(m, q, limit)[i].key + 0.5
  {
    var found, exact := Found(m, q, limit)[i].key, Exact(m, q)[i].key;
    FoundAt(m, q, limit, found, i);
    ExactAt(m, q, found, i);
    CandidatesAndLeft(m, q, limit, found);
    if exact > found + 0.5 {
      LeftScoresBelow(m, q, limit, i, exact);
      CandidatesAndLeft(m, q, limit, exact);
      ExactAt(m, q, exact, i);
      FoundAt(m, q, limit, exact, i);
    }
  }

  /** When no query hits its limit, the search is exact. */
  lemma ExactWhenNothingIsCut(m: Memory, q: Request, limit: nat, i: nat)
    requires 0 <= q.topK && LeftItems(m, q, limit) == [] && LeftSummaries(m, q, limit) == []
    ensures |Found(m, q, limit)| == if q.topK < |Exact(m, q)| then q.topK else |Exact(m, q)|
    ensures i < |Found(m, q, limit)| ==> Found(m, q, limit)[i].key == Exact(m, q)[i].key
  {
    FoundWithinExact(m, q, limit);
    if i < |Found(m, q, limit)| {
      var found, exact := Found(m, q, limit)[i].key, Exact(m, q)[i].key;
      FoundAt(m, q, limit, found, i);
      ExactAt(m, q, found, i);
      CandidatesAndLeft(m, q, limit, found);
      FoundAt(m, q, limit, exact, i);
      ExactAt(m, q, exact, i);
      CandidatesAndLeft(m, q, limit, exact);
    }
  }

  lemma {:induction false} FetchedAreMatching(p: Row -> bool, rows: seq<Row>, models: seq<nat>, lim: nat, x: Row)
    requires x in Fetched(OfModel(p, rows), models, lim)
    ensures x in rows && p(x)
  {
    var front, last := models[..|models| - 1], models[|models| - 1];
    var pool := OfModel(p, rows)(last);
    if x in Nearest(pool, lim) {
      SortFacts(BySimilarity(pool));
      SortedByOwnKey(pool);
      WhereFacts(InModel(p, last), rows);
    } else {
      FetchedAreMatching(p, rows, front, lim, x);
    }
  }

  lemma RankedAreCandidates(candidates: seq<Row>, topK: int, e: Keyed<Row>)
    requires e in Reranked(candidates, topK)
    ensures e.key == Score(e.value) && e.value in candidates
  {
    SortFacts(Scored(candidates));
    assert e in multiset(SortDesc(Scored(candidates)));
    assert e in Scored(candidates);
  }

  lemma CandidatesMatch(m: Memory, q: Request, limit: nat, x: Row)
    requires x in Candidates(m, q, limit)
    ensures x in AllMatching(m, q) && x.tenant == q.tenant
  {
    WhereFacts(WantedItem(q), m.items);
    WhereFacts(WantedSummary(q), m.summaries);
    if x in Fetched(Items(m, q), ItemModels(m, q), limit) {
      FetchedAreMatching(WantedItem(q), m.items, ItemModels(m, q), limit, x);
    } else {
      FetchedAreMatching(WantedSummary(q), m.summaries, SummaryModels(m, q), limit / 2, x);
    }
  }

  /** Every result is a row of the tenant the request asked for, under its own score. */
  lemma FoundIsMatching(m: Memory, q: Request, limit: nat, e: Keyed<Row>)
    requires e in Found(m, q, limit)
    ensures e.key == Score(e.value) && e.value in AllMatching(m, q) && e.value.tenant == q.tenant
  {
    RankedAreCandidates(Candidates(m, q, limit), q.topK, e);
    CandidatesMatch(m, q, limit, e.value);
  }

  // ---- The hypotheses are needed, the constants are tight

  const AnyRequest := Request(0, {}, 1)

  lemma OneOfTwo(a: Row, b: Row)
    requires a.similarity >= b.similarity
    ensures Nearest([a, b], 1) == [a] && CutOff([a, b], 1) == [b]
  {
    var ka, kb := Keyed(a.similarity, a), Keyed(b.similarity, b);
    var keyed := BySimilarity([a, b]);
    assert keyed == [ka, kb] && keyed[1..] == [kb] && [kb][1..] == [];
    assert SortDesc([kb]) == Insert(kb, []) == [kb];
    assert SortDesc(keyed) == Insert(ka, [kb]) == [ka, kb];
  }

  lemma EveryTypeIsListed(t: MemoryType)
    ensures t in AllTypes
  {
    match t
    case Episodic =>
    case Semantic =>
    case Procedural =>
  }

  lemma WhereOne(p: Row -> bool, a: Row)
    requires p(a)
    ensures Where(p, [a]) == [a]
  {
    assert [a][1..] == [] && Where(p, [a]) == [a] + Where(p, []);
  }

  lemma WhereTwo(p: Row -> bool, a: Row, b: Row)
    requires p(a) && p(b)
    ensures Where(p, [a, b]) == [a, b]
  {
    WhereOne(p, b);
    assert [a, b][1..] == [b];
  }

  /** What a single query lets through and leaves behind. */
  lemma OneQuery(pool: nat -> seq<Row>, lim: nat)
    ensures Fetched(pool, [0], lim) == Nearest(pool(0), lim)
    ensures Left(pool, [0], lim) == CutOff(pool(0), lim)
  {
    assert [0][..0] == [] && Fetched(pool, [], lim) == [] && Left(pool, [], lim) == [];
  }

  /** The active items a, b of tenant 0 in model 0, and no summaries. */
  lemma TwoItems(a: Row, b: Row)
    requires a.tenant == b.tenant == a.model == b.model == 0 && !a.compressed && !b.compressed
    requires a.similarity >= b.similarity
    ensures var m := Memory([a, b], []);
            && ItemModels(m, AnyRequest) == [0] && ItemPool(m.items, AnyRequest, 0) == [a, b]
            && Candidates(m, AnyRequest, 1) == [a] && LeftItems(m, AnyRequest, 1) == [b]
  {
    var m := Memory([a, b], []);
    WhereTwo(Active(AnyRequest), a, b);
    EveryTypeIsListed(a.memoryType);
    EveryTypeIsListed(b.memoryType);
    assert TypeFilter(AnyRequest) == AllTypes;
    assert WantedItem(AnyRequest)(a) && WantedItem(AnyRequest)(b);
    WhereTwo(InModel(WantedItem(AnyRequest), 0), a, b);
    assert [a, b][..1] == [a] && [a][..0] == [];
    assert Models([]) == [] && Models([a]) == [0] && Models([a, b]) == [0];
    OneOfTwo(a, b);
    OneQuery(Items(m, AnyRequest), 1);
    assert SummaryModels(m, AnyRequest) == [];
  }

  lemma OneRanked(a: Row)
    ensures Reranked([a], 1) == [Keyed(Score(a), a)]
  {
    var keyed := Keyed(Score(a), a);
    assert Scored([a]) == [keyed] && [keyed][1..] == [];
    assert SortDesc([keyed]) == Insert(keyed, []) == [keyed];
  }

  /** No constant below 0.5 will do: an old, unused item shuts out an equally similar fresh one. */
  lemma ItemGapIsTight() returns (m: Memory, x: Row)
    ensures forall r :: r in m.items ==> Plausible(r)
    ensures x in LeftItems(m, AnyRequest, 1)
    ensures |Found(m, AnyRequest, 1)| == 1 && Score(x) == Found(m, AnyRequest, 1)[0].key + 0.5
  {
    var stale := Row(1, 0, 0, Episodic, false, 0.0, 0.0, 0.0);
    x := Row(2, 0, 0, Episodic, false, 0.0, 1.0, 2.0);
    m := Memory([stale, x], []);
    TwoItems(stale, x);
    OneRanked(stale);
  }

  lemma OnlyRow(a: Row)
    ensures Nearest([a], 1) == [a] && Nearest([a], 0) == [] && CutOff([a], 0) == [a]
  {
    var keyed := Keyed(a.similarity, a);
    assert BySimilarity([a]) == [keyed] && [keyed][1..] == [];
    assert SortDesc([keyed]) == Insert(keyed, []) == [keyed];
  }

  /** One active item and one summary of tenant 0 in model 0: a limit of 1 leaves no room for the summary. */
  lemma OneItemOneSummary(a: Row, x: Row)
    requires a.tenant == a.model == x.tenant == x.model == 0 && !a.compressed
    ensures var m := Memory([a], [x]);
            && SummaryModels(m, AnyRequest) == [0] && SummaryPool(m.summaries, AnyRequest, 0) == [x]
            && ItemModels(m, AnyRequest) == [0] && ItemPool(m.items, AnyRequest, 0) == [a]
  {
    var m := Memory([a], [x]);
    EveryTypeIsListed(a.memoryType);
    assert TypeFilter(AnyRequest) == AllTypes;
    assert WantedItem(AnyRequest)(a) && WantedSummary(AnyRequest)(x);
    WhereOne(Active(AnyRequest), a);
    WhereOne(WantedSummary(AnyRequest), x);
    WhereOne(InModel(WantedItem(AnyRequest), 0), a);
    WhereOne(InModel(WantedSummary(AnyRequest), 0), x);
    OneModel(a);
    OneModel(x);
  }

  lemma OneModel(a: Row)
    ensures Models([a]) == [a.model]
  {
    assert [a][..0] == [] && Models([]) == [];
  }

  /** With topK above half the limit a summary can be lost by far more: 1.5 here. */
  lemma SummaryGapNeedsHalfTheLimit() returns (m: Memory, x: Row)
    ensures forall r :: r in m.items ==> Plausible(r)
    ensures forall r :: r in m.summaries ==> PlausibleSummary(r)
    ensures x in LeftSummaries(m, AnyRequest, 1)
    ensures |Found(m, AnyRequest, 1)| == 1 && Score(x) == Found(m, AnyRequest, 1)[0].key + 1.5
  {
    var far := Row(1, 0, 0, Episodic, false, -1.0, 0.0, 0.0);
    x := Row(2, 0, 0, Episodic, false, 1.0, 1.0, 0.0);
    m := Memory([far], [x]);
    OneItemOneSummary(far, x);
    OnlyRow(far);
    OnlyRow(x);
    OneQuery(Items(m, AnyRequest), 1);
    OneQuery(Summaries(m, AnyRequest), 0);
    assert Candidates(m, AnyRequest, 1) == [far];
    OneRanked(far);
  }
}
