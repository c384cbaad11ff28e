/**
 * Memory search: one truncated nearest-neighbour query per embedding model, over items and
 * over summaries, merged and re-scored. How far the result is from exact ranking.
 *
 * Floats are reals. Of the clock, exp and log only the ranges are used: `decay` is the value
 * of the 30-day exponential, `logAccess` that of log(access_count + 1).
 */
module Search {
  import opened Ranking

  datatype MemoryType = Episodic | Semantic | Procedural

  /** A row as one search sees it; `similarity` is to the query embedded with the row's model. */
  datatype Row = Row(
    id: nat, tenant: nat, model: nat, memoryType: MemoryType, compressed: bool,
    similarity: real, decay: real, logAccess: real)

  datatype Request = Request(tenant: nat, memoryTypes: set<MemoryType>, topK: int)

  /** Ages and access counts are not negative. */
  predicate Plausible(r: Row) {
    0.0 <= r.decay <= 1.0 && 0.0 <= r.logAccess
  }

  /** Summaries carry episodic decay and an access count of 0. */
  predicate PlausibleSummary(r: Row) {
    Plausible(r) && r.memoryType.Episodic? && r.logAccess == 0.0
  }

  // ---- Scoring

  const FREQ_CAP := 2.0

  /** Semantic and procedural memories have an infinite half-life. */
  function Recency(r: Row): real {
    if r.memoryType.Episodic? then r.decay else 1.0
  }

  function Frequency(r: Row): real {
    if r.logAccess < FREQ_CAP then r.logAccess else FREQ_CAP
  }

  function Score(r: Row): real {
    r.similarity * 0.6 + Recency(r) * 0.3 + Frequency(r) * 0.1
  }

  function Scored(rows: seq<Row>): seq<Keyed<Row>> {
    seq(|rows|, i requires 0 <= i < |rows| => Keyed(Score(rows[i]), rows[i]))
  }

  /** s[:k], counting from the end when k is negative. */
  function Slice<T>(s: seq<T>, k: int): seq<T> {
    if k >= |s| then s else if k >= 0 then s[..k] else if -k >= |s| then [] else s[..|s| + k]
  }

  function Reranked(rows: seq<Row>, topK: int): seq<Keyed<Row>> {
    Slice(SortDesc(Scored(rows)), topK)
  }

  lemma RerankedLength(rows: seq<Row>, k: nat)
    ensures |Reranked(rows, k)| == if k < |rows| then k else |rows|
  {
    SortFacts(Scored(rows));
  }

  method Rerank(candidates: seq<Row>, topK: int) returns (ranked: seq<Keyed<Row>>)
    ensures ranked == Reranked(candidates, topK)
  {
    var scored: seq<Keyed<Row>> := [];
    for i := 0 to |candidates|
      invariant scored == Scored(candidates[..i])
    {
      var c := candidates[i];
      var frequency := if c.logAccess < FREQ_CAP then c.logAccess else FREQ_CAP;
      var recency := if c.memoryType.Episodic? then c.decay else 1.0;
      scored := scored + [Keyed(c.similarity * 0.6 + recency * 0.3 + frequency * 0.1, c)];
    }
    assert candidates[..|candidates|] == candidates;
    ranked := Slice(SortDesc(scored), topK);
  }

  // ---- The queries

  const AllTypes := {Episodic, Semantic, Procedural}

  function TypeFilter(q: Request): set<MemoryType> {
    if q.memoryTypes == {} then AllTypes else q.memoryTypes
  }

  function Where(p: Row -> bool, rows: seq<Row>): seq<Row> {
    if rows == [] then [] else (if p(rows[0]) then [rows[0]] else []) + Where(p, rows[1..])
  }

  /** The active items of the tenant, of the wanted types. */
  function WantedItem(q: Request): Row -> bool {
    (r: Row) => r.tenant == q.tenant && !r.compressed && r.memoryType in TypeFilter(q)
  }

  function WantedSummary(q: Request): Row -> bool {
    (r: Row) => r.tenant == q.tenant
  }

  function InModel(p: Row -> bool, model: nat): Row -> bool {
    (r: Row) => p(r) && r.model == model
  }

  /** The rows of each model's vector space: only same-model vectors are compared. */
  function OfModel(p: Row -> bool, rows: seq<Row>): nat -> seq<Row> {
    (model: nat) => Where(InModel(p, model), rows)
  }

  function ItemPool(items: seq<Row>, q: Request, model: nat): seq<Row> {
    OfModel(WantedItem(q), items)(model)
  }

  function SummaryPool(summaries: seq<Row>, q: Request, model: nat): seq<Row> {
    OfModel(WantedSummary(q), summaries)(model)
  }

  function BySimilarity(rows: seq<Row>): seq<Keyed<Row>> {
    seq(|rows|, i requires 0 <= i < |rows| => Keyed(rows[i].similarity, rows[i]))
  }

  function Values(s: seq<Keyed<Row>>): seq<Row> {
    seq(|s|, i requires 0 <= i < |s| => s[i].value)
  }

  /** ORDER BY distance LIMIT lim. */
  function Nearest(pool: seq<Row>, lim: nat): seq<Row> {
    Values(Slice(SortDesc(BySimilarity(pool)), lim))
  }

  /** The rows that query leaves behind. */
  function CutOff(pool: seq<Row>, lim: nat): seq<Row> {
    if lim >= |pool| then [] else Values(SortDesc(BySimilarity(pool))[Min(lim, |SortDesc(BySimilarity(pool))|)..])
  }

  function Min(a: nat, b: nat): nat {
    if a < b then a else b
  }

  /** SELECT DISTINCT embedding_model. */
  function Models(rows: seq<Row>): seq<nat> {
    if rows == [] then []
    else
      var rest := Models(rows[..|rows| - 1]);
      var model := rows[|rows| - 1].model;
      if model in rest then rest else rest + [model]
  }

  function Active(q: Request): Row -> bool {
    (r: Row) => r.tenant == q.tenant && !r.compressed
  }

  function ActiveItems(items: seq<Row>, q: Request): seq<Row> {
    Where(Active(q), items)
  }

  function OwnSummaries(summaries: seq<Row>, q: Request): seq<Row> {
    Where(WantedSummary(q), summaries)
  }

  /** What the per-model queries return together, and what they leave behind together. */
  function Fetched(pool: nat -> seq<Row>, models: seq<nat>, lim: nat): seq<Row> {
    if models == [] then []
    else Fetched(pool, models[..|models| - 1], lim) + Nearest(pool(models[|models| - 1]), lim)
  }

  function Left(pool: nat -> seq<Row>, models: seq<nat>, lim: nat): seq<Row> {
    if models == [] then []
    else Left(pool, models[..|models| - 1], lim) + CutOff(pool(models[|models| - 1]), lim)
  }

  function Matching(pool: nat -> seq<Row>, models: seq<nat>): seq<Row> {
    if models == [] then []
    else Matching(pool, models[..|models| - 1]) + pool(models[|models| - 1])
  }

  /** The two tables. */
  datatype Memory = Memory(items: seq<Row>, summaries: seq<Row>)

  function Items(m: Memory, q: Request): nat -> seq<Row> {
    OfModel(WantedItem(q), m.items)
  }

  function Summaries(m: Memory, q: Request): nat -> seq<Row> {
    OfModel(WantedSummary(q), m.summaries)
  }

  function ItemModels(m: Memory, q: Request): seq<nat> {
    Models(ActiveItems(m.items, q))
  }

  function SummaryModels(m: Memory, q: Request): seq<nat> {
    Models(OwnSummaries(m.summaries, q))
  }

  function Candidates(m: Memory, q: Request, limit: nat): seq<Row> {
    Fetched(Items(m, q), ItemModels(m, q), limit) + Fetched(Summaries(m, q), SummaryModels(m, q), limit / 2)
  }

  /** The matching rows the queries leave behind. */
  function LeftItems(m: Memory, q: Request, limit: nat): seq<Row> {
    Left(Items(m, q), ItemModels(m, q), limit)
  }

  function LeftSummaries(m: Memory, q: Request, limit: nat): seq<Row> {
    Left(Summaries(m, q), SummaryModels(m, q), limit / 2)
  }

  function Found(m: Memory, q: Request, limit: nat): seq<Keyed<Row>> {
    Reranked(Candidates(m, q, limit), q.topK)
  }

  lemma FetchedStep(pool: nat -> seq<Row>, models: seq<nat>, i: nat, lim: nat)
    requires i < |models|
    ensures Fetched(pool, models[..i + 1], lim) == Fetched(pool, models[..i], lim) + Nearest(pool(models[i]), lim)
  {
    assert models[..i + 1][..i] == models[..i];
  }

  method FetchItems(m: Memory, q: Request, limit: nat) returns (candidates: seq<Row>)
    ensures candidates == Fetched(Items(m, q), ItemModels(m, q), limit)
  {
    candidates := [];
    var models := ItemModels(m, q);
    for i := 0 to |models|
      invariant candidates == Fetched(Items(m, q), models[..i], limit)
    {
      FetchedStep(Items(m, q), models, i, limit);
      candidates := candidates + Nearest(ItemPool(m.items, q, models[i]), limit);
    }
    assert models[..|models|] == models;
  }

  method FetchSummaries(m: Memory, q: Request, limit: nat) returns (candidates: seq<Row>)
    ensures candidates == Fetched(Summaries(m, q), SummaryModels(m, q), limit / 2)
  {
    candidates := [];
    var models := SummaryModels(m, q);
    for i := 0 to |models|
      invariant candidates == Fetched(Summaries(m, q), models[..i], limit / 2)
    {
      FetchedStep(Summaries(m, q), models, i, limit / 2);
      candidates := candidates + Nearest(SummaryPool(m.summaries, q, models[i]), limit / 2);
    }
    assert models[..|models|] == models;
  }

  /** The search itself: items first, then summaries, then one ranking of all candidates. */
  method Run(m: Memory, q: Request, limit: nat) returns (found: seq<Keyed<Row>>)
    ensures found == Found(m, q, limit)
  {
    var items := FetchItems(m, q, limit);
    var summaries := FetchSummaries(m, q, limit);
    found := RankCandidates(items + summaries, q.topK);
  }

  method RankCandidates(candidates: seq<Row>, topK: int) returns (found: seq<Keyed<Row>>)
    ensures found == Reranked(candidates, topK)
  {
    if candidates == [] {
      assert Scored(candidates) == [];
      found := [];
    } else {
      found := Rerank(candidates, topK);
    }
  }

  // ---- How good a truncated pool is

  lemma {:induction false} CountScored(rows: seq<Row>, v: real)
    requires forall r :: r in rows ==> Score(r) >= v
    ensures CountAtLeast(Scored(rows), v) == |rows|
  {
    AllAtLeast(Scored(rows), v);
  }

  lemma ScoredConcat(a: seq<Row>, b: seq<Row>)
    ensures Scored(a + b) == Scored(a) + Scored(b)
  {
  }

  /** If the candidates hold k rows of score v or more, every one of the top k has it too. */
  lemma TopKIsCounted(candidates: seq<Row>, k: nat, v: real, i: nat)
    requires k <= CountAtLeast(Scored(candidates), v)
    requires i < |Reranked(candidates, k)|
    ensures Reranked(candidates, k)[i].key >= v
  {
    var sorted := SortDesc(Scored(candidates));
    SortFacts(Scored(candidates));
    SortCount(Scored(candidates), v);
    PrefixIsCounted(sorted, v, i);
  }

  /** A row the LIMIT cut off is at most as similar as every row it let through. */
  lemma CutOffIsFarther(pool: seq<Row>, lim: nat, x: Row, y: Row)
    requires x in CutOff(pool, lim) && y in Nearest(pool, lim)
    ensures x.similarity <= y.similarity
  {
    var sorted := SortDesc(BySimilarity(pool));
    SortFacts(BySimilarity(pool));
    SortedByOwnKey(pool);
    var i :| 0 <= i < |CutOff(pool, lim)| && CutOff(pool, lim)[i] == x;
    var j :| 0 <= j < |Nearest(pool, lim)| && Nearest(pool, lim)[j] == y;
    assert x == sorted[lim + i].value && y == sorted[j].value;
    assert sorted[j].key >= sorted[lim + i].key;
  }

  lemma SortedByOwnKey(pool: seq<Row>)
    ensures forall e :: e in SortDesc(BySimilarity(pool)) ==> e.key == e.value.similarity && e.value in pool
  {
    SortFacts(BySimilarity(pool));
    forall e | e in SortDesc(BySimilarity(pool)) ensures e.key == e.value.similarity && e.value in pool {
      assert e in multiset(SortDesc(BySimilarity(pool)));
      assert e in BySimilarity(pool);
    }
  }

  lemma NearestIsFull(pool: seq<Row>, lim: nat)
    requires CutOff(pool, lim) != []
    ensures |Nearest(pool, lim)| == lim
    ensures forall y :: y in Nearest(pool, lim) ==> y in pool
    ensures forall x :: x in CutOff(pool, lim) ==> x in pool
  {
    SortFacts(BySimilarity(pool));
    SortedByOwnKey(pool);
  }

  /** The rows of one model's query are among the candidates, so their count carries over. */
  lemma {:induction false} FetchedCounts(pool: nat -> seq<Row>, models: seq<nat>, lim: nat, model: nat, v: real)
    requires model in models
    ensures CountAtLeast(Scored(Fetched(pool, models, lim)), v) >= CountAtLeast(Scored(Nearest(pool(model), lim)), v)
  {
    var front, last := models[..|models| - 1], models[|models| - 1];
    ScoredConcat(Fetched(pool, front, lim), Nearest(pool(last), lim));
    CountConcat(Scored(Fetched(pool, front, lim)), Scored(Nearest(pool(last), lim)), v);
    if model != last {
      FetchedCounts(pool, front, lim, model, v);
    }
  }

  lemma CandidateCounts(m: Memory, q: Request, limit: nat, v: real)
    ensures CountAtLeast(Scored(Candidates(m, q, limit)), v) ==
            CountAtLeast(Scored(Fetched(Items(m, q), ItemModels(m, q), limit)), v)
            + CountAtLeast(Scored(Fetched(Summaries(m, q), SummaryModels(m, q), limit / 2)), v)
  {
    var a := Fetched(Items(m, q), ItemModels(m, q), limit);
    var b := Fetched(Summaries(m, q), SummaryModels(m, q), limit / 2);
    ScoredConcat(a, b);
    CountConcat(Scored(a), Scored(b), v);
  }

  /** lo and hi bound what recency and frequency add to a score. */
  predicate BonusAtLeast(r: Row, lo: real) {
    Recency(r) * 0.3 + Frequency(r) * 0.1 >= lo
  }

  predicate BonusAtMost(r: Row, hi: real) {
    Recency(r) * 0.3 + Frequency(r) * 0.1 <= hi
  }

  /** k rows let through by the query that cut x off score at least x's similarity part plus lo. */
  lemma FullPoolCounts(pool: seq<Row>, lim: nat, x: Row, lo: real)
    requires x in CutOff(pool, lim)
    requires forall y :: y in pool ==> BonusAtLeast(y, lo)
    ensures CountAtLeast(Scored(Nearest(pool, lim)), x.similarity * 0.6 + lo) == lim
  {
    NearestIsFull(pool, lim);
    forall y | y in Nearest(pool, lim) ensures Score(y) >= x.similarity * 0.6 + lo {
      CutOffIsFarther(pool, lim, x, y);
    }
    CountScored(Nearest(pool, lim), x.similarity * 0.6 + lo);
  }

  /** The candidates score at least what one query let through, count by count. */
  ghost predicate Represents(candidates: seq<Row>, pool: seq<Row>, lim: nat) {
    forall v: real :: CountAtLeast(Scored(candidates), v) >= CountAtLeast(Scored(Nearest(pool, lim)), v)
  }

  /**
   * The general bound: a row cut off by its query beats no returned row by more than the
   * difference between what it and its competitors can gain from recency and frequency.
   */
  lemma OverFetchGap(candidates: seq<Row>, topK: nat, pool: seq<Row>, lim: nat, x: Row, lo: real, hi: real, i: nat)
    requires x in CutOff(pool, lim) && topK <= lim
    requires forall y :: y in pool ==> BonusAtLeast(y, lo)
    requires BonusAtMost(x, hi)
    requires Represents(candidates, pool, lim)
    requires i < |Reranked(candidates, topK)|
    ensures Score(x) <= Reranked(candidates, topK)[i].key + (hi - lo)
  {
    FullPoolCounts(pool, lim, x, lo);
    TopKIsCounted(candidates, topK, x.similarity * 0.6 + lo, i);
  }

  lemma ItemPoolCounts(m: Memory, q: Request, limit: nat, model: nat)
    requires model in ItemModels(m, q)
    ensures Represents(Candidates(m, q, limit), ItemPool(m.items, q, model), limit)
  {
    forall v: real ensures CountAtLeast(Scored(Candidates(m, q, limit)), v)
                           >= CountAtLeast(Scored(Nearest(ItemPool(m.items, q, model), limit)), v)
    {
      CandidateCounts(m, q, limit, v);
      FetchedCounts(Items(m, q), ItemModels(m, q), limit, model, v);
    }
  }

  lemma SummaryPoolCounts(m: Memory, q: Request, limit: nat, model: nat)
    requires model in SummaryModels(m, q)
    ensures Represents(Candidates(m, q, limit), SummaryPool(m.summaries, q, model), limit / 2)
  {
    forall v: real ensures CountAtLeast(Scored(Candidates(m, q, limit)), v)
                           >= CountAtLeast(Scored(Nearest(SummaryPool(m.summaries, q, model), limit / 2)), v)
    {
      CandidateCounts(m, q, limit, v);
      FetchedCounts(Summaries(m, q), SummaryModels(m, q), limit / 2, model, v);
    }
  }

  lemma WhereFacts(p: Row -> bool, rows: seq<Row>)
    ensures forall r :: r in Where(p, rows) <==> r in rows && p(r)
  {
  }

  /** A pool holds rows of its table that the query asked for, and so does what it cuts off. */
  lemma PoolFacts(p: Row -> bool, rows: seq<Row>, model: nat, lim: nat)
    ensures forall r :: r in OfModel(p, rows)(model) ==> r in rows && p(r)
    ensures forall r :: r in CutOff(OfModel(p, rows)(model), lim) ==> r in rows && p(r)
  {
    var pool := OfModel(p, rows)(model);
    WhereFacts(InModel(p, model), rows);
    if CutOff(pool, lim) != [] {
      NearestIsFull(pool, lim);
    }
  }

  lemma {:induction false} LeftByItsQuery(pool: nat -> seq<Row>, models: seq<nat>, lim: nat, x: Row)
    returns (model: nat)
    requires x in Left(pool, models, lim)
    ensures model in models && x in CutOff(pool(model), lim)
  {
    var front, last := models[..|models| - 1], models[|models| - 1];
    if x in CutOff(pool(last), lim) {
      model := last;
    } else {
      model := LeftByItsQuery(pool, front, lim, x);
    }
  }

  /** What recency and frequency can add to a score. */
  lemma BonusRange(r: Row)
    requires Plausible(r)
    ensures BonusAtLeast(r, if r.memoryType.Episodic? then 0.0 else 0.3) && BonusAtMost(r, 0.5)
    ensures PlausibleSummary(r) ==> BonusAtMost(r, 0.3)
  {
  }

  /** The bound for items whose competitors all gain at least `lo`. */
  lemma ItemGapAbove(m: Memory, q: Request, limit: nat, model: nat, x: Row, lo: real, i: nat)
    requires model in ItemModels(m, q) && x in CutOff(ItemPool(m.items, q, model), limit)
    requires forall y :: y in ItemPool(m.items, q, model) ==> BonusAtLeast(y, lo)
    requires BonusAtMost(x, 0.5)
    requires 0 <= q.topK <= limit && i < |Found(m, q, limit)|
    ensures Score(x) <= Found(m, q, limit)[i].key + (0.5 - lo)
  {
    ItemPoolCounts(m, q, limit, model);
    OverFetchGap(Candidates(m, q, limit), q.topK, ItemPool(m.items, q, model), limit, x, lo, 0.5, i);
  }

  /** No wanted item is episodic: none exists, or none was asked for. */
  ghost predicate Timeless(m: Memory, q: Request) {
    forall r :: r in m.items && WantedItem(q)(r) ==> !r.memoryType.Episodic?
  }

  lemma ItemBonuses(m: Memory, q: Request, limit: nat, model: nat)
    requires forall r :: r in m.items ==> Plausible(r)
    ensures forall y :: y in ItemPool(m.items, q, model) ==> BonusAtLeast(y, if Timeless(m, q) then 0.3 else 0.0)
    ensures forall x :: x in CutOff(ItemPool(m.items, q, model), limit) ==> BonusAtMost(x, 0.5)
  {
    PoolFacts(WantedItem(q), m.items, model, limit);
    forall r | r in m.items && WantedItem(q)(r)
      ensures BonusAtLeast(r, if Timeless(m, q) then 0.3 else 0.0) && BonusAtMost(r, 0.5)
    {
      BonusRange(r);
    }
  }

  /** An item cut off before reranking scores at most 0.5 above every returned result. */
  lemma ItemGap(m: Memory, q: Request, limit: nat, x: Row, i: nat)
    requires forall r :: r in m.items ==> Plausible(r)
    requires x in LeftItems(m, q, limit)
    requires 0 <= q.topK <= limit && i < |Found(m, q, limit)|
    ensures Score(x) <= Found(m, q, limit)[i].key + 0.5
  {
    var model := LeftByItsQuery(Items(m, q), ItemModels(m, q), limit, x);
    ItemBonuses(m, q, limit, model);
    assert forall y :: y in ItemPool(m.items, q, model) ==> BonusAtLeast(y, 0.0);
    ItemGapAbove(m, q, limit, model, x, 0.0, i);
  }

  /** At most 0.2 when only semantic and procedural items are there to be found. */
  lemma TimelessItemGap(m: Memory, q: Request, limit: nat, x: Row, i: nat)
    requires forall r :: r in m.items ==> Plausible(r)
    requires Timeless(m, q)
    requires x in LeftItems(m, q, limit)
    requires 0 <= q.topK <= limit && i < |Found(m, q, limit)|
    ensures Score(x) <= Found(m, q, limit)[i].key + 0.2
  {
    var model := LeftByItsQuery(Items(m, q), ItemModels(m, q), limit, x);
    ItemBonuses(m, q, limit, model);
    ItemGapAbove(m, q, limit, model, x, 0.3, i);
  }

  /** At most 0.3 for a summary, if even half the limit covers the results. */
  lemma SummaryGap(m: Memory, q: Request, limit: nat, x: Row, i: nat)
    requires forall r :: r in m.summaries ==> PlausibleSummary(r)
    requires x in LeftSummaries(m, q, limit)
    requires 0 <= q.topK <= limit / 2 && i < |Found(m, q, limit)|
    ensures Score(x) <= Found(m, q, limit)[i].key + 0.3
  {
    var model := LeftByItsQuery(Summaries(m, q), SummaryModels(m, q), limit / 2, x);
    var pool := SummaryPool(m.summaries, q, model);
    PoolFacts(WantedSummary(q), m.summaries, model, limit / 2);
    forall y | y in pool ensures BonusAtLeast(y, 0.0) {
      BonusRange(y);
    }
    BonusRange(x);
    SummaryPoolCounts(m, q, limit, model);
    OverFetchGap(Candidates(m, q, limit), q.topK, pool, limit / 2, x, 0.0, 0.3, i);
  }
}
