/** Exactly which combinations of top_k and candidate limit keep the bounds on what a search can miss. */
module SearchBounds {
  import opened Ranking
  import opened Search
  import opened SearchExact

  /** Whatever is stored: a cut-off item is at most 0.5 better than anything returned. */
  ghost predicate ItemBoundHolds(topK: nat, limit: nat) {
    forall m: Memory, q: Request, x: Row, i: nat ::
      q.topK == topK && (forall r :: r in m.items ==> Plausible(r))
      && x in LeftItems(m, q, limit) && i < |Found(m, q, limit)|
      ==> Score(x) <= Found(m, q, limit)[i].key + 0.5
  }

  /** Whatever is stored: a cut-off summary is at most 0.3 better than anything returned. */
  ghost predicate SummaryBoundHolds(topK: nat, limit: nat) {
    forall m: Memory, q: Request, x: Row, i: nat ::
      q.topK == topK && (forall r :: r in m.summaries ==> PlausibleSummary(r))
      && x in LeftSummaries(m, q, limit) && i < |Found(m, q, limit)|
      ==> Score(x) <= Found(m, q, limit)[i].key + 0.3
  }

  // ---- Uniform pools

  /** n equally similar rows of tenant 0 in model 0. */
  function Near(n: nat): seq<Row> {
    seq(n, k requires 0 <= k < n => Row(k, 0, 0, Episodic, false, 1.0, 1.0, 0.0))
  }

  /** A row of another model that nothing speaks for. */
  const Far := Row(0, 0, 1, Episodic, false, -1.0, 0.0, 0.0)

  lemma NearestOfNear(n: nat, lim: nat)
    requires lim <= n
    ensures Nearest(Near(n), lim) == Near(lim)
    ensures lim < n ==> Near(n)[n - 1] in CutOff(Near(n), lim)
  {
    var keyed := BySimilarity(Near(n));
    SortedStays(keyed);
    assert Values(Slice(keyed, lim)) == Near(lim);
    if lim < n {
      assert CutOff(Near(n), lim)[n - 1 - lim] == Near(n)[n - 1];
    }
  }

  lemma NearestOfOne(a: Row, lim: nat)
    requires lim >= 1
    ensures Nearest([a], lim) == [a]
  {
    SortedStays(BySimilarity([a]));
    assert Values(BySimilarity([a])) == [a];
  }

  lemma {:induction false} WhereAll(p: Row -> bool, rows: seq<Row>)
    requires forall r :: r in rows ==> p(r)
    ensures Where(p, rows) == rows
  {
    if rows != [] {
      WhereAll(p, rows[1..]);
      assert rows == [rows[0]] + rows[1..];
    }
  }

  lemma {:induction false} WhereNone(p: Row -> bool, rows: seq<Row>)
    requires forall r :: r in rows ==> !p(r)
    ensures Where(p, rows) == []
  {
    if rows != [] {
      WhereNone(p, rows[1..]);
    }
  }

  lemma {:induction false} WhereConcat(p: Row -> bool, a: seq<Row>, b: seq<Row>)
    ensures Where(p, a + b) == Where(p, a) + Where(p, b)
  {
    if a == [] {
      assert a + b == b;
    } else {
      WhereConcat(p, a[1..], b);
      assert (a + b)[0] == a[0] && (a + b)[1..] == a[1..] + b;
      ConcatAssociates(if p(a[0]) then [a[0]] else [], Where(p, a[1..]), Where(p, b));
    }
  }

  lemma ConcatAssociates<T>(a: seq<T>, b: seq<T>, c: seq<T>)
    ensures a + b + c == a + (b + c)
  {
  }

  lemma {:induction false} ModelsOfNear(n: nat)
    requires n >= 1
    ensures Models(Near(n)) == [0]
  {
    assert Near(n)[..n - 1] == Near(n - 1);
    if n > 1 {
      ModelsOfNear(n - 1);
    } else {
      assert Models(Near(0)) == [];
    }
  }

  lemma NearIsWanted(q: Request, n: nat)
    requires q == Request(0, {}, q.topK)
    ensures forall r :: r in Near(n) ==> WantedItem(q)(r) && Active(q)(r) && WantedSummary(q)(r) && r.model == 0
    ensures WantedItem(q)(Far) && Active(q)(Far)
  {
    EveryTypeIsListed(Episodic);
  }

  /** Both models' rows are found and queried. */
  lemma TwoQueries(pool: nat -> seq<Row>, lim: nat)
    ensures Fetched(pool, [0, 1], lim) == Nearest(pool(0), lim) + Nearest(pool(1), lim)
    ensures forall x :: x in CutOff(pool(0), lim) ==> x in Left(pool, [0, 1], lim)
  {
    OneQuery(pool, lim);
    assert [0, 1][..1] == [0];
  }

  /** `lim` near rows and the far one as candidates: the far one is ranked last. */
  lemma FarIsLast(candidates: seq<Row>, lim: nat, topK: nat)
    requires candidates == Near(lim) + [Far] || candidates == [Far] + Near(lim)
    requires topK > lim
    ensures |Reranked(candidates, topK)| == lim + 1 && Reranked(candidates, topK)[lim].key < 0.0
  {
    RerankedLength(candidates, topK);
    CountRowsConcat(Near(lim), [Far], 0.0);
    CountRowsConcat([Far], Near(lim), 0.0);
    CountFewRows(Far, 0.0);
    AllAtLeast(Scored(Near(lim)), 0.0);
    var scored := Scored(candidates);
    SortFacts(scored);
    SortCount(scored, 0.0);
    PrefixIsCounted(SortDesc(scored), 0.0, lim);
  }

  // ---- Items

  /** One near item too many in model 0, and the far one in model 1. */
  lemma CrowdedItems(topK: nat, limit: nat) returns (m: Memory, q: Request, x: Row)
    requires 1 <= limit < topK
    ensures q.topK == topK && (forall r :: r in m.items ==> Plausible(r))
    ensures x in LeftItems(m, q, limit) && Score(x) >= 0.6
    ensures Candidates(m, q, limit) == Near(limit) + [Far]
  {
    var near := Near(limit + 1);
    m, q, x := Memory(near + [Far], []), Request(0, {}, topK), near[limit];
    CrowdedQueries(m, q, limit);
    NoSummaries(m, q, limit);
  }

  lemma CrowdedQueries(m: Memory, q: Request, limit: nat)
    requires m == Memory(Near(limit + 1) + [Far], []) && q == Request(0, {}, q.topK) && limit >= 1
    ensures Fetched(Items(m, q), ItemModels(m, q), limit) == Near(limit) + [Far]
    ensures Near(limit + 1)[limit] in LeftItems(m, q, limit)
  {
    CrowdedModels(m, q, limit);
    CrowdedPools(m, q, limit);
    TwoQueries(Items(m, q), limit);
    NearestOfNear(limit + 1, limit);
    NearestOfOne(Far, limit);
  }

  lemma NoSummaries(m: Memory, q: Request, limit: nat)
    requires m.summaries == []
    ensures Fetched(Summaries(m, q), SummaryModels(m, q), limit / 2) == []
  {
    assert SummaryModels(m, q) == [];
  }

  lemma CrowdedModels(m: Memory, q: Request, limit: nat)
    requires m == Memory(Near(limit + 1) + [Far], []) && q == Request(0, {}, q.topK)
    ensures ItemModels(m, q) == [0, 1]
  {
    NearIsWanted(q, limit + 1);
    WhereAll(Active(q), m.items);
    ModelsOfNear(limit + 1);
    assert m.items[..limit + 1] == Near(limit + 1);
  }

  lemma CrowdedPools(m: Memory, q: Request, limit: nat)
    requires m == Memory(Near(limit + 1) + [Far], []) && q == Request(0, {}, q.topK)
    ensures Items(m, q)(0) == Near(limit + 1) && Items(m, q)(1) == [Far]
  {
    NearIsWanted(q, limit + 1);
    WhereConcat(InModel(WantedItem(q), 0), Near(limit + 1), [Far]);
    WhereConcat(InModel(WantedItem(q), 1), Near(limit + 1), [Far]);
    WhereAll(InModel(WantedItem(q), 0), Near(limit + 1));
    WhereNone(InModel(WantedItem(q), 1), Near(limit + 1));
    WhereNone(InModel(WantedItem(q), 0), [Far]);
    WhereAll(InModel(WantedItem(q), 1), [Far]);
  }

  lemma {:induction false} NothingFetched(pool: nat -> seq<Row>, models: seq<nat>)
    ensures Fetched(pool, models, 0) == []
  {
    if models != [] {
      NothingFetched(pool, models[..|models| - 1]);
      assert Nearest(pool(models[|models| - 1]), 0) == [];
    }
  }

  lemma NothingFound(m: Memory, q: Request)
    ensures Found(m, q, 0) == []
  {
    NothingFetched(Items(m, q), ItemModels(m, q));
    NothingFetched(Summaries(m, q), SummaryModels(m, q));
    assert Candidates(m, q, 0) == [] && Scored([]) == [];
  }

  /** The 0.5 for items holds for all stored data iff the limit covers top_k, or nothing is fetched at all. */
  lemma ItemBoundIff(topK: nat, limit: nat)
    ensures ItemBoundHolds(topK, limit) <==> topK <= limit || limit == 0
  {
    if topK <= limit {
      forall m: Memory, q: Request, x: Row, i: nat |
        q.topK == topK && (forall r :: r in m.items ==> Plausible(r))
        && x in LeftItems(m, q, limit) && i < |Found(m, q, limit)|
        ensures Score(x) <= Found(m, q, limit)[i].key + 0.5
      {
        ItemGap(m, q, limit, x, i);
      }
    } else if limit == 0 {
      forall m: Memory, q: Request ensures Found(m, q, 0) == [] {
        NothingFound(m, q);
      }
    } else {
      var m, q, x := CrowdedItems(topK, limit);
      FarIsLast(Candidates(m, q, limit), limit, topK);
      assert Score(x) > Found(m, q, limit)[limit].key + 0.5;
    }
  }

  // ---- Summaries

  /** One near summary too many for half the limit, and the far item. */
  lemma CrowdedSummaries(topK: nat, limit: nat) returns (m: Memory, q: Request, x: Row)
    requires 1 <= limit && limit / 2 < topK
    ensures q.topK == topK && (forall r :: r in m.summaries ==> PlausibleSummary(r))
    ensures x in LeftSummaries(m, q, limit) && Score(x) >= 0.6
    ensures Candidates(m, q, limit) == [Far] + Near(limit / 2)
  {
    var half := limit / 2;
    m, q, x := Memory([Far], Near(half + 1)), Request(0, {}, topK), Near(half + 1)[half];
    NearAlone(m, q, half + 1);
    OneQuery(Summaries(m, q), half);
    NearestOfNear(half + 1, half);
    FarAlone(m, q, limit);
  }

  lemma NearAlone(m: Memory, q: Request, n: nat)
    requires m.summaries == Near(n) && n >= 1 && q == Request(0, {}, q.topK)
    ensures SummaryModels(m, q) == [0] && Summaries(m, q)(0) == Near(n)
  {
    NearIsWanted(q, n);
    WhereAll(WantedSummary(q), m.summaries);
    WhereAll(InModel(WantedSummary(q), 0), m.summaries);
    ModelsOfNear(n);
  }

  lemma FarAlone(m: Memory, q: Request, limit: nat)
    requires m.items == [Far] && q == Request(0, {}, q.topK) && limit >= 1
    ensures Fetched(Items(m, q), ItemModels(m, q), limit) == [Far]
  {
    NearIsWanted(q, 0);
    WhereAll(Active(q), [Far]);
    WhereAll(InModel(WantedItem(q), 1), [Far]);
    OneModel(Far);
    NearestOfOne(Far, limit);
    assert [1][..0] == [] && Fetched(Items(m, q), [], limit) == [];
  }

  /** The 0.3 for summaries holds for all stored data iff half the limit covers top_k, or nothing is fetched at all. */
  lemma SummaryBoundIff(topK: nat, limit: nat)
    ensures SummaryBoundHolds(topK, limit) <==> topK <= limit / 2 || limit == 0
  {
    if topK <= limit / 2 {
      forall m: Memory, q: Request, x: Row, i: nat |
        q.topK == topK && (forall r :: r in m.summaries ==> PlausibleSummary(r))
        && x in LeftSummaries(m, q, limit) && i < |Found(m, q, limit)|
        ensures Score(x) <= Found(m, q, limit)[i].key + 0.3
      {
        SummaryGap(m, q, limit, x, i);
      }
    } else if limit == 0 {
      forall m: Memory, q: Request ensures Found(m, q, 0) == [] {
        NothingFound(m, q);
      }
    } else {
      var m, q, x := CrowdedSummaries(topK, limit);
      FarIsLast(Candidates(m, q, limit), limit / 2, topK);
      assert Score(x) > Found(m, q, limit)[limit / 2].key + 0.3;
    }
  }
}
