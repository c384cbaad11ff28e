/** What a search returns, in terms of the rows' own columns: which rows, under which scores, in which order. */
module SearchFields {
  import opened Ranking
  import opened Search
  import opened SearchExact

  /** An item row the caller may see and asked for: own tenant, not compressed, of a requested type (none means all). */
  predicate IsWantedItem(m: Memory, q: Request, r: Row) {
    && r in m.items && r.tenant == q.tenant && !r.compressed
    && (q.memoryTypes == {} || r.memoryType in q.memoryTypes)
  }

  predicate IsOwnSummary(m: Memory, q: Request, r: Row) {
    r in m.summaries && r.tenant == q.tenant
  }

  lemma WantedInFields(m: Memory, q: Request, r: Row)
    ensures r in m.items && WantedItem(q)(r) <==> IsWantedItem(m, q, r)
    ensures r in m.summaries && WantedSummary(q)(r) <==> IsOwnSummary(m, q, r)
  {
    EveryTypeIsListed(r.memoryType);
  }

  /** The score of a row, from its columns: the access term is the logarithm, capped at 2. */
  predicate HasScore(r: Row, score: real) {
    var rest := score - r.similarity * 0.6 - (if r.memoryType.Episodic? then r.decay else 1.0) * 0.3;
    (r.logAccess <= 2.0 ==> rest == r.logAccess * 0.1) && (r.logAccess >= 2.0 ==> rest == 0.2)
  }

  /** Every result is an item the request asked for or one of the tenant's summaries, under its own score. */
  lemma FoundInFields(m: Memory, q: Request, limit: nat, e: Keyed<Row>)
    requires e in Found(m, q, limit)
    ensures IsWantedItem(m, q, e.value) || IsOwnSummary(m, q, e.value)
    ensures HasScore(e.value, e.key)
  {
    FoundIsMatching(m, q, limit, e);
    WhereFacts(WantedItem(q), m.items);
    WhereFacts(WantedSummary(q), m.summaries);
    WantedInFields(m, q, e.value);
  }

  // ---- No such row is overlooked

  lemma {:induction false} InsertKeepsValues(x: Keyed<Row>, s: seq<Keyed<Row>>)
    ensures multiset(Values(Insert(x, s))) == multiset(Values(s)) + multiset{x.value}
  {
    if s == [] || s[0].key <= x.key {
      assert Values([x] + s) == [x.value] + Values(s);
    } else {
      InsertKeepsValues(x, s[1..]);
      assert Values(Insert(x, s)) == [s[0].value] + Values(Insert(x, s[1..]));
      assert Values(s) == [s[0].value] + Values(s[1..]);
    }
  }

  lemma {:induction false} SortKeepsValues(s: seq<Keyed<Row>>)
    ensures multiset(Values(SortDesc(s))) == multiset(Values(s))
  {
    if s != [] {
      SortKeepsValues(s[1..]);
      InsertKeepsValues(s[0], SortDesc(s[1..]));
      assert Values(s) == [s[0].value] + Values(s[1..]);
    }
  }

  lemma PoolSplitsRows(pool: seq<Row>, lim: nat, x: Row)
    ensures x in pool <==> x in Nearest(pool, lim) || x in CutOff(pool, lim)
  {
    var keyed := BySimilarity(pool);
    SortFacts(keyed);
    SortKeepsValues(keyed);
    var rows := Values(SortDesc(keyed));
    assert Values(keyed) == pool;
    assert x in multiset(rows) <==> x in multiset(pool);
    assert rows == Nearest(pool, lim) + CutOff(pool, lim);
  }

  lemma {:induction false} QueriesSplitRows(pool: nat -> seq<Row>, models: seq<nat>, lim: nat, x: Row)
    ensures x in Fetched(pool, models, lim) || x in Left(pool, models, lim)
            <==> exists model :: model in models && x in pool(model)
  {
    if models != [] {
      var front, last := models[..|models| - 1], models[|models| - 1];
      assert models == front + [last];
      QueriesSplitRows(pool, front, lim, x);
      PoolSplitsRows(pool(last), lim, x);
    }
  }

  /** Every such row, and no other, is a candidate for the ranking or was left behind by its query's limit. */
  lemma CandidateOrLeftIff(m: Memory, q: Request, limit: nat, x: Row)
    ensures x in Fetched(Items(m, q), ItemModels(m, q), limit) || x in LeftItems(m, q, limit)
            <==> IsWantedItem(m, q, x)
    ensures x in Fetched(Summaries(m, q), SummaryModels(m, q), limit / 2) || x in LeftSummaries(m, q, limit)
            <==> IsOwnSummary(m, q, x)
    ensures x in Candidates(m, q, limit) || x in LeftItems(m, q, limit) || x in LeftSummaries(m, q, limit)
            <==> IsWantedItem(m, q, x) || IsOwnSummary(m, q, x)
  {
    ItemModelsComplete(m, q);
    WantedInFields(m, q, x);
    QueriesSplitRows(Items(m, q), ItemModels(m, q), limit, x);
    QueriesSplitRows(Summaries(m, q), SummaryModels(m, q), limit / 2, x);
    forall model ensures x in Items(m, q)(model) <==> x in m.items && WantedItem(q)(x) && x.model == model {
      WhereFacts(InModel(WantedItem(q), model), m.items);
    }
    forall model
      ensures x in Summaries(m, q)(model) <==> x in m.summaries && WantedSummary(q)(x) && x.model == model
    {
      WhereFacts(InModel(WantedSummary(q), model), m.summaries);
    }
  }

  // ---- The ranking

  /** The candidates, best first, of which the first top_k are returned; a negative top_k drops the last ones. */
  lemma FoundIsThePrefix(m: Memory, q: Request, limit: nat) returns (rest: seq<Keyed<Row>>)
    ensures Descending(Found(m, q, limit) + rest)
    ensures |Found(m, q, limit)| + |rest| == |Candidates(m, q, limit)|
    ensures forall x :: multiset(Values(Found(m, q, limit) + rest))[x] == multiset(Candidates(m, q, limit))[x]
    ensures if q.topK >= 0 then
              |Found(m, q, limit)| == q.topK || (|Found(m, q, limit)| < q.topK && rest == [])
            else |rest| == -q.topK || (|rest| < -q.topK && Found(m, q, limit) == [])
  {
    var candidates := Candidates(m, q, limit);
    var sorted := SortDesc(Scored(candidates));
    SortFacts(Scored(candidates));
    rest := sorted[|Found(m, q, limit)|..];
    assert Found(m, q, limit) + rest == sorted;
    assert Values(Scored(candidates)) == candidates;
    SortKeepsValues(Scored(candidates));
  }
}
