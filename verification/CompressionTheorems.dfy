/** Compression over whole histories: a partition of the compressed items, and its draining. */
module CompressionTheorems {
  import opened Options
  import opened Ranking
  import opened Compression

  // ---- Any serial mix of inserts, deletes and compressions

  /** `used`: every id ever handed out. */
  datatype History = History(store: Store, used: set<nat>)

  const Empty := History(Store([], []), {})

  datatype Op =
    | Insert(item: Item)
    | Delete(id: nat)
    | CompressOp(tenant: nat, threshold: real, size: nat)

  predicate Possible(h: History, op: Op) {
    op.Insert? ==> op.item.id !in h.used && !op.item.compressed
  }

  function Without(items: seq<Item>, id: nat): seq<Item> {
    if items == [] then [] else (if items[0].id == id then [] else [items[0]]) + Without(items[1..], id)
  }

  function Perform(h: History, op: Op): History
    requires Possible(h, op)
  {
    match op
    case Insert(item) => History(h.store.(items := h.store.items + [item]), h.used + {item.id})
    case Delete(id) => h.(store := h.store.(items := Without(h.store.items, id)))
    case CompressOp(tenant, threshold, size) => h.(store := Compress(h.store, tenant, threshold, size))
  }

  function PerformAll(ops: seq<Op>): Option<History> {
    if ops == [] then Some(Empty)
    else
      match PerformAll(ops[..|ops| - 1])
      case None => None
      case Some(h) => if Possible(h, ops[|ops| - 1]) then Some(Perform(h, ops[|ops| - 1])) else None
  }

  /** How often an id occurs in the summaries. */
  function Times(summaries: seq<Summary>, id: nat): nat {
    if summaries == [] then 0
    else Times(summaries[..|summaries| - 1], id) + multiset(summaries[|summaries| - 1].originalIds)[id]
  }

  /** A live item is compressed iff exactly one summary, of its own tenant, remembers it. */
  ghost predicate Partition(h: History) {
    var s := h.store;
    && UniqueIds(s.items)
    && (forall i :: i in s.items ==> i.id in h.used)
    && (forall id :: Times(s.summaries, id) > 0 ==> id in h.used)
    && (forall id :: Times(s.summaries, id) <= 1)
    && (forall i :: i in s.items ==> (i.compressed <==> Times(s.summaries, i.id) == 1))
    && (forall i, k :: i in s.items && 0 <= k < |s.summaries| && i.id in s.summaries[k].originalIds ==>
          s.summaries[k].tenant == i.tenant)
    && (forall i :: i in s.items && i.compressed ==> !i.forever)
  }

  lemma {:induction false} WithoutFacts(items: seq<Item>, id: nat)
    ensures forall i :: i in Without(items, id) <==> i in items && i.id != id
    ensures UniqueIds(items) ==> UniqueIds(Without(items, id))
  {
    if items != [] {
      WithoutFacts(items[1..], id);
      assert items == [items[0]] + items[1..];
      if UniqueIds(items) {
        var rest := Without(items[1..], id);
        forall i | i in rest ensures i.id != items[0].id {
          var k :| 0 <= k < |items[1..]| && items[1..][k] == i;
          assert items[k + 1] == i;
        }
      }
    }
  }

  lemma {:induction false} Mentioned(summaries: seq<Summary>, id: nat)
    ensures Times(summaries, id) > 0 <==> exists k :: 0 <= k < |summaries| && id in summaries[k].originalIds
  {
    if summaries != [] {
      var front, last := summaries[..|summaries| - 1], summaries[|summaries| - 1];
      Mentioned(front, id);
      assert id in last.originalIds <==> multiset(last.originalIds)[id] > 0;
      if k :| 0 <= k < |front| && id in front[k].originalIds {
        assert summaries[k] == front[k];
      }
      if k :| 0 <= k < |summaries| && id in summaries[k].originalIds {
        assert k < |front| ==> front[k] == summaries[k];
      }
    }
  }

  lemma CountedIffIn(ids: seq<nat>, id: nat)
    ensures id in ids <==> multiset(ids)[id] > 0
  {
  }

  /** Every item after the update is one from before, marked if its id is in the batch. */
  lemma MarkedOrigin(items: seq<Item>, ids: seq<nat>, i: Item) returns (j: Item)
    requires i in Marked(items, ids)
    ensures j in items && j.id == i.id && i == if i.id in ids then j.(compressed := true) else j
  {
    MarkedFacts(items, ids);
    var k :| 0 <= k < |items| && Marked(items, ids)[k] == i;
    j := items[k];
  }

  lemma TimesGrows(summaries: seq<Summary>, tenant: nat, ids: seq<nat>, id: nat)
    ensures Times(summaries + [Summary(tenant, ids)], id) == Times(summaries, id) + multiset(ids)[id]
  {
    assert (summaries + [Summary(tenant, ids)])[..|summaries|] == summaries;
  }

  /** Batch ids are live, so used, and not in any summary yet. */
  lemma BatchIsNew(h: History, tenant: nat, threshold: real, size: nat, id: nat)
    requires Partition(h) && id in Batch(h.store.items, tenant, threshold, size)
    ensures Times(h.store.summaries, id) == 0 && id in h.used
  {
    BatchFacts(h.store.items, tenant, threshold, size);
    var i :| i in h.store.items && i.id == id;
    assert Eligible(tenant, threshold)(i);
  }

  /** The new summary mentions the batch, each id once, and nothing mentioned before. */
  lemma TimesAfterBatch(h: History, tenant: nat, threshold: real, size: nat, id: nat)
    requires Partition(h)
    ensures var ids := Batch(h.store.items, tenant, threshold, size);
            var times := Times(h.store.summaries + [Summary(tenant, ids)], id);
            && times <= 1 && (times > 0 ==> id in h.used)
            && (times == 1 <==> id in ids || Times(h.store.summaries, id) == 1)
  {
    var ids := Batch(h.store.items, tenant, threshold, size);
    TimesGrows(h.store.summaries, tenant, ids, id);
    CountedIffIn(ids, id);
    BatchIsUnique(h.store.items, tenant, threshold, size, id);
    if id in ids {
      BatchIsNew(h, tenant, threshold, size, id);
    }
  }

  lemma CompressedItemFacts(h: History, tenant: nat, threshold: real, size: nat, i: Item)
    requires Partition(h) && i in Marked(h.store.items, Batch(h.store.items, tenant, threshold, size))
    ensures var ids := Batch(h.store.items, tenant, threshold, size);
            && i.id in h.used
            && (i.compressed <==> i.id in ids || Times(h.store.summaries, i.id) == 1)
            && (i.compressed ==> !i.forever)
            && (i.id in ids ==> i.tenant == tenant)
            && (forall k :: 0 <= k < |h.store.summaries| && i.id in h.store.summaries[k].originalIds ==>
                  h.store.summaries[k].tenant == i.tenant)
  {
    var j := MarkedOrigin(h.store.items, Batch(h.store.items, tenant, threshold, size), i);
    BatchFacts(h.store.items, tenant, threshold, size);
  }

  lemma CompressKeepsPartition(h: History, tenant: nat, threshold: real, size: nat)
    requires Partition(h)
    ensures Partition(Perform(h, CompressOp(tenant, threshold, size)))
  {
    var s := h.store;
    var ids := Batch(s.items, tenant, threshold, size);
    if ids == [] {
      return;
    }
    var s' := Compress(s, tenant, threshold, size);
    MarkedFacts(s.items, ids);
    forall id: nat
      ensures Times(s'.summaries, id) <= 1 && (Times(s'.summaries, id) > 0 ==> id in h.used)
      ensures Times(s'.summaries, id) == 1 <==> id in ids || Times(s.summaries, id) == 1
    {
      TimesAfterBatch(h, tenant, threshold, size, id);
    }
    forall i | i in s'.items
      ensures i.id in h.used && (i.compressed <==> Times(s'.summaries, i.id) == 1) && (i.compressed ==> !i.forever)
    {
      CompressedItemFacts(h, tenant, threshold, size, i);
    }
    forall i, k | i in s'.items && 0 <= k < |s'.summaries| && i.id in s'.summaries[k].originalIds
      ensures s'.summaries[k].tenant == i.tenant
    {
      CompressedItemFacts(h, tenant, threshold, size, i);
    }
  }

  lemma OpKeepsPartition(h: History, op: Op)
    requires Partition(h) && Possible(h, op)
    ensures Partition(Perform(h, op))
  {
    match op
    case Insert(item) => assert Times(h.store.summaries, item.id) == 0; Mentioned(h.store.summaries, item.id);
    case Delete(id) => WithoutFacts(h.store.items, id);
    case CompressOp(tenant, threshold, size) => CompressKeepsPartition(h, tenant, threshold, size);
  }

  /** The partition holds after every history. */
  lemma {:induction false} ReachablePartition(ops: seq<Op>)
    requires PerformAll(ops).Some?
    ensures Partition(PerformAll(ops).value)
  {
    if ops == [] {
      assert forall id :: Times([], id) == 0;
    } else {
      ReachablePartition(ops[..|ops| - 1]);
      OpKeepsPartition(PerformAll(ops[..|ops| - 1]).value, ops[|ops| - 1]);
    }
  }

  lemma {:induction false} TwiceMentioned(summaries: seq<Summary>, id: nat, j: nat, k: nat)
    requires j < k < |summaries| && id in summaries[j].originalIds && id in summaries[k].originalIds
    ensures Times(summaries, id) >= 2
  {
    var front, last := summaries[..|summaries| - 1], summaries[|summaries| - 1];
    if k < |front| {
      TwiceMentioned(front, id, j, k);
    } else {
      assert front[j] == summaries[j];
      Mentioned(front, id);
      assert multiset(last.originalIds)[id] > 0;
    }
  }

  /** In words: summaries are pairwise disjoint, and a compressed item is in exactly one, its tenant's. */
  lemma SummariesPartitionCompressed(ops: seq<Op>, i: Item, j: nat, k: nat)
    requires PerformAll(ops).Some? && i in PerformAll(ops).value.store.items
    ensures var ss := PerformAll(ops).value.store.summaries;
            && (j < k < |ss| ==> forall id :: id in ss[j].originalIds ==> id !in ss[k].originalIds)
            && (i.compressed <==> exists m :: 0 <= m < |ss| && i.id in ss[m].originalIds)
            && (forall m :: 0 <= m < |ss| && i.id in ss[m].originalIds ==> ss[m].tenant == i.tenant)
            && (i.forever ==> !i.compressed)
  {
    ReachablePartition(ops);
    var ss := PerformAll(ops).value.store.summaries;
    Mentioned(ss, i.id);
    if j < k < |ss| {
      forall id | id in ss[j].originalIds ensures id !in ss[k].originalIds {
        if id in ss[k].originalIds {
          TwiceMentioned(ss, id, j, k);
        }
      }
    }
  }

  // ---- Draining

  function Fresh(ids: seq<nat>): Item -> bool {
    (i: Item) => i.id !in ids
  }

  /** Marking a batch takes exactly its items out of the eligible ones. */
  lemma {:induction false} MarkedFilter(items: seq<Item>, ids: seq<nat>, tenant: nat, threshold: real)
    ensures Filter(Eligible(tenant, threshold), ByAge(Marked(items, ids)))
            == Filter(Fresh(ids), Filter(Eligible(tenant, threshold), ByAge(items)))
  {
    if items != [] {
      var p := Eligible(tenant, threshold);
      MarkedFilter(items[1..], ids, tenant, threshold);
      var head := ByAge(items)[0];
      assert ByAge(items)[1..] == ByAge(items[1..]);
      var marked := Marked(items, ids);
      assert marked[1..] == Marked(items[1..], ids);
      assert ByAge(marked) == [Keyed(-marked[0].created, marked[0])] + ByAge(marked[1..]);
      FilterConcat(Fresh(ids), if p(items[0]) then [head] else [], Filter(p, ByAge(items[1..])));
      if p(items[0]) {
        assert Filter(Fresh(ids), [head]) == if items[0].id in ids then [] else [head];
      }
    }
  }

  lemma {:induction false} FilterAll(p: Item -> bool, s: seq<Keyed<Item>>)
    requires forall e :: e in s ==> p(e.value)
    ensures Filter(p, s) == s
  {
    if s != [] {
      FilterAll(p, s[1..]);
    }
  }

  lemma {:induction false} FilterNone(p: Item -> bool, s: seq<Keyed<Item>>)
    requires forall e :: e in s ==> !p(e.value)
    ensures Filter(p, s) == []
  {
    if s != [] {
      FilterNone(p, s[1..]);
    }
  }

  /** Once the batch is marked, the queue is the old one without the batch. */
  lemma MarkedQueue(items: seq<Item>, ids: seq<nat>, tenant: nat, threshold: real)
    ensures Queue(Marked(items, ids), tenant, threshold) == Filter(Fresh(ids), Queue(items, tenant, threshold))
  {
    MarkedFilter(items, ids, tenant, threshold);
    FilterSort(Fresh(ids), Filter(Eligible(tenant, threshold), ByAge(items)));
  }

  lemma FreshPart(s: seq<Keyed<Item>>, size: nat)
    requires forall e :: e in Drop(s, size) ==> Fresh(IdsOf(Take(s, size)))(e.value)
    ensures Filter(Fresh(IdsOf(Take(s, size))), s) == Drop(s, size)
  {
    var taken, rest := Take(s, size), Drop(s, size);
    var ids := IdsOf(taken);
    assert s == taken + rest;
    forall e | e in taken ensures !Fresh(ids)(e.value) {
      var k :| 0 <= k < |taken| && taken[k] == e;
      assert ids[k] == e.value.id;
    }
    FilterConcat(Fresh(ids), taken, rest);
    FilterNone(Fresh(ids), taken);
    FilterAll(Fresh(ids), rest);
  }

  /** One call removes exactly the oldest `size` items from the tenant's queue. */
  lemma CompressDropsTheOldest(s: Store, tenant: nat, threshold: real, size: nat)
    requires UniqueIds(s.items)
    ensures Queue(Compress(s, tenant, threshold, size).items, tenant, threshold)
            == Drop(Queue(s.items, tenant, threshold), size)
    ensures UniqueIds(Compress(s, tenant, threshold, size).items)
  {
    var queue := Queue(s.items, tenant, threshold);
    var ids := Batch(s.items, tenant, threshold, size);
    if ids == [] {
      assert |Take(queue, size)| == 0;
    } else {
      MarkedFacts(s.items, ids);
      MarkedQueue(s.items, ids, tenant, threshold);
      RestIsFresh(s.items, tenant, threshold, size);
      FreshPart(queue, size);
    }
  }

  lemma RestIsFresh(items: seq<Item>, tenant: nat, threshold: real, size: nat)
    requires UniqueIds(items)
    ensures forall e :: e in Drop(Queue(items, tenant, threshold), size) ==>
              Fresh(Batch(items, tenant, threshold, size))(e.value)
  {
    var queue := Queue(items, tenant, threshold);
    var taken, rest := Take(queue, size), Drop(queue, size);
    forall e | e in rest ensures e.value.id !in IdsOf(taken) {
      QueueIsUnique(items, tenant, threshold, e.value.id);
      assert IdsOf(queue) == IdsOf(taken) + IdsOf(rest);
      assert multiset(IdsOf(queue)) == multiset(IdsOf(taken)) + multiset(IdsOf(rest));
      var k :| 0 <= k < |rest| && rest[k] == e;
      assert IdsOf(rest)[k] == e.value.id;
      assert multiset(IdsOf(rest))[e.value.id] > 0;
    }
  }

  /** The batches of repeated calls at a fixed threshold, until a call finds nothing. */
  function Batches(s: Store, tenant: nat, threshold: real, size: nat): seq<seq<nat>>
    requires size > 0 && UniqueIds(s.items)
    decreases |Queue(s.items, tenant, threshold)|
  {
    CompressDropsTheOldest(s, tenant, threshold, size);
    if Queue(s.items, tenant, threshold) == [] then []
    else
      [Batch(s.items, tenant, threshold, size)]
      + Batches(Compress(s, tenant, threshold, size), tenant, threshold, size)
  }

  function Flat(batches: seq<seq<nat>>): seq<nat> {
    if batches == [] then [] else batches[0] + Flat(batches[1..])
  }

  /** One more batch of `size` covers what was left before it. */
  lemma OneMoreBatch(n: nat, k: nat, size: nat)
    requires n > 0 && size > 0
    requires var left := if n > size then n - size else 0; left <= k * size < left + size
    ensures n <= (k + 1) * size < n + size
  {
    assert (k + 1) * size == k * size + size;
    if n <= size && k >= 1 {
      assert k * size == (k - 1) * size + size;
    }
  }

  lemma FlatCons(batch: seq<nat>, later: seq<seq<nat>>)
    ensures Flat([batch] + later) == batch + Flat(later)
  {
    assert ([batch] + later)[1..] == later;
  }

  lemma {:induction false} DrainsInOrder(s: Store, tenant: nat, threshold: real, size: nat)
    requires size > 0 && UniqueIds(s.items)
    ensures Flat(Batches(s, tenant, threshold, size)) == IdsOf(Queue(s.items, tenant, threshold))
    decreases |Queue(s.items, tenant, threshold)|
  {
    var queue := Queue(s.items, tenant, threshold);
    CompressDropsTheOldest(s, tenant, threshold, size);
    if queue != [] {
      var s' := Compress(s, tenant, threshold, size);
      DrainsInOrder(s', tenant, threshold, size);
      var batch := Batch(s.items, tenant, threshold, size);
      FlatCons(batch, Batches(s', tenant, threshold, size));
      assert IdsOf(queue) == batch + IdsOf(Drop(queue, size));
    }
  }

  lemma {:induction false} DrainsInSteps(s: Store, tenant: nat, threshold: real, size: nat)
    requires size > 0 && UniqueIds(s.items)
    ensures forall b :: b in Batches(s, tenant, threshold, size) ==> 0 < |b| <= size
    decreases |Queue(s.items, tenant, threshold)|
  {
    CompressDropsTheOldest(s, tenant, threshold, size);
    if Queue(s.items, tenant, threshold) != [] {
      DrainsInSteps(Compress(s, tenant, threshold, size), tenant, threshold, size);
    }
  }

  lemma {:induction false} DrainsInCeil(s: Store, tenant: nat, threshold: real, size: nat)
    requires size > 0 && UniqueIds(s.items)
    ensures var n := |Queue(s.items, tenant, threshold)|; n <= |Batches(s, tenant, threshold, size)| * size < n + size
    decreases |Queue(s.items, tenant, threshold)|
  {
    var queue := Queue(s.items, tenant, threshold);
    CompressDropsTheOldest(s, tenant, threshold, size);
    if queue != [] {
      var s' := Compress(s, tenant, threshold, size);
      DrainsInCeil(s', tenant, threshold, size);
      OneMoreBatch(|queue|, |Batches(s', tenant, threshold, size)|, size);
    }
  }

  /**
   * With a fixed threshold and no writes, repeated calls compress the queue oldest first and
   * completely, and the number of non-empty calls is ceil(n / size).
   */
  lemma DrainsOldestFirst(s: Store, tenant: nat, threshold: real, size: nat)
    requires size > 0 && UniqueIds(s.items)
    ensures var calls := Batches(s, tenant, threshold, size);
            var n := |Queue(s.items, tenant, threshold)|;
            && Flat(calls) == IdsOf(Queue(s.items, tenant, threshold))
            && n <= |calls| * size < n + size
            && (forall b :: b in calls ==> 0 < |b| <= size)
    ensures forall i, j :: 0 <= i < j < |Queue(s.items, tenant, threshold)| ==>
              Queue(s.items, tenant, threshold)[i].value.created <= Queue(s.items, tenant, threshold)[j].value.created
  {
    DrainsInOrder(s, tenant, threshold, size);
    DrainsInSteps(s, tenant, threshold, size);
    DrainsInCeil(s, tenant, threshold, size);
    QueueIsDue(s.items, tenant, threshold);
  }
}
