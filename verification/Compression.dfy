/**
 * Memory compression: the oldest eligible items of a tenant are replaced, a batch at a time,
 * by one summary that remembers their ids.
 */
module Compression {
  import opened Options
  import opened Ranking

  datatype Item = Item(id: nat, tenant: nat, created: real, forever: bool, compressed: bool)

  datatype Summary = Summary(tenant: nat, originalIds: seq<nat>)

  datatype Store = Store(items: seq<Item>, summaries: seq<Summary>)

  /** The WHERE clause of the batch query. */
  function Eligible(tenant: nat, threshold: real): Item -> bool {
    (i: Item) => i.tenant == tenant && !i.compressed && i.created < threshold && !i.forever
  }

  /** ORDER BY created_at ASC, as a descending key. */
  function ByAge(items: seq<Item>): seq<Keyed<Item>> {
    if items == [] then [] else [Keyed(-items[0].created, items[0])] + ByAge(items[1..])
  }

  /** All eligible items, oldest first. */
  function Queue(items: seq<Item>, tenant: nat, threshold: real): seq<Keyed<Item>> {
    SortDesc(Filter(Eligible(tenant, threshold), ByAge(items)))
  }

  function Take<T>(s: seq<T>, n: nat): seq<T> {
    if n < |s| then s[..n] else s
  }

  function Drop<T>(s: seq<T>, n: nat): seq<T> {
    if n < |s| then s[n..] else []
  }

  function IdsOf(s: seq<Keyed<Item>>): seq<nat> {
    seq(|s|, i requires 0 <= i < |s| => s[i].value.id)
  }

  /** The batch query's ids. */
  function Batch(items: seq<Item>, tenant: nat, threshold: real, size: nat): seq<nat> {
    IdsOf(Take(Queue(items, tenant, threshold), size))
  }

  /** UPDATE ... SET compressed = true WHERE id IN ids. */
  function Marked(items: seq<Item>, ids: seq<nat>): seq<Item> {
    if items == [] then []
    else [if items[0].id in ids then items[0].(compressed := true) else items[0]] + Marked(items[1..], ids)
  }

  function Compress(s: Store, tenant: nat, threshold: real, size: nat): Store {
    var ids := Batch(s.items, tenant, threshold, size);
    if ids == [] then s else Store(Marked(s.items, ids), s.summaries + [Summary(tenant, ids)])
  }

  class Compressor {
    var items: seq<Item>
    var summaries: seq<Summary>

    constructor (items: seq<Item>)
      ensures this.items == items && summaries == []
    {
      this.items := items;
      summaries := [];
    }

    ghost function Contents(): Store
      reads this
    {
      Store(items, summaries)
    }

    /** The number of items compressed; None when summarising raises and the session rolls back. */
    method CompressTenant(tenant: nat, threshold: real, size: nat, summarised: bool) returns (count: Option<nat>)
      modifies this
      ensures var ids := Batch(old(items), tenant, threshold, size);
              if ids == [] || summarised
              then count == Some(|ids|) && Contents() == Compress(old(Contents()), tenant, threshold, size)
              else count == None && Contents() == old(Contents())
      ensures UniqueIds(old(items)) ==>
                && |items| == |old(items)|
                && forall k :: 0 <= k < |items| ==> KeptOrDue(old(items)[k], items[k], tenant, threshold)
    {
      if UniqueIds(items) {
        forall k | 0 <= k < |items|
          ensures |Compress(Contents(), tenant, threshold, size).items| == |items|
          ensures KeptOrDue(items[k], Compress(Contents(), tenant, threshold, size).items[k], tenant, threshold)
        {
          CompressedAreDue(Contents(), tenant, threshold, size, k);
        }
      }
      var ids := Batch(items, tenant, threshold, size);
      if ids == [] {
        return Some(0);
      }
      if !summarised {
        return None;
      }
      summaries := summaries + [Summary(tenant, ids)];
      Mark(ids);
      count := Some(|ids|);
    }

    method Mark(ids: seq<nat>)
      modifies this`items
      ensures items == Marked(old(items), ids)
    {
      var done: seq<Item> := [];
      for k := 0 to |items|
        invariant items == old(items) && |done| == k
        invariant done + Marked(items[k..], ids) == Marked(items, ids)
      {
        assert items[k..][1..] == items[k + 1..];
        var item := items[k];
        done := done + [if item.id in ids then item.(compressed := true) else item];
      }
      assert items[|items|..] == [];
      items := done;
    }
  }

  // ---- Ids

  ghost predicate UniqueIds(items: seq<Item>) {
    forall i, j :: 0 <= i < j < |items| ==> items[i].id != items[j].id
  }

  function HasId(id: nat): Item -> bool {
    (i: Item) => i.id == id
  }

  lemma {:induction false} CountedById(s: seq<Keyed<Item>>, id: nat)
    ensures multiset(IdsOf(s))[id] == |Filter(HasId(id), s)|
  {
    if s != [] {
      CountedById(s[1..], id);
      assert IdsOf(s) == [s[0].value.id] + IdsOf(s[1..]);
    }
  }

  lemma {:induction false} UniqueIsAtMostOnce(items: seq<Item>, p: Item -> bool, id: nat)
    requires UniqueIds(items)
    ensures |Filter(HasId(id), Filter(p, ByAge(items)))| <= 1
    ensures (forall i :: 0 <= i < |items| ==> items[i].id != id) ==> |Filter(HasId(id), Filter(p, ByAge(items)))| == 0
  {
    if items != [] {
      UniqueIsAtMostOnce(items[1..], p, id);
      assert ByAge(items)[1..] == ByAge(items[1..]);
      FilterConcat(HasId(id), if p(items[0]) then [ByAge(items)[0]] else [], Filter(p, ByAge(items[1..])));
      if items[0].id == id {
        assert forall i :: 0 <= i < |items[1..]| ==> items[1..][i].id != id;
      }
    }
  }

  /** Nobody is in the queue twice. */
  lemma QueueIsUnique(items: seq<Item>, tenant: nat, threshold: real, id: nat)
    requires UniqueIds(items)
    ensures multiset(IdsOf(Queue(items, tenant, threshold)))[id] <= 1
  {
    var p := Eligible(tenant, threshold);
    UniqueIsAtMostOnce(items, p, id);
    FilterSort(HasId(id), Filter(p, ByAge(items)));
    SortFacts(Filter(HasId(id), Filter(p, ByAge(items))));
    CountedById(Queue(items, tenant, threshold), id);
  }

  lemma {:induction false} FilterMember(p: Item -> bool, items: seq<Item>, e: Keyed<Item>)
    ensures e in Filter(p, ByAge(items)) <==> e.value in items && p(e.value) && e.key == -e.value.created
  {
    if items != [] {
      FilterMember(p, items[1..], e);
      var head, rest := Keyed(-items[0].created, items[0]), Filter(p, ByAge(items[1..]));
      assert ByAge(items)[0] == head && ByAge(items)[1..] == ByAge(items[1..]);
      assert e.value in items <==> e.value == items[0] || e.value in items[1..];
      if p(items[0]) {
        assert Filter(p, ByAge(items)) == [head] + rest;
      } else {
        assert Filter(p, ByAge(items)) == rest;
      }
    }
  }

  lemma QueueMembers(items: seq<Item>, tenant: nat, threshold: real)
    ensures forall e :: e in Queue(items, tenant, threshold) <==>
              e.value in items && Eligible(tenant, threshold)(e.value) && e.key == -e.value.created
  {
    var p := Eligible(tenant, threshold);
    SortFacts(Filter(p, ByAge(items)));
    forall e ensures e in Queue(items, tenant, threshold) <==>
                     e.value in items && p(e.value) && e.key == -e.value.created
    {
      FilterMember(p, items, e);
      assert e in multiset(Queue(items, tenant, threshold)) <==> e in multiset(Filter(p, ByAge(items)));
    }
  }

  lemma BatchIsUnique(items: seq<Item>, tenant: nat, threshold: real, size: nat, id: nat)
    requires UniqueIds(items)
    ensures multiset(Batch(items, tenant, threshold, size))[id] <= 1
  {
    var queue := Queue(items, tenant, threshold);
    var ids, rest := IdsOf(Take(queue, size)), IdsOf(Drop(queue, size));
    QueueIsUnique(items, tenant, threshold, id);
    assert IdsOf(queue) == ids + rest;
    assert multiset(ids + rest) == multiset(ids) + multiset(rest);
  }

  lemma SameIdSameItem(items: seq<Item>, i: Item, j: Item)
    requires UniqueIds(items) && i in items && j in items && i.id == j.id
    ensures i == j
  {
    var a :| 0 <= a < |items| && items[a] == i;
    var b :| 0 <= b < |items| && items[b] == j;
  }

  /** Of the tenant, not compressed, not to be kept for ever, and older than the threshold. */
  predicate IsDue(i: Item, tenant: nat, threshold: real) {
    i.tenant == tenant && !i.compressed && !i.forever && i.created < threshold
  }

  /** The queue holds exactly the live items that are due, each with its age as the key, oldest first. */
  lemma QueueIsDue(items: seq<Item>, tenant: nat, threshold: real)
    ensures forall e :: e in Queue(items, tenant, threshold) <==>
              e.value in items && IsDue(e.value, tenant, threshold) && e.key == -e.value.created
    ensures forall i, j :: 0 <= i < j < |Queue(items, tenant, threshold)| ==>
              Queue(items, tenant, threshold)[i].value.created <= Queue(items, tenant, threshold)[j].value.created
  {
    QueueMembers(items, tenant, threshold);
    SortFacts(Filter(Eligible(tenant, threshold), ByAge(items)));
    var queue := Queue(items, tenant, threshold);
    forall i, j | 0 <= i < j < |queue| ensures queue[i].value.created <= queue[j].value.created {
      assert queue[i] in queue && queue[j] in queue;
    }
  }

  lemma BatchMember(items: seq<Item>, tenant: nat, threshold: real, size: nat, id: nat) returns (i: Item)
    requires id in Batch(items, tenant, threshold, size)
    ensures i in items && i.id == id && Eligible(tenant, threshold)(i)
  {
    var batch := Take(Queue(items, tenant, threshold), size);
    QueueMembers(items, tenant, threshold);
    var k :| 0 <= k < |IdsOf(batch)| && IdsOf(batch)[k] == id;
    assert batch[k] in Queue(items, tenant, threshold);
    i := batch[k].value;
  }

  /** A batch names live items of the tenant that are due, each once. */
  lemma BatchFacts(items: seq<Item>, tenant: nat, threshold: real, size: nat)
    requires UniqueIds(items)
    ensures var ids := Batch(items, tenant, threshold, size);
            && (forall id :: multiset(ids)[id] <= 1)
            && (forall i :: i in items && i.id in ids ==> IsDue(i, tenant, threshold))
            && (forall id :: id in ids ==> exists i :: i in items && i.id == id)
  {
    var ids := Batch(items, tenant, threshold, size);
    forall id ensures multiset(ids)[id] <= 1 {
      BatchIsUnique(items, tenant, threshold, size, id);
    }
    forall id | id in ids ensures exists i :: i in items && i.id == id {
      var i := BatchMember(items, tenant, threshold, size, id);
    }
    forall i | i in items && i.id in ids ensures IsDue(i, tenant, threshold) {
      var j := BatchMember(items, tenant, threshold, size, i.id);
      SameIdSameItem(items, i, j);
    }
  }

  lemma {:induction false} MarkedFacts(items: seq<Item>, ids: seq<nat>)
    ensures |Marked(items, ids)| == |items|
    ensures forall k :: 0 <= k < |items| ==>
              Marked(items, ids)[k] == if items[k].id in ids then items[k].(compressed := true) else items[k]
  {
    if items != [] {
      MarkedFacts(items[1..], ids);
      assert forall k :: 0 < k < |items| ==> items[k] == items[1..][k - 1];
    }
  }

  lemma BatchSize(items: seq<Item>, tenant: nat, threshold: real, size: nat)
    ensures |Batch(items, tenant, threshold, size)| ==
            if size < |Queue(items, tenant, threshold)| then size else |Queue(items, tenant, threshold)|
  {
  }

  /** An item stays as it is, or its flag is set because it was due. */
  predicate KeptOrDue(before: Item, after: Item, tenant: nat, threshold: real) {
    after == before || (after == before.(compressed := true) && IsDue(before, tenant, threshold))
  }

  /** The batch holds an item that is due whenever it is not full or holds a younger one. */
  lemma OldestFirst(items: seq<Item>, tenant: nat, threshold: real, size: nat, i: Item)
    requires UniqueIds(items) && i in items && IsDue(i, tenant, threshold)
    ensures var ids := Batch(items, tenant, threshold, size);
            || i.id in ids
            || (|ids| == size && forall j :: j in items && j.id in ids ==> j.created <= i.created)
  {
    QueueIsDue(items, tenant, threshold);
    var queue := Queue(items, tenant, threshold);
    var ids := Batch(items, tenant, threshold, size);
    var e := Keyed(-i.created, i);
    assert e in queue;
    var k :| 0 <= k < |queue| && queue[k] == e;
    if k < size {
      assert ids[k] == i.id;
    } else {
      forall j | j in items && j.id in ids ensures j.created <= i.created {
        var n :| 0 <= n < |ids| && ids[n] == j.id;
        assert queue[n] in queue;
        SameIdSameItem(items, j, queue[n].value);
      }
    }
  }

  /**
   * One successful call: every item keeps its data, and its flag unless it was due; an item that was due
   * is compressed, or the batch was full with items at least as old.
   */
  lemma CompressedAreDue(s: Store, tenant: nat, threshold: real, size: nat, k: nat)
    requires UniqueIds(s.items) && k < |s.items|
    ensures var s' := Compress(s, tenant, threshold, size);
            && |s'.items| == |s.items| && KeptOrDue(s.items[k], s'.items[k], tenant, threshold)
            && (IsDue(s.items[k], tenant, threshold) && !s'.items[k].compressed ==>
                  && |Batch(s.items, tenant, threshold, size)| == size
                  && forall j :: 0 <= j < |s.items| && s'.items[j].compressed && !s.items[j].compressed ==>
                       s.items[j].created <= s.items[k].created)
  {
    var ids := Batch(s.items, tenant, threshold, size);
    MarkedFacts(s.items, ids);
    BatchFacts(s.items, tenant, threshold, size);
    if IsDue(s.items[k], tenant, threshold) {
      OldestFirst(s.items, tenant, threshold, size, s.items[k]);
    }
  }
}
