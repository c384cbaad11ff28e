/** Stable sorting by a key, highest key first, and what can be said about prefixes by counting. */
module Ranking {

  datatype Keyed<T> = Keyed(key: real, value: T)

  predicate Descending<T>(s: seq<Keyed<T>>) {
    forall i, j :: 0 <= i < j < |s| ==> s[i].key >= s[j].key
  }

  /** Puts x before everything of the same key. */
  function Insert<T>(x: Keyed<T>, s: seq<Keyed<T>>): seq<Keyed<T>> {
    if s == [] || s[0].key <= x.key then [x] + s else [s[0]] + Insert(x, s[1..])
  }

  /** The stable sort. */
  function SortDesc<T>(s: seq<Keyed<T>>): seq<Keyed<T>> {
    if s == [] then [] else Insert(s[0], SortDesc(s[1..]))
  }

  lemma {:induction false} InsertPermutes<T>(x: Keyed<T>, s: seq<Keyed<T>>)
    ensures multiset(Insert(x, s)) == multiset(s) + multiset{x}
    ensures forall y :: y in Insert(x, s) ==> y in s || y == x
  {
    if s == [] || s[0].key <= x.key {
    } else {
      InsertPermutes(x, s[1..]);
      assert s == [s[0]] + s[1..];
    }
  }

  lemma {:induction false} InsertDescends<T>(x: Keyed<T>, s: seq<Keyed<T>>)
    requires Descending(s)
    ensures Descending(Insert(x, s))
  {
    if s == [] || s[0].key <= x.key {
    } else {
      InsertDescends(x, s[1..]);
      InsertPermutes(x, s[1..]);
      assert forall y :: y in Insert(x, s[1..]) ==> y.key <= s[0].key;
    }
  }

  lemma {:induction false} SortFacts<T>(s: seq<Keyed<T>>)
    ensures multiset(SortDesc(s)) == multiset(s) && |SortDesc(s)| == |s|
    ensures Descending(SortDesc(s))
  {
    if s != [] {
      SortFacts(s[1..]);
      InsertPermutes(s[0], SortDesc(s[1..]));
      InsertDescends(s[0], SortDesc(s[1..]));
      assert s == [s[0]] + s[1..];
      assert |multiset(SortDesc(s))| == |multiset(s)|;
    }
  }

  /** How many keys are at least v. */
  function CountAtLeast<T>(s: seq<Keyed<T>>, v: real): nat {
    if s == [] then 0 else (if s[0].key >= v then 1 else 0) + CountAtLeast(s[1..], v)
  }

  lemma {:induction false} CountConcat<T>(a: seq<Keyed<T>>, b: seq<Keyed<T>>, v: real)
    ensures CountAtLeast(a + b, v) == CountAtLeast(a, v) + CountAtLeast(b, v)
  {
    if a == [] {
      assert a + b == b;
    } else {
      assert (a + b)[1..] == a[1..] + b;
      CountConcat(a[1..], b, v);
    }
  }

  lemma {:induction false} InsertCount<T>(x: Keyed<T>, s: seq<Keyed<T>>, v: real)
    ensures CountAtLeast(Insert(x, s), v) == CountAtLeast(s, v) + (if x.key >= v then 1 else 0)
  {
    if s == [] || s[0].key <= x.key {
      CountConcat([x], s, v);
    } else {
      InsertCount(x, s[1..], v);
      CountConcat([s[0]], Insert(x, s[1..]), v);
    }
  }

  lemma {:induction false} SortCount<T>(s: seq<Keyed<T>>, v: real)
    ensures CountAtLeast(SortDesc(s), v) == CountAtLeast(s, v)
  {
    if s != [] {
      SortCount(s[1..], v);
      InsertCount(s[0], SortDesc(s[1..]), v);
    }
  }

  lemma {:induction false} AllAtLeast<T>(s: seq<Keyed<T>>, v: real)
    requires forall x :: x in s ==> x.key >= v
    ensures CountAtLeast(s, v) == |s|
  {
    if s != [] {
      AllAtLeast(s[1..], v);
    }
  }

  lemma {:induction false} NoneAtLeast<T>(s: seq<Keyed<T>>, v: real)
    requires forall x :: x in s ==> x.key < v
    ensures CountAtLeast(s, v) == 0
  {
    if s != [] {
      NoneAtLeast(s[1..], v);
    }
  }

  /** In a descending sequence the keys that are at least v come first. */
  lemma {:induction false} PrefixIsCounted<T>(s: seq<Keyed<T>>, v: real, i: nat)
    requires Descending(s) && i < |s|
    ensures s[i].key >= v <==> i < CountAtLeast(s, v)
  {
    if s[0].key < v {
      NoneAtLeast(s, v);
    } else if i > 0 {
      PrefixIsCounted(s[1..], v, i - 1);
    }
  }

  // ---- Filtering

  function Filter<T>(p: T -> bool, s: seq<Keyed<T>>): seq<Keyed<T>> {
    if s == [] then [] else if p(s[0].value) then [s[0]] + Filter(p, s[1..]) else Filter(p, s[1..])
  }

  lemma FilterCons<T>(p: T -> bool, x: Keyed<T>, s: seq<Keyed<T>>)
    ensures Filter(p, [x] + s) == if p(x.value) then [x] + Filter(p, s) else Filter(p, s)
  {
    assert ([x] + s)[1..] == s;
  }

  lemma {:induction false} FilterConcat<T>(p: T -> bool, a: seq<Keyed<T>>, b: seq<Keyed<T>>)
    ensures Filter(p, a + b) == Filter(p, a) + Filter(p, b)
  {
    if a == [] {
      assert a + b == b;
    } else {
      FilterConcat(p, a[1..], b);
      assert a + b == [a[0]] + (a[1..] + b) && a == [a[0]] + a[1..];
      FilterCons(p, a[0], a[1..] + b);
      FilterCons(p, a[0], a[1..]);
    }
  }

  lemma {:induction false} FilterInsert<T>(p: T -> bool, x: Keyed<T>, s: seq<Keyed<T>>)
    requires Descending(s)
    ensures Filter(p, Insert(x, s)) == if p(x.value) then Insert(x, Filter(p, s)) else Filter(p, s)
  {
    if s == [] || s[0].key <= x.key {
      FilterConcat(p, [x], s);
      FilterKeepsHead(p, x, s);
    } else {
      FilterInsert(p, x, s[1..]);
      FilterConcat(p, [s[0]], Insert(x, s[1..]));
      var rest := Filter(p, s[1..]);
      if p(s[0].value) {
        assert Filter(p, s) == [s[0]] + rest;
        assert Filter(p, s)[1..] == rest;
      } else {
        assert Filter(p, s) == rest;
      }
    }
  }

  lemma {:induction false} FilterKeepsHead<T>(p: T -> bool, x: Keyed<T>, s: seq<Keyed<T>>)
    requires forall i :: 0 <= i < |s| ==> s[i].key <= x.key
    ensures Insert(x, Filter(p, s)) == [x] + Filter(p, s)
  {
    if s != [] {
      FilterKeepsHead(p, x, s[1..]);
      if !p(s[0].value) {
        assert Filter(p, s) == Filter(p, s[1..]);
      }
    }
  }

  /** Filtering and sorting commute. */
  lemma {:induction false} FilterSort<T>(p: T -> bool, s: seq<Keyed<T>>)
    ensures Filter(p, SortDesc(s)) == SortDesc(Filter(p, s))
  {
    if s != [] {
      FilterSort(p, s[1..]);
      SortFacts(s[1..]);
      FilterInsert(p, s[0], SortDesc(s[1..]));
      if p(s[0].value) {
        assert Filter(p, s) == [s[0]] + Filter(p, s[1..]);
      } else {
        assert Filter(p, s) == Filter(p, s[1..]);
      }
    }
  }

  // ---- Stability

  /** The elements with a key, in order. */
  function WithKey<T>(s: seq<Keyed<T>>, key: real): seq<Keyed<T>> {
    if s == [] then [] else if s[0].key == key then [s[0]] + WithKey(s[1..], key) else WithKey(s[1..], key)
  }

  lemma {:induction false} InsertIsStable<T>(x: Keyed<T>, s: seq<Keyed<T>>, key: real)
    ensures WithKey(Insert(x, s), key) == if x.key == key then [x] + WithKey(s, key) else WithKey(s, key)
  {
    if s == [] || s[0].key <= x.key {
      assert ([x] + s)[1..] == s;
    } else {
      InsertIsStable(x, s[1..], key);
      assert Insert(x, s)[1..] == Insert(x, s[1..]);
    }
  }

  /** Elements with the same key stay in the order they came in. */
  lemma {:induction false} SortIsStable<T>(s: seq<Keyed<T>>, key: real)
    ensures WithKey(SortDesc(s), key) == WithKey(s, key)
  {
    if s != [] {
      SortIsStable(s[1..], key);
      InsertIsStable(s[0], SortDesc(s[1..]), key);
    }
  }

  /** What is sorted already stays as it is. */
  lemma {:induction false} SortedStays<T>(s: seq<Keyed<T>>)
    requires Descending(s)
    ensures SortDesc(s) == s
  {
    if s != [] {
      SortedStays(s[1..]);
      assert s == [s[0]] + s[1..];
    }
  }
}
