/** Checkpoint schema migration: registered migrators are applied in version order. */
module Migration {

  /** A migrator turns the variables of one schema version into those of the next. */
  type Registry<!V> = map<int, V -> V>

  function AtLeast(versions: set<int>, version: int): set<int> {
    set v | v in versions && v >= version
  }

  lemma {:induction false} LeastExists(s: set<int>)
    requires s != {}
    ensures exists m :: m in s && forall v :: v in s ==> m <= v
    decreases |s|
  {
    assert exists x :: x in s by {
      if forall x :: x !in s {
        assert false;
      }
    }
    var x :| x in s;
    var others := s - {x};
    assert s == others + {x};
    if others == {} {
      assert forall v :: v in s ==> x <= v;
    } else {
      LeastExists(others);
      var m :| m in others && forall v :: v in others ==> m <= v;
      var least := if m < x then m else x;
      forall v | v in s ensures least <= v {
        assert v == x || v in others;
      }
      assert least in s;
    }
  }

  function Least(s: set<int>): (m: int)
    requires s != {}
    ensures m in s && forall v :: v in s ==> m <= v
  {
    LeastExists(s);
    var m :| m in s && forall v :: v in s ==> m <= v;
    m
  }

  /** sorted(s) */
  function Sorted(s: set<int>): seq<int>
    decreases |s|
  {
    if s == {} then [] else [Least(s)] + Sorted(s - {Least(s)})
  }

  predicate Increasing(s: seq<int>) {
    forall i, j :: 0 <= i < j < |s| ==> s[i] < s[j]
  }

  lemma {:induction false} SortedFacts(s: set<int>)
    ensures Increasing(Sorted(s)) && forall v :: v in Sorted(s) <==> v in s
    decreases |s|
  {
    if s != {} {
      SortedFacts(s - {Least(s)});
      var rest := Sorted(s - {Least(s)});
      assert forall i :: 0 <= i < |rest| ==> rest[i] in s - {Least(s)};
    }
  }

  predicate Within(a: seq<int>, b: seq<int>) {
    forall i :: 0 <= i < |a| ==> a[i] in b
  }

  lemma HeadIsLeast(a: seq<int>, b: seq<int>)
    requires Increasing(b) && Within(a, b) && a != []
    ensures b != [] && b[0] <= a[0]
  {
    assert a[0] in b;
  }

  lemma TailWithin(a: seq<int>, b: seq<int>)
    requires Increasing(a) && Within(a, b) && a != [] && b != [] && a[0] == b[0]
    ensures Within(a[1..], b[1..])
  {
    forall i | 0 <= i < |a[1..]| ensures a[1..][i] in b[1..] {
      var j :| 0 <= j < |b| && b[j] == a[i + 1];
      assert b[j] == b[1..][j - 1];
    }
  }

  /** Only one increasing sequence has given elements. */
  lemma {:induction false} IncreasingIsUnique(a: seq<int>, b: seq<int>)
    requires Increasing(a) && Increasing(b) && Within(a, b) && Within(b, a)
    ensures a == b
  {
    if a != [] {
      HeadIsLeast(a, b);
    }
    if b != [] {
      HeadIsLeast(b, a);
      TailWithin(a, b);
      TailWithin(b, a);
      IncreasingIsUnique(a[1..], b[1..]);
      assert a == [a[0]] + a[1..] && b == [b[0]] + b[1..];
    }
  }

  /** The versions whose migrators are applied to data of the given version, in order. */
  function Steps(versions: set<int>, version: int): seq<int> {
    Sorted(AtLeast(versions, version))
  }

  function EndVersion(versions: set<int>, version: int): int {
    var steps := Steps(versions, version);
    if steps == [] then version else steps[|steps| - 1] + 1
  }

  function Fold<V>(registry: Registry<V>, steps: seq<int>, variables: V): V
    requires forall v :: v in steps ==> v in registry
  {
    if steps == [] then variables
    else
      var last := steps[|steps| - 1];
      assert last in steps;
      registry[last](Fold(registry, steps[..|steps| - 1], variables))
  }

  lemma StepsRegistered(versions: set<int>, version: int)
    ensures forall v :: v in Steps(versions, version) <==> v in versions && v >= version
    ensures Increasing(Steps(versions, version))
  {
    SortedFacts(AtLeast(versions, version));
  }

  function Migrated<V>(registry: Registry<V>, variables: V, version: int): (V, int) {
    StepsRegistered(registry.Keys, version);
    (Fold(registry, Steps(registry.Keys, version), variables), EndVersion(registry.Keys, version))
  }

  /** Rebinds variables and version once per applicable migrator. */
  method MigrateToCurrent<V>(registry: Registry<V>, variables0: V, version0: int) returns (variables: V, version: int)
    ensures (variables, version) == Migrated(registry, variables0, version0)
  {
    variables, version := variables0, version0;
    var steps := Steps(registry.Keys, version);
    StepsRegistered(registry.Keys, version);
    for i := 0 to |steps|
      invariant variables == Fold(registry, steps[..i], variables0)
      invariant version == if i == 0 then version0 else steps[i - 1] + 1
    {
      assert steps[..i + 1][..i] == steps[..i];
      variables := registry[steps[i]](variables);
      version := steps[i] + 1;
    }
    assert steps[..|steps|] == steps;
  }

  /** The migrators of these versions, applied one after the other, take the first value to the last. */
  predicate Chain<V(==)>(registry: Registry<V>, steps: seq<int>, values: seq<V>) {
    && |values| == |steps| + 1
    && forall i :: 0 <= i < |steps| ==> steps[i] in registry && values[i + 1] == registry[steps[i]](values[i])
  }

  /** Exactly the registered versions from the given one on, in increasing order. */
  ghost predicate Applicable(versions: set<int>, version: int, steps: seq<int>) {
    Increasing(steps) && forall v :: v in steps <==> v in versions && v >= version
  }

  lemma {:induction false} FoldIsChain<V>(registry: Registry<V>, steps: seq<int>, variables: V)
    returns (values: seq<V>)
    requires forall v :: v in steps ==> v in registry
    ensures Chain(registry, steps, values) && values[0] == variables
    ensures values[|steps|] == Fold(registry, steps, variables)
  {
    if steps == [] {
      values := [variables];
    } else {
      var front, last := steps[..|steps| - 1], steps[|steps| - 1];
      assert last in steps;
      var init := FoldIsChain(registry, front, variables);
      values := init + [registry[last](init[|front|])];
      forall i | 0 <= i < |steps| ensures steps[i] in registry && values[i + 1] == registry[steps[i]](values[i]) {
        assert i < |front| ==> front[i] == steps[i];
      }
    }
  }

  /**
   * The result is what the migrators of all registered versions from the given one on make of the
   * variables, one after the other in increasing order; the version is the last of them plus one.
   */
  lemma AppliesEachInOrder<V>(registry: Registry<V>, variables: V, version: int)
    ensures exists steps, values: seq<V> ::
              && Applicable(registry.Keys, version, steps) && Chain(registry, steps, values)
              && values[0] == variables && Migrated(registry, variables, version).0 == values[|steps|]
              && Migrated(registry, variables, version).1 == (if steps == [] then version else steps[|steps| - 1] + 1)
  {
    var steps := Steps(registry.Keys, version);
    StepsRegistered(registry.Keys, version);
    var values := FoldIsChain(registry, steps, variables);
    assert Applicable(registry.Keys, version, steps);
  }

  /** The result is at (largest applicable key + 1), or unchanged if there is none. */
  lemma EndsPastLargest<V>(registry: Registry<V>, variables: V, version: int)
    ensures var end := Migrated(registry, variables, version).1;
            if AtLeast(registry.Keys, version) == {} then Migrated(registry, variables, version) == (variables, version)
            else end - 1 in registry && end - 1 >= version && forall v :: v in registry ==> v < end
  {
    StepsRegistered(registry.Keys, version);
    var steps := Steps(registry.Keys, version);
    if AtLeast(registry.Keys, version) != {} {
      var m := Least(AtLeast(registry.Keys, version));
      assert m in steps;
      forall v | v in registry ensures v <= steps[|steps| - 1] {
        if v >= version {
          assert v in steps;
        }
      }
    }
  }

  /** Migrating migrated data changes nothing. */
  lemma Idempotent<V>(registry: Registry<V>, variables: V, version: int)
    ensures var once := Migrated(registry, variables, version);
            Migrated(registry, once.0, once.1) == once
  {
    var once := Migrated(registry, variables, version);
    EndsPastLargest(registry, variables, version);
    EndsPastLargest(registry, once.0, once.1);
    if AtLeast(registry.Keys, version) != {} {
      assert AtLeast(registry.Keys, once.1) == {};
    }
  }

  lemma {:induction false} FoldConcat<V>(registry: Registry<V>, a: seq<int>, b: seq<int>, variables: V)
    requires forall v :: v in a + b ==> v in registry
    ensures (forall v :: v in a ==> v in registry) && (forall v :: v in b ==> v in registry)
    ensures Fold(registry, a + b, variables) == Fold(registry, b, Fold(registry, a, variables))
  {
    assert forall v :: v in a ==> v in a + b;
    assert forall v :: v in b ==> v in a + b;
    if b == [] {
      assert a + b == a;
    } else {
      assert (a + b)[..|a + b| - 1] == a + b[..|b| - 1];
      FoldConcat(registry, a, b[..|b| - 1], variables);
    }
  }

  lemma {:induction false} FoldAgrees<V>(small: Registry<V>, full: Registry<V>, steps: seq<int>, variables: V)
    requires forall v :: v in steps ==> v in small && v in full && small[v] == full[v]
    ensures Fold(small, steps, variables) == Fold(full, steps, variables)
  {
    if steps != [] {
      assert steps[|steps| - 1] in steps;
      FoldAgrees(small, full, steps[..|steps| - 1], variables);
    }
  }

  /** No migrator was added below the point the smaller registry takes the data to. */
  predicate OnlyAddsLater(small: set<int>, full: set<int>, version: int) {
    forall v :: v in full && v !in small && v >= version ==> v >= EndVersion(small, version)
  }

  /** The two stages apply increasing versions, one after the other. */
  lemma StagesIncrease(small: set<int>, full: set<int>, version: int)
    ensures Increasing(Steps(small, version) + Steps(full, EndVersion(small, version)))
  {
    var a, b := Steps(small, version), Steps(full, EndVersion(small, version));
    StepsRegistered(small, version);
    StepsRegistered(full, EndVersion(small, version));
    forall i, j | 0 <= i < j < |a + b| ensures (a + b)[i] < (a + b)[j] {
      if i < |a| <= j {
        assert b[j - |a|] in b;
      }
    }
  }

  lemma StagesWithin(small: set<int>, full: set<int>, version: int)
    requires small <= full && OnlyAddsLater(small, full, version)
    ensures Within(Steps(small, version) + Steps(full, EndVersion(small, version)), Steps(full, version))
    ensures Within(Steps(full, version), Steps(small, version) + Steps(full, EndVersion(small, version)))
  {
    var end := EndVersion(small, version);
    var a, b, all := Steps(small, version), Steps(full, end), Steps(full, version);
    StepsRegistered(small, version);
    StepsRegistered(full, version);
    StepsRegistered(full, end);
    if a != [] {
      assert a[|a| - 1] in a;
    }
    forall i | 0 <= i < |all| ensures all[i] in a + b {
      assert all[i] in all;
      if all[i] in small {
        assert all[i] in a;
      } else {
        assert all[i] in b;
      }
    }
    forall i | 0 <= i < |a + b| ensures (a + b)[i] in all {
      if i < |a| {
        assert a[i] in a;
      } else {
        assert b[i - |a|] in b;
      }
    }
  }

  /** Migrating in two stages applies the same migrators as migrating once exactly in that case. */
  lemma StagesComposeIff(small: set<int>, full: set<int>, version: int)
    requires small <= full
    ensures Steps(small, version) + Steps(full, EndVersion(small, version)) == Steps(full, version)
            <==> OnlyAddsLater(small, full, version)
  {
    var end := EndVersion(small, version);
    var a, b, all := Steps(small, version), Steps(full, end), Steps(full, version);
    StepsRegistered(full, version);
    if OnlyAddsLater(small, full, version) {
      StagesIncrease(small, full, version);
      StagesWithin(small, full, version);
      IncreasingIsUnique(a + b, all);
    } else {
      StepsRegistered(small, version);
      StepsRegistered(full, end);
      var v :| v in full && v !in small && version <= v < end;
      assert v in all && v !in a && v !in b;
    }
  }

  lemma StagedEnd(small: set<int>, full: set<int>, version: int)
    requires small <= full && OnlyAddsLater(small, full, version)
    ensures EndVersion(full, EndVersion(small, version)) == EndVersion(full, version)
  {
    StagesComposeIff(small, full, version);
    var a, b := Steps(small, version), Steps(full, EndVersion(small, version));
    assert a + b == Steps(full, version);
    if b == [] {
      assert a + b == a;
    } else {
      assert (a + b)[|a + b| - 1] == b[|b| - 1];
    }
  }

  lemma StagedFold<V>(small: Registry<V>, full: Registry<V>, variables: V, version: int)
    requires small.Keys <= full.Keys && forall v :: v in small ==> small[v] == full[v]
    requires OnlyAddsLater(small.Keys, full.Keys, version)
    ensures Migrated(full, Migrated(small, variables, version).0, EndVersion(small.Keys, version)).0
         == Migrated(full, variables, version).0
  {
    var end := EndVersion(small.Keys, version);
    var a, b := Steps(small.Keys, version), Steps(full.Keys, end);
    StepsRegistered(small.Keys, version);
    StepsRegistered(full.Keys, version);
    StepsRegistered(full.Keys, end);
    StagesComposeIff(small.Keys, full.Keys, version);
    FoldAgrees(small, full, a, variables);
    FoldConcat(full, a, b, variables);
  }

  /** Data migrated by an older registry and then by a newer one equals data migrated once. */
  lemma StagedMigration<V>(small: Registry<V>, full: Registry<V>, variables: V, version: int)
    requires small.Keys <= full.Keys && forall v :: v in small ==> small[v] == full[v]
    requires OnlyAddsLater(small.Keys, full.Keys, version)
    ensures var once := Migrated(small, variables, version);
            Migrated(full, once.0, once.1) == Migrated(full, variables, version)
  {
    StagedEnd(small.Keys, full.Keys, version);
    StagedFold(small, full, variables, version);
  }
}
