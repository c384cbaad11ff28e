/**
 * The fixed-window rate limiter: one expiring Redis counter per tenant and minute,
 * incremented and given its expiry by one atomic script.
 */
module RateLimiter {

  const WINDOW_SECONDS := 60
  const TTL_SECONDS := 120.0

  datatype Key = Key(tenant: nat, window: int)

  datatype Counter = Counter(count: nat, expiry: real)

  type Keys = map<Key, Counter>

  datatype Call = Call(tenant: nat, time: real)

  function Window(time: real): int {
    time.Floor / WINDOW_SECONDS
  }

  function KeyOf(call: Call): Key {
    Key(call.tenant, Window(call.time))
  }

  /** The script: INCR, and EXPIRE when the counter was new. An expired key counts as new. */
  function Incremented(keys: Keys, call: Call): Keys {
    var key := KeyOf(call);
    if key in keys && call.time < keys[key].expiry
    then keys[key := keys[key].(count := keys[key].count + 1)]
    else keys[key := Counter(1, call.time + TTL_SECONDS)]
  }

  class RateLimiter {
    const limit: int
    var keys: Keys

    constructor (limit: int)
      ensures this.limit == limit && keys == map[]
    {
      this.limit := limit;
      keys := map[];
    }

    /** False where the source raises RateLimitExceeded. */
    method Check(tenant: nat, time: real) returns (allowed: bool)
      modifies this`keys
      ensures keys == Incremented(old(keys), Call(tenant, time))
      ensures allowed <==> keys[KeyOf(Call(tenant, time))].count <= limit
    {
      var key := Key(tenant, Window(time));
      if key in keys && time < keys[key].expiry {
        keys := keys[key := keys[key].(count := keys[key].count + 1)];
      } else {
        keys := keys[key := Counter(1, time + TTL_SECONDS)];
      }
      allowed := keys[key].count <= limit;
    }

    /** A whole sequence of checks. */
    method CheckAll(calls: seq<Call>) returns (verdicts: seq<bool>)
      requires keys == map[]
      modifies this`keys
      ensures verdicts == Verdicts(limit, calls)
    {
      verdicts := [];
      for i := 0 to |calls|
        invariant verdicts == Verdicts(limit, calls[..i]) && keys == After(calls[..i])
      {
        assert calls[..i + 1][..i] == calls[..i];
        var allowed := Check(calls[i].tenant, calls[i].time);
        verdicts := verdicts + [allowed];
      }
      assert calls[..|calls|] == calls;
    }
  }

  function After(calls: seq<Call>): Keys {
    if calls == [] then map[] else Incremented(After(calls[..|calls| - 1]), calls[|calls| - 1])
  }

  /** Whether the last call of a sequence is allowed. */
  predicate LastAllowed(limit: int, calls: seq<Call>)
    requires calls != []
  {
    After(calls)[KeyOf(calls[|calls| - 1])].count <= limit
  }

  function Verdicts(limit: int, calls: seq<Call>): seq<bool> {
    if calls == [] then [] else Verdicts(limit, calls[..|calls| - 1]) + [LastAllowed(limit, calls)]
  }

  // ---- The counter is exact within its window

  /** How many calls a tenant made in a window. */
  function Calls(calls: seq<Call>, key: Key): nat {
    if calls == [] then 0
    else Calls(calls[..|calls| - 1], key) + (if KeyOf(calls[|calls| - 1]) == key then 1 else 0)
  }

  /** Every counter equals the calls of its minute, outlives it, and is gone two minutes later. */
  ghost predicate Exact(calls: seq<Call>, keys: Keys) {
    forall key :: if Calls(calls, key) == 0 then key !in keys
                  else && key in keys && keys[key].count == Calls(calls, key)
                       && (60 * (key.window + 2)) as real <= keys[key].expiry < (60 * (key.window + 3)) as real
  }

  lemma WindowBounds(time: real)
    ensures (WINDOW_SECONDS * Window(time)) as real <= time < (WINDOW_SECONDS * (Window(time) + 1)) as real
  {
  }

  /** A key never expires inside its own window, so no call of a window is ever forgotten. */
  lemma {:induction false} CountersAreExact(calls: seq<Call>)
    ensures Exact(calls, After(calls))
  {
    if calls != [] {
      var front, last := calls[..|calls| - 1], calls[|calls| - 1];
      CountersAreExact(front);
      WindowBounds(last.time);
    }
  }

  /** The verdict depends only on how many calls the tenant made earlier in the same window. */
  lemma VerdictIsByCount(limit: int, calls: seq<Call>)
    requires calls != []
    ensures LastAllowed(limit, calls) <==> Calls(calls[..|calls| - 1], KeyOf(calls[|calls| - 1])) < limit
  {
    CountersAreExact(calls);
  }

  /** The positions of the tenant's calls in the minute of this one, before position n. */
  function Earlier(calls: seq<Call>, n: nat, call: Call): set<nat>
    requires n <= |calls|
  {
    set i: nat | i < n && calls[i].tenant == call.tenant && calls[i].time.Floor / 60 == call.time.Floor / 60
  }

  lemma {:induction false} CallsAreEarlier(calls: seq<Call>, n: nat, call: Call)
    requires n <= |calls|
    ensures Calls(calls[..n], KeyOf(call)) == |Earlier(calls, n, call)|
  {
    if n > 0 {
      CallsAreEarlier(calls, n - 1, call);
      assert calls[..n][..n - 1] == calls[..n - 1];
      var same := KeyOf(calls[n - 1]) == KeyOf(call);
      assert Earlier(calls, n, call) == Earlier(calls, n - 1, call) + (if same then {n - 1} else {});
    } else {
      assert Earlier(calls, 0, call) == {};
    }
  }

  /** The i-th call is let through iff the tenant made fewer than `limit` calls before it in the same minute. */
  lemma {:induction false} VerdictByEarlier(limit: int, calls: seq<Call>, i: nat)
    requires i < |calls|
    ensures |Verdicts(limit, calls)| == |calls|
    ensures Verdicts(limit, calls)[i] <==> |Earlier(calls, i, calls[i])| < limit
    decreases |calls|
  {
    var front := calls[..|calls| - 1];
    VerdictCount(limit, front);
    if i < |front| {
      VerdictByEarlier(limit, front, i);
      assert Earlier(front, i, front[i]) == Earlier(calls, i, calls[i]);
    } else {
      VerdictIsByCount(limit, calls);
      CallsAreEarlier(calls, i, calls[i]);
    }
  }

  lemma {:induction false} VerdictCount(limit: int, calls: seq<Call>)
    ensures |Verdicts(limit, calls)| == |calls|
  {
    if calls != [] {
      VerdictCount(limit, calls[..|calls| - 1]);
    }
  }

  function Accepted(limit: int, calls: seq<Call>, key: Key): nat {
    if calls == [] then 0
    else
      Accepted(limit, calls[..|calls| - 1], key)
      + (if KeyOf(calls[|calls| - 1]) == key && LastAllowed(limit, calls) then 1 else 0)
  }

  function Cap(limit: int, n: nat): nat {
    if limit < 0 then 0 else if limit < n then limit else n
  }

  /** In each window a tenant gets exactly min(limit, calls) calls through, whatever other tenants do. */
  lemma {:induction false} WindowIsExact(limit: int, calls: seq<Call>, key: Key)
    ensures Accepted(limit, calls, key) == Cap(limit, Calls(calls, key))
  {
    if calls != [] {
      WindowIsExact(limit, calls[..|calls| - 1], key);
      VerdictIsByCount(limit, calls);
    }
  }

  // ---- Arbitrary intervals

  /** Accepted calls of the tenant with a time in [from, to). */
  function AcceptedDuring(limit: int, calls: seq<Call>, tenant: nat, from: real, to: real): nat {
    if calls == [] then 0
    else
      var last := calls[|calls| - 1];
      AcceptedDuring(limit, calls[..|calls| - 1], tenant, from, to)
      + (if last.tenant == tenant && from <= last.time < to && LastAllowed(limit, calls) then 1 else 0)
  }

  /** Accepted calls of the tenant in the k windows from `first` on. */
  function AcceptedInWindows(limit: int, calls: seq<Call>, tenant: nat, first: int, k: nat): nat {
    if k == 0 then 0
    else AcceptedInWindows(limit, calls, tenant, first, k - 1) + Accepted(limit, calls, Key(tenant, first + k - 1))
  }

  lemma {:induction false} WindowsGrow(limit: int, calls: seq<Call>, tenant: nat, first: int, k: nat)
    requires calls != []
    ensures var last := calls[|calls| - 1];
            AcceptedInWindows(limit, calls, tenant, first, k) ==
            AcceptedInWindows(limit, calls[..|calls| - 1], tenant, first, k)
            + (if last.tenant == tenant && first <= Window(last.time) < first + k && LastAllowed(limit, calls)
               then 1 else 0)
  {
    if k > 0 {
      WindowsGrow(limit, calls, tenant, first, k - 1);
    }
  }

  lemma {:induction false} NoCallsNoAccepted(limit: int, tenant: nat, first: int, k: nat)
    ensures AcceptedInWindows(limit, [], tenant, first, k) == 0
  {
    if k > 0 {
      NoCallsNoAccepted(limit, tenant, first, k - 1);
    }
  }

  lemma {:induction false} IntervalInWindows(limit: int, calls: seq<Call>, tenant: nat, from: real, to: real, k: nat)
    requires to <= from + (WINDOW_SECONDS * k) as real
    ensures AcceptedDuring(limit, calls, tenant, from, to)
            <= AcceptedInWindows(limit, calls, tenant, Window(from), k + 1)
  {
    if calls == [] {
      NoCallsNoAccepted(limit, tenant, Window(from), k + 1);
    } else {
      var last := calls[|calls| - 1];
      IntervalInWindows(limit, calls[..|calls| - 1], tenant, from, to, k);
      WindowsGrow(limit, calls, tenant, Window(from), k + 1);
      if from <= last.time < to {
        WindowBounds(from);
        WindowBounds(last.time);
      }
    }
  }

  lemma {:induction false} WindowsAreCapped(limit: int, calls: seq<Call>, tenant: nat, first: int, k: nat)
    ensures AcceptedInWindows(limit, calls, tenant, first, k) <= k * (if limit < 0 then 0 else limit)
  {
    if k > 0 {
      WindowsAreCapped(limit, calls, tenant, first, k - 1);
      WindowIsExact(limit, calls, Key(tenant, first + k - 1));
    }
  }

  /** Any half-open interval of at most k minutes admits at most limit * (k + 1) calls of a tenant. */
  lemma IntervalBound(limit: int, calls: seq<Call>, tenant: nat, from: real, to: real, k: nat)
    requires to <= from + (60 * k) as real
    ensures AcceptedDuring(limit, calls, tenant, from, to) <= (k + 1) * (if limit < 0 then 0 else limit)
  {
    IntervalInWindows(limit, calls, tenant, from, to, k);
    WindowsAreCapped(limit, calls, tenant, Window(from), k + 1);
  }

  /** n calls of tenant 0 at one time. */
  function Burst(n: nat, time: real): seq<Call> {
    if n == 0 then [] else Burst(n - 1, time) + [Call(0, time)]
  }

  lemma {:induction false} BurstIsAccepted(limit: nat, before: seq<Call>, n: nat, time: real)
    requires n <= limit && Calls(before, Key(0, Window(time))) == 0
    requires 59.0 <= time < 119.0
    ensures AcceptedDuring(limit, before + Burst(n, time), 0, 59.0, 119.0)
            == AcceptedDuring(limit, before, 0, 59.0, 119.0) + n
    ensures Calls(before + Burst(n, time), Key(0, Window(time))) == n
    ensures Window(time) != 1 ==> Calls(before + Burst(n, time), Key(0, 1)) == Calls(before, Key(0, 1))
  {
    if n == 0 {
      assert before + Burst(0, time) == before;
    } else {
      BurstIsAccepted(limit, before, n - 1, time);
      var all := before + Burst(n, time);
      assert all[..|all| - 1] == before + Burst(n - 1, time);
      VerdictIsByCount(limit, all);
    }
  }

  /** The burst across a boundary reaches the bound: twice the limit within one minute. */
  lemma TwiceTheLimitInAMinute(limit: nat)
    ensures exists calls :: AcceptedDuring(limit, calls, 0, 59.0, 119.0) == 2 * limit
  {
    var first := [] + Burst(limit, 59.0);
    BurstIsAccepted(limit, [], limit, 59.0);
    BurstIsAccepted(limit, first, limit, 60.0);
    assert AcceptedDuring(limit, first + Burst(limit, 60.0), 0, 59.0, 119.0) == 2 * limit;
  }
}
