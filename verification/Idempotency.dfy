/**
 * Idempotency keys at the gateway: a key is stored before a request is forwarded and deleted
 * again when the downstream answer is a server error.
 */
module Idempotency {
  import opened Options

  // ---- Scoped keys

  /** "{tenant_id}:{idempotency_key}" */
  function ScopedKey(tenant: string, key: string): string {
    tenant + ":" + key
  }

  lemma FirstColon(tenant: string, key: string)
    requires ':' !in tenant
    ensures ScopedKey(tenant, key)[|tenant|] == ':'
    ensures forall i :: 0 <= i < |tenant| ==> ScopedKey(tenant, key)[i] != ':'
    ensures ScopedKey(tenant, key)[..|tenant|] == tenant && ScopedKey(tenant, key)[|tenant| + 1..] == key
  {
    assert forall i :: 0 <= i < |tenant| ==> tenant[i] in tenant;
  }

  /** A tenant id is a UUID and holds no colon, so a scoped key determines both of its parts. */
  lemma ScopedKeysAreDistinct(t1: string, k1: string, t2: string, k2: string)
    requires ':' !in t1 && ':' !in t2
    ensures ScopedKey(t1, k1) == ScopedKey(t2, k2) <==> t1 == t2 && k1 == k2
  {
    FirstColon(t1, k1);
    FirstColon(t2, k2);
    if ScopedKey(t1, k1) == ScopedKey(t2, k2) {
      assert |t1| == |t2|;
    }
  }

  // ---- The code, one request at a time

  class IdempotencyStore {
    var keys: set<string>

    constructor ()
      ensures keys == {}
    {
      keys := {};
    }

    /** SET NX: true if the key was there already. */
    method CheckAndStore(key: string) returns (duplicate: bool)
      modifies this`keys
      ensures duplicate <==> key in old(keys)
      ensures keys == old(keys) + {key}
    {
      duplicate := key in keys;
      keys := keys + {key};
    }

    method Delete(key: string)
      modifies this`keys
      ensures keys == old(keys) - {key}
    {
      keys := keys - {key};
    }
  }

  /** The downstream's answer; None when the call raises. */
  type Downstream = Option<int>

  datatype Reply = Conflict | Relayed(status: int) | Failed

  /** One POST to a protected endpoint, without interference. */
  method ProxyPost(store: IdempotencyStore, tenant: string, key: Option<string>, downstream: Downstream)
    returns (reply: Reply)
    modifies store
    ensures key.Some? && ScopedKey(tenant, key.value) in old(store.keys) ==>
              reply == Conflict && store.keys == old(store.keys)
    ensures !(key.Some? && ScopedKey(tenant, key.value) in old(store.keys)) ==>
              && reply == (if downstream.None? then Failed else Relayed(downstream.value))
              && store.keys == (
                   if key.None? || (downstream.Some? && downstream.value >= 500) then old(store.keys)
                   else old(store.keys) + {ScopedKey(tenant, key.value)})
  {
    if key.Some? {
      var duplicate := store.CheckAndStore(ScopedKey(tenant, key.value));
      if duplicate {
        return Conflict;
      }
    }
    if downstream.None? {
      return Failed;
    }
    if key.Some? && downstream.value >= 500 {
      store.Delete(ScopedKey(tenant, key.value));
    }
    reply := Relayed(downstream.value);
  }

  // ---- Concurrent requests

  datatype Phase = Arrived | Forwarding | Retiring | Finished(status: int) | Refused

  datatype Request = Request(key: string, phase: Phase)

  datatype Event =
    | Forwarded(key: string, r: nat)
    | Answered(key: string, r: nat, status: int)
    | Deleted(key: string, r: nat)
    | Expired(key: string)

  datatype State = State(store: set<string>, requests: map<nat, Request>, log: seq<Event>)

  const Init := State({}, map[], [])

  datatype Label =
    | Arrive(r: nat, tenant: string, key: string)
    | Check(r: nat)
    | Respond(r: nat, status: int)
    | Delete(r: nat)
    | Break(r: nat)             // downstream call raises, or the gateway dies: the key stays
    | Expire(key: string)       // the key's time to live runs out

  predicate Enabled(s: State, l: Label) {
    match l
    case Arrive(r, _, _) => r !in s.requests
    case Check(r) => r in s.requests && s.requests[r].phase.Arrived?
    case Respond(r, _) => r in s.requests && s.requests[r].phase.Forwarding?
    case Delete(r) => r in s.requests && s.requests[r].phase.Retiring?
    case Break(r) => r in s.requests
    case Expire(key) => key in s.store
  }

  function To(s: State, r: nat, phase: Phase): State
    requires r in s.requests
  {
    s.(requests := s.requests[r := s.requests[r].(phase := phase)])
  }

  function Apply(s: State, l: Label): State
    requires Enabled(s, l)
  {
    match l
    case Arrive(r, tenant, key) => s.(requests := s.requests[r := Request(ScopedKey(tenant, key), Arrived)])
    case Check(r) =>
      var key := s.requests[r].key;
      if key in s.store then To(s, r, Refused)
      else To(s, r, Forwarding).(store := s.store + {key}, log := s.log + [Forwarded(key, r)])
    case Respond(r, status) =>
      To(s, r, if status >= 500 then Retiring else Finished(status))
      .(log := s.log + [Answered(s.requests[r].key, r, status)])
    case Delete(r) =>
      var key := s.requests[r].key;
      To(s, r, Finished(500)).(store := s.store - {key}, log := s.log + [Deleted(key, r)])
    case Break(r) => s.(requests := s.requests - {r})
    case Expire(key) => s.(store := s.store - {key}, log := s.log + [Expired(key)])
  }

  function Execute(ls: seq<Label>): Option<State> {
    if ls == [] then Some(Init)
    else
      match Execute(ls[..|ls| - 1])
      case None => None
      case Some(s) => if Enabled(s, ls[|ls| - 1]) then Some(Apply(s, ls[|ls| - 1])) else None
  }

  /**
   * What the log of one key can look like: forward, 5xx, delete, again and again, then one last
   * forward; and from the start after every expiry.
   */
  datatype Mode = Free | InFlight(r: nat) | Erred(r: nat) | Sealed

  function Next(mode: Mode, e: Event): Option<Mode> {
    match e
    case Forwarded(_, r) => if mode.Free? then Some(InFlight(r)) else None
    case Answered(_, r, status) =>
      if mode == InFlight(r) then Some(if status >= 500 then Erred(r) else Sealed) else None
    case Deleted(_, r) => if mode == Erred(r) then Some(Free) else None
    case Expired(_) => Some(Free)
  }

  /** Runs the log of one key through that pattern; None if it does not fit. */
  function Scan(log: seq<Event>, key: string): Option<Mode> {
    if log == [] then Some(Free)
    else
      var last := log[|log| - 1];
      match Scan(log[..|log| - 1], key)
      case None => None
      case Some(mode) => if last.key == key then Next(mode, last) else Some(mode)
  }

  /** The key is stored exactly while its log is not free; live requests are where the log says. */
  ghost predicate KeyInv(s: State, key: string) {
    && Scan(s.log, key).Some?
    && (key in s.store <==> !Scan(s.log, key).value.Free?)
    && (forall r :: r in s.requests && s.requests[r].key == key ==>
          && (s.requests[r].phase.Forwarding? ==> Scan(s.log, key).value == InFlight(r))
          && (s.requests[r].phase.Retiring? ==> Scan(s.log, key).value == Erred(r)))
  }

  lemma ScanLogged(log: seq<Event>, e: Event, key: string)
    requires Scan(log, key).Some?
    ensures Scan(log + [e], key) == if e.key == key then Next(Scan(log, key).value, e) else Scan(log, key)
  {
    assert (log + [e])[..|log|] == log;
  }

  /** Request r moves on, and an event of its key is logged. */
  lemma LoggedStepKeepsKeyInv(s: State, s': State, r: nat, e: Event, key: string)
    requires KeyInv(s, key) && r in s.requests && e.key == s.requests[r].key
    requires r in s'.requests && s'.requests == s.requests[r := s.requests[r].(phase := s'.requests[r].phase)]
    requires s'.log == s.log + [e]
    requires e.key != key ==> (key in s'.store <==> key in s.store)
    requires e.key == key ==>
               var mode := Next(Scan(s.log, key).value, e);
               && mode.Some? && (key in s'.store <==> !mode.value.Free?)
               && (s'.requests[r].phase.Forwarding? ==> mode.value == InFlight(r))
               && (s'.requests[r].phase.Retiring? ==> mode.value == Erred(r))
               && (forall u :: u in s.requests && u != r && s.requests[u].key == key ==>
                     !s.requests[u].phase.Forwarding? && !s.requests[u].phase.Retiring?)
    ensures KeyInv(s', key)
  {
    ScanLogged(s.log, e, key);
  }

  lemma CheckKeepsKeyInv(s: State, r: nat, key: string)
    requires Enabled(s, Check(r)) && KeyInv(s, key)
    ensures KeyInv(Apply(s, Check(r)), key)
  {
    if s.requests[r].key !in s.store {
      LoggedStepKeepsKeyInv(s, Apply(s, Check(r)), r, Forwarded(s.requests[r].key, r), key);
    }
  }

  lemma RespondKeepsKeyInv(s: State, r: nat, status: int, key: string)
    requires Enabled(s, Respond(r, status)) && KeyInv(s, key)
    ensures KeyInv(Apply(s, Respond(r, status)), key)
  {
    LoggedStepKeepsKeyInv(s, Apply(s, Respond(r, status)), r, Answered(s.requests[r].key, r, status), key);
  }

  lemma DeleteKeepsKeyInv(s: State, r: nat, key: string)
    requires Enabled(s, Delete(r)) && KeyInv(s, key)
    ensures KeyInv(Apply(s, Delete(r)), key)
  {
    LoggedStepKeepsKeyInv(s, Apply(s, Delete(r)), r, Deleted(s.requests[r].key, r), key);
  }

  /** A request with the key has been let through and is not finished. */
  predicate Live(s: State, r: nat) {
    r in s.requests && (s.requests[r].phase.Forwarding? || s.requests[r].phase.Retiring?)
  }

  /** No request with the key is live. */
  ghost predicate Quiet(s: State, key: string) {
    forall r :: Live(s, r) ==> s.requests[r].key != key
  }

  lemma ExpireKeepsKeyInv(s: State, expiring: string, key: string)
    requires Enabled(s, Expire(expiring)) && KeyInv(s, key) && (expiring == key ==> Quiet(s, key))
    ensures KeyInv(Apply(s, Expire(expiring)), key)
  {
    ScanLogged(s.log, Expired(expiring), key);
    if expiring == key {
      forall r | r in s.requests && s.requests[r].key == key
        ensures !s.requests[r].phase.Forwarding? && !s.requests[r].phase.Retiring?
      {
        assert !Live(s, r);
      }
    }
  }

  lemma StepKeepsKeyInv(s: State, l: Label, key: string)
    requires Enabled(s, l) && KeyInv(s, key) && (l == Expire(key) ==> Quiet(s, key))
    ensures KeyInv(Apply(s, l), key)
  {
    match l
    case Check(r) => CheckKeepsKeyInv(s, r, key);
    case Respond(r, status) => RespondKeepsKeyInv(s, r, status, key);
    case Delete(r) => DeleteKeepsKeyInv(s, r, key);
    case Expire(expiring) => ExpireKeepsKeyInv(s, expiring, key);
    case _ =>
  }

  /** The key never expires while a request with it is live. */
  ghost predicate QuietExpiries(ls: seq<Label>, key: string) {
    ls == [] || (
      var front, l := ls[..|ls| - 1], ls[|ls| - 1];
      && QuietExpiries(front, key)
      && (l == Expire(key) && Execute(front).Some? ==> Quiet(Execute(front).value, key)))
  }

  lemma {:induction false} ReachableKeyInv(ls: seq<Label>, key: string)
    requires Execute(ls).Some? && QuietExpiries(ls, key)
    ensures KeyInv(Execute(ls).value, key)
  {
    if ls != [] {
      var front := ls[..|ls| - 1];
      ReachableKeyInv(front, key);
      StepKeepsKeyInv(Execute(front).value, ls[|ls| - 1], key);
    }
  }

  /** At most one live request with the key. */
  ghost predicate OneLive(s: State, key: string) {
    forall r1, r2 :: Live(s, r1) && Live(s, r2) && s.requests[r1].key == key && s.requests[r2].key == key ==> r1 == r2
  }

  /** As long as no expiry hits a live request, at most one request with the key is downstream. */
  lemma AtMostOneInFlight(ls: seq<Label>, key: string)
    requires Execute(ls).Some? && QuietExpiries(ls, key)
    ensures OneLive(Execute(ls).value, key)
  {
    ReachableKeyInv(ls, key);
  }

  lemma {:induction false} ScanPrefix(log: seq<Event>, key: string, n: nat)
    requires n <= |log| && Scan(log, key).Some?
    ensures Scan(log[..n], key).Some?
  {
    if n < |log| {
      ScanPrefix(log[..|log| - 1], key, n);
      assert log[..|log| - 1][..n] == log[..n];
    } else {
      assert log[..n] == log;
    }
  }

  /** A server error for r was answered between positions i and n. */
  ghost predicate ErredAfter(log: seq<Event>, key: string, i: nat, r: nat, n: nat)
    requires n <= |log|
  {
    exists a :: i < a < n && log[a].Answered? && log[a].key == key && log[a].r == r && log[a].status >= 500
  }

  /** What separates a forward at position i from a later one: r's server error and its delete, or an expiry. */
  ghost predicate Released(log: seq<Event>, key: string, i: nat, r: nat, n: nat)
    requires n <= |log|
  {
    exists b :: i < b < n && (log[b] == Expired(key) || (log[b] == Deleted(key, r) && ErredAfter(log, key, i, r, b)))
  }

  lemma ReleasedLater(log: seq<Event>, key: string, i: nat, r: nat, m: nat, n: nat)
    requires m <= n <= |log|
    ensures Released(log, key, i, r, m) ==> Released(log, key, i, r, n)
    ensures ErredAfter(log, key, i, r, m) ==> ErredAfter(log, key, i, r, n)
  {
    if ErredAfter(log, key, i, r, m) {
      var a :| i < a < m && log[a].Answered? && log[a].key == key && log[a].r == r && log[a].status >= 500;
      assert ErredAfter(log, key, i, r, n);
    }
    if Released(log, key, i, r, m) {
      var b :| i < b < m && (log[b] == Expired(key) || (log[b] == Deleted(key, r) && ErredAfter(log, key, i, r, b)));
      assert Released(log, key, i, r, n);
    }
  }

  /** Until it is released, the forward at position i holds the key. */
  lemma {:induction false} FlightEndsInRelease(log: seq<Event>, key: string, i: nat, r: nat, n: nat)
    requires i < n <= |log| && log[i] == Forwarded(key, r) && Scan(log, key).Some?
    ensures || Scan(log[..n], key) == Some(InFlight(r))
            || (Scan(log[..n], key) == Some(Erred(r)) && ErredAfter(log, key, i, r, n))
            || Scan(log[..n], key) == Some(Sealed)
            || Released(log, key, i, r, n)
  {
    ScanPrefix(log, key, n);
    ScanPrefix(log, key, n - 1);
    assert log[..n][..n - 1] == log[..n - 1];
    if n > i + 1 {
      FlightEndsInRelease(log, key, i, r, n - 1);
      ReleasedLater(log, key, i, r, n - 1, n);
      if log[n - 1] == Expired(key) || (log[n - 1] == Deleted(key, r) && ErredAfter(log, key, i, r, n - 1)) {
        assert Released(log, key, i, r, n);
      }
    }
  }

  /** Two forwards of one key are separated by the earlier one's server error and its delete, or by an expiry. */
  lemma ForwardsAreSeparated(ls: seq<Label>, key: string, i: nat, j: nat, r1: nat, r2: nat)
    requires Execute(ls).Some? && QuietExpiries(ls, key)
    requires i < j < |Execute(ls).value.log|
    requires Execute(ls).value.log[i] == Forwarded(key, r1) && Execute(ls).value.log[j] == Forwarded(key, r2)
    ensures Released(Execute(ls).value.log, key, i, r1, j)
  {
    var log := Execute(ls).value.log;
    ReachableKeyInv(ls, key);
    FlightEndsInRelease(log, key, i, r1, j);
    ScanPrefix(log, key, j + 1);
    assert log[..j + 1][..j] == log[..j];
  }

  /** The key expired between positions i and n. */
  ghost predicate ExpiredBetween(log: seq<Event>, key: string, i: nat, n: nat)
    requires n <= |log|
  {
    exists b :: i < b < n && log[b] == Expired(key)
  }

  lemma {:induction false} SealedUntilExpiry(log: seq<Event>, key: string, i: nat, n: nat)
    requires i < n <= |log| && Scan(log, key).Some? && Scan(log[..i + 1], key) == Some(Sealed)
    ensures Scan(log[..n], key) == Some(Sealed) || ExpiredBetween(log, key, i, n)
  {
    if i + 1 < n {
      SealedUntilExpiry(log, key, i, n - 1);
      ScanPrefix(log, key, n);
      assert log[..n][..n - 1] == log[..n - 1];
      if ExpiredBetween(log, key, i, n - 1) {
        var b :| i < b < n - 1 && log[b] == Expired(key);
        assert ExpiredBetween(log, key, i, n);
      } else if log[n - 1].key == key {
        assert log[n - 1].Expired?;
        assert ExpiredBetween(log, key, i, n);
      }
    }
  }

  /** After an answer other than a server error nothing happens under the key until it expires. */
  lemma AtMostOneSuccess(ls: seq<Label>, key: string, i: nat, j: nat)
    requires Execute(ls).Some? && QuietExpiries(ls, key)
    requires i < j < |Execute(ls).value.log|
    requires var e := Execute(ls).value.log[i]; e.Answered? && e.key == key && e.status < 500
    requires Execute(ls).value.log[j].key == key
    ensures ExpiredBetween(Execute(ls).value.log, key, i, j + 1)
  {
    var log := Execute(ls).value.log;
    ReachableKeyInv(ls, key);
    ScanPrefix(log, key, i + 1);
    assert log[..i + 1][..i] == log[..i];
    SealedUntilExpiry(log, key, i, j + 1);
    ScanPrefix(log, key, j + 1);
    assert log[..j + 1][..j] == log[..j];
    SealedUntilExpiry(log, key, i, j);
    if ExpiredBetween(log, key, i, j) {
      var b :| i < b < j && log[b] == Expired(key);
      assert ExpiredBetween(log, key, i, j + 1);
    }
  }

  // ---- Exactly when at most one request is in flight

  lemma Then(ls: seq<Label>, l: Label)
    requires Execute(ls).Some? && Enabled(Execute(ls).value, l)
    ensures Execute(ls + [l]) == Some(Apply(Execute(ls).value, l))
  {
    assert (ls + [l])[..|ls|] == ls;
  }

  /** A fresh request with the key arrives and is checked. */
  lemma NextRequest(ls: seq<Label>, tenant: string, k: string) returns (next: nat, s: State)
    requires Execute(ls).Some?
    ensures next !in Execute(ls).value.requests
    ensures Execute(ls + [Arrive(next, tenant, k), Check(next)]) == Some(s) && next in s.requests
    ensures s.requests == Execute(ls).value.requests[next := Request(
              ScopedKey(tenant, k), if ScopedKey(tenant, k) in Execute(ls).value.store then Refused else Forwarding)]
  {
    next := UnusedNumber(Execute(ls).value.requests.Keys);
    assert next !in Execute(ls).value.requests;
    Then(ls, Arrive(next, tenant, k));
    Then(ls + [Arrive(next, tenant, k)], Check(next));
    assert ls + [Arrive(next, tenant, k)] + [Check(next)] == ls + [Arrive(next, tenant, k), Check(next)];
    s := Execute(ls + [Arrive(next, tenant, k), Check(next)]).value;
  }

  /**
   * Once a request is answered, the next one with its key is forwarded if the answer was a server error
   * and the key was deleted, and refused if it was not a server error; the key is deleted in no other case.
   */
  lemma RetryIffServerError(ls: seq<Label>, r: nat, status: int, tenant: string, k: string)
    returns (answered: seq<Label>, next: nat)
    requires Execute(ls).Some? && QuietExpiries(ls, ScopedKey(tenant, k))
    requires Enabled(Execute(ls).value, Respond(r, status))
    requires Execute(ls).value.requests[r].key == ScopedKey(tenant, k)
    ensures answered == ls + [Respond(r, status)] + (if status >= 500 then [Delete(r)] else [])
    ensures Execute(answered).Some?
    ensures Enabled(Execute(ls + [Respond(r, status)]).value, Delete(r)) <==> status >= 500
    ensures var s := Execute(answered + [Arrive(next, tenant, k), Check(next)]);
            && next !in Execute(answered).value.requests && s.Some? && next in s.value.requests
            && (s.value.requests[next].phase.Forwarding? <==> status >= 500)
            && (s.value.requests[next].phase.Refused? <==> status < 500)
  {
    var key := ScopedKey(tenant, k);
    ReachableKeyInv(ls, key);
    assert key in Execute(ls).value.store;
    Then(ls, Respond(r, status));
    answered := ls + [Respond(r, status)];
    if status >= 500 {
      Then(answered, Delete(r));
      answered := answered + [Delete(r)];
    } else {
      assert answered == answered + [];
    }
    var s;
    next, s := NextRequest(answered, tenant, k);
  }

  /** The key does not expire in these steps. */
  predicate NoExpiryOf(ls: seq<Label>, key: string) {
    Expire(key) !in ls
  }

  lemma {:induction false} QuietExtension(ls: seq<Label>, ext: seq<Label>, key: string)
    requires QuietExpiries(ls, key) && NoExpiryOf(ext, key)
    ensures QuietExpiries(ls + ext, key)
  {
    if ext == [] {
      assert ls + ext == ls;
    } else {
      assert (ls + ext)[..|ls + ext| - 1] == ls + ext[..|ext| - 1];
      assert ext == ext[..|ext| - 1] + [ext[|ext| - 1]];
      QuietExtension(ls, ext[..|ext| - 1], key);
    }
  }

  lemma {:induction false} QuietPrefix(ls: seq<Label>, key: string, n: nat)
    requires n <= |ls| && QuietExpiries(ls, key)
    ensures QuietExpiries(ls[..n], key)
  {
    if n < |ls| {
      QuietPrefix(ls[..|ls| - 1], key, n);
      assert ls[..|ls| - 1][..n] == ls[..n];
    } else {
      assert ls[..n] == ls;
    }
  }

  /** The first expiry that hits a live request. */
  lemma {:induction false} UnquietExpiry(ls: seq<Label>, key: string) returns (n: nat, r: nat)
    requires Execute(ls).Some? && !QuietExpiries(ls, key)
    ensures n < |ls| && ls[n] == Expire(key) && Execute(ls[..n]).Some? && Execute(ls[..n + 1]).Some?
    ensures Live(Execute(ls[..n]).value, r) && Execute(ls[..n]).value.requests[r].key == key
  {
    var last := |ls| - 1;
    if QuietExpiries(ls[..last], key) {
      n := last;
      assert ls[..n + 1] == ls;
      r :| Live(Execute(ls[..n]).value, r) && Execute(ls[..n]).value.requests[r].key == key;
    } else {
      n, r := UnquietExpiry(ls[..last], key);
      assert ls[..last][..n] == ls[..n] && ls[..last][..n + 1] == ls[..n + 1];
    }
  }

  /** A request that comes after such an expiry is let through beside the live one. */
  lemma ExpiryAdmitsASecond(ls: seq<Label>, tenant: string, k: string, r: nat) returns (second: nat)
    requires Execute(ls).Some? && Live(Execute(ls).value, r)
    requires Execute(ls).value.requests[r].key == ScopedKey(tenant, k)
    requires ScopedKey(tenant, k) !in Execute(ls).value.store
    ensures Execute(ls + [Arrive(second, tenant, k), Check(second)]).Some?
    ensures !OneLive(Execute(ls + [Arrive(second, tenant, k), Check(second)]).value, ScopedKey(tenant, k))
  {
    var s;
    second, s := NextRequest(ls, tenant, k);
    assert Live(s, r) && Live(s, second) && r != second;
    assert s.requests[r].key == s.requests[second].key;
  }

  /** No moment of the run lets two requests with the key be live together before the key expires again. */
  ghost predicate NeverTwo(ls: seq<Label>, key: string) {
    forall n: nat, ext :: n <= |ls| && NoExpiryOf(ext, key) && Execute(ls[..n] + ext).Some? ==>
      OneLive(Execute(ls[..n] + ext).value, key)
  }

  lemma QuietMeansOne(ls: seq<Label>, key: string)
    requires Execute(ls).Some? && QuietExpiries(ls, key)
    ensures NeverTwo(ls, key)
  {
    forall n: nat, ext | n <= |ls| && NoExpiryOf(ext, key) && Execute(ls[..n] + ext).Some?
      ensures OneLive(Execute(ls[..n] + ext).value, key)
    {
      QuietPrefix(ls, key, n);
      QuietExtension(ls[..n], ext, key);
      AtMostOneInFlight(ls[..n] + ext, key);
    }
  }

  lemma UnquietMeansTwo(ls: seq<Label>, tenant: string, k: string) returns (n: nat, ext: seq<Label>)
    requires Execute(ls).Some? && !QuietExpiries(ls, ScopedKey(tenant, k))
    ensures n <= |ls| && NoExpiryOf(ext, ScopedKey(tenant, k)) && Execute(ls[..n] + ext).Some?
    ensures !OneLive(Execute(ls[..n] + ext).value, ScopedKey(tenant, k))
  {
    var last, r := UnquietExpiry(ls, ScopedKey(tenant, k));
    n := last + 1;
    assert ls[..n][..last] == ls[..last];
    var second := ExpiryAdmitsASecond(ls[..n], tenant, k, r);
    ext := [Arrive(second, tenant, k), Check(second)];
  }

  /**
   * Over all time, however often keys expire: a run can at no moment be continued to two live
   * requests with a key if and only if that key has never expired under a live request.
   */
  lemma AtMostOneInFlightIff(ls: seq<Label>, tenant: string, k: string)
    requires Execute(ls).Some?
    ensures QuietExpiries(ls, ScopedKey(tenant, k)) <==> NeverTwo(ls, ScopedKey(tenant, k))
  {
    var key := ScopedKey(tenant, k);
    if QuietExpiries(ls, key) {
      QuietMeansOne(ls, key);
    } else {
      var n, ext := UnquietMeansTwo(ls, tenant, k);
    }
  }
}
