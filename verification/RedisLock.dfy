/**
 * The distributed lock: one Redis key with a token and an expiry, a heartbeat that
 * renews it with a GET followed by a separate EXPIRE, and an atomic compare-and-delete.
 */
module RedisLock {
  import opened Options

  datatype Entry = Entry(token: nat, expiry: real)

  /** What a command sees: an expired key is not there. */
  function Visible(key: Option<Entry>, now: real): Option<Entry> {
    if key.Some? && now < key.value.expiry then key else None
  }

  /** SET key token NX EX ttl. */
  function SetNx(key: Option<Entry>, now: real, token: nat, ttl: nat): Option<Entry> {
    if Visible(key, now).None? then Some(Entry(token, now + ttl as real)) else key
  }

  /** EXPIRE key ttl, whoever owns the key. */
  function Prolong(key: Option<Entry>, now: real, ttl: nat): Option<Entry> {
    match Visible(key, now)
    case None => None
    case Some(e) => Some(e.(expiry := now + ttl as real))
  }

  /** The release script: delete the key if it still holds our token. */
  function DeleteIfOwned(key: Option<Entry>, now: real, token: nat): Option<Entry> {
    match Visible(key, now)
    case None => None
    case Some(e) => if e.token == token then None else Some(e)
  }

  /** Seconds the heartbeat sleeps between two renewals. */
  function Interval(ttl: nat): real {
    if ttl as real / 2.0 > 1.0 then ttl as real / 2.0 else 1.0
  }

  /** The key as the lock client sees it, command by command. */
  class LockKey {
    var entry: Option<Entry>

    constructor ()
      ensures entry == None
    {
      entry := None;
    }

    /** Returns false where the client raises LockAcquisitionError. */
    method Acquire(token: nat, ttl: nat, now: real) returns (acquired: bool)
      modifies this
      ensures acquired <==> Visible(old(entry), now).None?
      ensures entry == SetNx(old(entry), now, token, ttl)
      ensures entry == if acquired then Some(Entry(token, now + ttl as real)) else old(entry)
    {
      acquired := entry.None? || now >= entry.value.expiry;
      if acquired {
        entry := Some(Entry(token, now + ttl as real));
      }
    }

    /** The first half of a renewal: whether the heartbeat goes on to EXPIRE or stops. */
    method ReadOwn(token: nat, now: real) returns (own: bool)
      ensures own <==> Visible(entry, now).Some? && entry.value.token == token
    {
      own := false;
      if entry.Some? && now < entry.value.expiry {
        own := entry.value.token == token;
      }
    }

    /** The second half. By now the key may be gone or somebody else's. */
    method Renew(ttl: nat, now: real)
      modifies this
      ensures entry == Prolong(old(entry), now, ttl)
    {
      if entry.Some? && now < entry.value.expiry {
        entry := Some(entry.value.(expiry := now + ttl as real));
      } else {
        entry := None;
      }
    }

    method Release(token: nat, now: real)
      modifies this
      ensures entry == DeleteIfOwned(old(entry), now, token)
      ensures forall e :: Visible(old(entry), now) == Some(e) ==> entry == if e.token == token then None else Some(e)
    {
      if entry.None? || now >= entry.value.expiry || entry.value.token == token {
        entry := None;
      }
    }
  }

  // ---- The lock with all its clients, as a timed transition system

  /** Where a client that got the lock is; Stopped means its heartbeat has given up. */
  datatype Heartbeat = Sleeping | ReadOwnToken | Stopped

  /** `roundStart` is when the current renewal round's sleep began. */
  datatype Holder = Holder(heartbeat: Heartbeat, roundStart: real)

  datatype Lease = Lease(
    now: real,
    key: Option<Entry>,
    holders: map<nat, Holder>,   // clients inside their critical section
    leaving: set<nat>,           // heartbeat cancelled, release script not run yet
    used: set<nat>,              // tokens are fresh UUIDs
    renewals: map<nat, real>     // history: when each token was last set or renewed by its client
  )

  const Idle := Lease(0.0, None, map[], {}, {}, map[])

  datatype Action =
    | Tick(d: real)
    | Take(t: nat)
    | Read(t: nat)
    | Expire(t: nat)
    | EndBody(t: nat)
    | Release(t: nat)
    | Die(t: nat)

  predicate CanAct(ttl: nat, s: Lease, a: Action) {
    match a
    case Tick(d) => d >= 0.0
    case Take(t) => t !in s.used && Visible(s.key, s.now).None?
    case Read(t) =>
      t in s.holders && s.holders[t].heartbeat.Sleeping? && s.now >= s.holders[t].roundStart + Interval(ttl)
    case Expire(t) => t in s.holders && s.holders[t].heartbeat.ReadOwnToken?
    case EndBody(t) => t in s.holders
    case Release(t) => t in s.leaving
    case Die(t) => t in s.holders || t in s.leaving
  }

  function Act(ttl: nat, s: Lease, a: Action): Lease
    requires CanAct(ttl, s, a)
  {
    match a
    case Tick(d) => s.(now := s.now + d)
    case Take(t) =>
      s.(key := SetNx(s.key, s.now, t, ttl), holders := s.holders[t := Holder(Sleeping, s.now)],
         used := s.used + {t}, renewals := s.renewals[t := s.now])
    case Read(t) =>
      var own := Visible(s.key, s.now).Some? && s.key.value.token == t;
      s.(holders := s.holders[t := s.holders[t].(heartbeat := if own then ReadOwnToken else Stopped)])
    case Expire(t) =>
      s.(key := Prolong(s.key, s.now, ttl), holders := s.holders[t := Holder(Sleeping, s.now)],
         renewals := s.renewals[t := s.now])
    case EndBody(t) => s.(holders := s.holders - {t}, leaving := s.leaving + {t})
    case Release(t) => s.(key := DeleteIfOwned(s.key, s.now, t), leaving := s.leaving - {t})
    case Die(t) => s.(holders := s.holders - {t}, leaving := s.leaving - {t})
  }

  /** Every client inside its critical section has finished its last renewal round in time. */
  ghost predicate Timely(ttl: nat, s: Lease) {
    forall t :: t in s.holders ==> s.now < s.holders[t].roundStart + ttl as real
  }

  function Perform(ttl: nat, acts: seq<Action>): Option<Lease> {
    if acts == [] then Some(Idle)
    else
      match Perform(ttl, acts[..|acts| - 1])
      case None => None
      case Some(s) => if CanAct(ttl, s, acts[|acts| - 1]) then Some(Act(ttl, s, acts[|acts| - 1])) else None
  }

  /** Every state of the run, from the initial one to the last, is timely. */
  ghost predicate TimelyRun(ttl: nat, acts: seq<Action>) {
    && Perform(ttl, acts).Some?
    && Timely(ttl, Perform(ttl, acts).value)
    && (acts == [] || TimelyRun(ttl, acts[..|acts| - 1]))
  }

  // ---- Without any timing assumption

  ghost predicate KeyInv(ttl: nat, s: Lease) {
    s.key.Some? ==> s.key.value.token in s.used && s.key.value.expiry <= s.now + ttl as real
  }

  lemma {:induction false} ReachableKeyInv(ttl: nat, acts: seq<Action>)
    requires Perform(ttl, acts).Some?
    ensures KeyInv(ttl, Perform(ttl, acts).value)
  {
    if acts != [] {
      ReachableKeyInv(ttl, acts[..|acts| - 1]);
    }
  }

  /**
   * However late the clients are: a visible key keeps its owner and is never shortened,
   * except by its owner's own release. No release deletes another client's key.
   */
  lemma OnlyOwnersRelease(ttl: nat, acts: seq<Action>, a: Action, e: Entry)
    requires Perform(ttl, acts).Some? && CanAct(ttl, Perform(ttl, acts).value, a)
    requires Visible(Perform(ttl, acts).value.key, Perform(ttl, acts).value.now) == Some(e)
    requires a != Release(e.token)
    ensures var s' := Act(ttl, Perform(ttl, acts).value, a);
            && s'.key.Some? && s'.key.value.token == e.token && s'.key.value.expiry >= e.expiry
  {
    ReachableKeyInv(ttl, acts);
  }

  // ---- With renewal rounds finished in time

  /** A client inside its critical section owns the key until its round's deadline. */
  ghost predicate Owned(ttl: nat, s: Lease) {
    && (forall t :: t in s.holders ==>
          && !s.holders[t].heartbeat.Stopped?
          && s.key == Some(Entry(t, s.holders[t].roundStart + ttl as real)))
    && (s.key.Some? ==>
          && s.key.value.token in s.used && s.key.value.token in s.renewals
          && s.key.value.expiry == s.renewals[s.key.value.token] + ttl as real)
    && (forall t :: t in s.leaving ==> t in s.used && t !in s.holders)
  }

  lemma TimelyStepKeepsOwned(ttl: nat, s: Lease, a: Action)
    requires Owned(ttl, s) && Timely(ttl, s) && CanAct(ttl, s, a)
    ensures Owned(ttl, Act(ttl, s, a))
  {
    match a
    case Take(t) => assert forall u :: u !in s.holders;
    case Read(t) => assert Visible(s.key, s.now).Some?;
    case Expire(t) => assert Visible(s.key, s.now).Some?;
    case _ =>
  }

  lemma {:induction false} TimelyRunsOwn(ttl: nat, acts: seq<Action>)
    requires TimelyRun(ttl, acts)
    ensures Owned(ttl, Perform(ttl, acts).value)
  {
    if acts != [] {
      TimelyRunsOwn(ttl, acts[..|acts| - 1]);
      TimelyStepKeepsOwned(ttl, Perform(ttl, acts[..|acts| - 1]).value, acts[|acts| - 1]);
    }
  }

  /**
   * Mutual exclusion: in a timely run two clients are never inside their critical sections
   * together, and nobody can take the lock while one is.
   */
  lemma MutualExclusion(ttl: nat, acts: seq<Action>, t: nat, u: nat)
    requires TimelyRun(ttl, acts) && t in Perform(ttl, acts).value.holders
    ensures u in Perform(ttl, acts).value.holders ==> u == t
    ensures !CanAct(ttl, Perform(ttl, acts).value, Take(u))
  {
    TimelyRunsOwn(ttl, acts);
  }

  /**
   * The assumption cannot be weakened: when time passes in a timely state, the lock becomes
   * free for others exactly when some client inside its critical section has become late.
   */
  lemma FreeIffLate(ttl: nat, acts: seq<Action>, t: nat, d: real)
    requires TimelyRun(ttl, acts) && t in Perform(ttl, acts).value.holders && d >= 0.0
    ensures var s' := Act(ttl, Perform(ttl, acts).value, Tick(d));
            Visible(s'.key, s'.now).None? <==> !Timely(ttl, s')
  {
    TimelyRunsOwn(ttl, acts);
    var s' := Act(ttl, Perform(ttl, acts).value, Tick(d));
    assert s'.key == Some(Entry(t, s'.holders[t].roundStart + ttl as real));
  }

  /** t's key is there. */
  predicate Holds(s: Lease, t: nat) {
    Visible(s.key, s.now).Some? && s.key.value.token == t
  }

  /** In every state of the run the key of a client inside its critical section keeps others out. */
  ghost predicate AlwaysExclusive(ttl: nat, acts: seq<Action>) {
    && (Perform(ttl, acts).Some? ==>
          var s := Perform(ttl, acts).value; forall t :: t in s.holders ==> Holds(s, t))
    && (acts == [] || AlwaysExclusive(ttl, acts[..|acts| - 1]))
  }

  /** Over whole runs: the lock keeps everybody else out throughout if and only if nobody is ever late. */
  lemma {:induction false} ExclusiveIffTimely(ttl: nat, acts: seq<Action>)
    requires Perform(ttl, acts).Some?
    ensures AlwaysExclusive(ttl, acts) <==> TimelyRun(ttl, acts)
  {
    if acts != [] {
      var front := acts[..|acts| - 1];
      ExclusiveIffTimely(ttl, front);
      if TimelyRun(ttl, front) {
        TimelyRunsOwn(ttl, front);
        TimelyStepKeepsOwned(ttl, Perform(ttl, front).value, acts[|acts| - 1]);
      }
    }
  }

  /**
   * A timely heartbeat can read its token in time exactly when the ttl is at least 2 seconds:
   * below that the sleep alone outlasts the lease.
   */
  lemma RenewableIffTtlAtLeastTwo(ttl: nat, acts: seq<Action>, t: nat)
    requires TimelyRun(ttl, acts) && t in Perform(ttl, acts).value.holders
    requires Perform(ttl, acts).value == Act(ttl, Idle, Take(t))
    ensures ttl >= 2 <==>
            exists d: real :: d >= 0.0 && var s' := Act(ttl, Perform(ttl, acts).value, Tick(d));
                              Timely(ttl, s') && CanAct(ttl, s', Read(t))
  {
    var s := Perform(ttl, acts).value;
    if ttl >= 2 {
      var s' := Act(ttl, s, Tick(Interval(ttl)));
      assert Timely(ttl, s') && CanAct(ttl, s', Read(t));
    }
  }

  /** A client takes the lock and renews it once after each of these waits. */
  function Renewals(t: nat, waits: seq<real>): seq<Action> {
    if waits == [] then [Take(t)]
    else Renewals(t, waits[..|waits| - 1]) + [Tick(waits[|waits| - 1]), Read(t), Expire(t)]
  }

  /** The wait outlasts the heartbeat's sleep, but not the lease. */
  predicate InTime(ttl: nat, wait: real) {
    wait >= ttl as real / 2.0 && wait >= 1.0 && wait < ttl as real
  }

  /** The state after a timely renewal at this time. */
  predicate Renewed(ttl: nat, s: Lease, t: nat) {
    && s.holders == map[t := Holder(Sleeping, s.now)] && s.key == Some(Entry(t, s.now + ttl as real))
    && s.leaving == {} && s.used == {t}
  }

  lemma Then(ttl: nat, acts: seq<Action>, a: Action)
    requires Perform(ttl, acts).Some? && CanAct(ttl, Perform(ttl, acts).value, a)
    ensures Perform(ttl, acts + [a]) == Some(Act(ttl, Perform(ttl, acts).value, a))
  {
    assert (acts + [a])[..|acts|] == acts;
  }

  lemma TimelyPrefix(ttl: nat, acts: seq<Action>, a: Action)
    ensures TimelyRun(ttl, acts + [a]) <==>
            TimelyRun(ttl, acts) && CanAct(ttl, Perform(ttl, acts).value, a)
            && Timely(ttl, Act(ttl, Perform(ttl, acts).value, a))
  {
    assert (acts + [a])[..|acts|] == acts;
  }

  lemma OneRenewal(ttl: nat, acts: seq<Action>, t: nat, wait: real)
    requires TimelyRun(ttl, acts) && Renewed(ttl, Perform(ttl, acts).value, t)
    ensures TimelyRun(ttl, acts + [Tick(wait), Read(t), Expire(t)]) <==> InTime(ttl, wait)
    ensures InTime(ttl, wait) ==> Renewed(ttl, Perform(ttl, acts + [Tick(wait), Read(t), Expire(t)]).value, t)
  {
    var a1 := acts + [Tick(wait)];
    var a2 := a1 + [Read(t)];
    assert acts + [Tick(wait), Read(t), Expire(t)] == a2 + [Expire(t)];
    TimelyPrefix(ttl, acts, Tick(wait));
    TimelyPrefix(ttl, a1, Read(t));
    TimelyPrefix(ttl, a2, Expire(t));
    assert a1[..|acts|] == acts && a2[..|a1|] == a1 && (a2 + [Expire(t)])[..|a2|] == a2;
  }

  /**
   * Any number of renewals by a client alone: the lock is held in time throughout iff every wait, the
   * sleep of max(ttl / 2, 1) included, stays below the ttl.
   */
  lemma {:induction false} PunctualIff(ttl: nat, t: nat, waits: seq<real>)
    ensures TimelyRun(ttl, Renewals(t, waits)) <==> ttl > 0 && forall w :: w in waits ==> InTime(ttl, w)
    ensures TimelyRun(ttl, Renewals(t, waits)) ==> Renewed(ttl, Perform(ttl, Renewals(t, waits)).value, t)
  {
    if waits == [] {
      TimelyPrefix(ttl, [], Take(t));
      Then(ttl, [], Take(t));
      assert [] + [Take(t)] == [Take(t)];
    } else {
      var front, last := waits[..|waits| - 1], waits[|waits| - 1];
      PunctualIff(ttl, t, front);
      assert waits == front + [last];
      if TimelyRun(ttl, Renewals(t, front)) {
        OneRenewal(ttl, Renewals(t, front), t, last);
      } else {
        LateStaysLate(ttl, Renewals(t, front), Tick(last), Read(t), Expire(t));
      }
    }
  }

  lemma LateStaysLate(ttl: nat, acts: seq<Action>, a: Action, b: Action, c: Action)
    requires !TimelyRun(ttl, acts)
    ensures !TimelyRun(ttl, acts + [a, b, c])
  {
    assert acts + [a, b, c] == acts + [a] + [b] + [c];
    TimelyPrefix(ttl, acts, a);
    TimelyPrefix(ttl, acts + [a], b);
    TimelyPrefix(ttl, acts + [a] + [b], c);
  }

  // ---- How long an abandoned key lasts, without any timing assumption

  /** Whenever ttl has passed since t last set or renewed its key, t does not hold the lock. */
  ghost predicate GoneAfterTtl(ttl: nat, s: Lease, t: nat) {
    t in s.renewals ==>
      forall d: real :: d >= 0.0 && s.now + d >= s.renewals[t] + ttl as real ==> !Holds(Act(ttl, s, Tick(d)), t)
  }

  /** t's key, while visible, runs out ttl after t last set or renewed it. */
  predicate RunsOutInTime(ttl: nat, s: Lease, t: nat) {
    Holds(s, t) && t in s.renewals ==> s.key.value.expiry <= s.renewals[t] + ttl as real
  }

  lemma GoneIffRunsOut(ttl: nat, s: Lease, t: nat)
    ensures GoneAfterTtl(ttl, s, t) <==> RunsOutInTime(ttl, s, t)
  {
    if Holds(s, t) && t in s.renewals {
      var d := if s.now >= s.renewals[t] + ttl as real then 0.0 else s.renewals[t] + ttl as real - s.now;
      assert Act(ttl, s, Tick(d)).now == s.now + d;
      assert !RunsOutInTime(ttl, s, t) ==> Holds(Act(ttl, s, Tick(d)), t);
    }
  }

  /** The EXPIRE of another client that hits t's key after t last set or renewed it. */
  predicate ForeignRenewal(s: Lease, a: Action, t: nat) {
    a.Expire? && a.t != t && Holds(s, t) && t in s.renewals && s.now > s.renewals[t]
  }

  /** What is known of every state, however late the clients are. */
  ghost predicate RenewalInv(s: Lease) {
    && (s.key.Some? ==> s.key.value.token in s.used && s.key.value.token in s.renewals)
    && (forall t :: t in s.renewals ==> t in s.used && s.renewals[t] <= s.now)
    && (forall t :: t in s.holders || t in s.leaving ==> t in s.used)
  }

  lemma {:induction false} ReachableRenewalInv(ttl: nat, acts: seq<Action>)
    requires Perform(ttl, acts).Some?
    ensures RenewalInv(Perform(ttl, acts).value)
  {
    if acts != [] {
      ReachableRenewalInv(ttl, acts[..|acts| - 1]);
    }
  }

  /** One action takes the bound away exactly when it is a foreign renewal. */
  lemma BoundLostIff(ttl: nat, s: Lease, a: Action, t: nat)
    requires RenewalInv(s) && CanAct(ttl, s, a) && RunsOutInTime(ttl, s, t)
    ensures RunsOutInTime(ttl, Act(ttl, s, a), t) <==> !ForeignRenewal(s, a, t) || ttl == 0
  {
  }

  /** No foreign renewal of t's key happens in the run. */
  ghost predicate NoForeignRenewal(ttl: nat, acts: seq<Action>, t: nat) {
    acts == [] || (
      var front := acts[..|acts| - 1];
      && NoForeignRenewal(ttl, front, t)
      && (Perform(ttl, front).Some? ==> !ForeignRenewal(Perform(ttl, front).value, acts[|acts| - 1], t)))
  }

  /** In every state of the run t's key is gone ttl after its last renewal by t. */
  ghost predicate AlwaysGoneAfterTtl(ttl: nat, acts: seq<Action>, t: nat) {
    && (Perform(ttl, acts).Some? ==> GoneAfterTtl(ttl, Perform(ttl, acts).value, t))
    && (acts == [] || AlwaysGoneAfterTtl(ttl, acts[..|acts| - 1], t))
  }

  /**
   * Whatever the timing of the clients: throughout a run t's key is gone ttl after t last set or
   * renewed it if and only if no other client's EXPIRE ever hits it.
   */
  lemma {:induction false} AbandonedKeyExpiresIff(ttl: nat, acts: seq<Action>, t: nat)
    requires Perform(ttl, acts).Some?
    ensures AlwaysGoneAfterTtl(ttl, acts, t) <==> NoForeignRenewal(ttl, acts, t)
  {
    var s := Perform(ttl, acts).value;
    GoneIffRunsOut(ttl, s, t);
    if acts != [] {
      var front := acts[..|acts| - 1];
      AbandonedKeyExpiresIff(ttl, front, t);
      ReachableRenewalInv(ttl, front);
      NothingVisibleWithoutTtl(ttl, front);
      GoneIffRunsOut(ttl, Perform(ttl, front).value, t);
      if RunsOutInTime(ttl, Perform(ttl, front).value, t) {
        BoundLostIff(ttl, Perform(ttl, front).value, acts[|acts| - 1], t);
      }
    }
  }

  /** With a ttl of 0 no key is ever visible. */
  lemma {:induction false} NothingVisibleWithoutTtl(ttl: nat, acts: seq<Action>)
    requires Perform(ttl, acts).Some?
    ensures ttl == 0 ==> Visible(Perform(ttl, acts).value.key, Perform(ttl, acts).value.now).None?
  {
    if acts != [] {
      NothingVisibleWithoutTtl(ttl, acts[..|acts| - 1]);
    }
  }

  /** In a timely run only the owner's heartbeat gets to its EXPIRE. */
  lemma {:induction false} TimelyRunsRenewTheirOwn(ttl: nat, acts: seq<Action>, t: nat)
    requires TimelyRun(ttl, acts)
    ensures NoForeignRenewal(ttl, acts, t)
  {
    if acts != [] {
      TimelyRunsRenewTheirOwn(ttl, acts[..|acts| - 1], t);
      TimelyRunsOwn(ttl, acts[..|acts| - 1]);
    }
  }

  /** So there a crashed client's key is gone ttl after its last renewal. */
  lemma TimelyAbandonedKeyExpires(ttl: nat, acts: seq<Action>, t: nat)
    requires TimelyRun(ttl, acts)
    ensures AlwaysGoneAfterTtl(ttl, acts, t)
  {
    TimelyRunsRenewTheirOwn(ttl, acts, t);
    AbandonedKeyExpiresIff(ttl, acts, t);
  }

  // ---- When a foreign key can be renewed

  /** Somebody took the lock after position m of the run. */
  ghost predicate TakenSince(acts: seq<Action>, m: nat) {
    exists j :: m < j < |acts| && acts[j].Take?
  }

  /** At position m of the run u's heartbeat read the key and found its own token. */
  ghost predicate ReadAt(ttl: nat, acts: seq<Action>, m: nat, u: nat) {
    m < |acts| && acts[m] == Read(u) && Perform(ttl, acts[..m]).Some? && Holds(Perform(ttl, acts[..m]).value, u)
  }

  /** A heartbeat about to renew has read its own token; the key is another's only if it was taken since. */
  lemma {:induction false} ReadersOwned(ttl: nat, acts: seq<Action>, u: nat) returns (m: nat)
    requires Perform(ttl, acts).Some? && u in Perform(ttl, acts).value.holders
    requires Perform(ttl, acts).value.holders[u].heartbeat.ReadOwnToken?
    ensures ReadAt(ttl, acts, m, u)
    ensures var key := Perform(ttl, acts).value.key; key.None? || key.value.token == u || TakenSince(acts, m)
  {
    var last := |acts| - 1;
    var s := Perform(ttl, acts[..last]).value;
    if acts[last] == Read(u) {
      m := last;
    } else {
      m := ReadersOwned(ttl, acts[..last], u);
      assert acts[..last][..m] == acts[..m] && acts[..last][m] == acts[m];
      if TakenSince(acts[..last], m) {
        var j :| m < j < last && acts[..last][j].Take?;
        assert acts[j].Take?;
      } else if acts[last].Take? {
        assert TakenSince(acts, m);
      }
    }
  }

  /** So an EXPIRE hits another client's key only when the lock was taken between it and the GET before it. */
  lemma ForeignRenewalIsARace(ttl: nat, acts: seq<Action>, u: nat, t: nat) returns (m: nat)
    requires Perform(ttl, acts).Some? && CanAct(ttl, Perform(ttl, acts).value, Expire(u))
    requires t != u && Holds(Perform(ttl, acts).value, t)
    ensures ReadAt(ttl, acts, m, u) && TakenSince(acts, m)
  {
    m := ReadersOwned(ttl, acts, u);
  }

  // ---- What happens to late clients

  /** A client delayed between GET and EXPIRE loses the lease: two clients are inside at once. */
  lemma LateTakeover() returns (acts: seq<Action>)
    ensures Perform(30, acts) == Some(Lease(
              30.0, Some(Entry(1, 60.0)), map[0 := Holder(ReadOwnToken, 0.0), 1 := Holder(Sleeping, 30.0)],
              {}, {0, 1}, map[0 := 0.0, 1 := 30.0]))
  {
    Then(30, [], Take(0));
    acts := [] + [Take(0)];
    Then(30, acts, Tick(15.0));
    acts := acts + [Tick(15.0)];
    Then(30, acts, Read(0));
    acts := acts + [Read(0)];
    Then(30, acts, Tick(15.0));
    acts := acts + [Tick(15.0)];
    Then(30, acts, Take(1));
    acts := acts + [Take(1)];
    var s := Perform(30, acts).value;
    assert s.holders == map[0 := Holder(ReadOwnToken, 0.0), 1 := Holder(Sleeping, 30.0)];
    assert s.used == {0, 1} && s.renewals == map[0 := 0.0, 1 := 30.0];
  }

  /**
   * GET and EXPIRE are not atomic: the late client then prolongs the key of the one that took
   * over, whose crash leaves the key alive past ttl after its last renewal.
   */
  lemma LateExpireProlongsForeignKey() returns (acts: seq<Action>)
    ensures Perform(30, acts).Some?
    ensures var s := Perform(30, acts).value;
            && 1 !in s.holders && 1 in s.renewals && s.now >= s.renewals[1] + 30.0
            && Visible(s.key, s.now).Some? && s.key.value.token == 1
  {
    acts := LateTakeover();
    Then(30, acts, Die(1));
    acts := acts + [Die(1)];
    Then(30, acts, Tick(15.0));
    acts := acts + [Tick(15.0)];
    Then(30, acts, Expire(0));
    acts := acts + [Expire(0)];
    Then(30, acts, Tick(15.0));
    acts := acts + [Tick(15.0)];
  }
}
