/** The recovery scan: a stale execution is enqueued while its lock is held, or skipped. */
module Recovery {
  import opened Options
  import L = RedisLock
  import P = Protocol

  const LOCK_TTL := 30

  type Locks = map<nat, L.Entry>

  function LockOf(locks: Locks, id: nat): Option<L.Entry> {
    if id in locks then Some(locks[id]) else None
  }

  function WithLock(locks: Locks, id: nat, entry: Option<L.Entry>): Locks {
    if entry.Some? then locks[id := entry.value] else locks - {id}
  }

  /** Somebody holds the lock of the execution. */
  predicate Held(locks: Locks, id: nat, now: real) {
    L.Visible(LockOf(locks, id), now).Some?
  }

  /** The stale executions found unlocked, each at its own time. */
  function Unlocked(locks: Locks, stale: seq<nat>, clock: seq<real>): seq<nat>
    requires |clock| == |stale|
  {
    if stale == [] then []
    else
      var last := |stale| - 1;
      Unlocked(locks, stale[..last], clock[..last])
      + (if Held(locks, stale[last], clock[last]) then [] else [stale[last]])
  }

  predicate NonDecreasing(clock: seq<real>) {
    forall i, j :: 0 <= i < j < |clock| ==> clock[i] <= clock[j]
  }

  class RecoveryHandler {
    var locks: Locks        // the lock keys, by execution
    var queue: seq<nat>     // enqueued tasks

    constructor (locks: Locks)
      ensures this.locks == locks && queue == []
    {
      this.locks, queue := locks, [];
    }

    /** False where the source catches LockAcquisitionError. The lock is taken at `now`, released by `later`. */
    method TryRecover(id: nat, token: nat, now: real, later: real) returns (recovered: bool)
      requires now <= later
      modifies this
      ensures recovered <==> !Held(old(locks), id, now)
      ensures queue == old(queue) + (if recovered then [id] else [])
      ensures locks == if recovered then old(locks) - {id} else old(locks)
    {
      var key := new L.LockKey();
      key.entry := LockOf(locks, id);
      recovered := key.Acquire(token, LOCK_TTL, now);
      if recovered {
        locks := WithLock(locks, id, key.entry);
        Enqueue(id, token, now);
        key.Release(token, later);
        locks := WithLock(locks, id, key.entry);
      }
    }

    /** The task is enqueued while the caller holds the execution's lock. */
    method Enqueue(id: nat, token: nat, now: real)
      requires Held(locks, id, now) && locks[id].token == token
      modifies this`queue
      ensures queue == old(queue) + [id]
    {
      queue := queue + [id];
    }

    /** One scan enqueues exactly the stale executions nobody holds the lock of. */
    method RunOnce(stale: seq<nat>, clock: seq<real>, token: nat)
      requires |clock| == |stale| && NonDecreasing(clock)
      modifies this
      ensures queue == old(queue) + Unlocked(old(locks), stale, clock)
      ensures forall id, now :: (forall i :: 0 <= i < |clock| ==> clock[i] <= now) ==>
                (Held(locks, id, now) <==> Held(old(locks), id, now))
    {
      for k := 0 to |stale|
        invariant queue == old(queue) + Unlocked(old(locks), stale[..k], clock[..k])
        invariant forall id, now :: (forall i :: 0 <= i < k ==> clock[i] <= now) ==>
                    (Held(locks, id, now) <==> Held(old(locks), id, now))
      {
        assert stale[..k + 1][..k] == stale[..k] && clock[..k + 1][..k] == clock[..k];
        ghost var before := locks;
        var recovered := TryRecover(stale[k], token, clock[k], clock[k]);
        forall id, now | forall i :: 0 <= i < k + 1 ==> clock[i] <= now
          ensures Held(locks, id, now) <==> Held(old(locks), id, now)
        {
          assert clock[k] <= now;
          assert Held(before, id, now) <==> Held(old(locks), id, now);
        }
      }
      assert stale[..|stale|] == stale && clock[..|clock|] == clock;
    }
  }

  /** The scan enqueues an execution iff it finds it unlocked: nobody alive is disturbed, nobody dead is missed. */
  lemma {:induction false} ScanFindsTheUnlocked(locks: Locks, stale: seq<nat>, clock: seq<real>, id: nat)
    requires |clock| == |stale|
    ensures id in Unlocked(locks, stale, clock) <==>
            exists k :: 0 <= k < |stale| && stale[k] == id && !Held(locks, id, clock[k])
  {
    if stale != [] {
      var last := |stale| - 1;
      ScanFindsTheUnlocked(locks, stale[..last], clock[..last], id);
      if k :| 0 <= k < |stale| && stale[k] == id && !Held(locks, id, clock[k]) {
        assert k < last ==> stale[..last][k] == id && clock[..last][k] == clock[k];
      }
      if k :| 0 <= k < last && stale[..last][k] == id && !Held(locks, id, clock[..last][k]) {
        assert stale[k] == id && clock[k] == clock[..last][k];
      }
    }
  }

  /** To the protocol a recovered execution is one more task in the queue, and nothing else. */
  lemma RecoveryIsAnEnqueue(c: P.Config, s: P.State, w: nat)
    requires P.BodyFree(s) && w !in s.workers
    ensures P.Leads(c, s, s.(queue := s.queue + 1))
  {
    P.LeadsNowhere(c, s);
    P.LeadsStep(c, s, s, P.BeginRecovery(w));
    var s1 := P.Apply(c, s, P.BeginRecovery(w));
    P.LeadsStep(c, s, s1, P.EnqueueRecovered(w));
    var s2 := P.Apply(c, s1, P.EnqueueRecovered(w));
    P.LeadsStep(c, s, s2, P.Abort(w));
    assert P.Apply(c, s2, P.Abort(w)).workers == s.workers;
  }
}
