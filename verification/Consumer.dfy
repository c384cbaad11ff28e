/**
 * The stream consumer: messages are delivered to the group, processed one by one, and
 * acknowledged; unacknowledged ones stay pending and are reclaimed later.
 */
module Consumer {
  import opened Options

  /** Malformed: a known event type whose payload does not validate. */
  datatype Kind = Known | Unknown | Malformed

  /** One processing attempt: whether its transaction and its acknowledgement fail. */
  datatype Attempt = Attempt(id: nat, dbFails: bool, ackFails: bool)

  datatype Group = Group(delivered: set<nat>, pending: set<nat>, acked: set<nat>, committed: set<nat>)

  type Kinds = nat -> Kind

  /** The exceptions that leave `_process_one`: failed validation, and a failed ack of an unknown type. */
  predicate Raises(kinds: Kinds, a: Attempt) {
    kinds(a.id).Malformed? || (kinds(a.id).Unknown? && a.ackFails)
  }

  predicate Commits(kinds: Kinds, a: Attempt) {
    kinds(a.id).Known? && !a.dbFails
  }

  predicate Acks(kinds: Kinds, a: Attempt) {
    !a.ackFails && (kinds(a.id).Unknown? || Commits(kinds, a))
  }

  function Process(kinds: Kinds, g: Group, a: Attempt): Group {
    g.(committed := if Commits(kinds, a) then g.committed + {a.id} else g.committed,
       acked := if Acks(kinds, a) then g.acked + {a.id} else g.acked,
       pending := if Acks(kinds, a) then g.pending - {a.id} else g.pending)
  }

  /** How many messages of a batch are processed before one raises. */
  function Reached(kinds: Kinds, batch: seq<Attempt>): nat {
    if batch == [] || Raises(kinds, batch[0]) then 0 else 1 + Reached(kinds, batch[1..])
  }

  function ProcessAll(kinds: Kinds, g: Group, batch: seq<Attempt>): Group {
    if batch == [] then g else Process(kinds, ProcessAll(kinds, g, batch[..|batch| - 1]), batch[|batch| - 1])
  }

  /** The first raising message ends the batch; the rest of it stays pending. */
  function ProcessBatch(kinds: Kinds, g: Group, batch: seq<Attempt>): Group {
    ReachedInBounds(kinds, batch);
    ProcessAll(kinds, g, batch[..Reached(kinds, batch)])
  }

  lemma {:induction false} ReachedInBounds(kinds: Kinds, batch: seq<Attempt>)
    ensures Reached(kinds, batch) <= |batch|
    ensures Reached(kinds, batch) < |batch| ==> Raises(kinds, batch[Reached(kinds, batch)])
    ensures forall i :: 0 <= i < Reached(kinds, batch) ==> !Raises(kinds, batch[i])
  {
    if batch != [] && !Raises(kinds, batch[0]) {
      ReachedInBounds(kinds, batch[1..]);
      forall i | 0 <= i < Reached(kinds, batch) ensures !Raises(kinds, batch[i]) {
        assert i > 0 ==> batch[i] == batch[1..][i - 1];
      }
    }
  }

  // ---- What a batch does, message by message

  /** The attempt is one of the first n of the batch, of this message. */
  predicate AttemptAt(batch: seq<Attempt>, n: nat, i: nat, id: nat) {
    i < n && i < |batch| && batch[i].id == id
  }

  /** A transaction of the message committed: a known event whose database work did not fail. */
  ghost predicate CommittedBy(kinds: Kinds, batch: seq<Attempt>, n: nat, id: nat) {
    exists i: nat :: AttemptAt(batch, n, i, id) && kinds(id) == Known && !batch[i].dbFails
  }

  /** An ack of the message got through: of an unknown type, or of a known event in an attempt that committed. */
  ghost predicate AckedBy(kinds: Kinds, batch: seq<Attempt>, n: nat, id: nat) {
    exists i: nat :: AttemptAt(batch, n, i, id) && !batch[i].ackFails
                     && (kinds(id) == Unknown || (kinds(id) == Known && !batch[i].dbFails))
  }

  /** The n-th attempt is the first to raise, or none does: malformed payloads do, and failed acks of unknown types. */
  predicate StopsAt(kinds: Kinds, batch: seq<Attempt>, n: nat) {
    && n <= |batch|
    && (forall i :: 0 <= i < n ==> kinds(batch[i].id) == Known || (kinds(batch[i].id) == Unknown && !batch[i].ackFails))
    && (n < |batch| ==> kinds(batch[n].id) == Malformed || (kinds(batch[n].id) == Unknown && batch[n].ackFails))
  }

  /** Acked and committed are exactly the messages with such an attempt; everything else stays as it was. */
  ghost predicate Processed(kinds: Kinds, g: Group, g': Group, batch: seq<Attempt>, n: nat) {
    && g'.delivered == g.delivered
    && (forall id :: id in g'.committed <==> id in g.committed || CommittedBy(kinds, batch, n, id))
    && (forall id :: id in g'.acked <==> id in g.acked || AckedBy(kinds, batch, n, id))
    && (forall id :: id in g'.pending <==> id in g.pending && !AckedBy(kinds, batch, n, id))
  }

  lemma OneMoreAttempt(kinds: Kinds, batch: seq<Attempt>, n: nat, id: nat)
    requires n < |batch|
    ensures CommittedBy(kinds, batch, n + 1, id) <==>
            CommittedBy(kinds, batch, n, id) || (batch[n].id == id && kinds(id) == Known && !batch[n].dbFails)
    ensures AckedBy(kinds, batch, n + 1, id) <==>
            || AckedBy(kinds, batch, n, id)
            || (batch[n].id == id && !batch[n].ackFails
                && (kinds(id) == Unknown || (kinds(id) == Known && !batch[n].dbFails)))
  {
    if i: nat :| AttemptAt(batch, n, i, id) && kinds(id) == Known && !batch[i].dbFails {
      assert AttemptAt(batch, n + 1, i, id);
    }
    if i: nat :| AttemptAt(batch, n, i, id) && !batch[i].ackFails
                 && (kinds(id) == Unknown || (kinds(id) == Known && !batch[i].dbFails))
    {
      assert AttemptAt(batch, n + 1, i, id);
    }
    if batch[n].id == id {
      assert AttemptAt(batch, n + 1, n, id);
    }
    assert forall i: nat :: AttemptAt(batch, n + 1, i, id) ==> AttemptAt(batch, n, i, id) || i == n;
  }

  lemma {:induction false} PrefixProcessed(kinds: Kinds, g: Group, batch: seq<Attempt>, n: nat)
    requires n <= |batch|
    ensures Processed(kinds, g, ProcessAll(kinds, g, batch[..n]), batch, n)
  {
    if n == 0 {
      assert batch[..0] == [];
    } else {
      PrefixProcessed(kinds, g, batch, n - 1);
      assert batch[..n][..n - 1] == batch[..n - 1];
      forall id: nat
        ensures CommittedBy(kinds, batch, n, id) <==>
                || CommittedBy(kinds, batch, n - 1, id)
                || (batch[n - 1].id == id && kinds(id) == Known && !batch[n - 1].dbFails)
        ensures AckedBy(kinds, batch, n, id) <==>
                || AckedBy(kinds, batch, n - 1, id)
                || (batch[n - 1].id == id && !batch[n - 1].ackFails
                    && (kinds(id) == Unknown || (kinds(id) == Known && !batch[n - 1].dbFails)))
      {
        OneMoreAttempt(kinds, batch, n - 1, id);
      }
    }
  }

  /**
   * A batch is processed up to the first attempt that raises: the messages newly acked, and no longer
   * pending, are those with an attempt whose ack got through; the newly committed those with one whose
   * transaction did.
   */
  lemma BatchIsProcessed(kinds: Kinds, g: Group, batch: seq<Attempt>)
    ensures StopsAt(kinds, batch, Reached(kinds, batch))
    ensures Processed(kinds, g, ProcessBatch(kinds, g, batch), batch, Reached(kinds, batch))
  {
    ReachedInBounds(kinds, batch);
    PrefixProcessed(kinds, g, batch, Reached(kinds, batch));
  }

  lemma OneAttempt(kinds: Kinds, g: Group, a: Attempt)
    ensures Raises(kinds, a) <==> StopsAt(kinds, [a], 0)
    ensures if Raises(kinds, a) then Processed(kinds, g, g, [a], 0)
            else Processed(kinds, g, Process(kinds, g, a), [a], 1)
  {
    assert [a][..0] == [] && [a][..1] == [a];
    PrefixProcessed(kinds, g, [a], 0);
    PrefixProcessed(kinds, g, [a], 1);
  }

  class ConsumerLoop {
    var group: Group
    var processed: nat

    constructor ()
      ensures group == Group({}, {}, {}, {}) && processed == 0
    {
      group, processed := Group({}, {}, {}, {}), 0;
    }

    /** Returns true where the source lets an exception out. */
    method ProcessOne(kinds: Kinds, a: Attempt) returns (raised: bool)
      modifies this`group
      ensures raised <==> Raises(kinds, a)
      ensures group == if raised then old(group) else Process(kinds, old(group), a)
      ensures raised <==> StopsAt(kinds, [a], 0)
      ensures Processed(kinds, old(group), group, [a], if raised then 0 else 1)
    {
      OneAttempt(kinds, group, a);
      match kinds(a.id)
      case Malformed => raised := true;
      case Unknown =>
        raised := a.ackFails;
        if !a.ackFails {
          Ack(a.id);
        }
      case Known =>
        raised := false;
        if !a.dbFails {
          group := group.(committed := group.committed + {a.id});
          if !a.ackFails {
            Ack(a.id);
          }
        }
    }

    method Ack(id: nat)
      modifies this`group
      ensures group == old(group).(acked := old(group).acked + {id}, pending := old(group).pending - {id})
    {
      group := group.(acked := group.acked + {id}, pending := group.pending - {id});
    }

    method RunBatch(kinds: Kinds, batch: seq<Attempt>) returns (raised: bool)
      modifies this
      ensures group == ProcessBatch(kinds, old(group), batch)
      ensures processed == old(processed) + Reached(kinds, batch)
      ensures raised <==> Reached(kinds, batch) < |batch|
      ensures processed >= old(processed) && StopsAt(kinds, batch, processed - old(processed))
      ensures Processed(kinds, old(group), group, batch, processed - old(processed))
    {
      BatchIsProcessed(kinds, group, batch);
      raised := false;
      var i := 0;
      ReachedInBounds(kinds, batch);
      while i < |batch|
        invariant i <= Reached(kinds, batch) && !raised
        invariant group == ProcessAll(kinds, old(group), batch[..i])
        invariant processed == old(processed) + i
      {
        raised := ProcessOne(kinds, batch[i]);
        if raised {
          assert i == Reached(kinds, batch);
          return;
        }
        assert batch[..i + 1][..i] == batch[..i];
        i := i + 1;
        processed := processed + 1;
      }
      assert Reached(kinds, batch) == |batch| && batch[..|batch|] == batch;
    }
  }

  // ---- Whole runs

  /** A turn of the loop; the process may die after `upto` messages of it. */
  datatype Turn = Read(batch: seq<Attempt>, upto: nat) | Reclaim(batch: seq<Attempt>, upto: nat)

  function Ids(batch: seq<Attempt>): set<nat> {
    set i | 0 <= i < |batch| :: batch[i].id
  }

  /** New messages were never delivered before; reclaimed ones are pending. */
  predicate Possible(g: Group, t: Turn) {
    && t.upto <= |t.batch|
    && (t.Read? ==> Ids(t.batch) !! g.delivered)
    && (t.Reclaim? ==> Ids(t.batch) <= g.pending)
  }

  function TakeTurn(kinds: Kinds, g: Group, t: Turn): Group
    requires Possible(g, t)
  {
    var g' := if t.Read? then g.(delivered := g.delivered + Ids(t.batch), pending := g.pending + Ids(t.batch)) else g;
    ProcessBatch(kinds, g', t.batch[..t.upto])
  }

  /** The state after a sequence of possible turns. */
  function Run(kinds: Kinds, turns: seq<Turn>): Option<Group> {
    if turns == [] then Some(Group({}, {}, {}, {}))
    else
      var t := turns[|turns| - 1];
      match Run(kinds, turns[..|turns| - 1])
      case None => None
      case Some(g) => if Possible(g, t) then Some(TakeTurn(kinds, g, t)) else None
  }

  /** Delivered messages are acked or pending, never both; an ack means committed or of unknown type. */
  ghost predicate AckSafe(kinds: Kinds, g: Group) {
    && g.delivered == g.acked + g.pending && g.acked !! g.pending
    && g.committed <= g.delivered
    && (forall id :: id in g.acked ==> kinds(id).Unknown? || (kinds(id).Known? && id in g.committed))
  }

  lemma {:induction false} ProcessKeepsAckSafe(kinds: Kinds, g: Group, batch: seq<Attempt>)
    requires AckSafe(kinds, g) && Ids(batch) <= g.delivered
    ensures AckSafe(kinds, ProcessAll(kinds, g, batch))
    ensures ProcessAll(kinds, g, batch).delivered == g.delivered
    ensures g.acked <= ProcessAll(kinds, g, batch).acked && g.committed <= ProcessAll(kinds, g, batch).committed
  {
    if batch != [] {
      var front, last := batch[..|batch| - 1], batch[|batch| - 1];
      forall id | id in Ids(front) ensures id in g.delivered {
        var i :| 0 <= i < |front| && front[i].id == id;
        assert batch[i].id in Ids(batch);
      }
      assert batch[|batch| - 1].id in Ids(batch);
      ProcessKeepsAckSafe(kinds, g, front);
    }
  }

  /** New messages are delivered, and pending unless an attempt of theirs is acked; reclaimed ones likewise. */
  lemma TurnIsProcessed(kinds: Kinds, g: Group, t: Turn)
    requires Possible(g, t)
    ensures var delivered := if t.Read? then Ids(t.batch) else {};
            exists n :: StopsAt(kinds, t.batch[..t.upto], n)
                        && Processed(
                             kinds, Group(g.delivered + delivered, g.pending + delivered, g.acked, g.committed),
                             TakeTurn(kinds, g, t), t.batch[..t.upto], n)
  {
    var g1 := if t.Read? then g.(delivered := g.delivered + Ids(t.batch), pending := g.pending + Ids(t.batch)) else g;
    BatchIsProcessed(kinds, g1, t.batch[..t.upto]);
    assert t.Reclaim? ==> g.delivered + {} == g.delivered && g.pending + {} == g.pending;
  }

  lemma TurnKeepsAckSafe(kinds: Kinds, g: Group, t: Turn)
    requires AckSafe(kinds, g) && Possible(g, t)
    ensures var g' := TakeTurn(kinds, g, t);
            && AckSafe(kinds, g')
            && g.delivered <= g'.delivered && g.acked <= g'.acked && g.committed <= g'.committed
  {
    var g1 := if t.Read? then g.(delivered := g.delivered + Ids(t.batch), pending := g.pending + Ids(t.batch)) else g;
    var cut := t.batch[..t.upto];
    ReachedInBounds(kinds, cut);
    var ran := cut[..Reached(kinds, cut)];
    forall id | id in Ids(ran) ensures id in g1.delivered {
      var i :| 0 <= i < |ran| && ran[i].id == id;
      assert t.batch[i].id in Ids(t.batch);
    }
    ProcessKeepsAckSafe(kinds, g1, ran);
  }

  /**
   * Ack safety in every reachable state, through reclaim passes, failures and crashes in the
   * middle of a batch; and no later turn takes back a delivery, a commit or an acknowledgement.
   */
  lemma {:induction false} ReachableAckSafe(kinds: Kinds, turns: seq<Turn>)
    requires Run(kinds, turns).Some?
    ensures var g := Run(kinds, turns).value;
            && AckSafe(kinds, g)
            && forall t :: Possible(g, t) ==>
                 g.acked <= TakeTurn(kinds, g, t).acked && g.committed <= TakeTurn(kinds, g, t).committed
  {
    if turns != [] {
      var t := turns[|turns| - 1];
      var g0 := Run(kinds, turns[..|turns| - 1]).value;
      ReachableAckSafe(kinds, turns[..|turns| - 1]);
      TurnKeepsAckSafe(kinds, g0, t);
    }
    var g := Run(kinds, turns).value;
    forall t | Possible(g, t)
      ensures g.acked <= TakeTurn(kinds, g, t).acked && g.committed <= TakeTurn(kinds, g, t).committed
    {
      TurnKeepsAckSafe(kinds, g, t);
    }
  }
}
