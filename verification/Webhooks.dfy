/** Webhook delivery: attempts, retries with a delay table, and dead letters. */
module Webhooks {
  import opened Options

  const RETRY_DELAYS: seq<nat> := [1, 5, 30, 300, 1800]

  datatype Status = Pending | Delivered | DeadLettered | SubscriptionFailed

  datatype Delivery = Delivery(status: Status, attemptCount: nat, responseCode: Option<int>)

  /** What an attempt meets: no active subscription, or an answer (0 for a connection error). */
  datatype Encounter = Inactive | Answer(code: int)

  predicate Succeeds(e: Encounter) {
    e.Answer? && 200 <= e.code < 300
  }

  /** The row after one attempt, and the countdown to the next one. */
  function Attempted(delays: seq<nat>, d: Delivery, attempt: nat, e: Encounter): (Delivery, Option<nat>) {
    if d.status.Delivered? || d.status.DeadLettered? then (d, None)
    else if e.Inactive? then (d.(status := SubscriptionFailed), None)
    else
      var d' := Delivery(
        if Succeeds(e) then Delivered else if attempt >= |delays| - 1 then DeadLettered else Pending,
        d.attemptCount + 1, Some(e.code));
      (d', if d'.status.Pending? then Some(delays[attempt]) else None)
  }

  class DeliveryRow {
    var status: Status
    var attemptCount: nat
    var responseCode: Option<int>

    constructor ()
      ensures Row() == Delivery(Pending, 0, None)
    {
      status, attemptCount, responseCode := Pending, 0, None;
    }

    function Row(): Delivery
      reads this
    {
      Delivery(status, attemptCount, responseCode)
    }

    method Deliver(delays: seq<nat>, attempt: nat, e: Encounter) returns (countdown: Option<nat>)
      modifies this
      ensures (Row(), countdown) == Attempted(delays, old(Row()), attempt, e)
    {
      if status.Delivered? || status.DeadLettered? {
        return None;
      }
      if e.Inactive? {
        status := SubscriptionFailed;
        return None;
      }
      attemptCount := attemptCount + 1;
      responseCode := Some(e.code);
      if 200 <= e.code < 300 {
        status := Delivered;
        return None;
      } else if attempt >= |delays| - 1 {
        status := DeadLettered;
        return None;
      } else {
        status := Pending;
        return Some(delays[attempt]);
      }
    }

    /**
     * The task with its retries, until no countdown is returned. `max_retries` is |delays|,
     * so the broker never cuts the retries short.
     */
    method DeliverWebhook(delays: seq<nat>, world: nat -> Encounter) returns (attempts: nat, waited: nat)
      modifies this
      ensures (Row(), attempts, waited) == Outcome(delays, old(Row()), 0, world)
    {
      ghost var whole := Outcome(delays, Row(), 0, world);
      var attempt := 0;
      attempts, waited := 0, 0;
      while true
        invariant attempt < |delays| || attempt == 0
        invariant Outcome(delays, Row(), attempt, world).0 == whole.0
        invariant attempts + Outcome(delays, Row(), attempt, world).1 == whole.1
        invariant waited + Outcome(delays, Row(), attempt, world).2 == whole.2
        decreases |delays| - attempt
      {
        var before := attemptCount;
        var countdown := Deliver(delays, attempt, world(attempt));
        attempts := attempts + (attemptCount - before);
        if countdown.None? {
          return;
        }
        assert attempt + 1 <= |delays|;
        waited := waited + countdown.value;
        attempt := attempt + 1;
      }
    }
  }

  /** Final row, HTTP attempts made and total countdown, from a given attempt on. */
  function Outcome(delays: seq<nat>, d: Delivery, attempt: nat, world: nat -> Encounter): (Delivery, nat, nat)
    decreases |delays| - attempt
  {
    var (d', countdown) := Attempted(delays, d, attempt, world(attempt));
    var made := d'.attemptCount - d.attemptCount;
    if countdown.None? then (d', made, 0)
    else
      var rest := Outcome(delays, d', attempt + 1, world);
      (rest.0, made + rest.1, countdown.value + rest.2)
  }

  function Sum(s: seq<nat>): nat {
    if s == [] then 0 else s[0] + Sum(s[1..])
  }

  /** The attempt at which the run ends: the first that is inactive or succeeds, or the last one. */
  function Ending(n: nat, attempt: nat, world: nat -> Encounter): (k: nat)
    ensures attempt <= k && (k < n || k == attempt)
    decreases n - attempt
  {
    if world(attempt).Inactive? || Succeeds(world(attempt)) || attempt + 1 >= n then attempt
    else Ending(n, attempt + 1, world)
  }

  lemma {:induction false} OutcomeFrom(delays: seq<nat>, d: Delivery, attempt: nat, world: nat -> Encounter)
    requires d.status.Pending? && (attempt < |delays| || attempt == 0)
    ensures var (end, attempts, waited) := Outcome(delays, d, attempt, world);
            var k := Ending(|delays|, attempt, world);
            && attempts == k - attempt + (if world(k).Inactive? then 0 else 1)
            && end.attemptCount == d.attemptCount + attempts
            && end.status == (if world(k).Inactive? then SubscriptionFailed
                              else if Succeeds(world(k)) then Delivered else DeadLettered)
            && (k < |delays| ==> waited == Sum(delays[attempt..k]))
            && (k >= |delays| ==> waited == 0)
    decreases |delays| - attempt
  {
    var (d', countdown) := Attempted(delays, d, attempt, world(attempt));
    if countdown.Some? {
      OutcomeFrom(delays, d', attempt + 1, world);
      var k := Ending(|delays|, attempt, world);
      assert delays[attempt..k][1..] == delays[attempt + 1..k];
    } else {
      assert attempt < |delays| ==> delays[attempt..attempt] == [];
    }
  }

  lemma {:induction false} SumOfPrefix(s: seq<nat>, k: nat, n: nat)
    requires k <= n <= |s|
    ensures Sum(s[..k]) <= Sum(s[..n])
  {
    if k > 0 {
      assert s[..k][1..] == s[1..][..k - 1] && s[..n][1..] == s[1..][..n - 1];
      SumOfPrefix(s[1..], k - 1, n - 1);
    }
  }

  lemma {:induction false} EndingIsLast(n: nat, attempt: nat, world: nat -> Encounter)
    requires attempt < n
    ensures var k := Ending(n, attempt, world);
            && k <= n - 1
            && (forall i: nat :: attempt <= i < k ==> !world(i).Inactive? && !Succeeds(world(i)))
            && (!world(k).Inactive? && !Succeeds(world(k)) ==> k == n - 1)
    decreases n - attempt
  {
    if !(world(attempt).Inactive? || Succeeds(world(attempt)) || attempt + 1 >= n) {
      EndingIsLast(n, attempt + 1, world);
    }
  }

  const NewDelivery := Delivery(Pending, 0, None)

  /**
   * A new delivery makes at most n attempts and counts every one; it ends delivered, dead
   * lettered or failed, decided by the first attempt that succeeds or finds no subscription;
   * and all waiting together is at most the first n - 1 delays.
   */
  lemma DeliveryTerminates(delays: seq<nat>, world: nat -> Encounter, end: Delivery, attempts: nat, waited: nat, k: nat)
    requires |delays| >= 1
    requires (end, attempts, waited) == Outcome(delays, NewDelivery, 0, world) && k == Ending(|delays|, 0, world)
    ensures k < |delays| && forall i: nat :: i < k ==> !world(i).Inactive? && !Succeeds(world(i))
    ensures attempts <= |delays| && end.attemptCount == attempts && !end.status.Pending?
    ensures end.status.Delivered? <==> Succeeds(world(k))
    ensures end.status.SubscriptionFailed? <==> world(k).Inactive?
    ensures end.status.DeadLettered? ==> attempts == |delays|
    ensures waited == Sum(delays[..k]) <= Sum(delays[..|delays| - 1])
  {
    OutcomeFrom(delays, NewDelivery, 0, world);
    EndingIsLast(|delays|, 0, world);
    assert delays[0..k] == delays[..k];
    SumOfPrefix(delays, k, |delays| - 1);
  }

  /** The attempt is answered, but not with a 2xx. */
  predicate Fails(e: Encounter) {
    e.Answer? && !(200 <= e.code < 300)
  }

  /** What a delivery that ends at attempt k leaves: status, attempts made, and the last answer's code. */
  function LeftAt(k: nat, world: nat -> Encounter): Delivery {
    if world(k).Inactive? then
      Delivery(
        SubscriptionFailed, k,
        if k > 0 && world(k - 1).Answer? then Some(world(k - 1).code) else None)
    else Delivery(if Fails(world(k)) then DeadLettered else Delivered, k + 1, Some(world(k).code))
  }

  lemma {:induction false} OutcomeRow(delays: seq<nat>, d: Delivery, attempt: nat, world: nat -> Encounter, k: nat)
    requires d.status.Pending? && d.attemptCount == attempt <= k < |delays|
    requires d.responseCode == if attempt > 0 && world(attempt - 1).Answer? then Some(world(attempt - 1).code) else None
    requires forall i: nat :: attempt <= i < k ==> Fails(world(i))
    requires k == |delays| - 1 || !Fails(world(k))
    ensures Outcome(delays, d, attempt, world).0 == LeftAt(k, world)
    decreases k - attempt
  {
    if attempt < k {
      assert Fails(world(attempt));
      var d' := Attempted(delays, d, attempt, world(attempt)).0;
      OutcomeRow(delays, d', attempt + 1, world, k);
    }
  }

  /**
   * The whole row a new delivery ends with: that of the first attempt which does not fail, or of the last
   * one. A later delivery of the same task leaves a delivered or dead-lettered row alone.
   */
  lemma DeliveryLeaves(delays: seq<nat>, world: nat -> Encounter, k: nat, later: nat -> Encounter, attempt: nat)
    requires k < |delays| && (forall i: nat :: i < k ==> Fails(world(i)))
    requires k == |delays| - 1 || !Fails(world(k))
    ensures var end := Outcome(delays, NewDelivery, 0, world).0;
            && end == LeftAt(k, world)
            && (!world(k).Inactive? ==> Outcome(delays, end, attempt, later) == (end, 0, 0))
  {
    OutcomeRow(delays, NewDelivery, 0, world, k);
  }

  /**
   * With the configured table a delivery waits at most 336 seconds, and that long exactly when its
   * first four attempts fail: the 1800 is never used.
   */
  lemma ConfiguredWaiting(world: nat -> Encounter, waited: nat)
    requires waited == Outcome(RETRY_DELAYS, NewDelivery, 0, world).2
    ensures waited <= 336
    ensures waited == 336 <==> forall i: nat :: i < 4 ==> !world(i).Inactive? && !Succeeds(world(i))
  {
    var (end, attempts, _) := Outcome(RETRY_DELAYS, NewDelivery, 0, world);
    var k := Ending(5, 0, world);
    DeliveryTerminates(RETRY_DELAYS, world, end, attempts, waited, k);
    EndingIsLast(5, 0, world);
    ConfiguredSums();
    if k < 4 {
      SumOfPrefix(RETRY_DELAYS, k, 3);
    }
  }

  lemma ConfiguredSums()
    ensures Sum(RETRY_DELAYS[..3]) == 36 && Sum(RETRY_DELAYS[..4]) == 336
  {
    assert RETRY_DELAYS[..3] == [1, 5, 30] && RETRY_DELAYS[..4] == [1, 5, 30, 300];
    assert [1, 5, 30][1..] == [5, 30] && [5, 30][1..] == [30] && [30][1..] == [];
    assert [1, 5, 30, 300][1..] == [5, 30, 300] && [5, 30, 300][1..] == [30, 300];
    assert [30, 300][1..] == [300] && [300][1..] == [];
  }

  /** How long a delivery waits in all that ends at its first, second, ... fifth attempt. */
  lemma ConfiguredWaits(world: nat -> Encounter, k: nat)
    requires k < 5 && (forall i: nat :: i < k ==> Fails(world(i))) && (k == 4 || !Fails(world(k)))
    ensures Outcome(RETRY_DELAYS, NewDelivery, 0, world).2 ==
            if k == 0 then 0 else if k == 1 then 1 else if k == 2 then 6 else if k == 3 then 36 else 336
  {
    var (end, attempts, waited) := Outcome(RETRY_DELAYS, NewDelivery, 0, world);
    var n := Ending(5, 0, world);
    DeliveryTerminates(RETRY_DELAYS, world, end, attempts, waited, n);
    EndingIsLast(5, 0, world);
    assert n < k ==> Fails(world(n));
    assert n == k;
    ConfiguredSums();
    assert RETRY_DELAYS[..1] == [1] && RETRY_DELAYS[..2] == [1, 5] && RETRY_DELAYS[..0] == [];
    assert [1][1..] == [] && [1, 5][1..] == [5] && [5][1..] == [];
  }
}
