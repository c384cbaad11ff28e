/**
 * The queue's tasks: reading the row, the terminal guard and the run, delivery after delivery.
 */
module Tasks {
  import opened StateMachine
  import opened EventLog
  import opened Runs
  import E = Executor
  import PI = ProtocolInvariant

  datatype TaskOutcome = AlreadyTerminal | Ran(outcome: Outcome)

  /** The task got past submit. */
  predicate Passed(outcome: TaskOutcome) {
    outcome.Ran? && !outcome.outcome.LockRefused? && !outcome.outcome.Rejected?
  }

  /**
   * One delivery: API requests before it and between its read of the row and its lock request, what
   * the run meets at each step, and what it meets after its last turn.
   */
  datatype Delivery =
    Delivery(before: seq<Trigger>, between: seq<Trigger>, worlds: seq<StepWorld>, ending: Ending)

  predicate Served(d: Delivery, steps: nat) {
    && |d.worlds| == steps && LegalRequests(d.worlds)
    && AllLegal(d.before) && AllLegal(d.between) && AllLegal(d.ending.requests)
  }

  /** The record after API requests. */
  function Requested(r: Record, requests: seq<Trigger>): Record {
    r.(flag := AfterRequests(r.flag, requests))
  }

  /** One delivery of the task; a terminal status makes it a no-op. */
  method RunTask(
    ex: E.Executor, steps: seq<StepConfig>, d: Delivery, lockFree: bool,
    ghost c: P.Config, ghost s: P.State, ghost w: nat)
    returns (outcome: TaskOutcome, ghost s': P.State)
    requires c == P.Config(Flags(steps)) && Served(d, |steps|)
    requires ex.Idle(s, w) && s.queue > 0
    requires lockFree <==> P.BodyFree(s)
    modifies ex
    ensures P.Leads(c, s, s') && ex.Idle(s', w) && ex.others == old(ex.others)
    ensures outcome.AlreadyTerminal? <==> Terminal(old(ex.status))
    ensures outcome.AlreadyTerminal? ==> ex.Stored() == old(ex.Stored())
    ensures outcome.Ran? ==>
              && (outcome.outcome.LockRefused? <==> !lockFree)
              && (outcome.outcome.Rejected? <==> lockFree && !old(ex.status).Pending?)
    ensures outcome.Ran? && !Passed(outcome) ==> ex.Stored() == Requested(old(ex.Stored()), d.between)
    ensures Passed(outcome) ==>
              RanThrough(
                Requested(old(ex.Stored()), d.between), ex.Stored(), old(ex.context), steps, d.worlds, d.ending,
                ex.Settings(), outcome.outcome)
  {
    s' := E.OneStep(c, s, P.Deliver(w));
    if Terminal(ex.status) {
      return AlreadyTerminal, s';
    }
    var loaded, loadedContext := ex.status, ex.context;
    ghost var s0 := s';
    s' := ex.HandleRequests(d.between, c, s');
    P.LeadsFurther(c, s, s0, s');
    s0 := s';
    StillFree(s, s', w);
    var run;
    run, s' := ex.Run(loaded, loadedContext, steps, d.worlds, d.ending, lockFree, c, s', w);
    P.LeadsFurther(c, s, s0, s');
    outcome := Ran(run);
  }

  /** One more worker outside the body does not take the lock. */
  lemma StillFree(s: P.State, s': P.State, w: nat)
    requires w !in s.workers && w in s'.workers && s'.workers[w].phase.Loaded?
    requires s'.workers == s.workers[w := s'.workers[w]]
    ensures P.BodyFree(s') <==> P.BodyFree(s)
  {
    if P.BodyFree(s') {
      forall v | v in s.workers ensures s.workers[v].phase.Loaded? {
        assert s'.workers[v].phase.Loaded?;
      }
    }
  }

  /** The cost a history of this many runs may have accumulated. */
  function Allowance(initial: real, starts: nat, perExecution: real): real {
    initial + starts as real * perExecution
  }

  lemma OneMoreStart(initial: real, starts: nat, perExecution: real)
    ensures Allowance(initial, starts + 1, perExecution) == Allowance(initial, starts, perExecution) + perExecution
  {
  }

  /** The execution has cost at most the per-execution limit for every Started event. */
  predicate WithinAllowance(r: Record, initial: real, perExecution: real) {
    r.context.totalCost <= Allowance(initial, Starts(r.global), perExecution)
  }

  /** A delivery that got past submit raises the allowance by what it may spend. */
  lemma DeliveryKeepsAllowance(
    before: Record, after: Record, steps: seq<StepConfig>, worlds: seq<StepWorld>, ending: Ending, limits: Limits,
    outcome: Outcome, initial: real)
    requires |worlds| == |steps| && RanThrough(before, after, before.context, steps, worlds, ending, limits, outcome)
    requires limits.perExecution >= 0.0 && WithinAllowance(before, initial, limits.perExecution)
    ensures WithinAllowance(after, initial, limits.perExecution)
  {
    RunCostIsLimited(before, after, steps, worlds, ending, limits, outcome);
    RunStartsOnce(before, after, before.context, steps, worlds, ending, limits, outcome);
    OneMoreStart(initial, Starts(before.global), limits.perExecution);
  }

  /** API requests, an enqueued task, and its delivery to a worker that finds the lock free. */
  method ServeOne(
    ex: E.Executor, steps: seq<StepConfig>, d: Delivery, ghost c: P.Config, ghost s: P.State)
    returns (outcome: TaskOutcome, ghost s': P.State)
    requires c == P.Config(Flags(steps)) && Served(d, |steps|)
    requires ex.Idle(s, 0) && ex.others == map[]
    modifies ex
    ensures P.Leads(c, s, s') && ex.Idle(s', 0) && ex.others == map[]
    ensures Passed(outcome) <==> AfterRequests(old(ex.Current()), d.before).status.Pending?
    ensures Passed(outcome) ==>
              RanThrough(
                Requested(Requested(old(ex.Stored()), d.before), d.between), ex.Stored(), old(ex.context), steps,
                d.worlds, d.ending, ex.Settings(), outcome.outcome)
    ensures !Passed(outcome) ==> ex.Stored() == old(ex.Stored()).(flag := ex.Current())
  {
    s' := ex.HandleRequests(d.before, c, s);
    P.LeadsStep(c, s, s', P.Enqueue);
    s' := P.Apply(c, s', P.Enqueue);
    ghost var s0 := s';
    outcome, s' := RunTask(ex, steps, d, true, c, s', 0);
    P.LeadsFurther(c, s, s0, s');
  }

  /**
   * Any number of deliveries to one worker after another, with API requests at any of their commits,
   * any step failing and any worker dying between its start and its closing event: the streams this
   * code has written publish every checkpointed step at most once, the execution's own stream is a
   * subsequence of the global one, and the committed context's cost has grown by at most the
   * per-execution limit for every run that passed submit.
   */
  method Serve(ex: E.Executor, steps: seq<StepConfig>, deliveries: seq<Delivery>, ghost c: P.Config)
    returns (ghost s: P.State)
    requires c == P.Config(Flags(steps)) && forall d :: d in deliveries ==> Served(d, |steps|)
    requires ex.Idle(P.Init, 0) && ex.others == map[]
    modifies ex
    ensures P.Leads(c, P.Init, s) && ex.Idle(s, 0)
    ensures forall j: nat :: PI.Checkpointed(c, j) ==>
              && multiset(Kinds(ex.global))[StepCompleted(j)] <= 1
              && multiset(Kinds(ex.stream))[StepCompleted(j)] <= 1
    ensures Subsequence(Kinds(ex.stream), Kinds(ex.global))
    ensures ex.maxPerExecution >= 0.0 ==>
              WithinAllowance(ex.Stored(), old(ex.context.totalCost), ex.maxPerExecution)
  {
    s := P.Init;
    P.LeadsNowhere(c, s);
    for k := 0 to |deliveries|
      invariant P.Leads(c, P.Init, s) && ex.Idle(s, 0) && ex.others == map[]
      invariant ex.maxPerExecution >= 0.0 ==>
                  WithinAllowance(ex.Stored(), old(ex.context.totalCost), ex.maxPerExecution)
    {
      assert Served(deliveries[k], |steps|);
      ghost var s0, before := s, ex.Stored();
      var outcome;
      outcome, s := ServeOne(ex, steps, deliveries[k], c, s);
      P.LeadsFurther(c, P.Init, s0, s);
      if Passed(outcome) && ex.maxPerExecution >= 0.0 {
        before := Requested(Requested(before, deliveries[k].before), deliveries[k].between);
        DeliveryKeepsAllowance(
          before, ex.Stored(), steps, deliveries[k].worlds, deliveries[k].ending, ex.Settings(), outcome.outcome,
          old(ex.context.totalCost));
      }
    }
    forall j: nat | PI.Checkpointed(c, j)
      ensures multiset(Kinds(ex.global))[StepCompleted(j)] <= 1 && multiset(Kinds(ex.stream))[StepCompleted(j)] <= 1
    {
      E.StreamsKeepThePromises(c, s, ex.global, ex.stream, j);
    }
    E.StreamIsSubsequence(c, s, ex.global, ex.stream);
  }

  /** So an execution that has had at most one run past submit is within its limit. */
  lemma OneRunIsWithinLimit(r: Record, perExecution: real)
    requires WithinAllowance(r, 0.0, perExecution) && perExecution >= 0.0 && Starts(r.global) <= 1
    ensures r.context.totalCost <= perExecution
  {
    assert Starts(r.global) == 0 || Starts(r.global) == 1;
  }

  // ---- The limit is per run

  /** A run over no checkpoints that breaks off once it has charged the whole limit. */
  ghost predicate SpendsTheLimit(steps: seq<StepConfig>, worlds: seq<StepWorld>, limit: real) {
    && |steps| == |worlds| && LegalRequests(worlds)
    && (forall k :: 0 <= k < |steps| ==> !steps[k].checkpointBefore)
    && forall r: Record, o: Origin :: r.checkpoints == [] && o.start == 0 ==>
         var end := RunEnd(r, worlds, Limits(limit, limit));
         && end.result.StepFailed? && BrokenCharged(end, worlds)
         && ChargedBefore(o, steps, worlds, end.at) + worlds[end.at].cost == limit
  }

  /** The step costs the limit, and publishing it on the execution's own stream raises. */
  method LateFailure(limit: real) returns (steps: seq<StepConfig>, worlds: seq<StepWorld>)
    requires limit >= 0.0
    ensures SpendsTheLimit(steps, worlds, limit)
  {
    steps, worlds := [StepConfig("step", false)], [StepWorld([], limit, StreamPublishRaises)];
    forall r: Record, o: Origin | r.checkpoints == [] && o.start == 0
      ensures RunEnd(r, worlds, Limits(limit, limit)) == LoopEnd(StepFailed, 0, Opened(r).flag)
      ensures ChargedBefore(o, steps, worlds, 0) == 0.0
    {
      FailsAtOnce(Opened(r).flag, worlds, Limits(limit, limit));
    }
  }

  lemma FailsAtOnce(flag: Flag, worlds: seq<StepWorld>, limits: Limits)
    requires |worlds| > 0 && worlds[0].requests == [] && worlds[0].fault.StreamPublishRaises?
    requires flag.status.Running? && worlds[0].cost <= limits.perExecution && worlds[0].cost <= limits.perDay
    ensures Loop(flag, 0.0, 0.0, 0, worlds, limits) == LoopEnd(StepFailed, 0, flag)
  {
    LoopTurn(0, worlds, limits, flag, 0.0, 0.0, LoopEnd(StepFailed, 0, flag), 0.0, 0.0);
  }

  /** One more such run, on an execution the requests make PENDING. */
  method SpendOnceMore(
    ex: E.Executor, requests: seq<Trigger>, steps: seq<StepConfig>, worlds: seq<StepWorld>, limit: real,
    ghost c: P.Config, ghost s: P.State)
    returns (ghost s': P.State)
    requires SpendsTheLimit(steps, worlds, limit) && c == P.Config(Flags(steps)) && AllLegal(requests)
    requires ex.Idle(s, 0) && ex.others == map[] && ex.Settings() == Limits(limit, limit)
    requires ex.checkpoints == [] && AfterRequests(ex.Current(), requests).status.Pending?
    modifies ex
    ensures ex.Idle(s', 0) && ex.others == map[] && ex.checkpoints == [] && ex.status.Paused?
    ensures Starts(ex.global) == old(Starts(ex.global)) + 1
    ensures ex.context.totalCost == old(ex.context.totalCost) + limit
  {
    ghost var before := Requested(Requested(ex.Stored(), requests), []);
    var outcome;
    outcome, s' := ServeOne(ex, steps, Delivery(requests, [], worlds, Ending([], false)), c, s);
    FailedRun(before, ex.Stored(), steps, worlds, ex.Settings(), outcome.outcome);
    RunStartsOnce(
      before, ex.Stored(), before.context, steps, worlds, Ending([], false), ex.Settings(), outcome.outcome);
  }

  /**
   * The bound is reached for every limit and every n: n runs, with a resume before each of the later
   * ones, cost n times the limit of one execution.
   */
  method RunsReachTheAllowance(n: nat, limit: real) returns (ex: E.Executor)
    requires limit >= 0.0
    ensures ex.maxPerExecution == limit && Starts(ex.global) == n
    ensures ex.context.totalCost == Allowance(0.0, n, limit)
  {
    var steps, worlds := LateFailure(limit);
    ex := new E.Executor(Context(map[], 0, 0.0), limit, limit);
    ghost var c := P.Config(Flags(steps));
    ghost var s := P.Init;
    for k := 0 to n
      invariant fresh(ex) && ex.Settings() == Limits(limit, limit)
      invariant ex.Idle(s, 0) && ex.others == map[]
      invariant ex.checkpoints == [] && ex.status == if k == 0 then Pending else Paused
      invariant Starts(ex.global) == k && ex.context.totalCost == Allowance(0.0, k, limit)
    {
      var requests := if k == 0 then [] else [Resume];
      assert AfterRequests(ex.Current(), requests).status.Pending?;
      s := SpendOnceMore(ex, requests, steps, worlds, limit, c, s);
      OneMoreStart(0.0, k, limit);
    }
  }
}
