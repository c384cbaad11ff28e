/**
 * The executor as the worker runs it: one method over the database row, the checkpoint
 * rows and the two streams. `Run` is proved to be a run of Protocol, step by step, so the
 * protocol's theorems are theorems about the streams this code writes.
 */
module Executor {
  import opened Options
  import opened StateMachine
  import opened EventLog
  import opened Runs
  import PI = ProtocolInvariant
  import PT = ProtocolTheorems
  import CT = CostTracker

  /** The checkpoint rows of one execution: append-only, read by highest step index. */
  method GetLatest(rows: seq<CheckpointRow>) returns (latest: Option<CheckpointRow>)
    ensures latest.None? <==> rows == []
    ensures latest.Some? ==> latest.value in rows && latest.value.stepIndex + 1 == P.NextStart(Indices(rows))
    ensures latest.Some? ==> forall row :: row in rows ==> row.stepIndex <= latest.value.stepIndex
  {
    latest := None;
    for i := 0 to |rows|
      invariant latest.None? <==> i == 0
      invariant latest.Some? ==> latest.value in rows && latest.value.stepIndex + 1 == P.NextStart(Indices(rows[..i]))
      invariant latest.Some? ==> forall k :: 0 <= k < i ==> rows[k].stepIndex <= latest.value.stepIndex
    {
      assert rows[..i + 1] == rows[..i] + [rows[i]];
      AppendRow(rows[..i], rows[i]);
      AppendedNextStart(Indices(rows[..i]), rows[i].stepIndex);
      if latest.None? || rows[i].stepIndex > latest.value.stepIndex {
        latest := Some(rows[i]);
      }
    }
    assert rows[..|rows|] == rows;
  }

  lemma AppendedNextStart(cks: seq<nat>, i: nat)
    ensures P.NextStart(cks + [i]) == if i + 1 > P.NextStart(cks) then i + 1 else P.NextStart(cks)
  {
    assert (cks + [i])[..|cks|] == cks;
  }

  function LimitsOf(tracker: CT.CostTracker): Limits {
    Limits(tracker.maxPerExecution, tracker.maxPerDay)
  }

  /** The event a worker is about to publish. */
  function Announces(wk: P.Worker): Event
    requires P.MayPublish(wk.phase)
  {
    match wk.phase
    case Opening(_) => ExecutionStarted
    case Stepping(_) => StepCompleted(wk.next)
    case Closing(e, _) => e
  }

  /** The worker after the publication. */
  function Announced(wk: P.Worker, onlyGlobal: bool): P.Worker
    requires P.MayPublish(wk.phase)
  {
    var pub := if onlyGlobal then P.OnGlobal else P.OnBoth;
    match wk.phase
    case Opening(_) => wk.(phase := P.Opening(pub))
    case Stepping(_) =>
      if onlyGlobal then wk.(phase := P.Stepping(P.OnGlobal)) else wk.(phase := P.Boundary, next := wk.next + 1)
    case Closing(e, _) => wk.(phase := P.Closing(e, pub))
  }

  lemma PublishSteps(c: P.Config, s: P.State, w: nat, onlyGlobal: bool) returns (s': P.State)
    requires w in s.workers && P.MayPublish(s.workers[w].phase)
    ensures P.Leads(c, s, s')
    ensures s'.workers == s.workers[w := Announced(s.workers[w], onlyGlobal)]
    ensures s'.global == s.global + [Announces(s.workers[w])]
    ensures s'.stream == if onlyGlobal then s.stream else s.stream + [Announces(s.workers[w])]
    ensures s'.status == s.status && s'.checkpoints == s.checkpoints && s'.apis == s.apis
  {
    P.LeadsNowhere(c, s);
    P.LeadsStep(c, s, s, P.PublishGlobal(w));
    s' := P.Apply(c, s, P.PublishGlobal(w));
    if !onlyGlobal {
      P.LeadsStep(c, s, s', P.PublishStream(w));
      s' := P.Apply(c, s', P.PublishStream(w));
    }
  }

  /** One protocol step that is not a publication. */
  lemma OneStep(c: P.Config, s: P.State, l: P.Label) returns (s': P.State)
    requires P.Enabled(c, s, l)
    ensures P.Leads(c, s, s') && s' == P.Apply(c, s, l)
  {
    P.LeadsNowhere(c, s);
    P.LeadsStep(c, s, s, l);
    s' := P.Apply(c, s, l);
  }

  /** The lock, the latest checkpoint, and an accepted submit. */
  lemma OpenSteps(c: P.Config, s: P.State, w: nat) returns (s': P.State)
    requires w in s.workers && s.workers[w] == P.Worker(Pending, P.Loaded, 0, 0) && P.BodyFree(s)
    ensures var start := P.NextStart(s.checkpoints);
            && P.Leads(c, s, s')
            && s' == s.(workers := s.workers[w := P.Worker(Pending, P.Opening(P.Unpublished), start, start)])
  {
    s' := OneStep(c, s, P.Acquire(w));
    P.LeadsStep(c, s, s', P.Open(w));
    s' := P.Apply(c, s', P.Open(w));
  }

  class Executor {
    // the row, as its session sees it
    var status: Status
    var pauseReason: Option<PauseReason>
    var context: Context
    // the context as last committed
    var committed: Context
    // the checkpoint rows and the streams
    var checkpoints: seq<CheckpointRow>
    var global: seq<StreamEvent>
    var stream: seq<StreamEvent>
    // the workers of other deliveries
    ghost var others: map<nat, P.Worker>
    // settings
    const maxPerExecution: real
    const maxPerDay: real

    constructor (context: Context, maxPerExecution: real, maxPerDay: real)
      ensures this.context == context == committed && Matches(P.Init) && others == map[]
      ensures this.maxPerExecution == maxPerExecution && this.maxPerDay == maxPerDay
    {
      status, pauseReason, this.context, committed := Pending, None, context, context;
      checkpoints, global, stream, others := [], [], [], map[];
      this.maxPerExecution := maxPerExecution;
      this.maxPerDay := maxPerDay;
    }

    function Settings(): Limits {
      Limits(maxPerExecution, maxPerDay)
    }

    ghost function Current(): Flag
      reads this`status, this`pauseReason
    {
      Flag(status, pauseReason)
    }

    ghost function Stored(): Record
      reads this
    {
      Record(Current(), context, checkpoints, global, stream)
    }

    /** The stored data is that of the protocol state. */
    ghost predicate Matches(s: P.State)
      reads this
    {
      && s.status == status
      && s.checkpoints == Indices(checkpoints)
      && s.global == Kinds(global)
      && s.stream == Kinds(stream)
      && s.apis == map[]
    }

    ghost predicate At(s: P.State, w: nat, wk: P.Worker)
      reads this
    {
      Matches(s) && w !in others && s.workers == others[w := wk]
    }

    /** The worker is gone. */
    ghost predicate Left(s: P.State, w: nat)
      reads this
    {
      Matches(s) && w !in others && s.workers == others
    }

    /** The task is over: its worker is gone, and everything is committed. */
    ghost predicate Idle(s: P.State, w: nat)
      reads this
    {
      Left(s, w) && committed == context
    }

    /** First on the global stream, then on the execution's own, unless the worker does not get there. */
    method Publish(
      event: StreamEvent, onlyGlobal: bool, ghost c: P.Config, ghost s: P.State, ghost w: nat, ghost wk: P.Worker)
      returns (ghost s': P.State)
      requires At(s, w, wk) && P.MayPublish(wk.phase) && Kind(event) == Announces(wk)
      modifies this`global, this`stream
      ensures global == old(global) + [event]
      ensures stream == if onlyGlobal then old(stream) else old(stream) + [event]
      ensures P.Leads(c, s, s') && At(s', w, Announced(wk, onlyGlobal))
    {
      AppendEvent(global, event);
      AppendEvent(stream, event);
      global := global + [event];
      if !onlyGlobal {
        stream := stream + [event];
      }
      s' := PublishSteps(c, s, w, onlyGlobal);
    }

    /** The pause, resume and cancel routes: an illegal trigger is answered with 409. */
    method HandleRequest(trigger: Trigger, ghost c: P.Config, ghost s: P.State)
      returns (ok: bool, ghost s': P.State)
      requires LegalRequest(trigger) && Matches(s)
      modifies this`status, this`pauseReason
      ensures ok <==> Target(old(status), trigger).Some?
      ensures Current() == Answer(old(Current()), trigger)
      ensures status == if ok then Target(old(status), trigger).value else old(status)
      ensures pauseReason ==
              if !ok || trigger.Cancel? then old(pauseReason)
              else if trigger.Resume? then None
              else Some(ManuallyPaused)
      ensures P.Leads(c, s, s') && Matches(s') && s'.workers == s.workers
    {
      var fsm := new ExecutionFSM(status);
      ok := fsm.Transition(trigger);
      s' := OneStep(c, s, P.ApiLoad(0, trigger));
      if ok {
        P.LeadsStep(c, s, s', P.ApiCommit(0));
        s' := P.Apply(c, s', P.ApiCommit(0));
        assert s'.apis == map[];
        status := fsm.status;
        if trigger.ManualPause? {
          pauseReason := Some(ManuallyPaused);
        } else if trigger.Resume? {
          pauseReason := None;
        }
      }
    }

    /** Requests that arrive one after the other. */
    method HandleRequests(requests: seq<Trigger>, ghost c: P.Config, ghost s: P.State)
      returns (ghost s': P.State)
      requires AllLegal(requests) && Matches(s)
      modifies this`status, this`pauseReason
      ensures P.Leads(c, s, s') && Matches(s') && s'.workers == s.workers
      ensures Current() == AfterRequests(old(Current()), requests)
    {
      s' := s;
      P.LeadsNowhere(c, s);
      for k := 0 to |requests|
        invariant P.Leads(c, s, s') && Matches(s') && s'.workers == s.workers
        invariant Current() == AfterRequests(old(Current()), requests[..k])
      {
        assert requests[..k + 1][..k] == requests[..k];
        ghost var s0 := s';
        var ok;
        ok, s' := HandleRequest(requests[k], c, s');
        P.LeadsFurther(c, s, s0, s');
      }
      assert requests[..|requests|] == requests;
    }

    /** The context and the tracker are as before. */
    twostate predicate NothingCharged(ctx: Context, ctx': Context, tracker: CT.CostTracker)
      reads this, tracker
    {
      && context == old(context) && ctx' == ctx
      && tracker.total == old(tracker.total) && tracker.dailyTotal == old(tracker.dailyTotal)
    }

    /** Exactly the step's cost was charged, to the context and to the tracker. */
    twostate predicate StepCharged(i: nat, cost: real, ctx: Context, ctx': Context, tracker: CT.CostTracker)
      reads this, tracker
    {
      && context == ctx' == Context(ctx.variables, i + 1, ctx.totalCost + cost)
      && tracker.total == old(tracker.total) + cost && tracker.dailyTotal == old(tracker.dailyTotal) + cost
    }

    /** Where the worker is after a turn that ended like this. */
    ghost predicate Standing(result: StepResult, s: P.State, w: nat, start: nat, i: nat)
      reads this
    {
      match result
      case StepDone => At(s, w, P.Worker(Pending, P.Boundary, start, i))
      case StepHalted => Left(s, w)
      case StepDied => exists phase :: At(s, w, P.Worker(Pending, phase, start, i))
      case _ => exists pub :: At(s, w, P.Worker(Pending, P.Stepping(pub), start, i))
    }

    /** The status check at the head of a turn; false when the execution was paused or cancelled. */
    method EnterStep(world: StepWorld, ghost c: P.Config, ghost s: P.State, ghost w: nat, ghost wk: P.Worker)
      returns (entered: bool, ghost s': P.State)
      requires AllLegal(world.requests)
      requires At(s, w, wk) && wk.phase.Boundary? && wk.next < |c.checkpointBefore|
      modifies this`status, this`pauseReason
      ensures P.Leads(c, s, s')
      ensures Current() == AfterRequests(old(Current()), world.requests)
      ensures entered <==> !(status.Paused? || status.Cancelled?)
      ensures if entered then At(s', w, wk.(phase := P.Entered)) else Left(s', w)
    {
      s' := HandleRequests(world.requests, c, s);
      assert P.Leave(s', w).workers == others;
      P.LeadsStep(c, s, s', P.Refresh(w));
      s' := P.Apply(c, s', P.Refresh(w));
      entered := !(status.Paused? || status.Cancelled?);
    }

    /** Commits the checkpoint of the step if it has one, and the context with it, before the step is executed. */
    method PassCheckpoint(
      step: StepConfig, ctx: Context, i: nat, ghost c: P.Config, ghost s: P.State, ghost w: nat, ghost wk: P.Worker)
      returns (ghost s': P.State)
      requires At(s, w, wk) && wk.phase.Entered? && wk.next == i < |c.checkpointBefore|
      requires c.checkpointBefore[i] == step.checkpointBefore
      modifies this`checkpoints, this`committed
      ensures checkpoints == old(checkpoints) +
                if step.checkpointBefore then [CheckpointRow(step.name, i, ctx.variables)] else []
      ensures committed == if step.checkpointBefore then context else old(committed)
      ensures P.Leads(c, s, s') && At(s', w, wk.(phase := P.Stepping(P.Unpublished)))
    {
      if step.checkpointBefore {
        var row := CheckpointRow(step.name, i, ctx.variables);
        AppendRow(checkpoints, row);
        checkpoints := checkpoints + [row];
        committed := context;
      }
      s' := OneStep(c, s, P.PassCheckpoint(w));
    }

    /** The step itself: its body, its cost, and its event. */
    method ExecuteStep(
      step: StepConfig, i: nat, world: StepWorld, ctx: Context, tracker: CT.CostTracker,
      ghost c: P.Config, ghost s: P.State, ghost w: nat, ghost wk: P.Worker)
      returns (result: StepResult, ctx': Context, ghost s': P.State)
      requires At(s, w, wk) && wk.phase == P.Stepping(P.Unpublished) && wk.next == i
      requires world.fault != Dies(BeforeCheckpoint)
      modifies this`context, this`global, this`stream, tracker
      ensures P.Leads(c, s, s')
      ensures if Charges(result, world.fault) then StepCharged(i, world.cost, ctx, ctx', tracker)
              else NothingCharged(ctx, ctx', tracker)
      ensures global ==
              old(global)
              + (if Publishes(result, world.fault) then [StepCompletedEvent(step.name, i, world.cost)] else [])
      ensures stream == old(stream) + (if result.StepDone? then [StepCompletedEvent(step.name, i, world.cost)] else [])
      ensures result == TurnResult(Running, world, old(tracker.total), old(tracker.dailyTotal), LimitsOf(tracker))
      ensures if result.StepDone? then At(s', w, wk.(phase := P.Boundary, next := i + 1))
              else exists pub :: At(s', w, wk.(phase := P.Stepping(pub)))
    {
      ctx', s' := ctx, s;
      P.LeadsNowhere(c, s);
      if world.fault == Dies(InBody) {
        return StepDied, ctx', s';
      }
      if world.fault.BodyRaises? {
        return StepFailed, ctx', s';
      }
      assert world.fault.Dies? ==> world.fault.moment.HalfPublished?;
      var breach := tracker.Add(world.cost);
      if breach.Some? {
        return StepOverBudget, ctx', s';
      }
      ctx' := ctx.(currentStepIndex := i + 1, totalCost := ctx.totalCost + world.cost);
      context := ctx';
      if world.fault.GlobalPublishRaises? {
        return StepFailed, ctx', s';
      }
      var onlyGlobal := world.fault.StreamPublishRaises? || world.fault.Dies?;
      s' := Publish(StepCompletedEvent(step.name, i, world.cost), onlyGlobal, c, s, w, wk);
      result := if world.fault.Dies? then StepDied else if onlyGlobal then StepFailed else StepDone;
    }

    /** The part of a turn after its status check: the checkpoint and the step. */
    method EnteredStep(
      step: StepConfig, i: nat, world: StepWorld, ctx: Context, tracker: CT.CostTracker,
      ghost c: P.Config, ghost s: P.State, ghost w: nat, ghost wk: P.Worker)
      returns (result: StepResult, ctx': Context, ghost s': P.State)
      requires At(s, w, wk) && wk.phase.Entered? && wk.next == i < |c.checkpointBefore|
      requires c.checkpointBefore[i] == step.checkpointBefore && world.fault != Dies(BeforeCheckpoint)
      modifies this`context, this`committed, this`checkpoints, this`global, this`stream, tracker
      ensures P.Leads(c, s, s')
      ensures if Charges(result, world.fault) then StepCharged(i, world.cost, ctx, ctx', tracker)
              else NothingCharged(ctx, ctx', tracker)
      ensures checkpoints == old(checkpoints) +
                if step.checkpointBefore then [CheckpointRow(step.name, i, ctx.variables)] else []
      ensures committed == if step.checkpointBefore then old(context) else old(committed)
      ensures global ==
              old(global)
              + (if Publishes(result, world.fault) then [StepCompletedEvent(step.name, i, world.cost)] else [])
      ensures stream == old(stream) + (if result.StepDone? then [StepCompletedEvent(step.name, i, world.cost)] else [])
      ensures result == TurnResult(Running, world, old(tracker.total), old(tracker.dailyTotal), LimitsOf(tracker))
      ensures if result.StepDone? then At(s', w, wk.(phase := P.Boundary, next := i + 1))
              else exists pub :: At(s', w, wk.(phase := P.Stepping(pub)))
    {
      s' := PassCheckpoint(step, ctx, i, c, s, w, wk);
      ghost var s0 := s';
      result, ctx', s' := ExecuteStep(step, i, world, ctx, tracker, c, s', w, wk.(phase := P.Stepping(P.Unpublished)));
      P.LeadsFurther(c, s, s0, s');
    }

    /** One turn of the step loop: the status check, the checkpoint, and the step. */
    method RunStep(
      step: StepConfig, i: nat, world: StepWorld, ctx: Context, tracker: CT.CostTracker,
      ghost c: P.Config, ghost s: P.State, ghost w: nat, ghost o: Origin)
      returns (end: LoopEnd, ctx': Context, ghost s': P.State)
      requires AllLegal(world.requests) && At(s, w, P.Worker(Pending, P.Boundary, o.start, i))
      requires i < |c.checkpointBefore| && c.checkpointBefore[i] == step.checkpointBefore
      requires ctx.variables == o.variables && ctx.totalCost == o.loaded.totalCost + tracker.total
      modifies this`status, this`pauseReason, this`context, this`committed, this`checkpoints, this`global, this`stream
      modifies tracker
      ensures P.Leads(c, s, s') && Standing(end.result, s', w, o.start, end.at)
      ensures Turned(
                i, world, LimitsOf(tracker), old(Current()), old(tracker.total), old(tracker.dailyTotal),
                end, tracker.total, tracker.dailyTotal)
      ensures end.result.StepDone? <==>
              && !(end.flag.status.Paused? || end.flag.status.Cancelled?) && world.fault.NoFault?
              && old(tracker.total) + world.cost <= tracker.maxPerExecution
              && old(tracker.dailyTotal) + world.cost <= tracker.maxPerDay
      ensures StepWrote(old(Stored()), Stored(), end, step, i, world, o, old(tracker.total))
      ensures ctx'.variables == o.variables && ctx'.totalCost == o.loaded.totalCost + tracker.total
      ensures tracker.total == old(tracker.total) + if Charges(end.result, world.fault) then world.cost else 0.0
      ensures committed ==
              if step.checkpointBefore && Passes(end.result, world.fault) then old(context) else old(committed)
    {
      ghost var wk := P.Worker(Pending, P.Boundary, o.start, i);
      ctx' := ctx;
      var entered;
      entered, s' := EnterStep(world, c, s, w, wk);
      var flag := Flag(status, pauseReason);
      if !entered {
        return LoopEnd(StepHalted, i, flag), ctx', s';
      }
      if world.fault == Dies(BeforeCheckpoint) {
        return LoopEnd(StepDied, i, flag), ctx', s';
      }
      ghost var s0 := s';
      var result;
      result, ctx', s' := EnteredStep(step, i, world, ctx, tracker, c, s', w, wk.(phase := P.Entered));
      P.LeadsFurther(c, s, s0, s');
      end := LoopEnd(result, if result.StepDone? then i + 1 else i, flag);
    }

    /** Publishes the closing event and commits the status that goes with it. */
    method Close(event: StreamEvent, ghost c: P.Config, ghost s: P.State, ghost w: nat, ghost wk: P.Worker)
      returns (ghost s': P.State)
      requires event.PausedEvent? || event.CompletedEvent?
      requires At(s, w, wk) && wk.phase == P.Closing(Kind(event), P.Unpublished)
      modifies this`status, this`pauseReason, this`committed, this`global, this`stream
      ensures P.Leads(c, s, s') && Idle(s', w)
      ensures global == old(global) + [event] && stream == old(stream) + [event]
      ensures status == if event.PausedEvent? then Paused else Completed
      ensures pauseReason ==
              if event.PausedEvent? && event.reason.CostLimitExceeded? then Some(event.reason) else old(pauseReason)
    {
      s' := Publish(event, false, c, s, w, wk);
      assert P.Leave(s', w).workers == others;
      P.LeadsStep(c, s, s', P.CommitEnd(w));
      s' := P.Apply(c, s', P.CommitEnd(w));
      status := if event.PausedEvent? then Paused else Completed;
      if event.PausedEvent? && event.reason.CostLimitExceeded? {
        pauseReason := Some(event.reason);
      }
      committed := context;
    }

    /** A dead worker's transaction is rolled back and its task goes back to the queue. */
    method Die(ghost c: P.Config, ghost s: P.State, ghost w: nat, ghost wk: P.Worker) returns (ghost s': P.State)
      requires At(s, w, wk)
      modifies this`context
      ensures context == committed && P.Leads(c, s, s') && Idle(s', w)
    {
      s' := OneStep(c, s, P.Crash(w));
      assert s'.workers == others;
      context := committed;
    }

    /** Takes the lock, resumes after the latest checkpoint, and announces the run. */
    method Open(loadedContext: Context, ghost c: P.Config, ghost s: P.State, ghost w: nat)
      returns (start: nat, ctx: Context, ghost s': P.State)
      requires At(s, w, P.Worker(Pending, P.Loaded, 0, 0)) && P.BodyFree(s) && committed == context
      modifies this`status, this`global, this`stream
      ensures start == P.NextStart(Indices(checkpoints)) && status.Running?
      ensures global == old(global) + [StartedEvent] && stream == old(stream) + [StartedEvent]
      ensures ctx.totalCost == loadedContext.totalCost
      ensures StartsWith(checkpoints, loadedContext, ctx.variables)
      ensures P.Leads(c, s, s') && At(s', w, P.Worker(Pending, P.Boundary, start, start))
    {
      var checkpoint := GetLatest(checkpoints);
      start, ctx := 0, loadedContext;
      if checkpoint.Some? {
        start := checkpoint.value.stepIndex + 1;
        ctx := loadedContext.(variables := checkpoint.value.variables);
      }
      s' := OpenSteps(c, s, w);
      ghost var s0 := s';
      s' := Publish(StartedEvent, false, c, s', w, P.Worker(Pending, P.Opening(P.Unpublished), start, start));
      P.LeadsFurther(c, s, s0, s');
      P.LeadsStep(c, s, s', P.CommitStart(w));
      s' := P.Apply(c, s', P.CommitStart(w));
      status := Running;
    }

    /** One turn against the values: what it wrote, charged and committed is what they say for step i. */
    method Turn(
      ghost o: Origin, i: nat, ctx: Context, steps: seq<StepConfig>, worlds: seq<StepWorld>,
      tracker: CT.CostTracker, ghost c: P.Config, ghost s: P.State, ghost w: nat)
      returns (end: LoopEnd, ctx': Context, ghost s': P.State)
      requires o.start <= i < |steps| == |worlds| && c == P.Config(Flags(steps)) && LegalRequests(worlds)
      requires At(s, w, P.Worker(Pending, P.Boundary, o.start, i))
      requires tracker.total == ChargedBefore(o, steps, worlds, i)
      requires ctx.variables == o.variables && ctx.totalCost == o.loaded.totalCost + tracker.total
      requires context == ContextAt(o, steps, worlds, i) && committed == SavedContext(o, steps, worlds, i)
      modifies this`status, this`pauseReason, this`context, this`committed, this`checkpoints, this`global, this`stream
      modifies tracker
      ensures P.Leads(c, s, s') && Standing(end.result, s', w, o.start, end.at)
      ensures Turned(
                i, worlds[i], LimitsOf(tracker), old(Current()), old(tracker.total), old(tracker.dailyTotal),
                end, tracker.total, tracker.dailyTotal)
      ensures Stored() == Looped(old(Stored()), o, steps, worlds, i, end)
      ensures tracker.total == ChargedBefore(o, steps, worlds, Extent(end, worlds)) + Unpublished(end, worlds)
      ensures ctx'.variables == o.variables && ctx'.totalCost == o.loaded.totalCost + tracker.total
      ensures committed == SavedContext(o, steps, worlds, Reached(end, worlds))
    {
      end, ctx', s' := RunStep(steps[i], i, worlds[i], ctx, tracker, c, s, w, o);
      TurnWrote(old(Stored()), Stored(), o, steps, worlds, i, end);
      TurnSpent(o, steps, worlds, i, end);
      TurnCommitted(o.start, steps, worlds, i, end);
    }

    /**
     * The step loop from `start` until it is over or a turn ends it. It ends as the values say and
     * has written exactly the steps it got through; the tracker holds their cost and that of the
     * step whose publication failed; and the last commit is that of the last checkpoint it passed.
     */
    method StepLoop(
      start: nat, loadedCtx: Context, steps: seq<StepConfig>, worlds: seq<StepWorld>, tracker: CT.CostTracker,
      ghost c: P.Config, ghost s: P.State, ghost w: nat, ghost o: Origin)
      returns (end: LoopEnd, ghost s': P.State)
      requires |worlds| == |steps| && c == P.Config(Flags(steps)) && LegalRequests(worlds)
      requires At(s, w, P.Worker(Pending, P.Boundary, start, start))
      requires o.start == start && o.stored == context == committed
      requires loadedCtx.variables == o.variables && loadedCtx.totalCost == o.loaded.totalCost
      requires tracker.total == 0.0 && tracker.dailyTotal == 0.0
      modifies this`status, this`pauseReason, this`context, this`committed, this`checkpoints, this`global, this`stream
      modifies tracker
      ensures P.Leads(c, s, s') && Standing(end.result, s', w, start, end.at)
      ensures end == Loop(old(Current()), 0.0, 0.0, start, worlds, LimitsOf(tracker))
      ensures Stored() == Looped(old(Stored()), o, steps, worlds, start, end)
      ensures tracker.total == ChargedBefore(o, steps, worlds, Extent(end, worlds)) + Unpublished(end, worlds)
      ensures committed == SavedContext(o, steps, worlds, Reached(end, worlds))
    {
      var ctx := loadedCtx;
      ghost var whole := Loop(Current(), 0.0, 0.0, start, worlds, LimitsOf(tracker));
      end, s' := LoopEnd(StepDone, start, Flag(status, pauseReason)), s;
      P.LeadsNowhere(c, s);
      while end.at < |steps| && end.result.StepDone?
        invariant start <= end.at && (!end.result.StepDone? ==> end.at < |steps|)
        invariant P.Leads(c, s, s') && Standing(end.result, s', w, start, end.at)
        invariant whole == Onwards(tracker.total, tracker.dailyTotal, end, worlds, LimitsOf(tracker))
        invariant Stored() == Looped(old(Stored()), o, steps, worlds, start, end)
        invariant tracker.total == ChargedBefore(o, steps, worlds, Extent(end, worlds)) + Unpublished(end, worlds)
        invariant ctx.variables == o.variables && ctx.totalCost == o.loaded.totalCost + tracker.total
        invariant committed == SavedContext(o, steps, worlds, Reached(end, worlds))
        decreases |steps| - end.at, end.result.StepDone?
      {
        ghost var s0, before, total, daily := s', Stored(), tracker.total, tracker.dailyTotal;
        var i := end.at;
        end, ctx, s' := Turn(o, i, ctx, steps, worlds, tracker, c, s', w);
        P.LeadsFurther(c, s, s0, s');
        LoopTurn(
          i, worlds, LimitsOf(tracker), before.flag, total, daily, end, tracker.total, tracker.dailyTotal);
        LoopedFurther(old(Stored()), before, o, steps, worlds, i, before.flag, end);
      }
    }

    /** The closing of a run that stays alive: ExecutionCompleted with the cost of this run, or ExecutionPaused. */
    method CloseRun(
      end: LoopEnd, total: real, steps: seq<StepConfig>,
      ghost c: P.Config, ghost s: P.State, ghost w: nat, ghost wk: P.Worker)
      returns (outcome: Outcome, ghost s': P.State)
      requires c == P.Config(Flags(steps)) && (end.result.StepDone? <==> end.at >= |steps|)
      requires !end.result.StepHalted? && !end.result.StepDied? && At(s, w, wk) && wk.next == end.at
      requires if end.result.StepDone? then wk.phase.Boundary? else wk.phase.Stepping?
      modifies this`status, this`pauseReason, this`committed, this`global, this`stream
      ensures P.Leads(c, s, s') && Idle(s', w)
      ensures outcome == RunOutcome(end, Ending([], false), steps)
      ensures Current() == ClosingFlag(end.result, old(Current()))
      ensures global == old(global) + ClosingEvent(outcome, total, steps)
      ensures stream == old(stream) + ClosingEvent(outcome, total, steps)
    {
      if end.result.StepDone? {
        s' := OneStep(c, s, P.FinishSteps(w));
        ghost var s0 := s';
        s' := Close(
          CompletedEvent(total, |steps|), c, s', w, wk.(phase := P.Closing(ExecutionCompleted, P.Unpublished)));
        P.LeadsFurther(c, s, s0, s');
        outcome := Finished;
      } else {
        var reason := if end.result.StepOverBudget? then CostLimitExceeded else StepError;
        s' := OneStep(c, s, P.Raise(w));
        ghost var s0 := s';
        s' := Close(
          PausedEvent(reason, steps[end.at].name), c, s', w, wk.(phase := P.Closing(ExecutionPaused, P.Unpublished)));
        P.LeadsFurther(c, s, s0, s');
        outcome := PausedRun(reason, steps[end.at].name);
      }
    }

    /** More requests, and then the worker's death, or the closing event and status. */
    method CloseOrDie(
      end: LoopEnd, total: real, steps: seq<StepConfig>, ending: Ending,
      ghost c: P.Config, ghost s: P.State, ghost w: nat, ghost wk: P.Worker)
      returns (outcome: Outcome, ghost s': P.State)
      requires c == P.Config(Flags(steps)) && (end.result.StepDone? <==> end.at >= |steps|)
      requires !end.result.StepHalted? && !end.result.StepDied? && At(s, w, wk) && wk.next == end.at
      requires if end.result.StepDone? then wk.phase.Boundary? else wk.phase.Stepping?
      requires Current() == end.flag && AllLegal(ending.requests)
      modifies this`status, this`pauseReason, this`context, this`committed, this`global, this`stream
      ensures P.Leads(c, s, s') && Idle(s', w)
      ensures outcome == RunOutcome(end, ending, steps) && Current() == FinalFlag(end, ending)
      ensures context == if outcome.Died? then old(committed) else old(context)
      ensures global == old(global) + ClosingEvent(outcome, total, steps)
      ensures stream == old(stream) + ClosingEvent(outcome, total, steps)
    {
      ghost var s0 := HandleRequests(ending.requests, c, s);
      if ending.dies {
        s' := Die(c, s0, w, wk);
        outcome := Died;
      } else {
        outcome, s' := CloseRun(end, total, steps, c, s0, w, wk);
      }
      P.LeadsFurther(c, s, s0, s');
    }

    /** What follows the loop: nothing, the worker's death, or more requests and then the closing event and status. */
    method Conclude(
      end: LoopEnd, total: real, steps: seq<StepConfig>, ending: Ending,
      ghost c: P.Config, ghost s: P.State, ghost w: nat, ghost start: nat)
      returns (outcome: Outcome, ghost s': P.State)
      requires c == P.Config(Flags(steps)) && (end.result.StepDone? <==> end.at >= |steps|)
      requires Standing(end.result, s, w, start, end.at) && Current() == end.flag && AllLegal(ending.requests)
      modifies this`status, this`pauseReason, this`context, this`committed, this`global, this`stream
      ensures P.Leads(c, s, s') && Idle(s', w)
      ensures outcome == RunOutcome(end, ending, steps) && Current() == FinalFlag(end, ending)
      ensures context == if outcome.Died? then old(committed) else old(context)
      ensures global == old(global) + ClosingEvent(outcome, total, steps)
      ensures stream == old(stream) + ClosingEvent(outcome, total, steps)
    {
      if end.result.StepHalted? {
        s', outcome, committed := s, StoppedByStatus, context;
        P.LeadsNowhere(c, s);
      } else if end.result.StepDied? {
        s' := Die(c, s, w, s.workers[w]);
        outcome := Died;
      } else {
        outcome, s' := CloseOrDie(end, total, steps, ending, c, s, w, s.workers[w]);
      }
    }

    /** A run up to the end of its step loop, with a tracker of its own. */
    method RunSteps(
      loadedContext: Context, steps: seq<StepConfig>, worlds: seq<StepWorld>,
      ghost c: P.Config, ghost s: P.State, ghost w: nat)
      returns (end: LoopEnd, total: real, ghost o: Origin, ghost s': P.State)
      requires |worlds| == |steps| && c == P.Config(Flags(steps)) && LegalRequests(worlds)
      requires At(s, w, P.Worker(Pending, P.Loaded, 0, 0)) && P.BodyFree(s) && committed == context
      modifies this`status, this`pauseReason, this`context, this`committed, this`checkpoints, this`global, this`stream
      ensures o == OriginOf(old(Stored()), loadedContext, o.variables)
      ensures StartsWith(old(checkpoints), loadedContext, o.variables)
      ensures P.Leads(c, s, s') && Standing(end.result, s', w, o.start, end.at)
      ensures end == RunEnd(old(Stored()), worlds, Settings())
      ensures Stored() == Looped(Opened(old(Stored())), o, steps, worlds, o.start, end)
      ensures total == ChargedBefore(o, steps, worlds, Extent(end, worlds)) + Unpublished(end, worlds)
      ensures committed == SavedContext(o, steps, worlds, Reached(end, worlds))
    {
      var tracker := new CT.CostTracker(maxPerExecution, maxPerDay);
      var start, ctx;
      start, ctx, s' := Open(loadedContext, c, s, w);
      ghost var s0 := s';
      o := OriginOf(old(Stored()), loadedContext, ctx.variables);
      assert Stored() == Opened(old(Stored()));
      end, s' := StepLoop(start, ctx, steps, worlds, tracker, c, s', w, o);
      P.LeadsFurther(c, s, s0, s');
      total := tracker.total;
    }

    /** The run of a worker that read PENDING and got the lock. */
    method RunLocked(
      loadedContext: Context, steps: seq<StepConfig>, worlds: seq<StepWorld>, ending: Ending,
      ghost c: P.Config, ghost s: P.State, ghost w: nat)
      returns (outcome: Outcome, ghost s': P.State)
      requires |worlds| == |steps| && c == P.Config(Flags(steps))
      requires LegalRequests(worlds) && AllLegal(ending.requests)
      requires At(s, w, P.Worker(Pending, P.Loaded, 0, 0)) && P.BodyFree(s) && committed == context
      modifies this`status, this`pauseReason, this`context, this`committed, this`checkpoints, this`global, this`stream
      ensures P.Leads(c, s, s') && Idle(s', w)
      ensures RanThrough(old(Stored()), Stored(), loadedContext, steps, worlds, ending, Settings(), outcome)
      ensures !outcome.LockRefused? && !outcome.Rejected?
    {
      ghost var o, s0;
      var end, total;
      end, total, o, s0 := RunSteps(loadedContext, steps, worlds, c, s, w);
      ghost var looped, saved := Stored(), committed;
      outcome, s' := Conclude(end, total, steps, ending, c, s0, w, o.start);
      P.LeadsFurther(c, s, s0, s');
      ConcludedIs(looped, Stored(), o, steps, worlds, end, ending, total, saved);
      RunIs(old(Stored()), Stored(), loadedContext, o, steps, worlds, ending, Settings());
    }

    /**
     * One delivery of the task, after the row was read as `loaded` and `loadedContext`.
     *
     * Whatever happens around it, the run is a run of the protocol; what it publishes is
     * Started, consecutive steps from the one after the latest checkpoint, and at most one
     * closing event; and the row, the checkpoints and the streams are left exactly as the
     * values say, when the worker dies as well.
     */
    method Run(
      loaded: Status, loadedContext: Context, steps: seq<StepConfig>, worlds: seq<StepWorld>, ending: Ending,
      lockFree: bool, ghost c: P.Config, ghost s: P.State, ghost w: nat)
      returns (outcome: Outcome, ghost s': P.State)
      requires |worlds| == |steps| && c == P.Config(Flags(steps))
      requires LegalRequests(worlds) && AllLegal(ending.requests)
      requires At(s, w, P.Worker(loaded, P.Loaded, 0, 0)) && committed == context
      requires lockFree <==> P.BodyFree(s)
      modifies this`status, this`pauseReason, this`context, this`committed, this`checkpoints, this`global, this`stream
      ensures P.Leads(c, s, s') && Idle(s', w)
      ensures outcome.LockRefused? <==> !lockFree
      ensures outcome.Rejected? <==> lockFree && !loaded.Pending?
      ensures outcome.LockRefused? || outcome.Rejected? ==> Stored() == old(Stored())
      ensures !outcome.LockRefused? && !outcome.Rejected? ==>
                RanThrough(old(Stored()), Stored(), loadedContext, steps, worlds, ending, Settings(), outcome)
    {
      var fsm := new ExecutionFSM(loaded);
      var accepted := fsm.Transition(Submit);
      if !lockFree || !accepted {
        s' := OneStep(c, s, P.Abort(w));
        assert s'.workers == others;
        outcome := if lockFree then Rejected else LockRefused;
      } else {
        outcome, s' := RunLocked(loadedContext, steps, worlds, ending, c, s, w);
      }
    }
  }

  /**
   * What the protocol promises is true of the streams the executor wrote: whenever they are
   * those of a reachable state, a checkpointed step is on either stream at most once.
   */
  lemma StreamsKeepThePromises(
    c: P.Config, s: P.State, global: seq<StreamEvent>, stream: seq<StreamEvent>, j: nat)
    requires P.Leads(c, P.Init, s) && s.global == Kinds(global) && s.stream == Kinds(stream)
    requires PI.Checkpointed(c, j)
    ensures multiset(Kinds(global))[StepCompleted(j)] <= 1
    ensures multiset(Kinds(stream))[StepCompleted(j)] <= 1
  {
    var ls :| P.ExecuteFrom(c, P.Init, ls) == Some(s);
    assert P.Valid(c, ls) && P.Final(c, ls) == s;
    PT.AtMostOnce(c, ls, j);
  }

  lemma StreamIsSubsequence(c: P.Config, s: P.State, global: seq<StreamEvent>, stream: seq<StreamEvent>)
    requires P.Leads(c, P.Init, s) && s.global == Kinds(global) && s.stream == Kinds(stream)
    ensures Subsequence(Kinds(stream), Kinds(global))
  {
    var ls :| P.ExecuteFrom(c, P.Init, ls) == Some(s);
    assert P.Valid(c, ls) && P.Final(c, ls) == s;
    PT.EventLogGrammar(c, ls);
  }
}
