/**
 * One run of the executor as values: what its step loop publishes, charges and checkpoints,
 * given the API requests, costs and failures it meets.
 */
module Runs {
  import opened Options
  import opened StateMachine
  import opened EventLog
  import P = Protocol

  type Variables = map<string, string>

  datatype StepConfig = StepConfig(name: string, checkpointBefore: bool)

  datatype Context = Context(variables: Variables, currentStepIndex: nat, totalCost: real)

  datatype CheckpointRow = CheckpointRow(stepName: string, stepIndex: nat, variables: Variables)

  datatype PauseReason = CostLimitExceeded | StepError | ManuallyPaused

  datatype StreamEvent =
    | StartedEvent
    | StepCompletedEvent(stepName: string, stepIndex: nat, cost: real)
    | PausedEvent(reason: PauseReason, atStep: string)
    | CompletedEvent(totalCost: real, totalSteps: nat)

  /** What goes wrong in one step: its body or one of the two publications raises, or the worker dies. */
  datatype Fault = NoFault | BodyRaises | GlobalPublishRaises | StreamPublishRaises | Dies(moment: Moment)

  /** Where in its step a worker dies; before the checkpoint means after the previous step, too. */
  datatype Moment = BeforeCheckpoint | InBody | HalfPublished

  /** What the world does around one step: API requests before its status check, its cost, its fault. */
  datatype StepWorld = StepWorld(requests: seq<Trigger>, cost: real, fault: Fault)

  /** What the world does after the last turn: API requests, and whether the worker dies before its closing event. */
  datatype Ending = Ending(requests: seq<Trigger>, dies: bool)

  datatype Limits = Limits(perExecution: real, perDay: real)

  datatype Outcome =
    | LockRefused
    | Rejected
    | StoppedByStatus
    | PausedRun(reason: PauseReason, atStep: string)
    | Finished
    | Died

  /** How one turn of the step loop ends. */
  datatype StepResult = StepDone | StepHalted | StepOverBudget | StepFailed | StepDied

  // ---- Events, rows and costs

  function Kind(e: StreamEvent): Event {
    match e
    case StartedEvent => ExecutionStarted
    case StepCompletedEvent(_, i, _) => StepCompleted(i)
    case PausedEvent(_, _) => ExecutionPaused
    case CompletedEvent(_, _) => ExecutionCompleted
  }

  function Kinds(events: seq<StreamEvent>): seq<Event> {
    seq(|events|, i requires 0 <= i < |events| => Kind(events[i]))
  }

  function Indices(rows: seq<CheckpointRow>): seq<nat> {
    seq(|rows|, i requires 0 <= i < |rows| => rows[i].stepIndex)
  }

  /** The costs published in a stretch of the log. */
  function Spent(events: seq<StreamEvent>): real {
    if events == [] then 0.0
    else Spent(events[..|events| - 1]) + (if Last(events).StepCompletedEvent? then Last(events).cost else 0.0)
  }

  function Flags(steps: seq<StepConfig>): seq<bool> {
    seq(|steps|, i requires 0 <= i < |steps| => steps[i].checkpointBefore)
  }

  lemma AppendEvent(events: seq<StreamEvent>, e: StreamEvent)
    ensures Kinds(events + [e]) == Kinds(events) + [Kind(e)]
    ensures Spent(events + [e]) == Spent(events) + (if e.StepCompletedEvent? then e.cost else 0.0)
  {
    assert (events + [e])[..|events|] == events;
  }

  lemma AppendRow(rows: seq<CheckpointRow>, row: CheckpointRow)
    ensures Indices(rows + [row]) == Indices(rows) + [row.stepIndex]
  {
    assert Indices(rows + [row]) == Indices(rows) + [row.stepIndex];
  }

  /** The events of steps lo..hi-1, with the costs the world gave them. */
  function Published(steps: seq<StepConfig>, worlds: seq<StepWorld>, lo: nat, hi: nat): seq<StreamEvent> {
    if hi <= lo then [] else Published(steps, worlds, lo, hi - 1) + EventOf(steps, worlds, hi - 1)
  }

  function EventOf(steps: seq<StepConfig>, worlds: seq<StepWorld>, i: nat): seq<StreamEvent> {
    if i < |steps| && i < |worlds| then [StepCompletedEvent(steps[i].name, i, worlds[i].cost)] else []
  }

  /** The checkpoint rows of steps lo..hi-1. */
  function Rows(steps: seq<StepConfig>, variables: Variables, lo: nat, hi: nat): seq<CheckpointRow> {
    if hi <= lo then [] else Rows(steps, variables, lo, hi - 1) + RowOf(steps, variables, hi - 1)
  }

  function RowOf(steps: seq<StepConfig>, variables: Variables, i: nat): seq<CheckpointRow> {
    if i < |steps| && steps[i].checkpointBefore then [CheckpointRow(steps[i].name, i, variables)] else []
  }

  lemma PublishedOne(steps: seq<StepConfig>, worlds: seq<StepWorld>, variables: Variables, i: nat)
    ensures Published(steps, worlds, i, i) == [] && Published(steps, worlds, i, i + 1) == EventOf(steps, worlds, i)
    ensures Rows(steps, variables, i, i) == [] && Rows(steps, variables, i, i + 1) == RowOf(steps, variables, i)
  {
  }

  lemma {:induction false} PublishedFurther(steps: seq<StepConfig>, worlds: seq<StepWorld>, lo: nat, mid: nat, hi: nat)
    requires lo <= mid <= hi
    ensures Published(steps, worlds, lo, mid) + Published(steps, worlds, mid, hi) == Published(steps, worlds, lo, hi)
  {
    if mid < hi {
      PublishedFurther(steps, worlds, lo, mid, hi - 1);
      ConcatIsAssociative(
        Published(steps, worlds, lo, mid), Published(steps, worlds, mid, hi - 1), EventOf(steps, worlds, hi - 1));
    }
  }

  lemma {:induction false} RowsFurther(steps: seq<StepConfig>, variables: Variables, lo: nat, mid: nat, hi: nat)
    requires lo <= mid <= hi
    ensures Rows(steps, variables, lo, mid) + Rows(steps, variables, mid, hi) == Rows(steps, variables, lo, hi)
  {
    if mid < hi {
      RowsFurther(steps, variables, lo, mid, hi - 1);
      ConcatIsAssociative(
        Rows(steps, variables, lo, mid), Rows(steps, variables, mid, hi - 1), RowOf(steps, variables, hi - 1));
    }
  }

  lemma ConcatIsAssociative<T>(a: seq<T>, b: seq<T>, c: seq<T>)
    ensures a + b + c == a + (b + c)
  {
  }

  lemma {:induction false} PublishedKinds(steps: seq<StepConfig>, worlds: seq<StepWorld>, lo: nat, hi: nat)
    requires lo < hi ==> hi <= |steps| && hi <= |worlds|
    ensures Kinds(Published(steps, worlds, lo, hi)) == StepEvents(lo, hi)
  {
    if lo < hi {
      PublishedKinds(steps, worlds, lo, hi - 1);
      var event := StepCompletedEvent(steps[hi - 1].name, hi - 1, worlds[hi - 1].cost);
      assert Published(steps, worlds, lo, hi) == Published(steps, worlds, lo, hi - 1) + [event];
      AppendEvent(Published(steps, worlds, lo, hi - 1), event);
      assert StepEvents(lo, hi) == StepEvents(lo, hi - 1) + [Kind(event)];
    }
  }

  // ---- Requests

  /** The stored status and pause reason. */
  datatype Flag = Flag(status: Status, reason: Option<PauseReason>)

  /** A request's effect on them; an illegal one has none. */
  function Answer(flag: Flag, trigger: Trigger): Flag {
    if Target(flag.status, trigger).None? then flag
    else
      Flag(
        Target(flag.status, trigger).value,
        if trigger.Resume? then None else if trigger.ManualPause? then Some(ManuallyPaused) else flag.reason)
  }

  function AfterRequests(flag: Flag, requests: seq<Trigger>): Flag {
    if requests == [] then flag
    else Answer(AfterRequests(flag, requests[..|requests| - 1]), requests[|requests| - 1])
  }

  /** What the API routes can ask for. */
  predicate LegalRequest(t: Trigger) {
    t.ManualPause? || t.Resume? || t.Cancel?
  }

  predicate AllLegal(requests: seq<Trigger>) {
    forall t :: t in requests ==> LegalRequest(t)
  }

  predicate LegalRequests(worlds: seq<StepWorld>) {
    forall i :: 0 <= i < |worlds| ==> AllLegal(worlds[i].requests)
  }

  // ---- The step loop

  predicate OverBudget(cost: real, total: real, daily: real, limits: Limits) {
    total + cost > limits.perExecution || daily + cost > limits.perDay
  }

  /** How a turn ends that finds this status, having spent `total` and `daily` so far. */
  function TurnResult(status: Status, world: StepWorld, total: real, daily: real, limits: Limits): StepResult {
    if status.Paused? || status.Cancelled? then StepHalted
    else if world.fault == Dies(BeforeCheckpoint) || world.fault == Dies(InBody) then StepDied
    else if world.fault.BodyRaises? then StepFailed
    else if OverBudget(world.cost, total, daily, limits) then StepOverBudget
    else if world.fault.NoFault? then StepDone
    else if world.fault.Dies? then StepDied
    else StepFailed
  }

  /** A turn that ended like this has passed its step's checkpoint. */
  predicate Passes(result: StepResult, fault: Fault) {
    !result.StepHalted? && fault != Dies(BeforeCheckpoint)
  }

  /** It has charged its step. */
  predicate Charges(result: StepResult, fault: Fault) {
    || result.StepDone?
    || (result.StepFailed? && !fault.BodyRaises?)
    || (result.StepDied? && fault == Dies(HalfPublished))
  }

  /** It has published its step on the global stream. */
  predicate Publishes(result: StepResult, fault: Fault) {
    || result.StepDone?
    || (result.StepFailed? && fault.StreamPublishRaises?)
    || (result.StepDied? && fault == Dies(HalfPublished))
  }

  /** Where the loop stands when it is over, how its last turn ended, and what the row then says. */
  datatype LoopEnd = LoopEnd(result: StepResult, at: nat, flag: Flag)

  function Loop(flag: Flag, total: real, daily: real, i: nat, worlds: seq<StepWorld>, limits: Limits): (end: LoopEnd)
    ensures i <= end.at && (end.result.StepDone? <==> end.at >= |worlds|) && (end.at <= |worlds| || end.at == i)
    decreases |worlds| - i
  {
    if i >= |worlds| then LoopEnd(StepDone, i, flag)
    else
      var checked := AfterRequests(flag, worlds[i].requests);
      var result := TurnResult(checked.status, worlds[i], total, daily, limits);
      if result.StepDone?
      then Loop(checked, total + worlds[i].cost, daily + worlds[i].cost, i + 1, worlds, limits)
      else LoopEnd(result, i, checked)
  }

  /** The loop's turn at step i took these values to those. */
  predicate Turned(
    i: nat, world: StepWorld, limits: Limits, flag: Flag, total: real, daily: real,
    end: LoopEnd, total': real, daily': real)
  {
    && end.flag == AfterRequests(flag, world.requests)
    && end.result == TurnResult(end.flag.status, world, total, daily, limits)
    && end.at == (if end.result.StepDone? then i + 1 else i)
    && (end.result.StepDone? ==> total' == total + world.cost && daily' == daily + world.cost)
  }

  /** Where a loop that stands like this will end. */
  function Onwards(total: real, daily: real, end: LoopEnd, worlds: seq<StepWorld>, limits: Limits): LoopEnd {
    if end.result.StepDone? then Loop(end.flag, total, daily, end.at, worlds, limits) else end
  }

  lemma LoopTurn(
    i: nat, worlds: seq<StepWorld>, limits: Limits, flag: Flag, total: real, daily: real,
    end: LoopEnd, total': real, daily': real)
    requires i < |worlds| && Turned(i, worlds[i], limits, flag, total, daily, end, total', daily')
    ensures Loop(flag, total, daily, i, worlds, limits) == Onwards(total', daily', end, worlds, limits)
  {
  }

  /** The loop ended in the middle of step end.at. */
  predicate Broken(end: LoopEnd, worlds: seq<StepWorld>) {
    !end.result.StepDone? && end.at < |worlds|
  }

  /** The steps below this one are on the global stream. */
  function Extent(end: LoopEnd, worlds: seq<StepWorld>): nat {
    if Broken(end, worlds) && Publishes(end.result, worlds[end.at].fault) then end.at + 1 else end.at
  }

  /** The steps below this one passed their checkpoint. */
  function Reached(end: LoopEnd, worlds: seq<StepWorld>): nat {
    if Broken(end, worlds) && Passes(end.result, worlds[end.at].fault) then end.at + 1 else end.at
  }

  /** The loop's last turn broke off after its step was charged. */
  predicate BrokenCharged(end: LoopEnd, worlds: seq<StepWorld>) {
    Broken(end, worlds) && Charges(end.result, worlds[end.at].fault)
  }

  /** The cost of the step whose publication on the global stream raised: charged, but not published. */
  function Unpublished(end: LoopEnd, worlds: seq<StepWorld>): real {
    if BrokenCharged(end, worlds) && !Publishes(end.result, worlds[end.at].fault) then worlds[end.at].cost else 0.0
  }

  // ---- What a run leaves in the row, the checkpoints and the streams

  /** The stored data: the row, the checkpoint rows and the two streams. */
  datatype Record = Record(
    flag: Flag, context: Context, checkpoints: seq<CheckpointRow>, global: seq<StreamEvent>, stream: seq<StreamEvent>)

  /** What a run starts from: the stored context, the one its worker loaded, its variables, and its first step. */
  datatype Origin = Origin(stored: Context, loaded: Context, variables: Variables, start: nat)

  /** The variables a run starts with: those of the latest checkpoint, or the loaded ones. */
  ghost predicate StartsWith(rows: seq<CheckpointRow>, loaded: Context, variables: Variables) {
    if rows == [] then variables == loaded.variables
    else exists row :: row in rows && row.stepIndex + 1 == P.NextStart(Indices(rows)) && variables == row.variables
  }

  /** The cost charged before step k. */
  function ChargedBefore(o: Origin, steps: seq<StepConfig>, worlds: seq<StepWorld>, k: nat): real {
    Spent(Published(steps, worlds, o.start, k))
  }

  /** The row's context at the head of the turn of step k. */
  function ContextAt(o: Origin, steps: seq<StepConfig>, worlds: seq<StepWorld>, k: nat): Context {
    if k <= o.start then o.stored
    else Context(o.variables, k, o.loaded.totalCost + ChargedBefore(o, steps, worlds, k))
  }

  /** The last step below `reached` that has a checkpoint, or the first one of the run. */
  function LastCommit(start: nat, steps: seq<StepConfig>, reached: nat): (k: nat)
    ensures start <= k && (k < reached || k == start)
  {
    if reached <= start then start
    else if reached - 1 < |steps| && steps[reached - 1].checkpointBefore then reached - 1
    else LastCommit(start, steps, reached - 1)
  }

  /** The context the last commit left when the steps below `reached` have passed their checkpoints. */
  function SavedContext(o: Origin, steps: seq<StepConfig>, worlds: seq<StepWorld>, reached: nat): Context {
    ContextAt(o, steps, worlds, LastCommit(o.start, steps, reached))
  }

  /** The row's context when the loop is over. */
  function LoopContext(o: Origin, steps: seq<StepConfig>, worlds: seq<StepWorld>, end: LoopEnd): Context {
    if BrokenCharged(end, worlds)
    then
      Context(
        o.variables, end.at + 1, o.loaded.totalCost + ChargedBefore(o, steps, worlds, end.at) + worlds[end.at].cost)
    else ContextAt(o, steps, worlds, end.at)
  }

  function RunOutcome(end: LoopEnd, ending: Ending, steps: seq<StepConfig>): Outcome
    requires end.result.StepDone? <==> end.at >= |steps|
  {
    match end.result
    case StepHalted => StoppedByStatus
    case StepDied => Died
    case _ =>
      if ending.dies then Died
      else if end.result.StepDone? then Finished
      else PausedRun(if end.result.StepOverBudget? then CostLimitExceeded else StepError, steps[end.at].name)
  }

  /** The status and pause reason written with a closing event. */
  function ClosingFlag(result: StepResult, flag: Flag): Flag {
    if result.StepDone? then Flag(Completed, flag.reason)
    else Flag(Paused, if result.StepOverBudget? then Some(CostLimitExceeded) else flag.reason)
  }

  /** Those a run leaves. */
  function FinalFlag(end: LoopEnd, ending: Ending): Flag {
    if end.result.StepHalted? || end.result.StepDied? then end.flag
    else
      var flag := AfterRequests(end.flag, ending.requests);
      if ending.dies then flag else ClosingFlag(end.result, flag)
  }

  /** The closing event of a run: its own cost when finished, the step it stopped at when paused. */
  function ClosingEvent(outcome: Outcome, spent: real, steps: seq<StepConfig>): seq<StreamEvent> {
    match outcome
    case Finished => [CompletedEvent(spent, |steps|)]
    case PausedRun(reason, atStep) => [PausedEvent(reason, atStep)]
    case _ => []
  }

  /** The record once Started is published and RUNNING is committed. */
  function Opened(r: Record): Record {
    r.(flag := Flag(Running, r.flag.reason), global := r.global + [StartedEvent], stream := r.stream + [StartedEvent])
  }

  /** Where the loop of a run ends that finds this record. */
  function RunEnd(r: Record, worlds: seq<StepWorld>, limits: Limits): LoopEnd {
    Loop(Opened(r).flag, 0.0, 0.0, P.NextStart(Indices(r.checkpoints)), worlds, limits)
  }

  /** The record when the loop is over, from the one at the head of the turn of step i. */
  function Looped(
    before: Record, o: Origin, steps: seq<StepConfig>, worlds: seq<StepWorld>, i: nat, end: LoopEnd): Record
  {
    Record(
      end.flag, LoopContext(o, steps, worlds, end),
      before.checkpoints + Rows(steps, o.variables, i, Reached(end, worlds)),
      before.global + Published(steps, worlds, i, Extent(end, worlds)),
      before.stream + Published(steps, worlds, i, end.at))
  }

  /** The record after what follows the loop. */
  function Concluded(
    looped: Record, o: Origin, steps: seq<StepConfig>, worlds: seq<StepWorld>, end: LoopEnd, ending: Ending): Record
    requires end.result.StepDone? <==> end.at >= |steps|
  {
    var outcome := RunOutcome(end, ending, steps);
    var closing := ClosingEvent(outcome, ChargedBefore(o, steps, worlds, end.at), steps);
    Record(
      FinalFlag(end, ending),
      if outcome.Died? then SavedContext(o, steps, worlds, Reached(end, worlds)) else looped.context,
      looped.checkpoints, looped.global + closing, looped.stream + closing)
  }

  lemma ConcludedIs(
    looped: Record, after: Record, o: Origin, steps: seq<StepConfig>, worlds: seq<StepWorld>, end: LoopEnd,
    ending: Ending, total: real, saved: Context)
    requires end.result.StepDone? <==> end.at >= |steps|
    requires end.result.StepDone? ==> total == ChargedBefore(o, steps, worlds, end.at)
    requires saved == SavedContext(o, steps, worlds, Reached(end, worlds))
    requires var outcome := RunOutcome(end, ending, steps);
             var closing := ClosingEvent(outcome, total, steps);
             after == Record(
                        FinalFlag(end, ending), if outcome.Died? then saved else looped.context,
                        looped.checkpoints, looped.global + closing, looped.stream + closing)
    ensures after == Concluded(looped, o, steps, worlds, end, ending)
  {
  }

  function OriginOf(before: Record, loaded: Context, variables: Variables): Origin {
    Origin(before.context, loaded, variables, P.NextStart(Indices(before.checkpoints)))
  }

  /** The record a run leaves that starts with these variables. */
  function RunResult(
    before: Record, loaded: Context, variables: Variables, steps: seq<StepConfig>, worlds: seq<StepWorld>,
    ending: Ending, limits: Limits): Record
    requires |steps| == |worlds|
  {
    var o, end := OriginOf(before, loaded, variables), RunEnd(before, worlds, limits);
    Concluded(Looped(Opened(before), o, steps, worlds, o.start, end), o, steps, worlds, end, ending)
  }

  /**
   * The run of a worker that loaded this context, read PENDING and got the lock: everything it leaves
   * follows from what it met.
   */
  ghost predicate RanThrough(
    before: Record, after: Record, loaded: Context, steps: seq<StepConfig>, worlds: seq<StepWorld>, ending: Ending,
    limits: Limits, outcome: Outcome)
    requires |steps| == |worlds|
  {
    && outcome == RunOutcome(RunEnd(before, worlds, limits), ending, steps)
    && exists variables :: StartsWith(before.checkpoints, loaded, variables)
                           && after == RunResult(before, loaded, variables, steps, worlds, ending, limits)
  }

  lemma RunIs(
    before: Record, after: Record, loaded: Context, o: Origin, steps: seq<StepConfig>, worlds: seq<StepWorld>,
    ending: Ending, limits: Limits)
    requires |steps| == |worlds| && o == OriginOf(before, loaded, o.variables)
    requires StartsWith(before.checkpoints, loaded, o.variables)
    requires var end := RunEnd(before, worlds, limits);
             after == Concluded(Looped(Opened(before), o, steps, worlds, o.start, end), o, steps, worlds, end, ending)
    ensures var outcome := RunOutcome(RunEnd(before, worlds, limits), ending, steps);
            RanThrough(before, after, loaded, steps, worlds, ending, limits, outcome)
  {
    assert after == RunResult(before, loaded, o.variables, steps, worlds, ending, limits);
  }

  // ---- One turn of the loop

  /** What a turn at step i did to the record. */
  predicate StepWrote(
    before: Record, after: Record, end: LoopEnd, step: StepConfig, i: nat, world: StepWorld, o: Origin, spent: real)
  {
    var event := StepCompletedEvent(step.name, i, world.cost);
    after == Record(
               end.flag,
               if Charges(end.result, world.fault)
               then Context(o.variables, i + 1, o.loaded.totalCost + spent + world.cost)
               else before.context,
               before.checkpoints
               + (if step.checkpointBefore && Passes(end.result, world.fault)
                  then [CheckpointRow(step.name, i, o.variables)] else []),
               before.global + (if Publishes(end.result, world.fault) then [event] else []),
               before.stream + (if end.result.StepDone? then [event] else []))
  }

  lemma SpentOneMore(o: Origin, steps: seq<StepConfig>, worlds: seq<StepWorld>, i: nat)
    requires o.start <= i < |steps| == |worlds|
    ensures ChargedBefore(o, steps, worlds, i + 1) == ChargedBefore(o, steps, worlds, i) + worlds[i].cost
  {
    var event := StepCompletedEvent(steps[i].name, i, worlds[i].cost);
    assert Published(steps, worlds, o.start, i + 1) == Published(steps, worlds, o.start, i) + [event];
    AppendEvent(Published(steps, worlds, o.start, i), event);
  }

  lemma TurnCharged(o: Origin, steps: seq<StepConfig>, worlds: seq<StepWorld>, i: nat, end: LoopEnd)
    requires o.start <= i < |steps| == |worlds| && end.at == if end.result.StepDone? then i + 1 else i
    ensures LoopContext(o, steps, worlds, end) ==
            if Charges(end.result, worlds[i].fault)
            then Context(
                   o.variables, i + 1, o.loaded.totalCost + ChargedBefore(o, steps, worlds, i) + worlds[i].cost)
            else ContextAt(o, steps, worlds, i)
  {
    SpentOneMore(o, steps, worlds, i);
  }

  lemma TurnWrote(
    before: Record, after: Record, o: Origin, steps: seq<StepConfig>, worlds: seq<StepWorld>, i: nat, end: LoopEnd)
    requires o.start <= i < |steps| == |worlds| && end.at == if end.result.StepDone? then i + 1 else i
    requires before.context == ContextAt(o, steps, worlds, i) && (end.result.StepDone? ==> worlds[i].fault.NoFault?)
    requires StepWrote(before, after, end, steps[i], i, worlds[i], o, ChargedBefore(o, steps, worlds, i))
    ensures after == Looped(before, o, steps, worlds, i, end)
  {
    PublishedOne(steps, worlds, o.variables, i);
    TurnCharged(o, steps, worlds, i, end);
  }

  /** What the tracker holds after that turn. */
  lemma TurnSpent(o: Origin, steps: seq<StepConfig>, worlds: seq<StepWorld>, i: nat, end: LoopEnd)
    requires o.start <= i < |steps| == |worlds| && end.at == if end.result.StepDone? then i + 1 else i
    ensures ChargedBefore(o, steps, worlds, Extent(end, worlds)) + Unpublished(end, worlds)
            == ChargedBefore(o, steps, worlds, i)
               + (if Charges(end.result, worlds[i].fault) then worlds[i].cost else 0.0)
  {
    SpentOneMore(o, steps, worlds, i);
  }

  /** Where its last commit is after that turn. */
  lemma TurnCommitted(start: nat, steps: seq<StepConfig>, worlds: seq<StepWorld>, i: nat, end: LoopEnd)
    requires start <= i < |steps| == |worlds| && end.at == if end.result.StepDone? then i + 1 else i
    requires end.result.StepDone? ==> worlds[i].fault.NoFault?
    ensures LastCommit(start, steps, Reached(end, worlds)) ==
            if steps[i].checkpointBefore && Passes(end.result, worlds[i].fault) then i else LastCommit(start, steps, i)
  {
  }

  /** A turn continues what the loop had written. */
  lemma LoopedFurther(
    r0: Record, r1: Record, o: Origin, steps: seq<StepConfig>, worlds: seq<StepWorld>, i: nat, flag: Flag, end: LoopEnd)
    requires o.start <= i <= end.at
    requires r1 == Looped(r0, o, steps, worlds, o.start, LoopEnd(StepDone, i, flag))
    ensures Looped(r1, o, steps, worlds, i, end) == Looped(r0, o, steps, worlds, o.start, end)
  {
    var extent, reached := Extent(end, worlds), Reached(end, worlds);
    PublishedFurther(steps, worlds, o.start, i, end.at);
    PublishedFurther(steps, worlds, o.start, i, extent);
    RowsFurther(steps, o.variables, o.start, i, reached);
    ConcatIsAssociative(r0.global, Published(steps, worlds, o.start, i), Published(steps, worlds, i, extent));
    ConcatIsAssociative(r0.stream, Published(steps, worlds, o.start, i), Published(steps, worlds, i, end.at));
    ConcatIsAssociative(r0.checkpoints, Rows(steps, o.variables, o.start, i), Rows(steps, o.variables, i, reached));
  }

  // ---- Started events

  function Starts(events: seq<StreamEvent>): nat {
    multiset(Kinds(events))[ExecutionStarted]
  }

  lemma KindsConcat(a: seq<StreamEvent>, b: seq<StreamEvent>)
    ensures Kinds(a + b) == Kinds(a) + Kinds(b)
  {
  }

  lemma StartsConcat(a: seq<StreamEvent>, b: seq<StreamEvent>)
    ensures Starts(a + b) == Starts(a) + Starts(b)
  {
    KindsConcat(a, b);
    ConcatCounts(Kinds(a), Kinds(b), ExecutionStarted);
  }

  lemma StepsStartNothing(steps: seq<StepConfig>, worlds: seq<StepWorld>, lo: nat, hi: nat)
    requires lo < hi ==> hi <= |steps| && hi <= |worlds|
    ensures Starts(Published(steps, worlds, lo, hi)) == 0
  {
    PublishedKinds(steps, worlds, lo, hi);
    StepEventsCount(lo, hi, 0);
  }

  lemma ClosingStartsNothing(outcome: Outcome, spent: real, steps: seq<StepConfig>)
    ensures Starts(ClosingEvent(outcome, spent, steps)) == 0 && Starts([StartedEvent]) == 1
  {
    assert Kinds([StartedEvent]) == [ExecutionStarted];
    assert ExecutionStarted !in Kinds(ClosingEvent(outcome, spent, steps));
  }

  /** A run publishes Started exactly once. */
  lemma RunStartsOnce(
    before: Record, after: Record, loaded: Context, steps: seq<StepConfig>, worlds: seq<StepWorld>, ending: Ending,
    limits: Limits, outcome: Outcome)
    requires |worlds| == |steps| && RanThrough(before, after, loaded, steps, worlds, ending, limits, outcome)
    ensures Starts(after.global) == Starts(before.global) + 1
  {
    var variables :| StartsWith(before.checkpoints, loaded, variables)
                     && after == RunResult(before, loaded, variables, steps, worlds, ending, limits);
    var o, end := OriginOf(before, loaded, variables), RunEnd(before, worlds, limits);
    var events := Published(steps, worlds, o.start, Extent(end, worlds));
    var spent := ChargedBefore(o, steps, worlds, end.at);
    StepsStartNothing(steps, worlds, o.start, Extent(end, worlds));
    ClosingStartsNothing(outcome, spent, steps);
    StartsConcat(before.global + [StartedEvent] + events, ClosingEvent(outcome, spent, steps));
    StartsConcat(before.global + [StartedEvent], events);
    StartsConcat(before.global, [StartedEvent]);
  }

  // ---- The per-execution limit

  lemma ChargedTurn(status: Status, world: StepWorld, total: real, daily: real, limits: Limits)
    requires Charges(TurnResult(status, world, total, daily, limits), world.fault)
    ensures total + world.cost <= limits.perExecution
  {
  }

  /** A loop that does not end at step i gets through it within the limit. */
  lemma LoopGoesOn(flag: Flag, total: real, daily: real, i: nat, worlds: seq<StepWorld>, limits: Limits)
    requires i < Loop(flag, total, daily, i, worlds, limits).at
    ensures i < |worlds| && total + worlds[i].cost <= limits.perExecution
    ensures Loop(flag, total, daily, i, worlds, limits) ==
            Loop(
              AfterRequests(flag, worlds[i].requests), total + worlds[i].cost, daily + worlds[i].cost, i + 1,
              worlds, limits)
  {
    var checked := AfterRequests(flag, worlds[i].requests);
    ChargedTurn(checked.status, worlds[i], total, daily, limits);
  }

  /** Whatever part of a loop has run, what it has charged is within the limit. */
  lemma {:induction false} LoopWithinLimit(
    o: Origin, steps: seq<StepConfig>, flag: Flag, total: real, daily: real, i: nat, worlds: seq<StepWorld>,
    limits: Limits, k: nat)
    requires o.start <= i && |steps| == |worlds|
    requires total == ChargedBefore(o, steps, worlds, i) <= limits.perExecution
    requires i <= k <= Loop(flag, total, daily, i, worlds, limits).at
    ensures ChargedBefore(o, steps, worlds, k) <= limits.perExecution
    decreases |worlds| - i
  {
    if i < k {
      LoopGoesOn(flag, total, daily, i, worlds, limits);
      var cost := worlds[i].cost;
      SpentOneMore(o, steps, worlds, i);
      LoopWithinLimit(
        o, steps, AfterRequests(flag, worlds[i].requests), total + cost, daily + cost, i + 1, worlds, limits, k);
    }
  }

  /** And so is what it has charged when it broke off after a charge. */
  lemma {:induction false} BrokenWithinLimit(
    o: Origin, steps: seq<StepConfig>, flag: Flag, total: real, daily: real, i: nat, worlds: seq<StepWorld>,
    limits: Limits)
    requires o.start <= i && |steps| == |worlds| && total == ChargedBefore(o, steps, worlds, i)
    requires BrokenCharged(Loop(flag, total, daily, i, worlds, limits), worlds)
    ensures var end := Loop(flag, total, daily, i, worlds, limits);
            ChargedBefore(o, steps, worlds, end.at) + worlds[end.at].cost <= limits.perExecution
    decreases |worlds| - i
  {
    var end := Loop(flag, total, daily, i, worlds, limits);
    var checked, cost := AfterRequests(flag, worlds[i].requests), worlds[i].cost;
    if i < end.at {
      LoopGoesOn(flag, total, daily, i, worlds, limits);
      SpentOneMore(o, steps, worlds, i);
      BrokenWithinLimit(o, steps, checked, total + cost, daily + cost, i + 1, worlds, limits);
    } else {
      assert end == LoopEnd(TurnResult(checked.status, worlds[i], total, daily, limits), i, checked);
      ChargedTurn(checked.status, worlds[i], total, daily, limits);
    }
  }

  /** A run that starts from the stored context adds at most the per-execution limit to its cost, even when it dies. */
  lemma RunCostIsLimited(
    before: Record, after: Record, steps: seq<StepConfig>, worlds: seq<StepWorld>, ending: Ending, limits: Limits,
    outcome: Outcome)
    requires |worlds| == |steps| && limits.perExecution >= 0.0
    requires RanThrough(before, after, before.context, steps, worlds, ending, limits, outcome)
    ensures after.context.totalCost <= before.context.totalCost + limits.perExecution
  {
    var variables :| StartsWith(before.checkpoints, before.context, variables)
                     && after == RunResult(before, before.context, variables, steps, worlds, ending, limits);
    var o, end := OriginOf(before, before.context, variables), RunEnd(before, worlds, limits);
    assert ChargedBefore(o, steps, worlds, o.start) == 0.0;
    forall k | o.start <= k <= end.at ensures ChargedBefore(o, steps, worlds, k) <= limits.perExecution {
      LoopWithinLimit(o, steps, Opened(before).flag, 0.0, 0.0, o.start, worlds, limits, k);
    }
    if BrokenCharged(end, worlds) {
      BrokenWithinLimit(o, steps, Opened(before).flag, 0.0, 0.0, o.start, worlds, limits);
    }
  }

  // ---- The balance of a run

  lemma {:induction false} SpentConcat(a: seq<StreamEvent>, b: seq<StreamEvent>)
    ensures Spent(a + b) == Spent(a) + Spent(b)
  {
    if b == [] {
      assert a + b == a;
    } else {
      SpentConcat(a, b[..|b| - 1]);
      assert (a + b)[..|a + b| - 1] == a + b[..|b| - 1];
    }
  }

  /** The cost a run put on the global stream is that of the steps it got through. */
  lemma PublishedCost(
    before: Record, o: Origin, steps: seq<StepConfig>, worlds: seq<StepWorld>, end: LoopEnd, ending: Ending)
    requires |steps| == |worlds| && (end.result.StepDone? <==> end.at >= |steps|)
    ensures var looped := Looped(Opened(before), o, steps, worlds, o.start, end);
            Spent(Concluded(looped, o, steps, worlds, end, ending).global) ==
            Spent(before.global) + ChargedBefore(o, steps, worlds, Extent(end, worlds))
  {
    var closing := ClosingEvent(RunOutcome(end, ending, steps), ChargedBefore(o, steps, worlds, end.at), steps);
    var events := Published(steps, worlds, o.start, Extent(end, worlds));
    SpentConcat(before.global + [StartedEvent] + events, closing);
    SpentConcat(before.global + [StartedEvent], events);
    AppendEvent(before.global, StartedEvent);
    if closing != [] {
      AppendEvent([], closing[0]);
      assert [] + [closing[0]] == closing;
    }
  }

  lemma LoopCost(o: Origin, steps: seq<StepConfig>, worlds: seq<StepWorld>, end: LoopEnd)
    requires |steps| == |worlds| && o.stored == o.loaded && o.start <= end.at
    ensures LoopContext(o, steps, worlds, end).totalCost ==
            o.loaded.totalCost + ChargedBefore(o, steps, worlds, Extent(end, worlds)) + Unpublished(end, worlds)
  {
    if BrokenCharged(end, worlds) {
      SpentOneMore(o, steps, worlds, end.at);
    }
  }

  lemma CommittedCost(o: Origin, steps: seq<StepConfig>, worlds: seq<StepWorld>, k: nat, extent: nat)
    requires o.stored == o.loaded && o.start <= k <= extent
    ensures ContextAt(o, steps, worlds, k).totalCost ==
            o.loaded.totalCost + ChargedBefore(o, steps, worlds, extent) - Spent(Published(steps, worlds, k, extent))
  {
    PublishedFurther(steps, worlds, o.start, k, extent);
    SpentConcat(Published(steps, worlds, o.start, k), Published(steps, worlds, k, extent));
  }

  /**
   * What a run adds to the stored cost is what it published, plus a step it charged but could not
   * publish; if its worker dies, minus everything it published since the last checkpoint it passed.
   */
  lemma RunBalance(
    before: Record, after: Record, steps: seq<StepConfig>, worlds: seq<StepWorld>, ending: Ending, limits: Limits,
    outcome: Outcome)
    requires |worlds| == |steps|
    requires RanThrough(before, after, before.context, steps, worlds, ending, limits, outcome)
    ensures var start, end := P.NextStart(Indices(before.checkpoints)), RunEnd(before, worlds, limits);
            var published := Spent(after.global) - Spent(before.global);
            var committed := LastCommit(start, steps, Reached(end, worlds));
            after.context.totalCost - before.context.totalCost ==
            if outcome.Died? then published - Spent(Published(steps, worlds, committed, Extent(end, worlds)))
            else published + Unpublished(end, worlds)
  {
    var variables :| StartsWith(before.checkpoints, before.context, variables)
                     && after == RunResult(before, before.context, variables, steps, worlds, ending, limits);
    var o, end := OriginOf(before, before.context, variables), RunEnd(before, worlds, limits);
    PublishedCost(before, o, steps, worlds, end, ending);
    LoopCost(o, steps, worlds, end);
    CommittedCost(o, steps, worlds, LastCommit(o.start, steps, Reached(end, worlds)), Extent(end, worlds));
  }

  // ---- Runs that pause

  lemma {:induction false} NoCheckpointsNoRows(steps: seq<StepConfig>, variables: Variables, lo: nat, hi: nat)
    requires forall k :: 0 <= k < |steps| ==> !steps[k].checkpointBefore
    ensures Rows(steps, variables, lo, hi) == []
  {
    if lo < hi {
      NoCheckpointsNoRows(steps, variables, lo, hi - 1);
    }
  }

  /** A run whose loop ends in a failed step pauses the execution, having charged the steps it got through. */
  lemma FailedRun(
    before: Record, after: Record, steps: seq<StepConfig>, worlds: seq<StepWorld>, limits: Limits, outcome: Outcome)
    requires |worlds| == |steps|
    requires RanThrough(before, after, before.context, steps, worlds, Ending([], false), limits, outcome)
    requires RunEnd(before, worlds, limits).result.StepFailed?
    ensures after.flag.status.Paused?
    ensures var o, end := OriginOf(before, before.context, map[]), RunEnd(before, worlds, limits);
            BrokenCharged(end, worlds) ==>
              after.context.totalCost ==
              before.context.totalCost + ChargedBefore(o, steps, worlds, end.at) + worlds[end.at].cost
    ensures (forall k :: 0 <= k < |steps| ==> !steps[k].checkpointBefore) ==> after.checkpoints == before.checkpoints
  {
    var variables :| StartsWith(before.checkpoints, before.context, variables)
                     && after == RunResult(before, before.context, variables, steps, worlds, Ending([], false), limits);
    var o, end := OriginOf(before, before.context, variables), RunEnd(before, worlds, limits);
    if forall k :: 0 <= k < |steps| ==> !steps[k].checkpointBefore {
      NoCheckpointsNoRows(steps, variables, o.start, Reached(end, worlds));
    }
  }
}
