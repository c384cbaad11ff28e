/**
 * What a run leaves, by what it meets: the first step at which something is in its way decides the
 * outcome, the row, the checkpoints and the events; a run nothing stops finishes.
 */
module RunOutcomes {
  import opened Options
  import opened StateMachine
  import opened Runs

  /** The stored data and the loaded context a run starts from, and everything it meets. */
  datatype Case = Case(
    before: Record, loaded: Context, steps: seq<StepConfig>, worlds: seq<StepWorld>, ending: Ending, limits: Limits)

  /** A run of this case left this record and had this outcome. */
  ghost predicate Left(r: Case, after: Record, outcome: Outcome) {
    && |r.worlds| == |r.steps|
    && RanThrough(r.before, after, r.loaded, r.steps, r.worlds, r.ending, r.limits, outcome)
  }

  /** The first step: the one after the latest checkpoint. */
  function Start(r: Case): nat {
    P.NextStart(Indices(r.before.checkpoints))
  }

  /** Status and pause reason at the status check of step k, once RUNNING was stored. */
  function Checked(r: Case, k: int): Flag {
    if k < Start(r) || k >= |r.worlds| then Flag(Running, r.before.flag.reason)
    else AfterRequests(Checked(r, k - 1), r.worlds[k].requests)
  }

  /** The cost of the steps from the first one up to, not including, step k. */
  function CostOf(r: Case, k: nat): real {
    if k <= Start(r) || k > |r.worlds| then 0.0 else CostOf(r, k - 1) + r.worlds[k - 1].cost
  }

  predicate Halts(r: Case, k: nat) {
    Checked(r, k).status.Paused? || Checked(r, k).status.Cancelled?
  }

  predicate Affords(r: Case, k: nat) {
    CostOf(r, k + 1) <= r.limits.perExecution && CostOf(r, k + 1) <= r.limits.perDay
  }

  /** Nothing is in the way of step k. */
  predicate Smooth(r: Case, k: nat)
    requires k < |r.worlds|
  {
    !Halts(r, k) && r.worlds[k].fault.NoFault? && Affords(r, k)
  }

  ghost predicate SmoothUpTo(r: Case, n: nat) {
    n <= |r.worlds| && forall k: nat :: Start(r) <= k < n ==> Smooth(r, k)
  }

  /** The events of the steps from the first one up to, not including, step n. */
  function Completions(r: Case, n: nat): seq<StreamEvent>
    requires n <= |r.steps| == |r.worlds|
  {
    seq(if Start(r) < n then n - Start(r) else 0,
        j requires 0 <= j < n - Start(r) =>
          StepCompletedEvent(r.steps[Start(r) + j].name, Start(r) + j, r.worlds[Start(r) + j].cost))
  }

  /** The context when the steps below k are charged. */
  function Charged(r: Case, variables: Variables, k: nat): Context {
    if k <= Start(r) then r.before.context else Context(variables, k, r.loaded.totalCost + CostOf(r, k))
  }

  /** The row belongs to a checkpointed step from the first one up to, not including, step n. */
  predicate IsCheckpoint(r: Case, variables: Variables, n: nat, row: CheckpointRow) {
    && Start(r) <= row.stepIndex < n && row.stepIndex < |r.steps| && r.steps[row.stepIndex].checkpointBefore
    && row == CheckpointRow(r.steps[row.stepIndex].name, row.stepIndex, variables)
  }

  predicate Ascending(rows: seq<CheckpointRow>) {
    forall i, j :: 0 <= i < j < |rows| ==> rows[i].stepIndex < rows[j].stepIndex
  }

  /** The rows are those of the checkpointed steps from the first one up to, not including, step n, in order. */
  ghost predicate CheckpointsOf(r: Case, variables: Variables, n: nat, rows: seq<CheckpointRow>) {
    && Ascending(rows)
    && (forall row :: row in rows <==> IsCheckpoint(r, variables, n, row))
  }

  /** Step k has the last checkpoint committed below step n; or there is none, and k is the first step. */
  ghost predicate LastCommitted(r: Case, n: nat, k: nat) {
    && Start(r) <= k && (k == Start(r) || (k < n && k < |r.steps| && r.steps[k].checkpointBefore))
    && forall j :: k < j < n && j < |r.steps| ==> !r.steps[j].checkpointBefore
  }

  /**
   * What a run leaves: the flag, whether its worker died, and the steps below which it charged, passed the
   * checkpoint, published on the global stream and on the own one; then what it published on both.
   */
  datatype Trail = Trail(
    flag: Flag, died: bool, charged: nat, passed: nat, published: nat, streamed: nat, closing: seq<StreamEvent>)

  /** The record is the one a run of this case leaves behind with this trail. */
  ghost predicate LeavesRecord(r: Case, after: Record, t: Trail)
  {
    && t.published <= |r.steps| == |r.worlds| && t.streamed <= |r.steps|
    && after.flag == t.flag
    && after.global == r.before.global + [StartedEvent] + Completions(r, t.published) + t.closing
    && after.stream == r.before.stream + [StartedEvent] + Completions(r, t.streamed) + t.closing
    && |after.checkpoints| >= |r.before.checkpoints|
    && after.checkpoints[..|r.before.checkpoints|] == r.before.checkpoints
    && exists variables :: StartsWith(r.before.checkpoints, r.loaded, variables)
                           && CheckpointsOf(r, variables, t.passed, after.checkpoints[|r.before.checkpoints|..])
                           && ContextLeft(r, after.context, variables, t.died, t.charged, t.passed)
  }

  /** The context with everything charged; of a worker that died, the one its last commit stored. */
  ghost predicate ContextLeft(
    r: Case, context: Context, variables: Variables, died: bool, charged: nat, passed: nat)
  {
    if died then forall k :: LastCommitted(r, passed, k) ==> context == Charged(r, variables, k)
    else context == Charged(r, variables, charged)
  }

  // ---- The loop

  /** As long as nothing is in its way the loop gets on, charging each step. */
  lemma {:induction false} LoopGetsTo(r: Case, i: nat)
    requires SmoothUpTo(r, i) && Start(r) <= i
    ensures RunEnd(r.before, r.worlds, r.limits) ==
            Loop(Checked(r, i - 1), CostOf(r, i), CostOf(r, i), i, r.worlds, r.limits)
  {
    if i > Start(r) {
      LoopGetsTo(r, i - 1);
      assert Smooth(r, i - 1);
      var total, world := CostOf(r, i - 1), r.worlds[i - 1];
      LoopTurn(
        i - 1, r.worlds, r.limits, Checked(r, i - 2), total, total, LoopEnd(StepDone, i, Checked(r, i - 1)),
        total + world.cost, total + world.cost);
    }
  }

  /** Where it ends when nothing is in its way. */
  lemma LoopFinishes(r: Case)
    requires SmoothUpTo(r, |r.worlds|)
    ensures RunEnd(r.before, r.worlds, r.limits) ==
            LoopEnd(StepDone, if Start(r) < |r.worlds| then |r.worlds| else Start(r), Checked(r, |r.worlds| - 1))
  {
    if Start(r) <= |r.worlds| {
      LoopGetsTo(r, |r.worlds|);
    }
  }

  /** Where it ends when step i is the first in its way. */
  lemma LoopStops(r: Case, i: nat)
    requires SmoothUpTo(r, i) && Start(r) <= i < |r.worlds| && !Smooth(r, i)
    ensures RunEnd(r.before, r.worlds, r.limits) ==
            LoopEnd(
              TurnResult(Checked(r, i).status, r.worlds[i], CostOf(r, i), CostOf(r, i), r.limits), i, Checked(r, i))
  {
    LoopGetsTo(r, i);
  }

  // ---- What it wrote

  function OriginOfCase(r: Case, variables: Variables): Origin {
    OriginOf(r.before, r.loaded, variables)
  }

  lemma CompletionsStep(r: Case, n: nat)
    requires Start(r) < n <= |r.steps| == |r.worlds|
    ensures Completions(r, n) == Completions(r, n - 1) + EventOf(r.steps, r.worlds, n - 1)
  {
  }

  lemma {:induction false} PublishedCompletions(r: Case, n: nat)
    requires n <= |r.steps| == |r.worlds|
    ensures Published(r.steps, r.worlds, Start(r), n) == Completions(r, n)
  {
    if Start(r) < n {
      PublishedCompletions(r, n - 1);
      CompletionsStep(r, n);
    }
  }

  lemma {:induction false} CompletionsCost(r: Case, n: nat)
    requires n <= |r.steps| == |r.worlds|
    ensures Spent(Completions(r, n)) == CostOf(r, n)
  {
    if Start(r) < n {
      CompletionsCost(r, n - 1);
      CompletionsStep(r, n);
      AppendEvent(Completions(r, n - 1), EventOf(r.steps, r.worlds, n - 1)[0]);
    }
  }

  lemma {:induction false} RowMember(r: Case, variables: Variables, n: nat, row: CheckpointRow)
    ensures row in Rows(r.steps, variables, Start(r), n) <==> IsCheckpoint(r, variables, n, row)
  {
    if Start(r) < n {
      RowMember(r, variables, n - 1, row);
    }
  }

  lemma {:induction false} RowsAscend(r: Case, variables: Variables, n: nat)
    ensures Ascending(Rows(r.steps, variables, Start(r), n))
  {
    if Start(r) < n {
      RowsAscend(r, variables, n - 1);
      var front := Rows(r.steps, variables, Start(r), n - 1);
      forall row | row in front ensures row.stepIndex < n - 1 {
        RowMember(r, variables, n - 1, row);
      }
      AppendAscends(front, RowOf(r.steps, variables, n - 1), n - 1);
    }
  }

  lemma AppendAscends(front: seq<CheckpointRow>, more: seq<CheckpointRow>, n: nat)
    requires Ascending(front) && (forall row :: row in front ==> row.stepIndex < n)
    requires |more| <= 1 && (more != [] ==> more[0].stepIndex == n)
    ensures Ascending(front + more)
  {
    var rows := front + more;
    forall i, j | 0 <= i < j < |rows| ensures rows[i].stepIndex < rows[j].stepIndex {
      assert rows[i] in front;
    }
  }

  lemma RowsAreCheckpoints(r: Case, variables: Variables, n: nat)
    ensures CheckpointsOf(r, variables, n, Rows(r.steps, variables, Start(r), n))
  {
    RowsAscend(r, variables, n);
    forall row ensures row in Rows(r.steps, variables, Start(r), n) <==> IsCheckpoint(r, variables, n, row) {
      RowMember(r, variables, n, row);
    }
  }

  lemma {:induction false} LastCommitIsLast(r: Case, n: nat, k: nat)
    requires LastCommitted(r, n, k)
    ensures LastCommit(Start(r), r.steps, n) == k
  {
    if n > Start(r) && !(n - 1 < |r.steps| && r.steps[n - 1].checkpointBefore) {
      assert LastCommitted(r, n - 1, k);
      LastCommitIsLast(r, n - 1, k);
    }
  }

  /** What Left says of the record, in these terms, given where the loop ended. */
  lemma RecordLeft(r: Case, after: Record, outcome: Outcome, end: LoopEnd) returns (variables: Variables)
    requires Left(r, after, outcome) && end == RunEnd(r.before, r.worlds, r.limits)
    ensures StartsWith(r.before.checkpoints, r.loaded, variables)
    ensures var o := OriginOf(r.before, r.loaded, variables);
            var looped := Looped(Opened(r.before), o, r.steps, r.worlds, Start(r), end);
            && after == Concluded(looped, o, r.steps, r.worlds, end, r.ending)
            && outcome == RunOutcome(end, r.ending, r.steps)
  {
    variables :| && StartsWith(r.before.checkpoints, r.loaded, variables)
                 && after == RunResult(r.before, r.loaded, variables, r.steps, r.worlds, r.ending, r.limits);
  }

  lemma ContextOfCase(r: Case, variables: Variables, k: nat)
    requires k <= |r.steps| == |r.worlds| || k <= Start(r)
    ensures ContextAt(OriginOf(r.before, r.loaded, variables), r.steps, r.worlds, k) == Charged(r, variables, k)
  {
    if k > Start(r) {
      PublishedCompletions(r, k);
      CompletionsCost(r, k);
    }
  }

  /** Some step is the last committed one. */
  lemma CommittedContext(r: Case, variables: Variables, n: nat, k: nat)
    requires n <= |r.steps| == |r.worlds| && LastCommitted(r, n, k)
    ensures SavedContext(OriginOf(r.before, r.loaded, variables), r.steps, r.worlds, n) == Charged(r, variables, k)
  {
    LastCommitIsLast(r, n, k);
    ContextOfCase(r, variables, k);
  }

  // ---- The outcomes

  /** The loop ended at step i or, with i the number of steps, when all were done. */
  predicate EndsAt(r: Case, end: LoopEnd, i: nat) {
    && i <= |r.steps| == |r.worlds| && (end.result.StepDone? <==> i == |r.steps|)
    && (end.at == i || (i == |r.steps| && end.at == Start(r) > i)) && Start(r) <= end.at
  }

  function FaultAt(r: Case, i: nat): Fault {
    if i < |r.worlds| then r.worlds[i].fault else NoFault
  }

  function PassedBy(r: Case, end: LoopEnd, i: nat): nat {
    if !end.result.StepDone? && Passes(end.result, FaultAt(r, i)) then i + 1 else i
  }

  function PublishedBy(r: Case, end: LoopEnd, i: nat): nat {
    if !end.result.StepDone? && Publishes(end.result, FaultAt(r, i)) then i + 1 else i
  }

  function ChargedBy(r: Case, end: LoopEnd, i: nat): nat {
    if !end.result.StepDone? && Charges(end.result, FaultAt(r, i)) then i + 1 else i
  }

  lemma LoopedEvents(r: Case, end: LoopEnd, i: nat)
    requires EndsAt(r, end, i)
    ensures Published(r.steps, r.worlds, Start(r), Extent(end, r.worlds)) == Completions(r, PublishedBy(r, end, i))
    ensures Published(r.steps, r.worlds, Start(r), end.at) == Completions(r, i)
  {
    PublishedCompletions(r, PublishedBy(r, end, i));
    PublishedCompletions(r, i);
  }

  lemma LoopedCost(r: Case, variables: Variables, end: LoopEnd, i: nat)
    requires EndsAt(r, end, i)
    ensures ChargedBefore(OriginOf(r.before, r.loaded, variables), r.steps, r.worlds, end.at) == CostOf(r, i)
  {
    LoopedEvents(r, end, i);
    CompletionsCost(r, i);
  }

  lemma LoopedCheckpoints(r: Case, variables: Variables, end: LoopEnd, i: nat)
    requires EndsAt(r, end, i)
    ensures CheckpointsOf(
              r, variables, PassedBy(r, end, i), Rows(r.steps, variables, Start(r), Reached(end, r.worlds)))
  {
    RowsAreCheckpoints(r, variables, PassedBy(r, end, i));
    if end.at > i {
      assert Rows(r.steps, variables, Start(r), i) == [] == Rows(r.steps, variables, Start(r), end.at);
    }
  }

  lemma LoopedContext(r: Case, variables: Variables, end: LoopEnd, i: nat)
    requires EndsAt(r, end, i)
    ensures LoopContext(OriginOf(r.before, r.loaded, variables), r.steps, r.worlds, end)
            == Charged(r, variables, ChargedBy(r, end, i))
  {
    ContextOfCase(r, variables, end.at);
    LoopedCost(r, variables, end, i);
  }

  lemma LoopedCommit(r: Case, variables: Variables, end: LoopEnd, i: nat, k: nat)
    requires EndsAt(r, end, i) && LastCommitted(r, PassedBy(r, end, i), k)
    ensures SavedContext(OriginOf(r.before, r.loaded, variables), r.steps, r.worlds, Reached(end, r.worlds))
            == Charged(r, variables, k)
  {
    CommittedContext(r, variables, PassedBy(r, end, i), k);
    if end.at == i {
      assert Reached(end, r.worlds) == PassedBy(r, end, i);
    } else {
      assert Reached(end, r.worlds) == Start(r) && LastCommit(Start(r), r.steps, Start(r)) == Start(r);
      assert LastCommit(Start(r), r.steps, i) == Start(r);
    }
  }

  function TrailOf(r: Case, outcome: Outcome, end: LoopEnd, i: nat): Trail
    requires EndsAt(r, end, i)
  {
    Trail(
      FinalFlag(end, r.ending), outcome.Died?, ChargedBy(r, end, i), PassedBy(r, end, i), PublishedBy(r, end, i), i,
      ClosingEvent(outcome, CostOf(r, i), r.steps))
  }

  /** What a run leaves whose loop ends like this. */
  lemma Leaves(r: Case, after: Record, outcome: Outcome, end: LoopEnd, i: nat)
    requires Left(r, after, outcome) && end == RunEnd(r.before, r.worlds, r.limits) && EndsAt(r, end, i)
    ensures outcome == RunOutcome(end, r.ending, r.steps) && LeavesRecord(r, after, TrailOf(r, outcome, end, i))
  {
    var variables := RecordLeft(r, after, outcome, end);
    LoopedEvents(r, end, i);
    LoopedCost(r, variables, end, i);
    LoopedCheckpoints(r, variables, end, i);
    LoopedContext(r, variables, end, i);
    forall k | LastCommitted(r, PassedBy(r, end, i), k)
      ensures SavedContext(OriginOf(r.before, r.loaded, variables), r.steps, r.worlds, Reached(end, r.worlds))
              == Charged(r, variables, k)
    {
      LoopedCommit(r, variables, end, i, k);
    }
    var n := |r.before.checkpoints|;
    assert after.checkpoints[n..] == Rows(r.steps, variables, Start(r), Reached(end, r.worlds));
    assert ContextLeft(
        r, after.context, variables, outcome.Died?, ChargedBy(r, end, i), PassedBy(r, end, i));
  }

  /**
   * A run nothing stops finishes: every step is charged, checkpointed where configured, and published
   * once, in order.
   */
  lemma SmoothRunFinishes(r: Case, after: Record, outcome: Outcome)
    requires Left(r, after, outcome) && SmoothUpTo(r, |r.steps|)
    ensures var n := |r.steps|;
            var flag := AfterRequests(Checked(r, n - 1), r.ending.requests);
            if r.ending.dies then outcome.Died? && LeavesRecord(r, after, Trail(flag, true, n, n, n, n, []))
            else
              && outcome.Finished?
              && LeavesRecord(
                   r, after, Trail(Flag(Completed, flag.reason), false, n, n, n, n, [CompletedEvent(CostOf(r, n), n)]))
  {
    LoopFinishes(r);
    Leaves(r, after, outcome, RunEnd(r.before, r.worlds, r.limits), |r.steps|);
  }

  /** The outcome and the trail of a run that pauses at step i; unless its worker dies first. */
  function Pauses(r: Case, i: nat, reason: PauseReason, charged: nat, published: nat): (Outcome, Trail)
    requires i < |r.steps|
  {
    var flag, name := AfterRequests(Checked(r, i), r.ending.requests), r.steps[i].name;
    if r.ending.dies then (Died, Trail(flag, true, charged, i + 1, published, i, []))
    else
      var paused := Flag(Paused, if reason.CostLimitExceeded? then Some(reason) else flag.reason);
      (PausedRun(reason, name), Trail(paused, false, charged, i + 1, published, i, [PausedEvent(reason, name)]))
  }

  /** Those of a run whose worker dies at step i. */
  function Dying(r: Case, i: nat, charged: nat, passed: nat, published: nat): (Outcome, Trail) {
    (Died, Trail(Checked(r, i), true, charged, passed, published, i, []))
  }

  /**
   * Those of a run that has something in its way first at step i: a status found PAUSED or CANCELLED, the
   * worker's death before the step's cost is added, a body that raises, a cost beyond a limit, then a
   * publication that raises or a death in the middle of it.
   */
  function StopsAt(r: Case, i: nat): (Outcome, Trail)
    requires i < |r.steps| == |r.worlds| && !Smooth(r, i)
  {
    var fault := r.worlds[i].fault;
    if Halts(r, i) then (StoppedByStatus, Trail(Checked(r, i), false, i, i, i, i, []))
    else if fault == Dies(BeforeCheckpoint) then Dying(r, i, i, i, i)
    else if fault == Dies(InBody) then Dying(r, i, i, i + 1, i)
    else if fault.BodyRaises? then Pauses(r, i, StepError, i, i)
    else if !Affords(r, i) then Pauses(r, i, CostLimitExceeded, i, i)
    else if fault.GlobalPublishRaises? then Pauses(r, i, StepError, i + 1, i)
    else if fault.StreamPublishRaises? then Pauses(r, i, StepError, i + 1, i + 1)
    else Dying(r, i, i + 1, i + 1, i + 1)
  }

  /** Where the loop ends when step i has something in its way. */
  function EndOf(r: Case, i: nat): LoopEnd
    requires i < |r.worlds|
  {
    LoopEnd(TurnResult(Checked(r, i).status, r.worlds[i], CostOf(r, i), CostOf(r, i), r.limits), i, Checked(r, i))
  }

  lemma ObstacleTrail(r: Case, i: nat)
    requires Start(r) <= i < |r.steps| == |r.worlds| && !Smooth(r, i)
    ensures EndsAt(r, EndOf(r, i), i)
    ensures var outcome := RunOutcome(EndOf(r, i), r.ending, r.steps);
            StopsAt(r, i) == (outcome, TrailOf(r, outcome, EndOf(r, i), i))
  {
    match r.worlds[i].fault
    case NoFault =>
    case Dies(moment) => assert moment.BeforeCheckpoint? || moment.InBody? || moment.HalfPublished?;
    case _ =>
  }

  /** The first step with something in its way ends the run, and what is in its way decides how. */
  lemma FirstObstacleDecides(r: Case, after: Record, outcome: Outcome, i: nat)
    requires Left(r, after, outcome) && SmoothUpTo(r, i) && Start(r) <= i < |r.steps| && !Smooth(r, i)
    ensures StopsAt(r, i).0 == outcome && LeavesRecord(r, after, StopsAt(r, i).1)
  {
    LoopStops(r, i);
    ObstacleTrail(r, i);
    Leaves(r, after, outcome, EndOf(r, i), i);
  }

  lemma {:induction false} FirstRough(r: Case, n: nat) returns (i: nat)
    requires n <= |r.worlds| && !SmoothUpTo(r, n)
    ensures Start(r) <= i < n && SmoothUpTo(r, i) && !Smooth(r, i)
  {
    if SmoothUpTo(r, n - 1) {
      i := n - 1;
    } else {
      i := FirstRough(r, n - 1);
    }
  }

  /** A run finishes if and only if nothing is in the way of any of its steps and its worker lives to say so. */
  lemma FinishesIff(r: Case, after: Record, outcome: Outcome)
    requires Left(r, after, outcome)
    ensures outcome.Finished? <==> SmoothUpTo(r, |r.steps|) && !r.ending.dies
  {
    if SmoothUpTo(r, |r.steps|) {
      LoopFinishes(r);
    } else {
      var i := FirstRough(r, |r.steps|);
      LoopStops(r, i);
    }
  }
}
