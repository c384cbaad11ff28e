/** What holds of every run of the durable execution protocol, at every crash point. */
module ProtocolTheorems {
  import opened Options
  import opened EventLog
  import opened Protocol
  import opened ProtocolInvariant

  // ---- Steps, checkpoints and the event log

  lemma CheckpointedStepsAreSeparate(c: Config, s: State, j: nat)
    requires Inv(c, s) && Checkpointed(c, j)
    ensures forall k, m :: 0 <= k < m < |s.runs| ==> !(Touches(s.runs[k], j) && Touches(s.runs[m], j))
  {
    forall k, m | 0 <= k < m < |s.runs| && Touches(s.runs[k], j)
      ensures !Touches(s.runs[m], j)
    {
      assert Below(c, s.runs[k], s.runs[m].start);
    }
  }

  lemma LogCounts(c: Config, s: State, j: nat)
    requires Inv(c, s)
    ensures multiset(s.global)[StepCompleted(j)] == CountCovering(s.runs, j)
    ensures multiset(s.global)[ExecutionStarted] == |s.runs|
  {
    FlattenCounts(s.runs, j);
  }

  /** A step with `checkpoint_before` is published as completed at most once in the whole history. */
  lemma AtMostOnce(c: Config, ls: seq<Label>, j: nat)
    requires Valid(c, ls) && Checkpointed(c, j)
    ensures multiset(Final(c, ls).global)[StepCompleted(j)] <= 1
    ensures multiset(Final(c, ls).stream)[StepCompleted(j)] <= 1
  {
    var s := Final(c, ls);
    ReachableInv(c, ls);
    LogCounts(c, s, j);
    CheckpointedStepsAreSeparate(c, s, j);
    SeparateRunsCountOnce(s.runs, j);
    SubsequenceCounts(s.stream, s.global);
  }

  /** Checkpoints are committed in strictly increasing step order, so the highest is the last. */
  lemma CheckpointLogIsOrdered(c: Config, ls: seq<Label>)
    requires Valid(c, ls)
    ensures var cks := Final(c, ls).checkpoints;
            && (forall i, j :: 0 <= i < j < |cks| ==> cks[i] < cks[j])
            && (cks != [] ==> NextStart(cks) == Last(cks) + 1)
            && NextStart(cks) <= |c.checkpointBefore|
  {
    ReachableInv(c, ls);
    var cks := Final(c, ls).checkpoints;
    if cks != [] {
      BelowNextStart(cks);
      BelowNextStart(cks[..|cks| - 1]);
      HighestIsAnElement(cks[..|cks| - 1]);
    }
  }

  lemma {:induction false} HighestIsAnElement(cks: seq<nat>)
    ensures cks != [] ==> exists i :: 0 <= i < |cks| && cks[i] + 1 == NextStart(cks)
  {
    if cks != [] {
      var front := cks[..|cks| - 1];
      HighestIsAnElement(front);
      if NextStart(cks) != Last(cks) + 1 {
        assert NextStart([]) == 0 && front != [];
        var i :| 0 <= i < |front| && front[i] + 1 == NextStart(front);
        assert cks[i] + 1 == NextStart(cks);
      } else {
        assert cks[|cks| - 1] + 1 == NextStart(cks);
      }
    }
  }

  /**
   * The log is a sequence of whole segments: Started, consecutive steps from the run's start,
   * and at most one closing event, Completed only after the last step. The execution's own
   * stream leaves out events but never reorders or invents them.
   */
  lemma EventLogGrammar(c: Config, ls: seq<Label>)
    requires Valid(c, ls)
    ensures var s := Final(c, ls);
            && s.global == Flatten(s.runs)
            && (forall k :: 0 <= k < |s.runs| ==> WfRun(c, s.runs[k]))
            && Subsequence(s.stream, s.global)
  {
    ReachableInv(c, ls);
  }

  /** Some run committed the checkpoint of step j and ended, or still is, before publishing it. */
  ghost predicate Skipped(runs: seq<RunRecord>, j: nat) {
    exists k :: 0 <= k < |runs| && runs[k].pending && runs[k].next == j
  }

  lemma PublishedIffCovered(c: Config, s: State, j: nat)
    requires Inv(c, s)
    ensures StepCompleted(j) in s.global <==> exists k :: 0 <= k < |s.runs| && Covers(s.runs[k], j)
  {
    LogCounts(c, s, j);
    CoveredIsCounted(s.runs, j);
    assert StepCompleted(j) in s.global <==> multiset(s.global)[StepCompleted(j)] > 0;
  }

  /** A step some run got to is in the log exactly when it was not skipped. */
  lemma PublishedXorSkipped(c: Config, s: State, j: nat)
    requires Inv(c, s) && TouchedBefore(s.runs, |s.runs|, j)
    ensures StepCompleted(j) in s.global <==> !Skipped(s.runs, j)
    ensures Skipped(s.runs, j) ==> Checkpointed(c, j)
  {
    PublishedIffCovered(c, s, j);
    if Skipped(s.runs, j) {
      var k :| 0 <= k < |s.runs| && s.runs[k].pending && s.runs[k].next == j;
      assert WfRun(c, s.runs[k]) && Touches(s.runs[k], j);
      CheckpointedStepsAreSeparate(c, s, j);
      forall m | 0 <= m < |s.runs| ensures !Covers(s.runs[m], j) {
        if m != k {
          assert !Touches(s.runs[m], j);
        }
      }
    } else {
      var m :| 0 <= m < |s.runs| && Touches(s.runs[m], j);
      assert Covers(s.runs[m], j);
    }
  }

  lemma CompletedRunCovers(c: Config, s: State, j: nat)
    requires Inv(c, s) && j < |c.checkpointBefore|
    requires s.runs != [] && Last(s.runs).closed == Some(ExecutionCompleted)
    ensures TouchedBefore(s.runs, |s.runs|, j) && !Last(s.runs).pending
  {
    var last := |s.runs| - 1;
    assert WfRun(c, s.runs[last]);
    if j < s.runs[last].start {
      assert CoveredBelow(s.runs, last, s.runs[last].start);
      assert TouchedBefore(s.runs, last, j);
      var m :| 0 <= m < last && Touches(s.runs[m], j);
      assert Touches(s.runs[m], j);
    } else {
      assert Touches(s.runs[last], j);
    }
  }

  lemma ClosesItsRun(c: Config, s: State, w: nat)
    requires Inv(c, s) && Enabled(c, s, PublishGlobal(w))
    requires s.workers[w].phase == Closing(ExecutionCompleted, Unpublished)
    ensures var s' := Apply(c, s, PublishGlobal(w));
            s'.runs != [] && Last(s'.runs).closed == Some(ExecutionCompleted) && Last(s'.global) == ExecutionCompleted
  {
    assert InBody(s, w);
    assert BodyInv(c, s, s.workers[w]);
  }

  /**
   * When ExecutionCompleted is published, every step of the workflow was published as
   * completed, except exactly the checkpointed steps an earlier run skipped by ending
   * between the step's checkpoint commit and its publication.
   */
  lemma CoverageAtCompletion(c: Config, ls: seq<Label>, w: nat, j: nat)
    requires Valid(c, ls) && Enabled(c, Final(c, ls), PublishGlobal(w))
    requires Final(c, ls).workers[w].phase == Closing(ExecutionCompleted, Unpublished)
    requires j < |c.checkpointBefore|
    ensures var s := Apply(c, Final(c, ls), PublishGlobal(w));
            && s.runs != [] && Last(s.global) == ExecutionCompleted
            && (StepCompleted(j) in s.global <==> !Skipped(s.runs, j))
            && (Skipped(s.runs, j) ==> Checkpointed(c, j))
            && !Last(s.runs).pending
  {
    ReachableInv(c, ls);
    StepKeepsInv(c, Final(c, ls), PublishGlobal(w));
    ClosesItsRun(c, Final(c, ls), w);
    var s := Apply(c, Final(c, ls), PublishGlobal(w));
    CompletedRunCovers(c, s, j);
    PublishedXorSkipped(c, s, j);
  }

  // ---- Redelivery and recovery

  /** A worker past submit had read PENDING. */
  predicate SubmittedFromPending(wk: Worker) {
    wk.phase.Loaded? || wk.phase.Acquired? || wk.phase.Recovering? || wk.loaded.Pending?
  }

  lemma StepSubmitsFromPending(c: Config, s: State, l: Label, w: nat)
    requires Enabled(c, s, l) && w in Apply(c, s, l).workers
    requires w in s.workers ==> SubmittedFromPending(s.workers[w])
    ensures SubmittedFromPending(Apply(c, s, l).workers[w])
  {
    if !ByWorker(l, w) {
      OthersStay(c, s, l, w);
    }
  }

  lemma {:induction false} OnlyPendingRuns(c: Config, ls: seq<Label>, w: nat)
    requires Valid(c, ls) && w in Final(c, ls).workers
    ensures SubmittedFromPending(Final(c, ls).workers[w])
  {
    if ls != [] {
      var front := ls[..|ls| - 1];
      if w in Final(c, front).workers {
        OnlyPendingRuns(c, front, w);
      }
      StepSubmitsFromPending(c, Final(c, front), Last(ls), w);
    }
  }

  /**
   * A task that read anything but PENDING, as every task re-enqueued for a RUNNING row does,
   * is a no-op on the row, the checkpoints and both streams, whatever it does.
   */
  lemma RejectedTaskIsNoOp(c: Config, ls: seq<Label>, w: nat, l: Label)
    requires Valid(c, ls) && Enabled(c, Final(c, ls), l) && ByWorker(l, w)
    requires w in Final(c, ls).workers && !Final(c, ls).workers[w].loaded.Pending?
    ensures var s, s' := Final(c, ls), Apply(c, Final(c, ls), l);
            && s'.status == s.status && SameLog(s, s')
            && (w in s'.workers ==> s'.workers[w].loaded == s.workers[w].loaded)
  {
    OnlyPendingRuns(c, ls, w);
  }

  /** The recovery scan enqueues only while no other worker is inside the lock. */
  lemma RecoveryEnqueuesAlone(c: Config, ls: seq<Label>, w: nat)
    requires Valid(c, ls) && Enabled(c, Final(c, ls), EnqueueRecovered(w))
    ensures forall v :: InBody(Final(c, ls), v) ==> v == w
  {
    ReachableInv(c, ls);
    assert InBody(Final(c, ls), w);
  }

  // ---- Pause and cancel

  predicate Halted(s: State) {
    s.status.Paused? || s.status.Cancelled?
  }

  function CountSteps(log: seq<Event>): nat {
    if log == [] then 0
    else CountSteps(log[..|log| - 1]) + (if Last(log).StepCompleted? then 1 else 0)
  }

  predicate AtStep(wk: Worker) {
    wk.phase.Entered? || wk.phase == Stepping(Unpublished)
  }

  /** A worker passed its status check and has not published the step yet. */
  ghost predicate StepInFlight(s: State) {
    exists w :: w in s.workers && AtStep(s.workers[w])
  }

  /** Only the status check lets a worker into a step, and it refuses while the row is halted. */
  lemma HaltedDoesNotEnter(c: Config, s: State, l: Label, w: nat)
    requires Enabled(c, s, l) && Halted(s)
    requires w in Apply(c, s, l).workers && AtStep(Apply(c, s, l).workers[w])
    ensures w in s.workers && AtStep(s.workers[w])
  {
    if !ByWorker(l, w) {
      OthersStay(c, s, l, w);
    }
  }

  lemma HaltedNoNewStep(c: Config, s: State, l: Label)
    requires Enabled(c, s, l) && Halted(s)
    ensures StepInFlight(Apply(c, s, l)) ==> StepInFlight(s)
  {
    if StepInFlight(Apply(c, s, l)) {
      var w :| w in Apply(c, s, l).workers && AtStep(Apply(c, s, l).workers[w]);
      HaltedDoesNotEnter(c, s, l, w);
    }
  }

  /** Publishing a step uses up the one step in flight. */
  lemma PublishStepUsesFlight(c: Config, s: State, w: nat)
    requires Inv(c, s) && Enabled(c, s, PublishGlobal(w)) && s.workers[w].phase.Stepping?
    ensures StepInFlight(s) && !StepInFlight(Apply(c, s, PublishGlobal(w)))
    ensures CountSteps(Apply(c, s, PublishGlobal(w)).global) == CountSteps(s.global) + 1
  {
    var s' := Apply(c, s, PublishGlobal(w));
    assert InBody(s, w) && AtStep(s.workers[w]);
    forall v | v in s'.workers ensures !AtStep(s'.workers[v]) {
      if AtStep(s'.workers[v]) {
        assert v != w;
        assert InBody(s, v);
      }
    }
    assert s'.global[..|s.global|] == s.global;
  }

  lemma OtherStepsPublishNoStep(c: Config, s: State, l: Label)
    requires Inv(c, s) && Enabled(c, s, l)
    requires !(l.PublishGlobal? && s.workers[l.w].phase.Stepping?)
    ensures CountSteps(Apply(c, s, l).global) == CountSteps(s.global)
  {
    if l.PublishGlobal? {
      assert InBody(s, l.w);
      assert BodyInv(c, s, s.workers[l.w]);
      assert Apply(c, s, l).global[..|s.global|] == s.global;
    }
  }

  lemma HaltedStep(c: Config, s: State, l: Label)
    requires Inv(c, s) && Enabled(c, s, l) && Halted(s)
    ensures var s' := Apply(c, s, l);
            && (StepInFlight(s') ==> StepInFlight(s))
            && CountSteps(s'.global) <= CountSteps(s.global) + (if StepInFlight(s) && !StepInFlight(s') then 1 else 0)
  {
    HaltedNoNewStep(c, s, l);
    if l.PublishGlobal? && s.workers[l.w].phase.Stepping? {
      PublishStepUsesFlight(c, s, l.w);
    } else {
      OtherStepsPublishNoStep(c, s, l);
    }
  }

  /** `ext` continues the run `ls`, and the stored status is halted until its last step. */
  ghost predicate HaltedThroughout(c: Config, ls: seq<Label>, ext: seq<Label>)
    decreases |ext|
  {
    && Valid(c, ls + ext)
    && (ext != [] ==>
          var shorter := ext[..|ext| - 1];
          HaltedThroughout(c, ls, shorter) && Halted(Final(c, ls + shorter)))
  }

  /**
   * A pause or cancel takes effect before the next step: while the stored status stays
   * PAUSED or CANCELLED at most one more step is published, the one in flight.
   */
  lemma {:induction false} HaltStopsWithinOneStep(c: Config, ls: seq<Label>, ext: seq<Label>)
    requires Valid(c, ls) && HaltedThroughout(c, ls, ext)
    ensures var s, s' := Final(c, ls), Final(c, ls + ext);
            && (StepInFlight(s') ==> StepInFlight(s))
            && CountSteps(s'.global) <= CountSteps(s.global) + (if StepInFlight(s) && !StepInFlight(s') then 1 else 0)
    decreases |ext|
  {
    if ext == [] {
      assert ls + ext == ls;
    } else {
      var shorter := ext[..|ext| - 1];
      HaltStopsWithinOneStep(c, ls, shorter);
      ReachableInv(c, ls + shorter);
      assert (ls + ext)[..|ls + ext| - 1] == ls + shorter;
      HaltedStep(c, Final(c, ls + shorter), Last(ext));
    }
  }
}
