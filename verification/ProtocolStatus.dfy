/**
 * When the stored status follows the state machine.
 *
 * Every status write is decided on a status read earlier and is not guarded when it lands.
 */
module ProtocolStatus {
  import opened Options
  import opened StateMachine
  import opened EventLog
  import opened Protocol
  import opened ProtocolInvariant
  import opened ProtocolTheorems

  /** A status write: the status it was decided on, and the status it stores. */
  datatype Write = Write(basis: Status, target: Status)

  function StatusWrite(c: Config, s: State, l: Label): Option<Write>
    requires EnabledButLock(c, s, l)
  {
    match l
    case CommitStart(w) => Some(Write(Pending, Running))
    case CommitEnd(w) => Some(Write(Running, ClosingStatus(s.workers[w].phase.event)))
    case ApiCommit(a) => Some(Write(s.apis[a].loaded, Target(s.apis[a].loaded, s.apis[a].trigger).value))
    case _ => None
  }

  ghost predicate FollowsFsm(from: Status, to: Status) {
    from == to || exists t :: Target(from, t) == Some(to)
  }

  /** The stored status is the write's basis, its target already, or another source of a cancel. */
  predicate NoHarmfulDrift(stored: Status, write: Write) {
    || stored == write.basis
    || stored == write.target
    || (write.target.Cancelled? && (stored.Running? || stored.Paused?))
  }

  /** Pending API calls were legal for the status they read. */
  predicate ApisLegal(s: State) {
    forall a :: a in s.apis ==> ApiTrigger(s.apis[a].trigger) && Target(s.apis[a].loaded, s.apis[a].trigger).Some?
  }

  lemma {:induction false} ReachableApisLegal(c: Config, ls: seq<Label>)
    requires Valid(c, ls)
    ensures ApisLegal(Final(c, ls))
  {
    if ls != [] {
      var s, l := Final(c, ls[..|ls| - 1]), Last(ls);
      ReachableApisLegal(c, ls[..|ls| - 1]);
      if !l.ApiLoad? && !l.ApiCommit? {
        assert Apply(c, s, l).apis == s.apis;
      }
    }
  }

  /** Exactly when one write keeps the stored status on the state machine. */
  lemma WriteFollowsFsmIff(c: Config, s: State, l: Label)
    requires ApisLegal(s) && Enabled(c, s, l) && StatusWrite(c, s, l).Some?
    ensures var write := StatusWrite(c, s, l).value;
            && Apply(c, s, l).status == write.target
            && (FollowsFsm(s.status, write.target) <==> NoHarmfulDrift(s.status, write))
  {
    var write := StatusWrite(c, s, l).value;
    assert Target(Pending, Submit) == Some(Running);
    assert Target(Running, AllStepsDone) == Some(Completed) && Target(Running, Error) == Some(Paused);
    assert Target(Running, Cancel) == Some(Cancelled) && Target(Paused, Cancel) == Some(Cancelled);
    assert Target(Paused, Resume) == Some(Pending);
  }

  lemma OtherStepsKeepStatus(c: Config, s: State, l: Label)
    requires Enabled(c, s, l) && StatusWrite(c, s, l).None?
    ensures Apply(c, s, l).status == s.status
  {
    match l
    case PublishGlobal(w) =>
    case Refresh(w) =>
    case PassCheckpoint(w) =>
    case _ =>
  }

  ghost predicate FsmRun(c: Config, ls: seq<Label>)
    requires Valid(c, ls)
  {
    ls == [] || (
      var front := ls[..|ls| - 1];
      FsmRun(c, front) && FollowsFsm(Final(c, front).status, Final(c, ls).status))
  }

  predicate DriftFreeRun(c: Config, ls: seq<Label>)
    requires Valid(c, ls)
  {
    ls == [] || (
      var front := ls[..|ls| - 1];
      var write := StatusWrite(c, Final(c, front), Last(ls));
      DriftFreeRun(c, front) && (write.Some? ==> NoHarmfulDrift(Final(c, front).status, write.value)))
  }

  /** A whole run keeps the stored status on the state machine iff none of its writes drifts. */
  lemma {:induction false} RunFollowsFsmIff(c: Config, ls: seq<Label>)
    requires Valid(c, ls)
    ensures FsmRun(c, ls) <==> DriftFreeRun(c, ls)
  {
    if ls != [] {
      var front, l := ls[..|ls| - 1], Last(ls);
      RunFollowsFsmIff(c, front);
      ReachableApisLegal(c, front);
      if StatusWrite(c, Final(c, front), l).Some? {
        WriteFollowsFsmIff(c, Final(c, front), l);
      } else {
        OtherStepsKeepStatus(c, Final(c, front), l);
      }
    }
  }

  /** On such runs terminal statuses are absorbing. */
  lemma {:induction false} TerminalIsAbsorbing(c: Config, ls: seq<Label>, ext: seq<Label>)
    requires Valid(c, ls) && Valid(c, ls + ext) && DriftFreeRun(c, ls + ext)
    requires Terminal(Final(c, ls).status)
    ensures Final(c, ls + ext).status == Final(c, ls).status
  {
    if ext == [] {
      assert ls + ext == ls;
    } else {
      var shorter := ext[..|ext| - 1];
      assert (ls + ext)[..|ls + ext| - 1] == ls + shorter;
      RunFollowsFsmIff(c, ls + ext);
      TerminalIsAbsorbing(c, ls, shorter);
    }
  }

  /** The write changes a terminal status. */
  predicate OverwritesTerminal(stored: Status, write: Option<Write>) {
    write.Some? && Terminal(stored) && write.value.target != stored
  }

  /** No step of the run leaves a terminal status. */
  predicate AbsorbingRun(c: Config, ls: seq<Label>)
    requires Valid(c, ls)
  {
    ls == [] || (
      var front := ls[..|ls| - 1];
      && AbsorbingRun(c, front)
      && (Terminal(Final(c, front).status) ==> Final(c, ls).status == Final(c, front).status))
  }

  /** No write of the run lands on a terminal status other than the one it stores. */
  predicate RespectsTerminal(c: Config, ls: seq<Label>)
    requires Valid(c, ls)
  {
    ls == [] || (
      var front := ls[..|ls| - 1];
      && RespectsTerminal(c, front)
      && !OverwritesTerminal(Final(c, front).status, StatusWrite(c, Final(c, front), Last(ls))))
  }

  /** Terminal statuses are absorbing throughout a run exactly then. */
  lemma {:induction false} AbsorbingIff(c: Config, ls: seq<Label>)
    requires Valid(c, ls)
    ensures AbsorbingRun(c, ls) <==> RespectsTerminal(c, ls)
  {
    if ls != [] {
      var front, l := ls[..|ls| - 1], Last(ls);
      AbsorbingIff(c, front);
      ReachableApisLegal(c, front);
      if StatusWrite(c, Final(c, front), l).Some? {
        WriteFollowsFsmIff(c, Final(c, front), l);
      } else {
        OtherStepsKeepStatus(c, Final(c, front), l);
      }
    }
  }

  // ---- Submits, resumes and Started events

  /** Every write lands on the very status it was decided on. */
  predicate Serialised(c: Config, ls: seq<Label>)
    requires Valid(c, ls)
  {
    ls == [] || (
      var front := ls[..|ls| - 1];
      var write := StatusWrite(c, Final(c, front), Last(ls));
      Serialised(c, front) && (write.Some? ==> Final(c, front).status == write.value.basis))
  }

  function OneIf(b: bool): nat {
    if b then 1 else 0
  }

  /** Each committed submit uses up the initial PENDING or one resume. */
  lemma {:induction false} SubmitsAreResumes(c: Config, ls: seq<Label>)
    requires Valid(c, ls) && Serialised(c, ls)
    ensures var s := Final(c, ls); s.submits + OneIf(s.status.Pending?) == s.resumes + 1
  {
    if ls != [] {
      var front, l := ls[..|ls| - 1], Last(ls);
      var s := Final(c, front);
      SubmitsAreResumes(c, front);
      ReachableApisLegal(c, front);
      if StatusWrite(c, s, l).None? {
        OtherStepsKeepStatus(c, s, l);
        CountersOnlyMoveWithWrites(c, s, l);
      }
    }
  }

  lemma CountersOnlyMoveWithWrites(c: Config, s: State, l: Label)
    requires Enabled(c, s, l) && StatusWrite(c, s, l).None?
    ensures Apply(c, s, l).submits == s.submits && Apply(c, s, l).resumes == s.resumes
  {
    match l
    case PublishGlobal(w) =>
    case Refresh(w) =>
    case PassCheckpoint(w) =>
    case _ =>
  }

  /** Runs whose ExecutionStarted is out but whose RUNNING status was never committed. */
  function UncommittedStarts(s: State): nat {
    BegunAtMostAll(s.runs);
    |s.runs| - CountBegun(s.runs)
  }

  /** Started events are counted exactly: resumes, the first submit, and uncommitted starts. */
  predicate AccountsForStarts(s: State) {
    multiset(s.global)[ExecutionStarted] + OneIf(s.status.Pending?) == s.resumes + 1 + UncommittedStarts(s)
  }

  lemma StartedAccounting(c: Config, ls: seq<Label>)
    requires Valid(c, ls) && Serialised(c, ls)
    ensures AccountsForStarts(Final(c, ls))
  {
    ReachableInv(c, ls);
    SubmitsAreResumes(c, ls);
    LogCounts(c, Final(c, ls), 0);
  }

  lemma {:induction false} BegunAtMostAll(runs: seq<RunRecord>)
    ensures CountBegun(runs) <= |runs|
  {
    if runs != [] {
      BegunAtMostAll(runs[..|runs| - 1]);
    }
  }

  predicate StartedUncommitted(wk: Worker) {
    wk.phase.Opening? && !wk.phase.pub.Unpublished?
  }

  /**
   * The step does not make a worker die or give up between publishing ExecutionStarted and committing
   * RUNNING, and does not publish ExecutionStarted unless the row says PENDING.
   */
  predicate SteadyStep(s: State, l: Label) {
    && (l.Crash? || l.Abort? ==> l.w in s.workers ==> !StartedUncommitted(s.workers[l.w]))
    && (l.PublishGlobal? ==> l.w in s.workers ==> s.workers[l.w].phase.Opening? ==> s.status.Pending?)
  }

  predicate SteadyStarts(c: Config, ls: seq<Label>)
    requires Valid(c, ls)
  {
    ls == [] || (
      var front := ls[..|ls| - 1];
      SteadyStarts(c, front) && SteadyStep(Final(c, front), Last(ls)))
  }

  predicate LiveStart(s: State, w: nat) {
    w in s.workers && StartedUncommitted(s.workers[w])
  }

  /** At most one start is uncommitted; it belongs to a live worker and the row says PENDING. */
  ghost predicate StartsPending(s: State) {
    && 0 <= UncommittedStarts(s) <= 1
    && (UncommittedStarts(s) == 1 ==> s.status.Pending? && exists w :: LiveStart(s, w))
    && ((exists w :: LiveStart(s, w)) ==> UncommittedStarts(s) == 1)
  }

  lemma StartKeepsPending(c: Config, s: State, w: nat)
    requires Inv(c, s) && StartsPending(s) && Enabled(c, s, PublishGlobal(w))
    requires s.workers[w].phase.Opening? && s.status.Pending?
    ensures StartsPending(Apply(c, s, PublishGlobal(w)))
  {
    var s' := Apply(c, s, PublishGlobal(w));
    assert InBody(s, w) && s'.runs[..|s.runs|] == s.runs;
    forall v | LiveStart(s, v) ensures false {
      assert InBody(s, v);
    }
    assert LiveStart(s', w);
  }

  lemma CommitClearsPending(c: Config, s: State, w: nat)
    requires Inv(c, s) && StartsPending(s) && Enabled(c, s, CommitStart(w))
    ensures StartsPending(Apply(c, s, CommitStart(w)))
  {
    var s' := Apply(c, s, CommitStart(w));
    assert InBody(s, w) && LiveStart(s, w) && BodyInv(c, s, s.workers[w]);
    assert s'.runs[..|s.runs| - 1] == s.runs[..|s.runs| - 1];
    forall v | LiveStart(s', v) ensures false {
      assert v != w && InBody(s, v);
    }
  }

  lemma SameUncommittedStarts(c: Config, s: State, l: Label)
    requires Inv(c, s) && Enabled(c, s, l)
    requires !l.CommitStart? && !(l.PublishGlobal? && s.workers[l.w].phase.Opening?)
    ensures UncommittedStarts(Apply(c, s, l)) == UncommittedStarts(s)
  {
    var s' := Apply(c, s, l);
    if s'.runs != s.runs {
      assert s.runs != [] && s'.runs[..|s.runs| - 1] == s.runs[..|s.runs| - 1];
    }
  }

  lemma SameLiveStarts(c: Config, s: State, l: Label, w: nat)
    requires Enabled(c, s, l)
    requires !l.CommitStart? && !(l.PublishGlobal? && s.workers[l.w].phase.Opening?)
    requires l.Crash? || l.Abort? ==> !StartedUncommitted(s.workers[l.w])
    ensures LiveStart(Apply(c, s, l), w) <==> LiveStart(s, w)
  {
    if !ByWorker(l, w) {
      OthersStay(c, s, l, w);
    }
  }

  lemma EndsWithoutLiveStart(c: Config, s: State, w: nat)
    requires Inv(c, s) && StartsPending(s) && Enabled(c, s, CommitEnd(w))
    ensures UncommittedStarts(s) == 0
  {
    assert InBody(s, w);
    forall v | LiveStart(s, v) ensures false {
      assert InBody(s, v);
    }
  }

  lemma {:induction false} ReachableStartsPending(c: Config, ls: seq<Label>)
    requires Valid(c, ls) && Serialised(c, ls) && SteadyStarts(c, ls)
    ensures StartsPending(Final(c, ls))
  {
    if ls != [] {
      var front, l := ls[..|ls| - 1], Last(ls);
      var s := Final(c, front);
      ReachableStartsPending(c, front);
      ReachableInv(c, front);
      ReachableApisLegal(c, front);
      if l.PublishGlobal? && s.workers[l.w].phase.Opening? {
        StartKeepsPending(c, s, l.w);
      } else if l.CommitStart? {
        CommitClearsPending(c, s, l.w);
      } else {
        SameUncommittedStarts(c, s, l);
        forall w ensures LiveStart(Apply(c, s, l), w) <==> LiveStart(s, w) {
          SameLiveStarts(c, s, l, w);
        }
        if l.CommitEnd? {
          EndsWithoutLiveStart(c, s, l.w);
        } else if StatusWrite(c, s, l).None? {
          OtherStepsKeepStatus(c, s, l);
        }
      }
    }
  }

  /**
   * With serialised writes and steady starts, r resumes allow at most r + 1 Started events,
   * however often tasks are redelivered or recovered.
   */
  lemma StartedBound(c: Config, ls: seq<Label>)
    requires Valid(c, ls) && Serialised(c, ls) && SteadyStarts(c, ls)
    ensures multiset(Final(c, ls).global)[ExecutionStarted] <= Final(c, ls).resumes + 1
  {
    StartedAccounting(c, ls);
    ReachableStartsPending(c, ls);
  }

  /** In numbers: the bound holds exactly while no more than the current start is uncommitted. */
  lemma StartedBoundByCount(c: Config, ls: seq<Label>)
    requires Valid(c, ls) && Serialised(c, ls)
    ensures multiset(Final(c, ls).global)[ExecutionStarted] <= Final(c, ls).resumes + 1
            <==> UncommittedStarts(Final(c, ls)) <= OneIf(Final(c, ls).status.Pending?)
  {
    StartedAccounting(c, ls);
  }

  // ---- Runs that need the hypotheses

  const EmptyWorkflow := Config([])

  /** A task is enqueued and delivered to a worker while the row says PENDING. */
  lemma LoadPending(c: Config, ls: seq<Label>, w: nat) returns (ls': seq<Label>)
    requires Valid(c, ls) && Final(c, ls).status.Pending? && w !in Final(c, ls).workers
    ensures ls' == ls + [Enqueue, Deliver(w)] && Valid(c, ls')
    ensures var s := Final(c, ls); Final(c, ls') == s.(workers := s.workers[w := Worker(Pending, Loaded, 0, 0)])
  {
    Extend(c, ls, Enqueue);
    Extend(c, ls + [Enqueue], Deliver(w));
    ls' := ls + [Enqueue, Deliver(w)];
    assert ls' == ls + [Enqueue] + [Deliver(w)];
  }

  /** A request that is legal for the stored status reads it and writes its target. */
  lemma Request(c: Config, ls: seq<Label>, a: nat, trigger: Trigger) returns (ls': seq<Label>)
    requires Valid(c, ls) && a !in Final(c, ls).apis && ApiTrigger(trigger)
    requires Target(Final(c, ls).status, trigger).Some?
    ensures ls' == ls + [ApiLoad(a, trigger), ApiCommit(a)] && Valid(c, ls')
    ensures var s := Final(c, ls);
            Final(c, ls') == s.(status := Target(s.status, trigger).value,
                                resumes := s.resumes + (if trigger.Resume? then 1 else 0))
  {
    Extend(c, ls, ApiLoad(a, trigger));
    Extend(c, ls + [ApiLoad(a, trigger)], ApiCommit(a));
    ls' := ls + [ApiLoad(a, trigger), ApiCommit(a)];
    assert ls' == ls + [ApiLoad(a, trigger)] + [ApiCommit(a)];
    assert Final(c, ls').apis == Final(c, ls).apis;
  }

  /** A worker that read PENDING takes the lock and publishes ExecutionStarted. */
  lemma StartLoaded(c: Config, ls: seq<Label>, w: nat) returns (ls': seq<Label>)
    requires Valid(c, ls) && BodyFree(Final(c, ls)) && w in Final(c, ls).workers
    requires Final(c, ls).workers[w].loaded.Pending?
    ensures ls' == ls + [Acquire(w), Open(w), PublishGlobal(w), PublishStream(w)]
    ensures Valid(c, ls')
    ensures var s, s' := Final(c, ls), Final(c, ls');
            && w in s'.workers && s'.workers == s.workers[w := s'.workers[w]]
            && s'.workers[w].phase == Opening(OnBoth) && s'.workers[w].next == NextStart(s.checkpoints)
            && s'.global == s.global + [ExecutionStarted]
            && s'.(workers := s.workers, global := s.global, stream := s.stream, runs := s.runs, own := s.own) == s
  {
    Extend(c, ls, Acquire(w));
    var l1 := ls + [Acquire(w)];
    Extend(c, l1, Open(w));
    var l2 := l1 + [Open(w)];
    Extend(c, l2, PublishGlobal(w));
    var l3 := l2 + [PublishGlobal(w)];
    Extend(c, l3, PublishStream(w));
    ls' := ls + [Acquire(w), Open(w), PublishGlobal(w), PublishStream(w)];
    assert ls' == l3 + [PublishStream(w)];
  }

  /** A started worker with no step left publishes ExecutionCompleted; no status is read any more. */
  lemma CompleteStarted(c: Config, ls: seq<Label>, w: nat) returns (ls': seq<Label>)
    requires Valid(c, ls) && w in Final(c, ls).workers && Final(c, ls).workers[w].phase == Boundary
    requires Final(c, ls).workers[w].next >= |c.checkpointBefore|
    ensures Valid(c, ls')
    ensures var s, s' := Final(c, ls), Final(c, ls');
            && w in s'.workers && s'.workers == s.workers[w := s'.workers[w]]
            && s'.workers[w].phase == Closing(ExecutionCompleted, OnBoth)
            && s'.status == s.status && s'.checkpoints == s.checkpoints && s'.apis == s.apis && s'.queue == s.queue
  {
    Extend(c, ls, FinishSteps(w));
    var l1 := ls + [FinishSteps(w)];
    Extend(c, l1, PublishGlobal(w));
    var l2 := l1 + [PublishGlobal(w)];
    Extend(c, l2, PublishStream(w));
    ls' := l2 + [PublishStream(w)];
  }

  /** A started worker with no step left commits RUNNING and publishes ExecutionCompleted. */
  lemma FinishStarted(c: Config, ls: seq<Label>, w: nat) returns (ls': seq<Label>)
    requires Valid(c, ls) && w in Final(c, ls).workers && Final(c, ls).workers[w].phase == Opening(OnBoth)
    requires Final(c, ls).workers[w].next >= |c.checkpointBefore|
    ensures Valid(c, ls')
    ensures var s, s' := Final(c, ls), Final(c, ls');
            && w in s'.workers && s'.workers == s.workers[w := s'.workers[w]]
            && s'.workers[w].phase == Closing(ExecutionCompleted, OnBoth)
            && s'.status.Running? && s'.checkpoints == s.checkpoints && s'.apis == s.apis && s'.queue == s.queue
  {
    Extend(c, ls, CommitStart(w));
    ls' := CompleteStarted(c, ls + [CommitStart(w)], w);
  }

  /** The first worker on a new execution of the empty workflow has published ExecutionStarted. */
  lemma FirstRunStarted() returns (ls: seq<Label>)
    ensures Valid(EmptyWorkflow, ls)
    ensures forall l :: l in ls ==> !l.CommitStart? && !l.CommitEnd? && !l.ApiCommit?
    ensures var s := Final(EmptyWorkflow, ls);
            && s.workers.Keys == {0} && s.workers[0].phase == Opening(OnBoth) && s.workers[0].next == 0
            && s.status.Pending? && s.apis == map[] && s.resumes == 0
            && s.global == [ExecutionStarted] && s.checkpoints == []
  {
    var c := EmptyWorkflow;
    ls := LoadPending(c, [], 0);
    ls := StartLoaded(c, ls, 0);
  }

  predicate StartsTwice(ls: seq<Label>)
    requires Valid(EmptyWorkflow, ls)
  {
    && Serialised(EmptyWorkflow, ls) && Final(EmptyWorkflow, ls).resumes == 0
    && Final(EmptyWorkflow, ls).global == [ExecutionStarted, ExecutionStarted]
  }

  /** Without any resume, a crash before the commit of RUNNING lets the redelivered task start again. */
  lemma CrashBeforeCommitStartsTwice() returns (ls: seq<Label>)
    ensures Valid(EmptyWorkflow, ls) && StartsTwice(ls)
  {
    var c := EmptyWorkflow;
    var l1 := FirstRunStarted();
    Extend(c, l1, Crash(0));
    var l2 := l1 + [Crash(0)];
    Extend(c, l2, Deliver(1));
    ls := StartLoaded(c, l2 + [Deliver(1)], 1);
    NoWritesIsSerialised(c, ls);
  }

  lemma {:induction false} NoWritesIsSerialised(c: Config, ls: seq<Label>)
    requires Valid(c, ls)
    requires forall l :: l in ls ==> !l.CommitStart? && !l.CommitEnd? && !l.ApiCommit?
    ensures Serialised(c, ls)
  {
    if ls != [] {
      NoWritesIsSerialised(c, ls[..|ls| - 1]);
      assert Last(ls) in ls;
    }
  }

  /**
   * A cancel accepted after the last status check is overwritten with COMPLETED. It commits while
   * the worker holds no uncommitted change of the row.
   */
  lemma CompletionOverwritesCancel() returns (ls: seq<Label>, l: Label)
    ensures Valid(EmptyWorkflow, ls) && Enabled(EmptyWorkflow, Final(EmptyWorkflow, ls), l)
    ensures Final(EmptyWorkflow, ls).status.Cancelled?
    ensures Apply(EmptyWorkflow, Final(EmptyWorkflow, ls), l).status.Completed?
  {
    var c := EmptyWorkflow;
    ls := FirstRunStarted();
    Extend(c, ls, CommitStart(0));
    ls := Request(c, ls + [CommitStart(0)], 0, Cancel);
    ls := CompleteStarted(c, ls, 0);
    l := CommitEnd(0);
  }

  /** A task that read PENDING before another run finished sets a COMPLETED row back to RUNNING. */
  lemma StaleLoadRestartsCompleted() returns (ls: seq<Label>, l: Label)
    ensures Valid(EmptyWorkflow, ls) && Enabled(EmptyWorkflow, Final(EmptyWorkflow, ls), l)
    ensures Final(EmptyWorkflow, ls).status.Completed?
    ensures Apply(EmptyWorkflow, Final(EmptyWorkflow, ls), l).status.Running?
  {
    var c := EmptyWorkflow;
    var l0 := LoadPending(c, [], 0);
    l0 := LoadPending(c, l0, 1);
    var l1 := StartLoaded(c, l0, 0);
    var l2 := FinishStarted(c, l1, 0);
    Extend(c, l2, CommitEnd(0));
    var l3 := StartLoaded(c, l2 + [CommitEnd(0)], 1);
    ls, l := l3, CommitStart(1);
  }
}
