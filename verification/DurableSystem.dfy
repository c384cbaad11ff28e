/**
 * The durable execution protocol on the real lock: workers take the timed Redis lock
 * instead of relying on its exclusiveness. With timely heartbeats every run of this system
 * is a run of Protocol, so everything proved there holds here.
 */
module DurableSystem {
  import opened Options
  import opened EventLog
  import opened StateMachine
  import opened Protocol
  import opened ProtocolInvariant
  import opened ProtocolTheorems
  import L = RedisLock

  datatype System = System(lease: L.Lease, exec: State)

  /** Either the lock moves on its own, or a worker (or the API) takes a protocol step. */
  datatype Move = Lock(a: L.Action) | Work(l: Label)

  const Start := System(L.Idle, Init)

  predicate TakesLock(l: Label) {
    l.Acquire? || l.BeginRecovery?
  }

  /** What a protocol step does to the lock. A worker's token is its own number. */
  function LockAction(c: Config, exec: State, l: Label): Option<L.Action>
    requires EnabledButLock(c, exec, l)
  {
    match l
    case Enqueue => None
    case ApiLoad(_, _) => None
    case ApiCommit(_) => None
    case Acquire(w) => Some(L.Take(w))
    case BeginRecovery(w) => Some(L.Take(w))
    case Crash(w) => if InBody(exec, w) then Some(L.Die(w)) else None
    case _ => if InBody(exec, l.w) && !InBody(Apply(c, exec, l), l.w) then Some(L.EndBody(l.w)) else None
  }

  /** The lock's own moves: time, the heartbeats, and clients that have left the body. */
  predicate LockMovesAlone(lease: L.Lease, a: L.Action) {
    a.Tick? || a.Read? || a.Expire? || a.Release? || (a.Die? && a.t !in lease.holders)
  }

  predicate CanMove(c: Config, ttl: nat, s: System, m: Move) {
    match m
    case Lock(a) => LockMovesAlone(s.lease, a) && L.CanAct(ttl, s.lease, a)
    case Work(l) =>
      && EnabledButLock(c, s.exec, l)
      && (LockAction(c, s.exec, l).Some? ==> L.CanAct(ttl, s.lease, LockAction(c, s.exec, l).value))
  }

  function Step(c: Config, ttl: nat, s: System, m: Move): System
    requires CanMove(c, ttl, s, m)
  {
    match m
    case Lock(a) => s.(lease := L.Act(ttl, s.lease, a))
    case Work(l) =>
      var action := LockAction(c, s.exec, l);
      System(if action.Some? then L.Act(ttl, s.lease, action.value) else s.lease, Apply(c, s.exec, l))
  }

  function Run(c: Config, ttl: nat, moves: seq<Move>): Option<System> {
    if moves == [] then Some(Start)
    else
      match Run(c, ttl, moves[..|moves| - 1])
      case None => None
      case Some(s) => if CanMove(c, ttl, s, Last(moves)) then Some(Step(c, ttl, s, Last(moves))) else None
  }

  /** Every renewal round finishes in time throughout the run. */
  ghost predicate TimelySystem(c: Config, ttl: nat, moves: seq<Move>) {
    && Run(c, ttl, moves).Some?
    && L.Timely(ttl, Run(c, ttl, moves).value.lease)
    && (moves == [] || TimelySystem(c, ttl, moves[..|moves| - 1]))
  }

  /** The protocol steps of a run. */
  function Labels(moves: seq<Move>): seq<Label> {
    if moves == [] then []
    else Labels(moves[..|moves| - 1]) + (if Last(moves).Work? then [Last(moves).l] else [])
  }

  /** The lock actions of a run. */
  function LockActions(c: Config, ttl: nat, moves: seq<Move>): seq<L.Action>
    requires Run(c, ttl, moves).Some?
  {
    if moves == [] then []
    else
      var before := Run(c, ttl, moves[..|moves| - 1]).value;
      LockActions(c, ttl, moves[..|moves| - 1]) + (
        match Last(moves)
        case Lock(a) => [a]
        case Work(l) =>
          if LockAction(c, before.exec, l).Some? then [LockAction(c, before.exec, l).value] else [])
  }

  /** Workers inside the body are the clients inside the critical section. */
  ghost predicate Agree(s: System) {
    forall w :: InBody(s.exec, w) <==> w in s.lease.holders
  }

  lemma WorkKeepsAgree(c: Config, ttl: nat, s: System, l: Label)
    requires Agree(s) && CanMove(c, ttl, s, Work(l))
    ensures Agree(Step(c, ttl, s, Work(l)))
  {
    var s' := Step(c, ttl, s, Work(l));
    forall w ensures InBody(s'.exec, w) <==> w in s'.lease.holders {
      if !ByWorker(l, w) {
        OthersStay(c, s.exec, l, w);
      }
    }
  }

  /** A free lock means an empty body, if nobody is late. */
  lemma FreeLockFreesBody(c: Config, ttl: nat, s: System, acts: seq<L.Action>, l: Label)
    requires Agree(s) && CanMove(c, ttl, s, Work(l))
    requires L.TimelyRun(ttl, acts) && L.Perform(ttl, acts) == Some(s.lease)
    ensures Enabled(c, s.exec, l)
  {
    if TakesLock(l) {
      forall w | w in s.exec.workers ensures s.exec.workers[w].phase.Loaded? {
        if InBody(s.exec, w) {
          L.MutualExclusion(ttl, acts, w, l.w);
        }
      }
    }
  }

  lemma {:induction false} TimelyRunProjects(c: Config, ttl: nat, moves: seq<Move>)
    requires TimelySystem(c, ttl, moves)
    ensures var s := Run(c, ttl, moves).value;
            && Agree(s)
            && Valid(c, Labels(moves)) && Final(c, Labels(moves)) == s.exec
            && L.TimelyRun(ttl, LockActions(c, ttl, moves))
            && L.Perform(ttl, LockActions(c, ttl, moves)) == Some(s.lease)
  {
    if moves != [] {
      var front, m := moves[..|moves| - 1], Last(moves);
      TimelyRunProjects(c, ttl, front);
      var s, acts := Run(c, ttl, front).value, LockActions(c, ttl, front);
      match m {
        case Lock(a) =>
          L.Then(ttl, acts, a);
          assert Labels(moves) == Labels(front);
          assert (acts + [a])[..|acts|] == acts;
        case Work(l) =>
          FreeLockFreesBody(c, ttl, s, acts, l);
          Extend(c, Labels(front), l);
          WorkKeepsAgree(c, ttl, s, l);
          var action := LockAction(c, s.exec, l);
          if action.Some? {
            L.Then(ttl, acts, action.value);
            assert (acts + [action.value])[..|acts|] == acts;
          } else {
            assert LockActions(c, ttl, moves) == acts;
          }
      }
    }
  }

  /** With timely heartbeats, every run on the real lock is a run of the protocol. */
  lemma TimelySystemRefinesProtocol(c: Config, ttl: nat, moves: seq<Move>)
    requires TimelySystem(c, ttl, moves)
    ensures Valid(c, Labels(moves)) && Final(c, Labels(moves)) == Run(c, ttl, moves).value.exec
  {
    TimelyRunProjects(c, ttl, moves);
  }

  /**
   * End to end: across crashes, redeliveries, recoveries, resumes and lock expiries, a step
   * with `checkpoint_before` is published at most once.
   */
  lemma DurableAtMostOnce(c: Config, ttl: nat, moves: seq<Move>, j: nat)
    requires TimelySystem(c, ttl, moves) && Checkpointed(c, j)
    ensures multiset(Run(c, ttl, moves).value.exec.global)[StepCompleted(j)] <= 1
  {
    TimelyRunProjects(c, ttl, moves);
    AtMostOnce(c, Labels(moves), j);
  }

  predicate JustCompleted(s: State) {
    s.global != [] && Last(s.global) == ExecutionCompleted
  }

  /** And a completed execution published every step but those it skipped. */
  lemma DurableCoverage(c: Config, ttl: nat, moves: seq<Move>, j: nat)
    requires TimelySystem(c, ttl, moves) && j < |c.checkpointBefore|
    requires JustCompleted(Run(c, ttl, moves).value.exec)
    ensures StepCompleted(j) in Run(c, ttl, moves).value.exec.global
            <==> !Skipped(Run(c, ttl, moves).value.exec.runs, j)
  {
    TimelyRunProjects(c, ttl, moves);
    var s := Run(c, ttl, moves).value.exec;
    ReachableInv(c, Labels(moves));
    LastEventClosesLastRun(c, s);
    CompletedRunCovers(c, s, j);
    PublishedXorSkipped(c, s, j);
  }

  lemma OpenSegmentEnd(r: RunRecord)
    requires r.closed.None?
    ensures !Last(Segment(r)).ExecutionCompleted?
  {
    if r.start < r.next {
      assert Last(StepEvents(r.start, r.next)) == StepCompleted(r.next - 1);
    }
  }

  lemma LastEventClosesLastRun(c: Config, s: State)
    requires Inv(c, s) && JustCompleted(s)
    ensures s.runs != [] && Last(s.runs).closed == Some(ExecutionCompleted)
  {
    var r := Last(s.runs);
    assert Last(Segment(r)) == Last(s.global);
    if r.closed.None? {
      OpenSegmentEnd(r);
    }
  }

  // ---- The timeliness assumption is needed

  const OneCheckpoint := Config([true])

  lemma Then(c: Config, ttl: nat, moves: seq<Move>, m: Move) returns (moves': seq<Move>)
    requires Run(c, ttl, moves).Some? && CanMove(c, ttl, Run(c, ttl, moves).value, m)
    ensures moves' == moves + [m] && Run(c, ttl, moves') == Some(Step(c, ttl, Run(c, ttl, moves).value, m))
  {
    moves' := moves + [m];
    assert moves'[..|moves|] == moves;
  }

  predicate OpenedAtFirstStep(s: System, w: nat) {
    w in s.exec.workers && s.exec.workers[w] == Worker(Pending, Opening(Unpublished), 0, 0)
  }

  /** A worker that has read PENDING and finds the lock free gets it and finds no checkpoint. */
  lemma OpensAtFirstStep(moves: seq<Move>, w: nat) returns (moves': seq<Move>)
    requires Run(OneCheckpoint, 30, moves).Some?
    requires var s := Run(OneCheckpoint, 30, moves).value;
             && w in s.exec.workers && s.exec.workers[w] == Worker(Pending, Loaded, 0, 0)
             && L.CanAct(30, s.lease, L.Take(w)) && s.exec.checkpoints == []
    ensures Run(OneCheckpoint, 30, moves').Some?
    ensures var s, s' := Run(OneCheckpoint, 30, moves).value, Run(OneCheckpoint, 30, moves').value;
            && s'.lease == L.Act(30, s.lease, L.Take(w)) && OpenedAtFirstStep(s', w)
            && s'.exec == s.exec.(workers := s.exec.workers[w := s'.exec.workers[w]])
  {
    moves' := Then(OneCheckpoint, 30, moves, Work(Acquire(w)));
    moves' := Then(OneCheckpoint, 30, moves', Work(Open(w)));
  }

  /** A step of a worker that stays inside the body leaves the lock alone. */
  lemma WorksOn(moves: seq<Move>, l: Label, w: nat) returns (moves': seq<Move>)
    requires Run(OneCheckpoint, 30, moves).Some?
    requires var exec := Run(OneCheckpoint, 30, moves).value.exec;
             && EnabledButLock(OneCheckpoint, exec, l) && ByWorker(l, w) && !TakesLock(l) && !l.Crash?
             && InBody(exec, w) && InBody(Apply(OneCheckpoint, exec, l), w)
    ensures Run(OneCheckpoint, 30, moves').Some?
    ensures var s, s' := Run(OneCheckpoint, 30, moves).value, Run(OneCheckpoint, 30, moves').value;
            s' == System(s.lease, Apply(OneCheckpoint, s.exec, l))
  {
    var s := Run(OneCheckpoint, 30, moves).value;
    assert LockAction(OneCheckpoint, s.exec, l).None?;
    moves' := Then(OneCheckpoint, 30, moves, Work(l));
  }

  predicate OnlyMovedTo(exec: State, exec': State, w: nat, phase: Phase, more: seq<Event>) {
    && w in exec.workers && exec'.workers == exec.workers[w := exec.workers[w].(phase := phase)]
    && exec'.global == exec.global + more
  }

  lemma StartsRun(moves: seq<Move>, w: nat) returns (moves': seq<Move>)
    requires Run(OneCheckpoint, 30, moves).Some? && OpenedAtFirstStep(Run(OneCheckpoint, 30, moves).value, w)
    ensures Run(OneCheckpoint, 30, moves').Some?
    ensures var s, s' := Run(OneCheckpoint, 30, moves).value, Run(OneCheckpoint, 30, moves').value;
            OnlyMovedTo(s.exec, s'.exec, w, Boundary, [ExecutionStarted]) && s'.exec.status.Running?
  {
    moves' := WorksOn(moves, PublishGlobal(w), w);
    moves' := WorksOn(moves', PublishStream(w), w);
    moves' := WorksOn(moves', CommitStart(w), w);
  }

  lemma TakesFirstStep(moves: seq<Move>, w: nat) returns (moves': seq<Move>)
    requires Run(OneCheckpoint, 30, moves).Some?
    requires var exec := Run(OneCheckpoint, 30, moves).value.exec;
             w in exec.workers && exec.workers[w] == Worker(Pending, Boundary, 0, 0) && exec.status.Running?
    ensures Run(OneCheckpoint, 30, moves').Some?
    ensures var s, s' := Run(OneCheckpoint, 30, moves).value, Run(OneCheckpoint, 30, moves').value;
            OnlyMovedTo(s.exec, s'.exec, w, Stepping(OnGlobal), [StepCompleted(0)])
  {
    moves' := WorksOn(moves, Refresh(w), w);
    moves' := WorksOn(moves', PassCheckpoint(w), w);
    moves' := WorksOn(moves', PublishGlobal(w), w);
  }

  /** From there it publishes the step, whatever other workers have done. */
  lemma PublishesFirstStep(moves: seq<Move>, w: nat) returns (moves': seq<Move>)
    requires Run(OneCheckpoint, 30, moves).Some? && OpenedAtFirstStep(Run(OneCheckpoint, 30, moves).value, w)
    ensures Run(OneCheckpoint, 30, moves').Some?
    ensures var s, s' := Run(OneCheckpoint, 30, moves).value, Run(OneCheckpoint, 30, moves').value;
            OnlyMovedTo(s.exec, s'.exec, w, Stepping(OnGlobal), [ExecutionStarted, StepCompleted(0)])
  {
    var started := StartsRun(moves, w);
    moves' := TakesFirstStep(started, w);
  }

  lemma Loads(moves: seq<Move>, w: nat) returns (moves': seq<Move>)
    requires Run(OneCheckpoint, 30, moves).Some?
    requires var exec := Run(OneCheckpoint, 30, moves).value.exec; exec.status.Pending? && w !in exec.workers
    ensures Run(OneCheckpoint, 30, moves').Some?
    ensures var s, s' := Run(OneCheckpoint, 30, moves).value, Run(OneCheckpoint, 30, moves').value;
            && s'.lease == s.lease
            && s'.exec == s.exec.(workers := s.exec.workers[w := Worker(Pending, Loaded, 0, 0)])
  {
    moves' := Then(OneCheckpoint, 30, moves, Work(Enqueue));
    moves' := Then(OneCheckpoint, 30, moves', Work(Deliver(w)));
  }

  /** A worker stalled past its ttl and the one that took over publish the same checkpointed step. */
  lemma LateWorkerPublishesTwice() returns (moves: seq<Move>)
    ensures Run(OneCheckpoint, 30, moves).Some?
    ensures multiset(Run(OneCheckpoint, 30, moves).value.exec.global)[StepCompleted(0)] == 2
  {
    moves := Loads([], 0);
    moves := Loads(moves, 1);
    moves := OpensAtFirstStep(moves, 0);
    moves := Then(OneCheckpoint, 30, moves, Lock(L.Tick(30.0)));
    moves := OpensAtFirstStep(moves, 1);
    moves := PublishesFirstStep(moves, 0);
    moves := PublishesFirstStep(moves, 1);
    assert Run(OneCheckpoint, 30, moves).value.exec.global
        == [ExecutionStarted, StepCompleted(0), ExecutionStarted, StepCompleted(0)];
  }
}
