/**
 * The durable execution protocol of one execution, as a transition system.
 *
 * Committed state is the status column, the checkpoint rows, the two event streams and
 * the task queue. Workers hold everything they have not committed. Any worker may crash
 * or raise between two steps. The lock appears here only as the guard of `Acquire` and
 * `BeginRecovery`; DurableSystem shows that the timed Redis lock provides it.
 */
module Protocol {
  import opened Options
  import opened StateMachine
  import opened EventLog

  /** The definition snapshot: whether each step has `checkpoint_before`. */
  datatype Config = Config(checkpointBefore: seq<bool>)

  /** How far a publication got: the global stream comes first, then the execution's own. */
  datatype Publication = Unpublished | OnGlobal | OnBoth

  datatype Phase =
    | Loaded                       // row read and not terminal; lock not asked for yet
    | Acquired                     // lock held
    | Opening(pub: Publication)    // submit accepted, RUNNING written but not committed
    | Boundary                     // head of the step loop
    | Entered                      // status re-read; the checkpoint of `next` is due
    | Stepping(pub: Publication)   // step `next` in progress or being published
    | Closing(event: Event, pub: Publication)
    | Recovering(enqueued: bool)   // the recovery scan holding the lock

  datatype Worker = Worker(loaded: Status, phase: Phase, start: nat, next: nat)

  /** A pause, resume or cancel request between its read and its write. */
  datatype ApiCall = ApiCall(trigger: Trigger, loaded: Status)

  datatype State = State(
    status: Status,
    checkpoints: seq<nat>,         // step indices, in commit order
    global: seq<Event>,
    stream: seq<Event>,
    queue: nat,
    workers: map<nat, Worker>,
    apis: map<nat, ApiCall>,
    runs: seq<RunRecord>,          // history
    own: seq<seq<Event>>,          // what each run put on the execution's own stream, history
    submits: nat,                  // committed submits, history
    resumes: nat                   // committed resumes, history
  )

  const Init := State(Pending, [], [], [], 0, map[], map[], [], [], 0, 0)

  /** The highest checkpointed step index plus one; 0 without checkpoints. */
  function NextStart(checkpoints: seq<nat>): nat {
    if checkpoints == [] then 0
    else
      var rest := NextStart(checkpoints[..|checkpoints| - 1]);
      if Last(checkpoints) + 1 > rest then Last(checkpoints) + 1 else rest
  }

  predicate InBody(s: State, w: nat) {
    w in s.workers && !s.workers[w].phase.Loaded?
  }

  predicate BodyFree(s: State) {
    forall w :: w in s.workers ==> s.workers[w].phase.Loaded?
  }

  datatype Label =
    | Enqueue                      // first submission, resume, or broker redelivery
    | Deliver(w: nat)
    | Acquire(w: nat)
    | Open(w: nat)
    | PublishGlobal(w: nat)
    | PublishStream(w: nat)
    | CommitStart(w: nat)
    | Refresh(w: nat)
    | PassCheckpoint(w: nat)
    | FinishSteps(w: nat)
    | Raise(w: nat)                // cost limit or any other exception inside the loop
    | CommitEnd(w: nat)
    | Abort(w: nat)                // exception out of the task, or lock refused
    | Crash(w: nat)
    | BeginRecovery(w: nat)
    | EnqueueRecovered(w: nat)
    | ApiLoad(a: nat, trigger: Trigger)
    | ApiCommit(a: nat)

  predicate ApiTrigger(t: Trigger) {
    t.ManualPause? || t.Resume? || t.Cancel?
  }

  /** Whether the worker may publish something on the global stream now. */
  predicate MayPublish(phase: Phase) {
    || (phase.Opening? && phase.pub.Unpublished?)
    || (phase.Stepping? && phase.pub.Unpublished?)
    || (phase.Closing? && phase.pub.Unpublished?)
  }

  predicate HalfPublished(phase: Phase) {
    (phase.Opening? || phase.Stepping? || phase.Closing?) && phase.pub.OnGlobal?
  }

  /** Everything a step needs except the lock being free. */
  predicate EnabledButLock(c: Config, s: State, l: Label) {
    var n := |c.checkpointBefore|;
    match l
    case Enqueue => true
    case Deliver(w) => s.queue > 0 && w !in s.workers
    case Acquire(w) => w in s.workers && s.workers[w].phase.Loaded?
    case Open(w) => w in s.workers && s.workers[w].phase.Acquired? && Target(s.workers[w].loaded, Submit).Some?
    case PublishGlobal(w) => w in s.workers && MayPublish(s.workers[w].phase)
    case PublishStream(w) => w in s.workers && HalfPublished(s.workers[w].phase) && s.global != []
    case CommitStart(w) => w in s.workers && s.workers[w].phase == Opening(OnBoth)
    case Refresh(w) => w in s.workers && s.workers[w].phase.Boundary? && s.workers[w].next < n
    case PassCheckpoint(w) => w in s.workers && s.workers[w].phase.Entered? && s.workers[w].next < n
    case FinishSteps(w) => w in s.workers && s.workers[w].phase.Boundary? && s.workers[w].next >= n
    case Raise(w) =>
      w in s.workers && (
        var wk := s.workers[w];
        // also after the last step: its flush comes after its publication
        (wk.phase.Boundary? && (wk.next < n || wk.start < wk.next)) || wk.phase.Entered? || wk.phase.Stepping?)
    case CommitEnd(w) => w in s.workers && s.workers[w].phase.Closing? && s.workers[w].phase.pub.OnBoth?
    case Abort(w) => w in s.workers
    case Crash(w) => w in s.workers
    case BeginRecovery(w) => w !in s.workers
    case EnqueueRecovered(w) => w in s.workers && s.workers[w].phase == Recovering(false)
    case ApiLoad(a, trigger) => a !in s.apis && ApiTrigger(trigger)
    case ApiCommit(a) => a in s.apis && Target(s.apis[a].loaded, s.apis[a].trigger).Some?
  }

  /** A step the protocol can take. */
  predicate Enabled(c: Config, s: State, l: Label) {
    EnabledButLock(c, s, l) && (l.Acquire? || l.BeginRecovery? ==> BodyFree(s))
  }

  function SetPhase(s: State, w: nat, phase: Phase): State
    requires w in s.workers
  {
    s.(workers := s.workers[w := s.workers[w].(phase := phase)])
  }

  function Leave(s: State, w: nat): State {
    s.(workers := s.workers - {w})
  }

  /** The status a closing event is committed with. */
  function ClosingStatus(event: Event): Status {
    if event.ExecutionCompleted? then Completed else Paused
  }

  function Publish(s: State, w: nat): State
    requires w in s.workers && MayPublish(s.workers[w].phase)
  {
    var wk := s.workers[w];
    match wk.phase
    case Opening(_) =>
      SetPhase(s, w, Opening(OnGlobal))
      .(global := s.global + [ExecutionStarted],
        runs := s.runs + [RunRecord(wk.start, wk.start, false, false, None)],
        own := s.own + [[]])
    case Stepping(_) =>
      SetPhase(s, w, Stepping(OnGlobal))
      .(global := s.global + [StepCompleted(wk.next)],
        runs := if s.runs == [] then [] else ReplaceLast(s.runs, Last(s.runs).(next := wk.next + 1, pending := false)))
    case Closing(event, _) =>
      SetPhase(s, w, Closing(event, OnGlobal))
      .(global := s.global + [event],
        runs := if s.runs == [] then [] else ReplaceLast(s.runs, Last(s.runs).(closed := Some(event))))
    case _ => s
  }

  /** After the second publication a step is over and the loop moves on. */
  function PublishedOnBoth(s: State, w: nat): State
    requires w in s.workers && s.global != []
  {
    var wk := s.workers[w];
    var wk' :=
      match wk.phase
      case Opening(_) => wk.(phase := Opening(OnBoth))
      case Stepping(_) => wk.(phase := Boundary, next := wk.next + 1)
      case Closing(event, _) => wk.(phase := Closing(event, OnBoth))
      case _ => wk;
    s.(stream := s.stream + [Last(s.global)],
       own := if s.own == [] then [] else ReplaceLast(s.own, Last(s.own) + [Last(s.global)]),
       workers := s.workers[w := wk'])
  }

  function Apply(c: Config, s: State, l: Label): State
    requires EnabledButLock(c, s, l)
  {
    match l
    case Enqueue => s.(queue := s.queue + 1)
    case Deliver(w) =>
      // the guard against redelivery after a terminal status drops the task
      if Terminal(s.status) then s.(queue := s.queue - 1)
      else s.(queue := s.queue - 1, workers := s.workers[w := Worker(s.status, Loaded, 0, 0)])
    case Acquire(w) => SetPhase(s, w, Acquired)
    case Open(w) =>
      var start := NextStart(s.checkpoints);
      s.(workers := s.workers[w := s.workers[w].(phase := Opening(Unpublished), start := start, next := start)])
    case PublishGlobal(w) => Publish(s, w)
    case PublishStream(w) => PublishedOnBoth(s, w)
    case CommitStart(w) =>
      SetPhase(s, w, Boundary)
      .(status := Running,
        submits := s.submits + 1,
        runs := if s.runs == [] then [] else ReplaceLast(s.runs, Last(s.runs).(begun := true)))
    case Refresh(w) =>
      if s.status.Paused? || s.status.Cancelled? then Leave(s, w) else SetPhase(s, w, Entered)
    case PassCheckpoint(w) =>
      var next := s.workers[w].next;
      if c.checkpointBefore[next] then
        SetPhase(s, w, Stepping(Unpublished))
        .(checkpoints := s.checkpoints + [next],
          runs := if s.runs == [] then [] else ReplaceLast(s.runs, Last(s.runs).(pending := true)))
      else
        SetPhase(s, w, Stepping(Unpublished))
    case FinishSteps(w) => SetPhase(s, w, Closing(ExecutionCompleted, Unpublished))
    case Raise(w) => SetPhase(s, w, Closing(ExecutionPaused, Unpublished))
    case CommitEnd(w) => Leave(s, w).(status := ClosingStatus(s.workers[w].phase.event))
    case Abort(w) => Leave(s, w)
    case Crash(w) => Leave(s, w).(queue := s.queue + 1)
    case BeginRecovery(w) => s.(workers := s.workers[w := Worker(Running, Recovering(false), 0, 0)])
    case EnqueueRecovered(w) => SetPhase(s, w, Recovering(true)).(queue := s.queue + 1)
    case ApiLoad(a, trigger) =>
      // an illegal trigger is answered with 409 and leaves nothing behind
      if Target(s.status, trigger).None? then s
      else s.(apis := s.apis[a := ApiCall(trigger, s.status)])
    case ApiCommit(a) =>
      var call := s.apis[a];
      s.(status := Target(call.loaded, call.trigger).value,
         resumes := s.resumes + (if call.trigger.Resume? then 1 else 0),
         apis := s.apis - {a})
  }

  /** The worker that takes the step. */
  predicate ByWorker(l: Label, w: nat) {
    match l
    case Enqueue => false
    case ApiLoad(_, _) => false
    case ApiCommit(_) => false
    case _ => l.w == w
  }

  lemma OthersStay(c: Config, s: State, l: Label, w: nat)
    requires EnabledButLock(c, s, l) && !ByWorker(l, w)
    ensures var s' := Apply(c, s, l);
            (w in s'.workers <==> w in s.workers) && (w in s.workers ==> s'.workers[w] == s.workers[w])
  {
    match l
    case PublishGlobal(_) =>
    case Refresh(_) =>
    case PassCheckpoint(_) =>
    case _ =>
  }

  /** The state a label sequence leads to from `s`, if every label is enabled in turn. */
  function ExecuteFrom(c: Config, s: State, ls: seq<Label>): Option<State> {
    if ls == [] then Some(s)
    else
      match ExecuteFrom(c, s, ls[..|ls| - 1])
      case None => None
      case Some(s') => if Enabled(c, s', Last(ls)) then Some(Apply(c, s', Last(ls))) else None
  }

  function Execute(c: Config, ls: seq<Label>): Option<State> {
    ExecuteFrom(c, Init, ls)
  }

  /** `ls` is a run of the protocol from the initial state. */
  predicate Valid(c: Config, ls: seq<Label>) {
    Execute(c, ls).Some?
  }

  /** The state a run ends in. */
  function Final(c: Config, ls: seq<Label>): State
    requires Valid(c, ls)
  {
    Execute(c, ls).value
  }

  lemma Extend(c: Config, ls: seq<Label>, l: Label)
    requires Valid(c, ls) && Enabled(c, Final(c, ls), l)
    ensures Valid(c, ls + [l]) && Final(c, ls + [l]) == Apply(c, Final(c, ls), l)
  {
    assert (ls + [l])[..|ls|] == ls;
  }

  /** The protocol can get from `s` to `s'`. */
  ghost predicate Leads(c: Config, s: State, s': State) {
    exists ls :: ExecuteFrom(c, s, ls) == Some(s')
  }

  lemma LeadsNowhere(c: Config, s: State)
    ensures Leads(c, s, s)
  {
    assert ExecuteFrom(c, s, []) == Some(s);
  }

  lemma LeadsStep(c: Config, s: State, s': State, l: Label)
    requires Leads(c, s, s') && Enabled(c, s', l)
    ensures Leads(c, s, Apply(c, s', l))
  {
    var ls :| ExecuteFrom(c, s, ls) == Some(s');
    assert (ls + [l])[..|ls|] == ls;
    assert ExecuteFrom(c, s, ls + [l]) == Some(Apply(c, s', l));
  }

  lemma {:induction false} ExecuteConcat(c: Config, s: State, s': State, ls: seq<Label>, ext: seq<Label>)
    requires ExecuteFrom(c, s, ls) == Some(s')
    ensures ExecuteFrom(c, s, ls + ext) == ExecuteFrom(c, s', ext)
  {
    if ext == [] {
      assert ls + ext == ls;
    } else {
      ExecuteConcat(c, s, s', ls, ext[..|ext| - 1]);
      assert (ls + ext)[..|ls + ext| - 1] == ls + ext[..|ext| - 1];
    }
  }

  lemma LeadsFurther(c: Config, s: State, s': State, s'': State)
    requires Leads(c, s, s') && Leads(c, s', s'')
    ensures Leads(c, s, s'')
  {
    var ls :| ExecuteFrom(c, s, ls) == Some(s');
    var ext :| ExecuteFrom(c, s', ext) == Some(s'');
    ExecuteConcat(c, s, s', ls, ext);
    assert ExecuteFrom(c, s, ls + ext) == Some(s'');
  }
}
