/** The execution status machine of the workflow service. */
module StateMachine {
  import opened Options

  datatype Status = Pending | Running | Paused | Completed | Failed | Cancelled

  datatype Trigger =
    | Submit
    | AllStepsDone
    | Error
    | CostExceeded
    | ManualPause
    | FatalError
    | MaxRetriesExceeded
    | Resume
    | Cancel

  /** The transition table: the status a trigger leads to, if it is legal. */
  function Target(status: Status, trigger: Trigger): Option<Status> {
    match status
    case Pending => if trigger.Submit? then Some(Running) else None
    case Running => (
      match trigger
      case AllStepsDone => Some(Completed)
      case Error => Some(Paused)
      case CostExceeded => Some(Paused)
      case ManualPause => Some(Paused)
      case FatalError => Some(Failed)
      case MaxRetriesExceeded => Some(Failed)
      case Cancel => Some(Cancelled)
      case _ => None
    )
    case Paused => (
      match trigger
      case Resume => Some(Pending)
      case Cancel => Some(Cancelled)
      case _ => None
    )
    case _ => None
  }

  predicate Terminal(status: Status) {
    status.Completed? || status.Failed? || status.Cancelled?
  }

  /** The machine is stuck exactly in the terminal statuses, and only a resume leads back to PENDING. */
  lemma StuckIffTerminal(status: Status)
    ensures Terminal(status) <==> forall t :: Target(status, t).None?
    ensures forall t :: Target(status, t) == Some(Pending) <==> status.Paused? && t.Resume?
  {
    assert Target(Pending, Submit).Some? && Target(Running, Cancel).Some? && Target(Paused, Cancel).Some?;
  }

  /** What each trigger asks for, and where it is legal. */
  lemma TriggersInFields(status: Status, t: Trigger)
    ensures Target(status, t).Some? <==>
            match t
            case Submit => status.Pending?
            case Resume => status.Paused?
            case Cancel => status.Running? || status.Paused?
            case _ => status.Running?
    ensures Target(status, t).Some? ==>
              Target(status, t).value == match t
                                         case Submit => Running
                                         case Resume => Pending
                                         case Cancel => Cancelled
                                         case AllStepsDone => Completed
                                         case FatalError => Failed
                                         case MaxRetriesExceeded => Failed
                                         case _ => Paused
  {
  }

  /** The object form: a rejected trigger leaves the status alone. */
  class ExecutionFSM {
    var status: Status

    constructor (current: Status)
      ensures status == current
    {
      status := current;
    }

    method Transition(trigger: Trigger) returns (accepted: bool)
      modifies this
      ensures accepted <==> Target(old(status), trigger).Some?
      ensures status == if accepted then Target(old(status), trigger).value else old(status)
    {
      var next := Target(status, trigger);
      accepted := next.Some?;
      if accepted {
        status := next.value;
      }
    }

    method CanTransition(trigger: Trigger) returns (legal: bool)
      ensures legal <==> Target(status, trigger).Some?
    {
      legal := Target(status, trigger).Some?;
    }
  }

  /** Feeds a whole trigger sequence to the machine; None as soon as one is rejected. */
  function Drive(status: Status, triggers: seq<Trigger>): Option<Status>
    decreases |triggers|
  {
    if triggers == [] then Some(status)
    else
      match Target(status, triggers[0])
      case None => None
      case Some(next) => Drive(next, triggers[1..])
  }

  function CountTrigger(triggers: seq<Trigger>, t: Trigger): nat {
    if triggers == [] then 0 else (if triggers[0] == t then 1 else 0) + CountTrigger(triggers[1..], t)
  }

  /** How far into one submit/pause/resume round a status is. */
  function Rank(status: Status): nat {
    match status
    case Pending => 0
    case Running => 1
    case Paused => 2
    case _ => 3
  }

  /** Every accepted sequence is paid for by its resumes and by how far the status moved. */
  lemma {:induction false} DriveIsPaidFor(status: Status, triggers: seq<Trigger>)
    requires Drive(status, triggers).Some?
    ensures var end := Drive(status, triggers).value;
            && |triggers| + Rank(status) <= 3 * CountTrigger(triggers, Resume) + Rank(end)
            && CountTrigger(triggers, Submit) + (if end.Pending? then 1 else 0)
               == CountTrigger(triggers, Resume) + (if status.Pending? then 1 else 0)
    decreases |triggers|
  {
    if triggers == [] {
    } else {
      DriveIsPaidFor(Target(status, triggers[0]).value, triggers[1..]);
    }
  }

  /** From PENDING, r resumes allow at most 3r + 3 transitions and r + 1 submits. */
  lemma RunBound(triggers: seq<Trigger>)
    requires Drive(Pending, triggers).Some?
    ensures |triggers| <= 3 * CountTrigger(triggers, Resume) + 3
    ensures CountTrigger(triggers, Submit) <= CountTrigger(triggers, Resume) + 1
  {
    DriveIsPaidFor(Pending, triggers);
  }

  /** `rounds` rounds of submit, pause, resume. */
  function Rounds(rounds: nat): seq<Trigger> {
    if rounds == 0 then [] else [Submit, ManualPause, Resume] + Rounds(rounds - 1)
  }

  /** The bound is reached for every number of resumes, by pausing each run and cancelling at the end. */
  lemma {:induction false} RunBoundIsTight(rounds: nat)
    ensures var ts := Rounds(rounds) + [Submit, ManualPause, Cancel];
            && Drive(Pending, ts) == Some(Cancelled)
            && CountTrigger(ts, Resume) == rounds
            && |ts| == 3 * rounds + 3
            && CountTrigger(ts, Submit) == rounds + 1
  {
    if rounds == 0 {
      assert Rounds(0) + [Submit, ManualPause, Cancel] == [Submit, ManualPause, Cancel] + [];
      OneRound(Cancel, []);
    } else {
      RunBoundIsTight(rounds - 1);
      var rest := Rounds(rounds - 1) + [Submit, ManualPause, Cancel];
      assert Rounds(rounds) + [Submit, ManualPause, Cancel] == [Submit, ManualPause, Resume] + rest;
      OneRound(Resume, rest);
    }
  }

  lemma OneRound(last: Trigger, rest: seq<Trigger>)
    requires last.Resume? || last.Cancel?
    ensures var ts := [Submit, ManualPause, last] + rest;
            && Drive(Pending, ts) == Drive(if last.Resume? then Pending else Cancelled, rest)
            && CountTrigger(ts, Resume) == CountTrigger(rest, Resume) + (if last.Resume? then 1 else 0)
            && CountTrigger(ts, Submit) == CountTrigger(rest, Submit) + 1
  {
    var ts := [Submit, ManualPause, last] + rest;
    var ts1 := [ManualPause, last] + rest;
    var ts2 := [last] + rest;
    assert ts[1..] == ts1 && ts1[1..] == ts2 && ts2[1..] == rest;
    assert Drive(Pending, ts) == Drive(Running, ts1) == Drive(Paused, ts2);
    assert CountTrigger(ts, Submit) == 1 + CountTrigger(ts1, Submit);
    assert CountTrigger(ts1, Submit) == CountTrigger(ts2, Submit) == CountTrigger(rest, Submit);
    assert CountTrigger(ts, Resume) == CountTrigger(ts1, Resume) == CountTrigger(ts2, Resume);
  }
}
