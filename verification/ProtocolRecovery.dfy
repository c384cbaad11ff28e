/**
 * What recovery can and cannot do: a task re-enqueued for a RUNNING row is rejected by
 * submit, so only the API brings an execution whose worker died back to life.
 */
module ProtocolRecovery {
  import opened StateMachine
  import opened EventLog
  import opened Protocol
  import opened ProtocolInvariant
  import opened ProtocolTheorems
  import opened ProtocolStatus

  /** The row says RUNNING, but no worker that read PENDING is left and no request is under way. */
  predicate Stranded(s: State) {
    && s.status.Running? && s.apis == map[]
    && forall w :: w in s.workers ==> !s.workers[w].loaded.Pending?
  }

  lemma StrandedStep(c: Config, ls: seq<Label>, l: Label)
    requires Valid(c, ls) && Enabled(c, Final(c, ls), l) && Stranded(Final(c, ls)) && !l.ApiLoad?
    ensures var s, s' := Final(c, ls), Apply(c, Final(c, ls), l); Stranded(s') && SameLog(s, s')
  {
    var s, s' := Final(c, ls), Apply(c, Final(c, ls), l);
    if !l.Enqueue? && !l.ApiCommit? && l.w in s.workers {
      RejectedTaskIsNoOp(c, ls, l.w, l);
      assert s'.apis == s.apis;
    }
    forall w | w in s'.workers ensures !s'.workers[w].loaded.Pending? {
      if !ByWorker(l, w) {
        OthersStay(c, s, l, w);
      }
    }
  }

  /** A worker that dies after committing RUNNING strands its execution; its task is redelivered in vain. */
  lemma CrashStrands() returns (ls: seq<Label>)
    ensures Valid(EmptyWorkflow, ls)
    ensures var s := Final(EmptyWorkflow, ls); Stranded(s) && BodyFree(s) && s.queue > 0
  {
    var l1 := FirstRunStarted();
    Extend(EmptyWorkflow, l1, CommitStart(0));
    var l2 := l1 + [CommitStart(0)];
    Extend(EmptyWorkflow, l2, Crash(0));
    ls := l2 + [Crash(0)];
  }

  /** Once stranded, an execution stays exactly as it is until somebody calls its API. */
  lemma {:induction false} OnlyTheApiRevives(c: Config, ls: seq<Label>, ext: seq<Label>)
    requires Valid(c, ls) && Valid(c, ls + ext) && Stranded(Final(c, ls))
    requires forall l :: l in ext ==> !l.ApiLoad?
    ensures Stranded(Final(c, ls + ext)) && SameLog(Final(c, ls), Final(c, ls + ext))
    decreases |ext|
  {
    if ext == [] {
      assert ls + ext == ls;
    } else {
      var shorter := ext[..|ext| - 1];
      assert (ls + ext)[..|ls + ext| - 1] == ls + shorter;
      OnlyTheApiRevives(c, ls, shorter);
      assert Last(ext) in ext;
      StrandedStep(c, ls + shorter, Last(ext));
    }
  }

  /**
   * Pause and resume do revive it: the next worker takes the free lock and starts right after
   * the last checkpoint, whatever was published before.
   */
  lemma PauseAndResumeRevive(c: Config, ls: seq<Label>, a: nat, w: nat) returns (ls': seq<Label>)
    requires Valid(c, ls) && Stranded(Final(c, ls)) && BodyFree(Final(c, ls)) && w !in Final(c, ls).workers
    ensures Valid(c, ls') && ls <= ls'
    ensures var s, s' := Final(c, ls), Final(c, ls');
            && w in s'.workers && s'.workers[w].phase == Opening(OnBoth)
            && s'.workers[w].next == NextStart(s.checkpoints)
            && s'.global == s.global + [ExecutionStarted] && s'.checkpoints == s.checkpoints
            && s'.status.Pending? && s'.resumes == s.resumes + 1
  {
    var l1 := Request(c, ls, a, ManualPause);
    var l2 := Request(c, l1, a, Resume);
    var l3 := LoadPending(c, l2, w);
    ls' := StartLoaded(c, l3, w);
  }
}
