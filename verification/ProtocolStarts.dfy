/**
 * Exactly when r resumes allow at most r + 1 Started events: a run keeps to the bound, now and
 * however it goes on, if and only if none of its steps was unsteady.
 */
module ProtocolStarts {
  import opened Options
  import opened StateMachine
  import opened EventLog
  import opened Protocol
  import opened ProtocolInvariant
  import opened ProtocolTheorems
  import opened ProtocolStatus

  /** `ext` continues `ls` with serialised writes and steady steps only. */
  ghost predicate SteadyExtension(c: Config, ls: seq<Label>, ext: seq<Label>)
    decreases |ext|
  {
    && Valid(c, ls + ext) && Serialised(c, ls + ext)
    && (ext != [] ==>
          var shorter := ext[..|ext| - 1];
          && SteadyExtension(c, ls, shorter)
          && SteadyStep(Final(c, ls + shorter), ext[|ext| - 1]))
  }

  predicate WithinResumes(s: State) {
    multiset(s.global)[ExecutionStarted] <= s.resumes + 1
  }

  /** From no moment of the run do serialised writes and steady steps lead beyond the bound. */
  ghost predicate NeverTooManyStarts(c: Config, ls: seq<Label>) {
    forall n: nat, ext :: n <= |ls| && SteadyExtension(c, ls[..n], ext) ==> WithinResumes(Final(c, ls[..n] + ext))
  }

  lemma {:induction false} SteadyContinues(c: Config, ls: seq<Label>, ext: seq<Label>)
    requires Valid(c, ls) && SteadyStarts(c, ls) && SteadyExtension(c, ls, ext)
    ensures SteadyStarts(c, ls + ext)
    decreases |ext|
  {
    if ext == [] {
      assert ls + ext == ls;
    } else {
      assert (ls + ext)[..|ls + ext| - 1] == ls + ext[..|ext| - 1];
      SteadyContinues(c, ls, ext[..|ext| - 1]);
    }
  }

  lemma {:induction false} PrefixFacts(c: Config, ls: seq<Label>, n: nat)
    requires n <= |ls| && Valid(c, ls) && Serialised(c, ls)
    ensures Valid(c, ls[..n]) && Serialised(c, ls[..n])
    ensures SteadyStarts(c, ls) ==> SteadyStarts(c, ls[..n])
  {
    if n < |ls| {
      PrefixFacts(c, ls[..|ls| - 1], n);
      assert ls[..|ls| - 1][..n] == ls[..n];
    } else {
      assert ls[..n] == ls;
    }
  }

  /** The first unsteady step. */
  lemma {:induction false} FirstUnsteady(c: Config, ls: seq<Label>) returns (n: nat)
    requires Valid(c, ls) && Serialised(c, ls) && !SteadyStarts(c, ls)
    ensures n < |ls| && Valid(c, ls[..n]) && Serialised(c, ls[..n]) && SteadyStarts(c, ls[..n])
    ensures Valid(c, ls[..n + 1]) && Serialised(c, ls[..n + 1])
    ensures Enabled(c, Final(c, ls[..n]), ls[n]) && !SteadyStep(Final(c, ls[..n]), ls[n])
    ensures Final(c, ls[..n + 1]) == Apply(c, Final(c, ls[..n]), ls[n])
  {
    var last := |ls| - 1;
    if SteadyStarts(c, ls[..last]) {
      n := last;
      assert ls[..n + 1] == ls;
    } else {
      n := FirstUnsteady(c, ls[..last]);
      assert ls[..last][..n] == ls[..n] && ls[..last][..n + 1] == ls[..n + 1];
    }
  }

  /** Started on a row that does not say PENDING breaks the bound at once. */
  lemma StaleStartBreaksBound(c: Config, ls: seq<Label>, w: nat)
    requires Valid(c, ls) && Serialised(c, ls) && SteadyStarts(c, ls)
    requires Enabled(c, Final(c, ls), PublishGlobal(w)) && Final(c, ls).workers[w].phase.Opening?
    requires !Final(c, ls).status.Pending?
    ensures !WithinResumes(Apply(c, Final(c, ls), PublishGlobal(w)))
  {
    var s, s' := Final(c, ls), Apply(c, Final(c, ls), PublishGlobal(w));
    ReachableInv(c, ls);
    StartedAccounting(c, ls);
    assert s'.global == s.global + [ExecutionStarted];
    ConcatCounts(s.global, [ExecutionStarted], ExecutionStarted);
  }

  /** When a started worker dies or gives up, the bound is used up while the row still says PENDING. */
  lemma LostStartUsesBoundUp(c: Config, ls: seq<Label>, l: Label)
    requires Valid(c, ls) && Serialised(c, ls) && SteadyStarts(c, ls) && Enabled(c, Final(c, ls), l)
    requires (l.Crash? || l.Abort?) && StartedUncommitted(Final(c, ls).workers[l.w])
    ensures var s' := Apply(c, Final(c, ls), l);
            s'.status.Pending? && BodyFree(s') && multiset(s'.global)[ExecutionStarted] == s'.resumes + 1
  {
    var s, s' := Final(c, ls), Apply(c, Final(c, ls), l);
    ReachableInv(c, ls);
    ReachableStartsPending(c, ls);
    StartedAccounting(c, ls);
    assert LiveStart(s, l.w) && InBody(s, l.w);
    forall v | v in s'.workers ensures s'.workers[v].phase.Loaded? {
      if InBody(s', v) {
        assert InBody(s, v);
      }
    }
  }

  lemma ExtendSteadily(c: Config, ls: seq<Label>, ext: seq<Label>, l: Label)
    requires SteadyExtension(c, ls, ext) && Enabled(c, Final(c, ls + ext), l)
    requires StatusWrite(c, Final(c, ls + ext), l).None? && SteadyStep(Final(c, ls + ext), l)
    ensures SteadyExtension(c, ls, ext + [l])
    ensures Final(c, ls + (ext + [l])) == Apply(c, Final(c, ls + ext), l)
  {
    Extend(c, ls + ext, l);
    assert ls + (ext + [l]) == ls + ext + [l];
    assert (ext + [l])[..|ext|] == ext;
    assert (ls + ext + [l])[..|ls + ext|] == ls + ext;
  }

  /** A task is delivered to a fresh worker. */
  lemma LoadsOnceMore(c: Config, ls: seq<Label>) returns (ext: seq<Label>, w: nat)
    requires Valid(c, ls) && Serialised(c, ls) && Final(c, ls).status.Pending? && BodyFree(Final(c, ls))
    ensures SteadyExtension(c, ls, ext)
    ensures var s, s' := Final(c, ls), Final(c, ls + ext);
            && s' == s.(workers := s'.workers) && BodyFree(s')
            && w in s'.workers && s'.workers[w] == Worker(Pending, Loaded, 0, 0)
  {
    w := UnusedNumber(Final(c, ls).workers.Keys);
    assert w !in Final(c, ls).workers && ls + [] == ls;
    ExtendSteadily(c, ls, [], Enqueue);
    ext := [] + [Enqueue];
    ExtendSteadily(c, ls, ext, Deliver(w));
    ext := ext + [Deliver(w)];
  }

  /** It takes the lock and opens its run. */
  lemma OpensOnceMore(c: Config, ls: seq<Label>, ext0: seq<Label>, w: nat) returns (ext: seq<Label>)
    requires SteadyExtension(c, ls, ext0) && BodyFree(Final(c, ls + ext0))
    requires w in Final(c, ls + ext0).workers && Final(c, ls + ext0).workers[w] == Worker(Pending, Loaded, 0, 0)
    ensures SteadyExtension(c, ls, ext)
    ensures var s, s' := Final(c, ls + ext0), Final(c, ls + ext);
            && s' == s.(workers := s'.workers) && w in s'.workers && s'.workers[w].phase == Opening(Unpublished)
  {
    ExtendSteadily(c, ls, ext0, Acquire(w));
    ext := ext0 + [Acquire(w)];
    ExtendSteadily(c, ls, ext, Open(w));
    ext := ext + [Open(w)];
  }

  /** The next task to be delivered then starts once more. */
  lemma StartsOnceMore(c: Config, ls: seq<Label>) returns (ext: seq<Label>)
    requires Valid(c, ls) && Serialised(c, ls) && Final(c, ls).status.Pending? && BodyFree(Final(c, ls))
    ensures SteadyExtension(c, ls, ext)
    ensures Final(c, ls + ext).global == Final(c, ls).global + [ExecutionStarted]
    ensures Final(c, ls + ext).resumes == Final(c, ls).resumes
  {
    var w;
    ext, w := LoadsOnceMore(c, ls);
    ext := OpensOnceMore(c, ls, ext, w);
    ExtendSteadily(c, ls, ext, PublishGlobal(w));
    ext := ext + [PublishGlobal(w)];
  }

  /**
   * With serialised writes: a run never gets, and can never be continued steadily, beyond one Started
   * event per resume and one for the first submit, if and only if no worker of it died or gave up
   * between publishing Started and committing RUNNING, and none published Started on a row that did
   * not say PENDING.
   */
  lemma StartedBoundIff(c: Config, ls: seq<Label>)
    requires Valid(c, ls) && Serialised(c, ls)
    ensures SteadyStarts(c, ls) <==> NeverTooManyStarts(c, ls)
  {
    if SteadyStarts(c, ls) {
      forall n: nat, ext | n <= |ls| && SteadyExtension(c, ls[..n], ext)
        ensures WithinResumes(Final(c, ls[..n] + ext))
      {
        PrefixFacts(c, ls, n);
        SteadyContinues(c, ls[..n], ext);
        StartedBound(c, ls[..n] + ext);
      }
    } else {
      var n := FirstUnsteady(c, ls);
      var l, ext := ls[n], [];
      if l.PublishGlobal? {
        StaleStartBreaksBound(c, ls[..n], l.w);
        assert ls[..n + 1] + ext == ls[..n + 1];
      } else {
        LostStartUsesBoundUp(c, ls[..n], l);
        ext := StartsOnceMore(c, ls[..n + 1]);
        ConcatCounts(Final(c, ls[..n + 1]).global, [ExecutionStarted], ExecutionStarted);
      }
      assert SteadyExtension(c, ls[..n + 1], ext) && !WithinResumes(Final(c, ls[..n + 1] + ext));
    }
  }

  // ---- Both kinds of unsteady step occur in serialised runs

  predicate Writes(l: Label) {
    l.CommitStart? || l.CommitEnd? || l.ApiCommit?
  }

  lemma {:induction false} NoWritesContinue(c: Config, ls: seq<Label>, ext: seq<Label>)
    requires Valid(c, ls) && Serialised(c, ls) && Valid(c, ls + ext)
    requires forall l :: l in ext ==> !Writes(l)
    ensures Serialised(c, ls + ext)
    decreases |ext|
  {
    if ext == [] {
      assert ls + ext == ls;
    } else {
      var shorter := ext[..|ext| - 1];
      assert ext == shorter + [ext[|ext| - 1]];
      assert (ls + ext)[..|ls + ext| - 1] == ls + shorter;
      NoWritesContinue(c, ls, shorter);
      assert Last(ls + ext) == ext[|ext| - 1] && ext[|ext| - 1] in ext;
      assert StatusWrite(c, Final(c, ls + shorter), Last(ls + ext)).None?;
    }
  }

  lemma WriteContinues(c: Config, ls: seq<Label>, l: Label)
    requires Valid(c, ls) && Serialised(c, ls) && Enabled(c, Final(c, ls), l)
    requires StatusWrite(c, Final(c, ls), l).Some? ==>
               Final(c, ls).status == StatusWrite(c, Final(c, ls), l).value.basis
    ensures Valid(c, ls + [l]) && Serialised(c, ls + [l])
    ensures Final(c, ls + [l]) == Apply(c, Final(c, ls), l)
  {
    Extend(c, ls, l);
    assert (ls + [l])[..|ls|] == ls;
  }

  /** One worker publishes Started, and another one reads PENDING before the first commits RUNNING. */
  lemma OneStartsAnotherLoads() returns (ls: seq<Label>)
    ensures Valid(EmptyWorkflow, ls) && Serialised(EmptyWorkflow, ls)
    ensures var s := Final(EmptyWorkflow, ls);
            && s.workers.Keys == {0, 1} && s.workers[0].phase == Opening(OnBoth)
            && s.workers[1] == Worker(Pending, Loaded, 0, 0)
            && s.status.Pending? && s.global == [ExecutionStarted] && s.resumes == 0
  {
    var first := FirstRunStarted();
    NoWritesIsSerialised(EmptyWorkflow, first);
    ls := LoadPending(EmptyWorkflow, first, 1);
    NoWritesContinue(EmptyWorkflow, first, [Enqueue, Deliver(1)]);
  }

  /** It dies after committing RUNNING; the second one still starts. */
  lemma OneDiesTheOtherStarts(ls: seq<Label>) returns (ls': seq<Label>)
    requires Valid(EmptyWorkflow, ls) && Serialised(EmptyWorkflow, ls)
    requires var s := Final(EmptyWorkflow, ls);
             && s.workers.Keys == {0, 1} && s.workers[0].phase == Opening(OnBoth)
             && s.workers[1] == Worker(Pending, Loaded, 0, 0) && s.status.Pending?
    ensures Valid(EmptyWorkflow, ls') && Serialised(EmptyWorkflow, ls')
    ensures var s, s' := Final(EmptyWorkflow, ls), Final(EmptyWorkflow, ls');
            s'.global == s.global + [ExecutionStarted] && s'.resumes == s.resumes && s'.status.Running?
  {
    var c := EmptyWorkflow;
    WriteContinues(c, ls, CommitStart(0));
    var l1 := ls + [CommitStart(0)];
    Extend(c, l1, Crash(0));
    var l2 := l1 + [Crash(0)];
    NoWritesContinue(c, l1, [Crash(0)]);
    ls' := StartLoaded(c, l2, 1);
    NoWritesContinue(c, l2, [Acquire(1), Open(1), PublishGlobal(1), PublishStream(1)]);
  }

  /** A worker that read PENDING before another one committed RUNNING publishes Started on a RUNNING row. */
  lemma StaleStartExceedsBound() returns (ls: seq<Label>)
    ensures Valid(EmptyWorkflow, ls) && Serialised(EmptyWorkflow, ls) && !WithinResumes(Final(EmptyWorkflow, ls))
  {
    var l1 := OneStartsAnotherLoads();
    ls := OneDiesTheOtherStarts(l1);
    assert Final(EmptyWorkflow, ls).global == [ExecutionStarted, ExecutionStarted];
  }
}
