/** What every step of the durable execution protocol keeps. */
module ProtocolInvariant {
  import opened Options
  import opened EventLog
  import opened Protocol

  predicate Checkpointed(c: Config, j: nat) {
    j < |c.checkpointBefore| && c.checkpointBefore[j]
  }

  ghost predicate WfRun(c: Config, r: RunRecord) {
    && r.start <= r.next <= |c.checkpointBefore|
    && (r.start < r.next || r.pending || r.closed.Some? ==> r.begun)
    && (r.pending ==> Checkpointed(c, r.next))
    && WellClosed(r)
    && (r.closed == Some(ExecutionCompleted) ==> r.next == |c.checkpointBefore|)
  }

  ghost predicate WfCheckpoints(c: Config, cks: seq<nat>) {
    && (forall i :: 0 <= i < |cks| ==> Checkpointed(c, cks[i]))
    && (forall i, j :: 0 <= i < j < |cks| ==> cks[i] < cks[j])
    && NextStart(cks) <= |c.checkpointBefore|
  }

  ghost predicate TouchedBefore(runs: seq<RunRecord>, k: nat, j: nat)
    requires k <= |runs|
  {
    exists m :: 0 <= m < k && Touches(runs[m], j)
  }

  /** Every checkpointed step the run touched lies below `bound`. */
  ghost predicate Below(c: Config, r: RunRecord, bound: nat) {
    forall j: nat :: Touches(r, j) && Checkpointed(c, j) ==> j < bound
  }

  /** Every step below `bound` was touched by one of the first k runs. */
  ghost predicate CoveredBelow(runs: seq<RunRecord>, k: nat, bound: nat)
    requires k <= |runs|
  {
    forall j: nat :: j < bound ==> TouchedBefore(runs, k, j)
  }

  /** The checkpointed steps a run touched lie below the start of every later run. */
  ghost predicate Separated(c: Config, runs: seq<RunRecord>) {
    forall k, m :: 0 <= k < m < |runs| ==> Below(c, runs[k], runs[m].start)
  }

  /** The invariant on the run records and the checkpoint rows. */
  ghost predicate History(c: Config, runs: seq<RunRecord>, cks: seq<nat>) {
    && WfCheckpoints(c, cks)
    && (forall k :: 0 <= k < |runs| ==> WfRun(c, runs[k]))
    && Separated(c, runs)
    && (forall k :: 0 <= k < |runs| ==> Below(c, runs[k], NextStart(cks)))
    && (forall k :: 0 <= k < |runs| ==> CoveredBelow(runs, k, runs[k].start))
    && CoveredBelow(runs, |runs|, NextStart(cks))
  }

  lemma {:induction false} BelowNextStart(cks: seq<nat>)
    ensures forall i :: 0 <= i < |cks| ==> cks[i] < NextStart(cks)
  {
    if cks != [] {
      var front := cks[..|cks| - 1];
      BelowNextStart(front);
      forall i | 0 <= i < |cks| ensures cks[i] < NextStart(cks) {
        if i < |front| {
          assert cks[i] == front[i];
        }
      }
    }
  }

  lemma AppendCheckpoint(c: Config, cks: seq<nat>, next: nat)
    requires WfCheckpoints(c, cks) && NextStart(cks) <= next && Checkpointed(c, next)
    ensures WfCheckpoints(c, cks + [next]) && NextStart(cks + [next]) == next + 1
  {
    BelowNextStart(cks);
    assert (cks + [next])[..|cks|] == cks;
  }

  lemma CoveredInFront(runs: seq<RunRecord>, runs': seq<RunRecord>, k: nat, k': nat, bound: nat)
    requires k <= |runs| && k <= k' <= |runs'| && runs[..k] == runs'[..k]
    requires CoveredBelow(runs, k, bound)
    ensures CoveredBelow(runs', k', bound)
  {
    forall j: nat | j < bound ensures TouchedBefore(runs', k', j) {
      assert TouchedBefore(runs, k, j);
      var m :| 0 <= m < k && Touches(runs[m], j);
      assert runs[..k][m] == runs'[..k][m];
      assert Touches(runs'[m], j);
    }
  }

  /** A new run starts above every checkpointed step and leaves no step below it untouched. */
  lemma AppendRun(c: Config, runs: seq<RunRecord>, cks: seq<nat>)
    requires History(c, runs, cks)
    ensures var s := NextStart(cks); History(c, runs + [RunRecord(s, s, false, false, None)], cks)
  {
    var s := NextStart(cks);
    var r := RunRecord(s, s, false, false, None);
    var runs' := runs + [r];
    assert forall k :: 0 <= k < |runs| ==> runs'[k] == runs[k];
    forall k | 0 <= k < |runs'| ensures CoveredBelow(runs', k, runs'[k].start) {
      CoveredInFront(runs, runs', k, k, runs'[k].start);
    }
    CoveredInFront(runs, runs', |runs|, |runs'|, s);
  }

  /** The last run may touch more steps, as long as their checkpoints are committed. */
  lemma GrowLastRun(c: Config, runs: seq<RunRecord>, cks: seq<nat>, r: RunRecord, cks': seq<nat>)
    requires History(c, runs, cks) && runs != []
    requires WfRun(c, r) && r.start == Last(runs).start
    requires forall j: nat :: Touches(Last(runs), j) ==> Touches(r, j)
    requires WfCheckpoints(c, cks') && NextStart(cks) <= NextStart(cks')
    requires Below(c, r, NextStart(cks'))
    requires forall j: nat :: NextStart(cks) <= j < NextStart(cks') ==> Touches(r, j) || j < r.start
    ensures History(c, ReplaceLast(runs, r), cks')
  {
    var runs' := ReplaceLast(runs, r);
    var last := |runs| - 1;
    assert forall k :: 0 <= k < last ==> runs'[k] == runs[k];
    assert runs'[last] == r;
    forall k | 0 <= k < |runs'| ensures CoveredBelow(runs', k, runs'[k].start) {
      CoveredInFront(runs, runs', k, k, runs'[k].start);
    }
    forall j: nat | j < NextStart(cks') ensures TouchedBefore(runs', |runs'|, j) {
      TouchedAfterGrowth(runs, r, NextStart(cks), j);
    }
  }

  lemma TouchedAfterGrowth(runs: seq<RunRecord>, r: RunRecord, bound: nat, j: nat)
    requires runs != [] && r.start == Last(runs).start
    requires forall j: nat :: Touches(Last(runs), j) ==> Touches(r, j)
    requires CoveredBelow(runs, |runs|, bound) && CoveredBelow(runs, |runs| - 1, r.start)
    requires j < bound || j < r.start || Touches(r, j)
    ensures TouchedBefore(ReplaceLast(runs, r), |runs|, j)
  {
    var runs' := ReplaceLast(runs, r);
    if Touches(r, j) {
      assert Touches(runs'[|runs| - 1], j);
    } else {
      var k := if j < bound then |runs| else |runs| - 1;
      assert TouchedBefore(runs, k, j);
      var m :| 0 <= m < k && Touches(runs[m], j);
      assert m != |runs| - 1;
      assert runs'[m] == runs[m];
      assert Touches(runs'[m], j);
    }
  }

  /** How the worker inside the lock relates to the last run record. */
  ghost predicate BodyInv(c: Config, s: State, wk: Worker) {
    var n := |c.checkpointBefore|;
    match wk.phase
    case Opening(pub) =>
      && wk.start == wk.next == NextStart(s.checkpoints)
      && (pub.Unpublished? || (s.runs != [] && Last(s.runs) == RunRecord(wk.start, wk.start, false, false, None)))
    case Boundary =>
      && s.runs != [] && Last(s.runs) == RunRecord(wk.start, wk.next, false, true, None)
      && NextStart(s.checkpoints) <= wk.next <= n
    case Entered =>
      && s.runs != [] && Last(s.runs) == RunRecord(wk.start, wk.next, false, true, None)
      && NextStart(s.checkpoints) <= wk.next < n
    case Stepping(pub) =>
      && s.runs != [] && wk.next < n
      && NextStart(s.checkpoints) <= wk.next + 1
      && (c.checkpointBefore[wk.next] ==> NextStart(s.checkpoints) == wk.next + 1)
      && Last(s.runs) == (
           if pub.Unpublished? then RunRecord(wk.start, wk.next, c.checkpointBefore[wk.next], true, None)
           else RunRecord(wk.start, wk.next + 1, false, true, None))
      && !pub.OnBoth?
    case Closing(event, pub) =>
      && s.runs != [] && Last(s.runs).begun
      && (event.ExecutionCompleted? || event.ExecutionPaused?)
      && (event.ExecutionCompleted? ==> Last(s.runs).next == n)
      && Last(s.runs).closed == if pub.Unpublished? then None else Some(event)
    case _ => true
  }

  ghost predicate StreamInv(s: State, wk: Worker) {
    HalfPublished(wk.phase) ==> s.global != [] && Subsequence(s.stream, s.global[..|s.global| - 1])
  }

  ghost predicate Inv(c: Config, s: State) {
    && (forall v, w :: InBody(s, v) && InBody(s, w) ==> v == w)
    && (forall w :: InBody(s, w) ==> BodyInv(c, s, s.workers[w]) && StreamInv(s, s.workers[w]))
    && History(c, s.runs, s.checkpoints)
    && s.global == Flatten(s.runs)
    && Subsequence(s.stream, s.global)
    && s.submits == CountBegun(s.runs)
  }

  lemma InitInv(c: Config)
    ensures Inv(c, Init)
  {
  }

  /** Other workers are untouched when one worker moves on or leaves. */
  ghost predicate OnlyMoves(s: State, s': State, w: nat) {
    && w in s.workers
    && (forall v :: v in s'.workers ==> v in s.workers)
    && (forall v :: v in s'.workers && v != w ==> s'.workers[v] == s.workers[v])
  }

  /** A worker in the body is the only one; it suffices to re-establish its own part. */
  lemma BodyStep(c: Config, s: State, s': State, w: nat)
    requires Inv(c, s) && InBody(s, w) && OnlyMoves(s, s', w)
    requires InBody(s', w) ==> BodyInv(c, s', s'.workers[w]) && StreamInv(s', s'.workers[w])
    requires History(c, s'.runs, s'.checkpoints) && s'.global == Flatten(s'.runs)
    requires Subsequence(s'.stream, s'.global) && s'.submits == CountBegun(s'.runs)
    ensures Inv(c, s')
  {
    forall v | InBody(s', v) ensures v == w {
      assert InBody(s, v) || v == w;
    }
  }

  /** A publication extends the log by `event` and the run records to `runs'`. */
  lemma PublishStep(c: Config, s: State, s': State, w: nat, event: Event)
    requires Inv(c, s) && InBody(s, w) && InBody(s', w) && OnlyMoves(s, s', w)
    requires s'.global == s.global + [event] && s'.stream == s.stream
    requires s'.checkpoints == s.checkpoints && s'.submits == s.submits
    requires History(c, s'.runs, s.checkpoints) && s'.global == Flatten(s'.runs)
    requires CountBegun(s'.runs) == CountBegun(s.runs)
    requires BodyInv(c, s', s'.workers[w])
    ensures Inv(c, s')
  {
    assert s'.global[..|s'.global| - 1] == s.global;
    SubsequenceSkip(s.stream, s.global, event);
    BodyStep(c, s, s', w);
  }

  lemma PublishStartedKeepsInv(c: Config, s: State, w: nat)
    requires Inv(c, s) && Enabled(c, s, PublishGlobal(w)) && s.workers[w].phase.Opening?
    ensures Inv(c, Apply(c, s, PublishGlobal(w)))
  {
    var s' := Apply(c, s, PublishGlobal(w));
    assert InBody(s, w);
    AppendRun(c, s.runs, s.checkpoints);
    FlattenAppend(s.runs, Last(s'.runs));
    assert Segment(Last(s'.runs)) == [ExecutionStarted];
    assert s'.runs[..|s.runs|] == s.runs;
    PublishStep(c, s, s', w, ExecutionStarted);
  }

  lemma StepExtendsSegment(r: RunRecord)
    requires r.start <= r.next && r.closed.None?
    ensures Segment(r.(next := r.next + 1, pending := false)) == Segment(r) + [StepCompleted(r.next)]
  {
  }

  /** The last run grows, and the log and the records with it. */
  lemma LastRunGrows(c: Config, s: State, r: RunRecord, cks': seq<nat>, tail: seq<Event>)
    requires Inv(c, s) && s.runs != []
    requires WfRun(c, r) && r.start == Last(s.runs).start && r.begun == Last(s.runs).begun
    requires Segment(r) == Segment(Last(s.runs)) + tail
    requires forall j: nat :: Touches(Last(s.runs), j) ==> Touches(r, j)
    requires WfCheckpoints(c, cks') && NextStart(s.checkpoints) <= NextStart(cks')
    requires Below(c, r, NextStart(cks'))
    requires forall j: nat :: NextStart(s.checkpoints) <= j < NextStart(cks') ==> Touches(r, j) || j < r.start
    ensures var runs' := ReplaceLast(s.runs, r);
            && History(c, runs', cks') && Flatten(runs') == s.global + tail && CountBegun(runs') == CountBegun(s.runs)
  {
    GrowLastRun(c, s.runs, s.checkpoints, r, cks');
    FlattenReplaceLast(s.runs, r, tail);
    assert ReplaceLast(s.runs, r)[..|s.runs| - 1] == s.runs[..|s.runs| - 1];
  }

  ghost predicate LogGrows(c: Config, s: State, r: RunRecord, event: Event)
    requires s.runs != []
  {
    var runs' := ReplaceLast(s.runs, r);
    History(c, runs', s.checkpoints) && Flatten(runs') == s.global + [event] && CountBegun(runs') == CountBegun(s.runs)
  }

  /** Publishing one more event of the last run keeps the invariant. */
  lemma PublishGrows(c: Config, s: State, w: nat, r: RunRecord, event: Event)
    requires Inv(c, s) && InBody(s, w) && s.runs != [] && LogGrows(c, s, r, event)
    requires MayPublish(s.workers[w].phase) && !s.workers[w].phase.Opening?
    requires var s' := Publish(s, w);
             s'.runs == ReplaceLast(s.runs, r) && s'.global == s.global + [event] && BodyInv(c, s', s'.workers[w])
    ensures Inv(c, Publish(s, w))
  {
    var s' := Publish(s, w);
    assert s' == s.(workers := s'.workers, runs := s'.runs, global := s'.global);
    PublishStep(c, s, s', w, event);
  }

  /** A published step was touched before, or has no checkpoint. */
  lemma PublishedStepFacts(c: Config, s: State, wk: Worker)
    requires Inv(c, s) && wk.phase == Stepping(Unpublished) && BodyInv(c, s, wk)
    ensures var r := Last(s.runs).(next := wk.next + 1, pending := false);
            && WfRun(c, r) && Below(c, r, NextStart(s.checkpoints))
            && forall j: nat :: Touches(Last(s.runs), j) ==> Touches(r, j)
  {
    var last := Last(s.runs);
    assert last == s.runs[|s.runs| - 1] && WfRun(c, last) && Below(c, last, NextStart(s.checkpoints));
  }

  lemma PublishedStepGrows(c: Config, s: State, wk: Worker)
    requires Inv(c, s) && wk.phase == Stepping(Unpublished) && BodyInv(c, s, wk)
    ensures LogGrows(c, s, Last(s.runs).(next := wk.next + 1, pending := false), StepCompleted(wk.next))
  {
    StepExtendsSegment(Last(s.runs));
    PublishedStepFacts(c, s, wk);
    LastRunGrows(
      c, s, Last(s.runs).(next := wk.next + 1, pending := false), s.checkpoints, [StepCompleted(wk.next)]);
  }

  lemma PublishedStepBody(c: Config, s: State, w: nat)
    requires w in s.workers && s.workers[w].phase == Stepping(Unpublished) && BodyInv(c, s, s.workers[w])
    ensures var s' := Publish(s, w); w in s'.workers && BodyInv(c, s', s'.workers[w])
  {
  }

  lemma PublishStepCompletedKeepsInv(c: Config, s: State, w: nat)
    requires Inv(c, s) && Enabled(c, s, PublishGlobal(w)) && s.workers[w].phase.Stepping?
    ensures Inv(c, Apply(c, s, PublishGlobal(w)))
  {
    var wk := s.workers[w];
    assert InBody(s, w) && BodyInv(c, s, wk);
    PublishedStepGrows(c, s, wk);
    PublishedStepBody(c, s, w);
    PublishGrows(c, s, w, Last(s.runs).(next := wk.next + 1, pending := false), StepCompleted(wk.next));
  }

  lemma PublishClosingKeepsInv(c: Config, s: State, w: nat)
    requires Inv(c, s) && Enabled(c, s, PublishGlobal(w)) && s.workers[w].phase.Closing?
    ensures Inv(c, Apply(c, s, PublishGlobal(w)))
  {
    var event := s.workers[w].phase.event;
    assert InBody(s, w) && BodyInv(c, s, s.workers[w]);
    var r := Last(s.runs).(closed := Some(event));
    LastRunGrows(c, s, r, s.checkpoints, [event]);
    PublishGrows(c, s, w, r, event);
  }

  lemma PublishedOnBothKeepsBody(c: Config, s: State, w: nat)
    requires Inv(c, s) && Enabled(c, s, PublishStream(w))
    ensures var s' := PublishedOnBoth(s, w); BodyInv(c, s', s'.workers[w]) && StreamInv(s', s'.workers[w])
  {
    assert InBody(s, w);
    assert BodyInv(c, s, s.workers[w]);
  }

  lemma PublishStreamKeepsInv(c: Config, s: State, w: nat)
    requires Inv(c, s) && Enabled(c, s, PublishStream(w))
    ensures Inv(c, Apply(c, s, PublishStream(w)))
  {
    assert InBody(s, w);
    SubsequenceKeep(s.stream, s.global);
    PublishedOnBothKeepsBody(c, s, w);
    BodyStep(c, s, PublishedOnBoth(s, w), w);
  }

  /** The last run has begun, and nothing else of it changed. */
  lemma CommitGrows(c: Config, s: State, wk: Worker)
    requires Inv(c, s) && wk.phase == Opening(OnBoth) && BodyInv(c, s, wk)
    ensures var runs' := ReplaceLast(s.runs, Last(s.runs).(begun := true));
            && History(c, runs', s.checkpoints) && Flatten(runs') == s.global && CountBegun(runs') == s.submits + 1
  {
    var last, r := Last(s.runs), Last(s.runs).(begun := true);
    assert last == s.runs[|s.runs| - 1] && WfRun(c, last) && Below(c, last, NextStart(s.checkpoints));
    GrowLastRun(c, s.runs, s.checkpoints, r, s.checkpoints);
    FlattenReplaceLast(s.runs, r, []);
    assert ReplaceLast(s.runs, r)[..|s.runs| - 1] == s.runs[..|s.runs| - 1];
  }

  lemma CommittedBody(c: Config, s: State, w: nat)
    requires Enabled(c, s, CommitStart(w)) && BodyInv(c, s, s.workers[w])
    requires NextStart(s.checkpoints) <= |c.checkpointBefore|
    ensures var s' := Apply(c, s, CommitStart(w)); w in s'.workers && BodyInv(c, s', s'.workers[w])
  {
  }

  lemma CommitStartKeepsInv(c: Config, s: State, w: nat)
    requires Inv(c, s) && Enabled(c, s, CommitStart(w))
    ensures Inv(c, Apply(c, s, CommitStart(w)))
  {
    var s' := Apply(c, s, CommitStart(w));
    assert InBody(s, w) && BodyInv(c, s, s.workers[w]) && OnlyMoves(s, s', w);
    assert && History(c, s'.runs, s'.checkpoints) && s'.global == Flatten(s'.runs)
           && s'.submits == CountBegun(s'.runs) by {
      CommitGrows(c, s, s.workers[w]);
    }
    CommittedBody(c, s, w);
    BodyStep(c, s, s', w);
  }

  /** Committing the checkpoint of the next step marks it in the run record. */
  lemma PendingRunFacts(c: Config, s: State, wk: Worker)
    requires Inv(c, s) && wk.phase.Entered? && BodyInv(c, s, wk) && c.checkpointBefore[wk.next]
    ensures var r := Last(s.runs).(pending := true);
            && WfRun(c, r) && Below(c, r, wk.next + 1)
            && (forall j: nat :: Touches(Last(s.runs), j) ==> Touches(r, j))
            && (forall j: nat :: NextStart(s.checkpoints) <= j < wk.next + 1 ==> Touches(r, j) || j < r.start)
  {
    var last := Last(s.runs);
    assert last == s.runs[|s.runs| - 1] && WfRun(c, last) && Below(c, last, NextStart(s.checkpoints));
  }

  /** The log, the run records and the checkpoints after the commit. */
  lemma CheckpointGrows(c: Config, s: State, wk: Worker)
    requires Inv(c, s) && wk.phase.Entered? && BodyInv(c, s, wk) && c.checkpointBefore[wk.next]
    ensures var runs' := ReplaceLast(s.runs, Last(s.runs).(pending := true));
            && History(c, runs', s.checkpoints + [wk.next]) && Flatten(runs') == s.global
            && CountBegun(runs') == CountBegun(s.runs) && NextStart(s.checkpoints + [wk.next]) == wk.next + 1
  {
    AppendCheckpoint(c, s.checkpoints, wk.next);
    PendingRunFacts(c, s, wk);
    LastRunGrows(c, s, Last(s.runs).(pending := true), s.checkpoints + [wk.next], []);
  }

  lemma CheckpointedBody(c: Config, s: State, w: nat)
    requires Enabled(c, s, PassCheckpoint(w)) && BodyInv(c, s, s.workers[w])
    requires NextStart(s.checkpoints + [s.workers[w].next]) == s.workers[w].next + 1
    ensures var s' := Apply(c, s, PassCheckpoint(w)); w in s'.workers && BodyInv(c, s', s'.workers[w])
  {
  }

  lemma PassCheckpointKeepsInv(c: Config, s: State, w: nat)
    requires Inv(c, s) && Enabled(c, s, PassCheckpoint(w))
    ensures Inv(c, Apply(c, s, PassCheckpoint(w)))
  {
    var s' := Apply(c, s, PassCheckpoint(w));
    var wk := s.workers[w];
    assert InBody(s, w) && BodyInv(c, s, wk);
    if c.checkpointBefore[wk.next] {
      CheckpointGrows(c, s, wk);
      CheckpointedBody(c, s, w);
      assert s' == s.(workers := s'.workers, checkpoints := s'.checkpoints, runs := s'.runs);
    } else {
      assert s' == SetPhase(s, w, Stepping(Unpublished));
    }
    BodyStep(c, s, s', w);
  }

  /** Neither the committed log nor the history changes. */
  ghost predicate SameLog(s: State, s': State) {
    && s'.checkpoints == s.checkpoints && s'.global == s.global && s'.stream == s.stream
    && s'.runs == s.runs && s'.own == s.own && s'.submits == s.submits
  }

  /** A worker may move, arrive or leave without touching the log. */
  lemma QuietStepKeepsInv(c: Config, s: State, s': State, w: nat)
    requires Inv(c, s) && SameLog(s, s')
    requires forall v :: v in s'.workers && v != w ==> v in s.workers && s'.workers[v] == s.workers[v]
    requires InBody(s', w) ==>
               (InBody(s, w) || BodyFree(s)) && BodyInv(c, s', s'.workers[w]) && StreamInv(s', s'.workers[w])
    ensures Inv(c, s')
  {
    forall u, v | InBody(s', u) && InBody(s', v) ensures u == v {
      assert u != w ==> InBody(s, u);
      assert v != w ==> InBody(s, v);
    }
    forall v | InBody(s', v) ensures BodyInv(c, s', s'.workers[v]) && StreamInv(s', s'.workers[v]) {
      if v != w {
        assert InBody(s, v);
      }
    }
  }

  predicate Arrives(l: Label) {
    l.Deliver? || l.Acquire? || l.BeginRecovery?
  }

  lemma ArrivalKeepsInv(c: Config, s: State, l: Label)
    requires Inv(c, s) && Enabled(c, s, l) && Arrives(l)
    ensures Inv(c, Apply(c, s, l))
  {
    QuietStepKeepsInv(c, s, Apply(c, s, l), l.w);
  }

  predicate OutsideWorkers(l: Label) {
    l.Enqueue? || l.ApiLoad? || l.ApiCommit?
  }

  lemma OutsideStepKeepsInv(c: Config, s: State, l: Label)
    requires Inv(c, s) && Enabled(c, s, l) && OutsideWorkers(l)
    ensures Inv(c, Apply(c, s, l))
  {
    assert Apply(c, s, l).workers == s.workers;
    QuietStepKeepsInv(c, s, Apply(c, s, l), 0);
  }

  predicate Departs(l: Label) {
    l.CommitEnd? || l.Abort? || l.Crash?
  }

  lemma DepartureKeepsInv(c: Config, s: State, l: Label)
    requires Inv(c, s) && Enabled(c, s, l) && Departs(l)
    ensures Inv(c, Apply(c, s, l))
  {
    QuietStepKeepsInv(c, s, Apply(c, s, l), l.w);
  }

  predicate Proceeds(l: Label) {
    l.Open? || l.Refresh? || l.FinishSteps? || l.Raise? || l.EnqueueRecovered?
  }

  lemma LocalStepKeepsInv(c: Config, s: State, l: Label)
    requires Inv(c, s) && Enabled(c, s, l) && Proceeds(l)
    ensures Inv(c, Apply(c, s, l))
  {
    var s' := Apply(c, s, l);
    assert InBody(s, l.w);
    assert BodyInv(c, s, s.workers[l.w]);
    QuietStepKeepsInv(c, s, s', l.w);
  }

  /** The invariant is kept by every step. */
  lemma StepKeepsInv(c: Config, s: State, l: Label)
    requires Inv(c, s) && Enabled(c, s, l)
    ensures Inv(c, Apply(c, s, l))
  {
    if OutsideWorkers(l) {
      OutsideStepKeepsInv(c, s, l);
    } else if Arrives(l) {
      ArrivalKeepsInv(c, s, l);
    } else if Departs(l) {
      DepartureKeepsInv(c, s, l);
    } else if Proceeds(l) {
      LocalStepKeepsInv(c, s, l);
    } else {
      match l
      case PublishGlobal(w) =>
        match s.workers[w].phase {
          case Opening(_) => PublishStartedKeepsInv(c, s, w);
          case Stepping(_) => PublishStepCompletedKeepsInv(c, s, w);
          case Closing(_, _) => PublishClosingKeepsInv(c, s, w);
        }
      case PublishStream(w) => PublishStreamKeepsInv(c, s, w);
      case CommitStart(w) => CommitStartKeepsInv(c, s, w);
      case PassCheckpoint(w) => PassCheckpointKeepsInv(c, s, w);
    }
  }

  /** The invariant holds in every state of every run. */
  lemma {:induction false} ReachableInv(c: Config, ls: seq<Label>)
    requires Valid(c, ls)
    ensures Inv(c, Final(c, ls))
  {
    if ls == [] {
      InitInv(c);
    } else {
      ReachableInv(c, ls[..|ls| - 1]);
      StepKeepsInv(c, Final(c, ls[..|ls| - 1]), Last(ls));
    }
  }
}
