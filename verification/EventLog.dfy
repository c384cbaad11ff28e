/**
 * The events one execution publishes, and the history of its runs.
 *
 * A run record is kept for every run that published ExecutionStarted. Records are
 * history: nothing in the protocol reads them, they only say how the flat event log
 * came about.
 */
module EventLog {
  import opened Options

  datatype Event =
    | ExecutionStarted
    | StepCompleted(index: nat)
    | ExecutionCompleted
    | ExecutionPaused

  /**
   * A run that started at step `start` and published StepCompleted for start..next-1.
   * `pending`: it committed the checkpoint of step `next` and has not published that step.
   * `begun`: its RUNNING status was committed. `closed`: its closing event, if published.
   */
  datatype RunRecord = RunRecord(
    start: nat, next: nat, pending: bool, begun: bool, closed: Option<Event>)

  function StepEvents(lo: nat, hi: nat): seq<Event> {
    if hi <= lo then [] else StepEvents(lo, hi - 1) + [StepCompleted(hi - 1)]
  }

  function ClosingEvents(closed: Option<Event>): seq<Event> {
    if closed.Some? then [closed.value] else []
  }

  /** The events of one run, in the only order a run can publish them. */
  function Segment(r: RunRecord): seq<Event> {
    [ExecutionStarted] + StepEvents(r.start, r.next) + ClosingEvents(r.closed)
  }

  /** The segments of consecutive runs, one after the other. */
  function Flatten(runs: seq<RunRecord>): seq<Event> {
    if runs == [] then [] else Flatten(runs[..|runs| - 1]) + Segment(runs[|runs| - 1])
  }

  function Last<T>(s: seq<T>): T
    requires s != []
  {
    s[|s| - 1]
  }

  function ReplaceLast<T>(s: seq<T>, x: T): seq<T>
    requires s != []
  {
    s[..|s| - 1] + [x]
  }

  lemma FlattenAppend(runs: seq<RunRecord>, r: RunRecord)
    ensures Flatten(runs + [r]) == Flatten(runs) + Segment(r)
  {
    assert (runs + [r])[..|runs|] == runs;
  }

  /** Growing the last segment by one event grows the log by that event. */
  lemma FlattenReplaceLast(runs: seq<RunRecord>, r: RunRecord, tail: seq<Event>)
    requires runs != [] && Segment(r) == Segment(Last(runs)) + tail
    ensures Flatten(ReplaceLast(runs, r)) == Flatten(runs) + tail
  {
    FlattenAppend(runs[..|runs| - 1], r);
  }

  predicate Covers(r: RunRecord, j: nat) {
    r.start <= j < r.next
  }

  /** The run executed step j or committed its checkpoint. */
  predicate Touches(r: RunRecord, j: nat) {
    Covers(r, j) || (r.pending && r.next == j)
  }

  function CountCovering(runs: seq<RunRecord>, j: nat): nat {
    if runs == [] then 0
    else CountCovering(runs[..|runs| - 1], j) + (if Covers(Last(runs), j) then 1 else 0)
  }

  function CountBegun(runs: seq<RunRecord>): nat {
    if runs == [] then 0
    else CountBegun(runs[..|runs| - 1]) + (if Last(runs).begun then 1 else 0)
  }

  lemma {:induction false} StepEventsCount(lo: nat, hi: nat, j: nat)
    ensures multiset(StepEvents(lo, hi))[StepCompleted(j)] == if lo <= j < hi then 1 else 0
    ensures multiset(StepEvents(lo, hi))[ExecutionStarted] == 0
  {
    if lo < hi {
      StepEventsCount(lo, hi - 1, j);
    }
  }

  predicate WellClosed(r: RunRecord) {
    r.closed.Some? ==> r.closed.value.ExecutionCompleted? || r.closed.value.ExecutionPaused?
  }

  lemma ConcatCounts(a: seq<Event>, b: seq<Event>, e: Event)
    ensures multiset(a + b)[e] == multiset(a)[e] + multiset(b)[e]
  {
    assert multiset(a + b) == multiset(a) + multiset(b);
  }

  lemma ClosingCounts(r: RunRecord, e: Event)
    requires WellClosed(r) && (e.StepCompleted? || e.ExecutionStarted?)
    ensures multiset(ClosingEvents(r.closed))[e] == 0
  {
  }

  lemma SegmentCounts(r: RunRecord, j: nat)
    requires WellClosed(r)
    ensures multiset(Segment(r))[StepCompleted(j)] == if Covers(r, j) then 1 else 0
    ensures multiset(Segment(r))[ExecutionStarted] == 1
  {
    StepEventsCount(r.start, r.next, j);
    var opening, steps, end := [ExecutionStarted], StepEvents(r.start, r.next), ClosingEvents(r.closed);
    forall e: Event | e == StepCompleted(j) || e == ExecutionStarted
      ensures multiset(Segment(r))[e] == multiset(opening)[e] + multiset(steps)[e]
    {
      ClosingCounts(r, e);
      ConcatCounts(opening, steps, e);
      ConcatCounts(opening + steps, end, e);
    }
  }

  /** How often the flat log mentions a step is how many runs executed it. */
  lemma {:induction false} FlattenCounts(runs: seq<RunRecord>, j: nat)
    requires forall r :: r in runs ==> WellClosed(r)
    ensures multiset(Flatten(runs))[StepCompleted(j)] == CountCovering(runs, j)
    ensures multiset(Flatten(runs))[ExecutionStarted] == |runs|
  {
    if runs != [] {
      var front, r := runs[..|runs| - 1], Last(runs);
      FlattenCounts(front, j);
      SegmentCounts(r, j);
      var before, segment := Flatten(front), Segment(r);
      assert multiset(before + segment) == multiset(before) + multiset(segment);
    }
  }

  lemma {:induction false} CoveredIsCounted(runs: seq<RunRecord>, j: nat)
    ensures CountCovering(runs, j) > 0 <==> exists k :: 0 <= k < |runs| && Covers(runs[k], j)
  {
    if runs != [] {
      var front := runs[..|runs| - 1];
      CoveredIsCounted(front, j);
      assert forall k :: 0 <= k < |front| ==> front[k] == runs[k];
      if Covers(Last(runs), j) {
        assert Covers(runs[|runs| - 1], j);
      }
      if k :| 0 <= k < |runs| && Covers(runs[k], j) && !Covers(Last(runs), j) {
        assert Covers(front[k], j);
      }
    }
  }

  /** If no two runs cover j, the log mentions step j at most once. */
  lemma {:induction false} SeparateRunsCountOnce(runs: seq<RunRecord>, j: nat)
    requires forall k, m :: 0 <= k < m < |runs| ==> !(Covers(runs[k], j) && Covers(runs[m], j))
    ensures CountCovering(runs, j) <= 1
  {
    if runs != [] {
      var front := runs[..|runs| - 1];
      SeparateRunsCountOnce(front, j);
      CoveredIsCounted(front, j);
    }
  }

  /** a can be obtained from b by leaving out elements. */
  predicate Subsequence<T(==)>(a: seq<T>, b: seq<T>) {
    || a == []
    || (b != [] && (
          || (Last(a) == Last(b) && Subsequence(a[..|a| - 1], b[..|b| - 1]))
          || Subsequence(a, b[..|b| - 1])))
  }

  lemma SubsequenceSkip<T>(a: seq<T>, b: seq<T>, x: T)
    requires Subsequence(a, b)
    ensures Subsequence(a, b + [x])
  {
    assert (b + [x])[..|b|] == b;
  }

  /** Taking over the last element. */
  lemma SubsequenceKeep<T>(a: seq<T>, b: seq<T>)
    requires b != [] && Subsequence(a, b[..|b| - 1])
    ensures Subsequence(a + [Last(b)], b)
  {
    assert (a + [Last(b)])[..|a|] == a;
  }

  /** A subsequence mentions nothing more often than the whole. */
  lemma {:induction false} SubsequenceCounts<T>(a: seq<T>, b: seq<T>)
    requires Subsequence(a, b)
    ensures multiset(a) <= multiset(b)
    decreases |b|
  {
    if a != [] {
      var b' := b[..|b| - 1];
      assert b == b' + [Last(b)];
      if Last(a) == Last(b) && Subsequence(a[..|a| - 1], b') {
        SubsequenceCounts(a[..|a| - 1], b');
        assert a == a[..|a| - 1] + [Last(a)];
      } else {
        SubsequenceCounts(a, b');
      }
    }
  }
}
