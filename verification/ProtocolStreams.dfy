/** What the execution's own stream can lose: only the end of a run's part of it. */
module ProtocolStreams {
  import opened Options
  import opened EventLog
  import opened Protocol
  import opened ProtocolInvariant

  function Concat(parts: seq<seq<Event>>): seq<Event> {
    if parts == [] then [] else Concat(parts[..|parts| - 1]) + Last(parts)
  }

  /** A run's events before its closing one. */
  function Body(r: RunRecord): seq<Event> {
    [ExecutionStarted] + StepEvents(r.start, r.next)
  }

  function Front(body: seq<Event>): seq<Event>
    requires body != []
  {
    body[..|body| - 1]
  }

  /** All of the run but its last step event (or Started), which a run that completes never loses. */
  predicate BodyOrFront(r: RunRecord, part: seq<Event>) {
    part == Body(r) || (part == Front(Body(r)) && r.closed != Some(ExecutionCompleted))
  }

  /** What the own stream has of a run: its closing event may be missing, and the last event before it. */
  predicate OwnPart(r: RunRecord, part: seq<Event>) {
    || BodyOrFront(r, part)
    || (r.closed.Some? && part != [] && Last(part) == r.closed.value && BodyOrFront(r, part[..|part| - 1]))
  }

  /** How far the worker inside the lock has got with the own stream. */
  ghost predicate BodyOwn(s: State, wk: Worker)
    requires |s.own| == |s.runs|
  {
    match wk.phase
    case Opening(pub) =>
      pub.Unpublished? || (s.own != [] && Last(s.own) == if pub.OnGlobal? then [] else Body(Last(s.runs)))
    case Boundary => s.own != [] && Last(s.own) == Body(Last(s.runs))
    case Entered => s.own != [] && Last(s.own) == Body(Last(s.runs))
    case Stepping(pub) =>
      s.own != [] && Last(s.own) == if pub.Unpublished? then Body(Last(s.runs)) else Front(Body(Last(s.runs)))
    case Closing(event, pub) =>
      s.own != [] && (pub.OnBoth? || BodyOrFront(Last(s.runs).(closed := Some(event)), Last(s.own)))
    case _ => true
  }

  ghost predicate StreamsInv(s: State) {
    && |s.own| == |s.runs| && s.stream == Concat(s.own)
    && (forall k :: 0 <= k < |s.runs| ==> OwnPart(s.runs[k], s.own[k]))
    && (forall w :: InBody(s, w) ==> BodyOwn(s, s.workers[w]))
  }

  lemma ConcatAppend(parts: seq<seq<Event>>, part: seq<Event>)
    ensures Concat(parts + [part]) == Concat(parts) + part
  {
    assert (parts + [part])[..|parts|] == parts;
  }

  lemma ConcatReplaceLast(parts: seq<seq<Event>>, event: Event)
    requires parts != []
    ensures Concat(ReplaceLast(parts, Last(parts) + [event])) == Concat(parts) + [event]
  {
    ConcatAppend(parts[..|parts| - 1], Last(parts) + [event]);
  }

  /** The only worker inside the lock moves on; the last run and its part may change with it. */
  lemma MoveKeepsStreams(c: Config, s: State, s': State, w: nat)
    requires Inv(c, s) && StreamsInv(s) && InBody(s, w) && OnlyMoves(s, s', w)
    requires |s'.own| == |s'.runs| && s'.stream == Concat(s'.own)
    requires forall k :: 0 <= k < |s'.runs| ==> OwnPart(s'.runs[k], s'.own[k])
    requires InBody(s', w) ==> BodyOwn(s', s'.workers[w])
    ensures StreamsInv(s')
  {
    forall v | InBody(s', v) ensures v == w {
      assert InBody(s, v) || v == w;
    }
  }

  /** The last run changed, but not its part. */
  lemma LastRunChanges(s: State, s': State)
    requires StreamsInv(s) && s.runs != [] && s'.own == s.own && s'.stream == s.stream
    requires |s'.runs| == |s.runs| && s'.runs[..|s.runs| - 1] == s.runs[..|s.runs| - 1]
    requires OwnPart(Last(s'.runs), Last(s.own))
    ensures |s'.own| == |s'.runs| && s'.stream == Concat(s'.own)
    ensures forall k :: 0 <= k < |s'.runs| ==> OwnPart(s'.runs[k], s'.own[k])
  {
    forall k | 0 <= k < |s'.runs| ensures OwnPart(s'.runs[k], s'.own[k]) {
      if k < |s.runs| - 1 {
        assert s'.runs[k] == s'.runs[..|s.runs| - 1][k] == s.runs[k];
      }
    }
  }

  lemma StartedKeepsStreams(c: Config, s: State, w: nat)
    requires Inv(c, s) && StreamsInv(s) && Enabled(c, s, PublishGlobal(w)) && s.workers[w].phase.Opening?
    ensures StreamsInv(Publish(s, w))
  {
    var s' := Publish(s, w);
    assert InBody(s, w);
    ConcatAppend(s.own, []);
    assert OwnPart(Last(s'.runs), []);
    MoveKeepsStreams(c, s, s', w);
  }

  lemma StepPublishedKeepsStreams(c: Config, s: State, w: nat)
    requires Inv(c, s) && StreamsInv(s) && Enabled(c, s, PublishGlobal(w)) && s.workers[w].phase.Stepping?
    ensures StreamsInv(Publish(s, w))
  {
    var s' := Publish(s, w);
    assert InBody(s, w) && BodyInv(c, s, s.workers[w]) && BodyOwn(s, s.workers[w]);
    assert Front(Body(Last(s'.runs))) == Body(Last(s.runs));
    LastRunChanges(s, s');
    MoveKeepsStreams(c, s, s', w);
  }

  lemma ClosingKeepsStreams(c: Config, s: State, w: nat)
    requires Inv(c, s) && StreamsInv(s) && Enabled(c, s, PublishGlobal(w)) && s.workers[w].phase.Closing?
    ensures StreamsInv(Publish(s, w))
  {
    var s' := Publish(s, w);
    assert InBody(s, w) && BodyInv(c, s, s.workers[w]) && BodyOwn(s, s.workers[w]);
    LastRunChanges(s, s');
    MoveKeepsStreams(c, s, s', w);
  }

  /** A half-published event is the last one on the global stream, and of the last run. */
  lemma HalfPublishedIsLast(c: Config, s: State, w: nat)
    requires Inv(c, s) && Enabled(c, s, PublishStream(w))
    ensures s.runs != [] && Last(s.global) == Last(Segment(Last(s.runs)))
  {
    assert InBody(s, w) && BodyInv(c, s, s.workers[w]);
    assert Segment(Last(s.runs)) != [];
  }

  lemma SegmentEnd(r: RunRecord)
    ensures Last(Segment(r)) == if r.closed.Some? then r.closed.value else Last(Body(r))
    ensures Body(r) == Front(Body(r)) + [Last(Body(r))]
  {
    if r.closed.None? {
      assert Segment(r) == Body(r);
    }
  }

  lemma PartClosed(r: RunRecord, part: seq<Event>, event: Event)
    requires r.closed == Some(event) && BodyOrFront(r, part)
    ensures OwnPart(r, part + [event])
  {
    assert (part + [event])[..|part|] == part;
  }

  /** The part grows by that event, which completes it as far as the run has got. */
  lemma PartGrows(c: Config, s: State, w: nat)
    requires Inv(c, s) && StreamsInv(s) && Enabled(c, s, PublishStream(w))
    ensures s.runs != [] && s.own != []
    ensures var part := Last(s.own) + [Last(s.global)];
            && OwnPart(Last(s.runs), part)
            && (!s.workers[w].phase.Closing? ==> part == Body(Last(s.runs)))
  {
    HalfPublishedIsLast(c, s, w);
    var wk, r := s.workers[w], Last(s.runs);
    assert InBody(s, w) && BodyInv(c, s, wk) && BodyOwn(s, wk);
    SegmentEnd(r);
    if wk.phase.Closing? {
      PartClosed(r, Last(s.own), wk.phase.event);
    }
  }

  lemma GrownParts(s: State, part: seq<Event>)
    requires StreamsInv(s) && s.runs != [] && OwnPart(Last(s.runs), part)
    ensures var own' := ReplaceLast(s.own, part);
            |own'| == |s.runs| && forall k :: 0 <= k < |s.runs| ==> OwnPart(s.runs[k], own'[k])
  {
    forall k | 0 <= k < |s.runs| ensures OwnPart(s.runs[k], ReplaceLast(s.own, part)[k]) {
      if k < |s.own| - 1 {
        assert ReplaceLast(s.own, part)[k] == s.own[k];
      }
    }
  }

  lemma PublishedBodyOwn(c: Config, s: State, w: nat)
    requires Inv(c, s) && StreamsInv(s) && Enabled(c, s, PublishStream(w))
    ensures var s' := PublishedOnBoth(s, w);
            |s'.own| == |s'.runs| && w in s'.workers && BodyOwn(s', s'.workers[w])
  {
    PartGrows(c, s, w);
  }

  lemma StreamKeepsStreams(c: Config, s: State, w: nat)
    requires Inv(c, s) && StreamsInv(s) && Enabled(c, s, PublishStream(w))
    ensures StreamsInv(PublishedOnBoth(s, w))
  {
    var s' := PublishedOnBoth(s, w);
    assert InBody(s, w);
    PartGrows(c, s, w);
    ConcatReplaceLast(s.own, Last(s.global));
    GrownParts(s, Last(s.own) + [Last(s.global)]);
    PublishedBodyOwn(c, s, w);
    MoveKeepsStreams(c, s, s', w);
  }

  lemma RecordKeepsStreams(c: Config, s: State, l: Label)
    requires Inv(c, s) && StreamsInv(s) && Enabled(c, s, l) && (l.CommitStart? || l.PassCheckpoint?)
    ensures StreamsInv(Apply(c, s, l))
  {
    var s' := Apply(c, s, l);
    assert InBody(s, l.w) && BodyInv(c, s, s.workers[l.w]) && BodyOwn(s, s.workers[l.w]);
    assert s'.runs[..|s.runs| - 1] == s.runs[..|s.runs| - 1];
    assert Body(Last(s'.runs)) == Body(Last(s.runs)) && Last(s'.runs).closed == Last(s.runs).closed;
    LastRunChanges(s, s');
    MoveKeepsStreams(c, s, s', l.w);
  }

  predicate Quiet(l: Label) {
    !l.PublishGlobal? && !l.PublishStream? && !l.CommitStart? && !l.PassCheckpoint?
  }

  lemma QuietKeepsStreams(c: Config, s: State, l: Label)
    requires Inv(c, s) && StreamsInv(s) && Enabled(c, s, l) && Quiet(l)
    ensures StreamsInv(Apply(c, s, l))
  {
    var s' := Apply(c, s, l);
    assert s'.own == s.own && s'.runs == s.runs && s'.stream == s.stream;
    forall v | InBody(s', v) ensures BodyOwn(s', s'.workers[v]) {
      if ByWorker(l, v) {
        if InBody(s, v) {
          assert BodyOwn(s, s.workers[v]) && BodyInv(c, s, s.workers[v]);
        }
      } else {
        OthersStay(c, s, l, v);
        assert InBody(s, v);
      }
    }
  }

  lemma StepKeepsStreams(c: Config, s: State, l: Label)
    requires Inv(c, s) && StreamsInv(s) && Enabled(c, s, l)
    ensures StreamsInv(Apply(c, s, l))
  {
    match l
    case PublishGlobal(w) =>
      match s.workers[w].phase {
        case Opening(_) => StartedKeepsStreams(c, s, w);
        case Stepping(_) => StepPublishedKeepsStreams(c, s, w);
        case Closing(_, _) => ClosingKeepsStreams(c, s, w);
      }
    case PublishStream(w) => StreamKeepsStreams(c, s, w);
    case CommitStart(w) => RecordKeepsStreams(c, s, l);
    case PassCheckpoint(w) => RecordKeepsStreams(c, s, l);
    case _ => QuietKeepsStreams(c, s, l);
  }

  /**
   * In every run of the protocol the own stream is the runs' parts one after the other, and a part
   * lacks at most the closing event and the event before it; a completed run lacks at most its closing
   * event.
   */
  lemma {:induction false} OwnStreamLosses(c: Config, ls: seq<Label>)
    requires Valid(c, ls)
    ensures StreamsInv(Final(c, ls))
  {
    if ls != [] {
      OwnStreamLosses(c, ls[..|ls| - 1]);
      ReachableInv(c, ls[..|ls| - 1]);
      StepKeepsStreams(c, Final(c, ls[..|ls| - 1]), Last(ls));
    }
  }
}
