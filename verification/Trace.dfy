/**
 * Tail-sampled traces: spans are buffered per execution in Redis hashes, and the completion
 * event decides whether they are written to the database or dropped.
 */
module Trace {
  type Exec = nat
  type Payload = nat

  /** The fields of one execution's hash: "started:{id}", "step:{i}", "step_failed:{i}". */
  datatype SpanKey = StartedSpan | StepSpan(index: nat) | FailedSpan(index: nat)

  datatype Event =
    | Started(exec: Exec, payload: Payload)
    | StepCompleted(exec: Exec, index: nat, payload: Payload)
    | StepFailed(exec: Exec, index: nat, payload: Payload)
    | Completed(exec: Exec, payload: Payload, durationMs: int, roll: real)  // roll: random.random() of its decision
    | Paused(exec: Exec)

  datatype Row =
    | CompletionRow(exec: Exec, payload: Payload, durationMs: int)
    | SpanRow(exec: Exec, key: SpanKey, payload: Payload)

  datatype Settings = Settings(sampleRate: real, slowThresholdMs: int)

  datatype AuditAction = AuditStarted | AuditStepFailed | AuditCompleted | AuditPaused

  /** The sampler's Redis keys and the two database tables. */
  datatype Store = Store(
    buffers: map<Exec, map<SpanKey, Payload>>,
    failures: set<Exec>,
    rows: multiset<Row>,
    audit: seq<(AuditAction, Exec)>)

  const EmptyStore := Store(map[], {}, multiset{}, [])

  function Buffer(s: Store, e: Exec): map<SpanKey, Payload> {
    if e in s.buffers then s.buffers[e] else map[]
  }

  predicate IsSpan(ev: Event) {
    ev.Started? || ev.StepCompleted? || ev.StepFailed?
  }

  function KeyOf(ev: Event): SpanKey
    requires IsSpan(ev)
  {
    match ev
    case Started(_, _) => StartedSpan
    case StepCompleted(_, i, _) => StepSpan(i)
    case StepFailed(_, i, _) => FailedSpan(i)
  }

  /** The keep decision, given whether the failure flag is set. */
  predicate Keep(cfg: Settings, failed: bool, ev: Event)
    requires ev.Completed?
  {
    failed || ev.durationMs > cfg.slowThresholdMs || ev.roll < cfg.sampleRate
  }

  function SpanSet(e: Exec, spans: map<SpanKey, Payload>): set<Row> {
    set k | k in spans :: SpanRow(e, k, spans[k])
  }

  function SpanRows(e: Exec, spans: map<SpanKey, Payload>): multiset<Row> {
    multiset(SpanSet(e, spans))
  }

  /** What handling one event does to the store. */
  function Handle(cfg: Settings, s: Store, ev: Event): Store {
    match ev
    case Started(e, p) => BufferSpan(s, ev).(audit := s.audit + [(AuditStarted, e)])
    case StepCompleted(e, i, p) => BufferSpan(s, ev)
    case StepFailed(e, i, p) =>
      BufferSpan(s, ev).(failures := s.failures + {e}, audit := s.audit + [(AuditStepFailed, e)])
    case Completed(e, p, d, roll) =>
      s.(buffers := s.buffers - {e},
         failures := s.failures - {e},
         rows := s.rows + Written(cfg, s, ev),
         audit := s.audit + [(AuditCompleted, e)])
    case Paused(e) => s.(audit := s.audit + [(AuditPaused, e)])
  }

  function BufferSpan(s: Store, ev: Event): Store
    requires IsSpan(ev)
  {
    s.(buffers := s.buffers[ev.exec := Buffer(s, ev.exec)[KeyOf(ev) := ev.payload]])
  }

  /** The rows a completion event writes: its own and one per buffered span, or none. */
  function Written(cfg: Settings, s: Store, ev: Event): multiset<Row>
    requires ev.Completed?
  {
    if Keep(cfg, ev.exec in s.failures, ev)
    then multiset{CompletionRow(ev.exec, ev.payload, ev.durationMs)} + SpanRows(ev.exec, Buffer(s, ev.exec))
    else multiset{}
  }

  function HandleAll(cfg: Settings, s: Store, evs: seq<Event>): Store {
    if evs == [] then s else Handle(cfg, HandleAll(cfg, s, evs[..|evs| - 1]), evs[|evs| - 1])
  }

  // ---- The code: a sampler over Redis and a handler over the database session

  class TailSampler {
    const cfg: Settings
    var buffers: map<Exec, map<SpanKey, Payload>>
    var failures: set<Exec>

    constructor (cfg: Settings)
      ensures this.cfg == cfg && buffers == map[] && failures == {}
    {
      this.cfg := cfg;
      buffers, failures := map[], {};
    }

    /** HSET: the same span key overwrites. */
    method BufferSpan(e: Exec, key: SpanKey, data: Payload)
      modifies this`buffers
      ensures buffers == old(buffers)[e := (if e in old(buffers) then old(buffers)[e] else map[])[key := data]]
    {
      var hash := if e in buffers then buffers[e] else map[];
      buffers := buffers[e := hash[key := data]];
    }

    method MarkHasFailure(e: Exec)
      modifies this`failures
      ensures failures == old(failures) + {e}
    {
      failures := failures + {e};
    }

    method ShouldKeep(ev: Event) returns (keep: bool)
      requires ev.Completed?
      ensures keep <==> Keep(cfg, ev.exec in failures, ev)
    {
      if ev.exec in failures {
        return true;
      }
      if ev.durationMs > cfg.slowThresholdMs {
        return true;
      }
      keep := ev.roll < cfg.sampleRate;
    }

    /** Reads all buffered spans and deletes the buffer and the flag. */
    method Flush(e: Exec) returns (spans: map<SpanKey, Payload>)
      modifies this
      ensures spans == if e in old(buffers) then old(buffers)[e] else map[]
      ensures buffers == old(buffers) - {e} && failures == old(failures) - {e}
    {
      spans := if e in buffers then buffers[e] else map[];
      buffers := buffers - {e};
      failures := failures - {e};
    }
  }

  class EventHandler {
    const sampler: TailSampler
    var rows: multiset<Row>
    var audit: seq<(AuditAction, Exec)>

    constructor (sampler: TailSampler)
      ensures this.sampler == sampler && rows == multiset{} && audit == []
    {
      this.sampler := sampler;
      rows, audit := multiset{}, [];
    }

    ghost function Contents(): Store
      reads this, sampler
    {
      Store(sampler.buffers, sampler.failures, rows, audit)
    }

    /** One row per span; the hash has no order. */
    method WriteSpans(e: Exec, spans: map<SpanKey, Payload>)
      modifies this`rows
      ensures rows == old(rows) + SpanRows(e, spans)
    {
      var keys := spans.Keys;
      while keys != {}
        invariant keys <= spans.Keys
        invariant rows == old(rows) + multiset(set k | k in spans && k !in keys :: SpanRow(e, k, spans[k]))
        decreases |keys|
      {
        var key :| key in keys;
        ghost var written := set k | k in spans && k !in keys :: SpanRow(e, k, spans[k]);
        keys := keys - {key};
        assert (set k | k in spans && k !in keys :: SpanRow(e, k, spans[k])) == written + {SpanRow(e, key, spans[key])};
        rows := rows + multiset{SpanRow(e, key, spans[key])};
      }
      assert (set k | k in spans && k !in keys :: SpanRow(e, k, spans[k])) == SpanSet(e, spans);
    }

    method HandleEvent(ev: Event)
      modifies this, sampler
      ensures Contents() == Handle(sampler.cfg, old(Contents()), ev)
    {
      match ev
      case Started(e, p) =>
        sampler.BufferSpan(e, StartedSpan, p);
        audit := audit + [(AuditStarted, e)];
      case StepCompleted(e, i, p) =>
        sampler.BufferSpan(e, StepSpan(i), p);
      case StepFailed(e, i, p) =>
        sampler.BufferSpan(e, FailedSpan(i), p);
        sampler.MarkHasFailure(e);
        audit := audit + [(AuditStepFailed, e)];
      case Completed(e, p, d, roll) =>
        var keep := sampler.ShouldKeep(ev);
        var spans := sampler.Flush(e);
        if keep {
          rows := rows + multiset{CompletionRow(e, p, d)};
          WriteSpans(e, spans);
        }
        audit := audit + [(AuditCompleted, e)];
      case Paused(e) =>
        audit := audit + [(AuditPaused, e)];
    }
  }

  // ---- Demultiplexing

  function Only(e: Exec, evs: seq<Event>): seq<Event> {
    if evs == [] then []
    else Only(e, evs[..|evs| - 1]) + (if evs[|evs| - 1].exec == e then [evs[|evs| - 1]] else [])
  }

  /** The two stores agree on everything that belongs to e. */
  ghost predicate AgreeOn(e: Exec, s: Store, t: Store) {
    && (e in s.buffers <==> e in t.buffers) && Buffer(s, e) == Buffer(t, e)
    && (e in s.failures <==> e in t.failures)
    && (forall r: Row :: r.exec == e ==> s.rows[r] == t.rows[r])
  }

  lemma SpanRowsOf(e: Exec, spans: map<SpanKey, Payload>, r: Row)
    requires r.exec != e
    ensures SpanRows(e, spans)[r] == 0
  {
    assert r !in SpanSet(e, spans);
  }

  lemma ForeignEventIsInvisible(cfg: Settings, e: Exec, s: Store, ev: Event)
    requires ev.exec != e
    ensures AgreeOn(e, Handle(cfg, s, ev), s)
  {
    if ev.Completed? {
      forall r: Row | r.exec == e ensures Written(cfg, s, ev)[r] == 0 {
        SpanRowsOf(ev.exec, Buffer(s, ev.exec), r);
      }
    }
  }

  lemma OwnEventAgrees(cfg: Settings, e: Exec, s: Store, t: Store, ev: Event)
    requires ev.exec == e && AgreeOn(e, s, t)
    ensures AgreeOn(e, Handle(cfg, s, ev), Handle(cfg, t, ev))
  {
    if ev.Completed? {
      assert Written(cfg, s, ev) == Written(cfg, t, ev);
    }
  }

  /**
   * However the events of many executions interleave on the stream, the rows, the buffer and
   * the failure flag of e are those of e's events alone.
   */
  lemma {:induction false} Demultiplexing(cfg: Settings, e: Exec, evs: seq<Event>)
    ensures AgreeOn(e, HandleAll(cfg, EmptyStore, evs), HandleAll(cfg, EmptyStore, Only(e, evs)))
  {
    if evs != [] {
      var front, ev := evs[..|evs| - 1], evs[|evs| - 1];
      Demultiplexing(cfg, e, front);
      var s, t := HandleAll(cfg, EmptyStore, front), HandleAll(cfg, EmptyStore, Only(e, front));
      if ev.exec == e {
        OwnEventAgrees(cfg, e, s, t, ev);
        assert Only(e, evs)[..|Only(e, evs)| - 1] == Only(e, front);
      } else {
        ForeignEventIsInvisible(cfg, e, s, ev);
        assert Only(e, evs) == Only(e, front);
      }
    }
  }

  // ---- What one execution's deliveries leave behind

  /** Deliveries of e before its completion: spans and pauses, any payloads, in any order and number. */
  ghost predicate Unfinished(e: Exec, evs: seq<Event>) {
    forall ev :: ev in evs ==> ev.exec == e && !ev.Completed?
  }

  function DistinctKeys(evs: seq<Event>): set<SpanKey> {
    set ev | ev in evs && IsSpan(ev) :: KeyOf(ev)
  }

  /** The last payload delivered under each span key. */
  function Latest(evs: seq<Event>): map<SpanKey, Payload> {
    if evs == [] then map[]
    else
      var front, last := Latest(evs[..|evs| - 1]), evs[|evs| - 1];
      if IsSpan(last) then front[KeyOf(last) := last.payload] else front
  }

  /** Some step of the deliveries failed. */
  ghost predicate Failed(evs: seq<Event>) {
    exists ev :: ev in evs && ev.StepFailed?
  }

  lemma {:induction false} BufferedSpans(cfg: Settings, e: Exec, evs: seq<Event>)
    requires Unfinished(e, evs)
    ensures var s := HandleAll(cfg, EmptyStore, evs);
            && Buffer(s, e) == Latest(evs)
            && (e in s.failures <==> Failed(evs))
            && s.rows == multiset{}
  {
    if evs != [] {
      assert evs == evs[..|evs| - 1] + [evs[|evs| - 1]];
      BufferedSpans(cfg, e, evs[..|evs| - 1]);
    }
  }

  lemma {:induction false} LatestKeys(evs: seq<Event>)
    ensures Latest(evs).Keys == DistinctKeys(evs)
  {
    if evs == [] {
      assert DistinctKeys(evs) == {};
    } else {
      var front, last := evs[..|evs| - 1], evs[|evs| - 1];
      LatestKeys(front);
      assert evs == front + [last];
      assert DistinctKeys(evs) == DistinctKeys(front) + (if IsSpan(last) then {KeyOf(last)} else {});
    }
  }

  /** The delivery at position i is a span, and the last one with its key. */
  predicate LastOfItsKey(evs: seq<Event>, i: nat) {
    && i < |evs| && IsSpan(evs[i])
    && (forall j :: i < j < |evs| && IsSpan(evs[j]) ==> KeyOf(evs[j]) != KeyOf(evs[i]))
  }

  lemma {:induction false} LatestIsLast(evs: seq<Event>, i: nat)
    requires LastOfItsKey(evs, i)
    ensures KeyOf(evs[i]) in Latest(evs) && Latest(evs)[KeyOf(evs[i])] == evs[i].payload
    decreases |evs|
  {
    if i < |evs| - 1 {
      LatestIsLast(evs[..|evs| - 1], i);
    }
  }

  // ---- Redelivery and reordering of spans

  /** Spans of e only; deliveries with the same key carry the same payload. */
  ghost predicate Consistent(e: Exec, evs: seq<Event>) {
    && (forall ev :: ev in evs ==> IsSpan(ev) && ev.exec == e)
    && (forall x, y :: x in evs && y in evs && KeyOf(x) == KeyOf(y) ==> x.payload == y.payload)
  }

  /** Then it does not matter which delivery of a key was the last. */
  lemma {:induction false} ConsistentLatest(e: Exec, evs: seq<Event>)
    requires Consistent(e, evs)
    ensures forall ev :: ev in evs ==> KeyOf(ev) in Latest(evs) && Latest(evs)[KeyOf(ev)] == ev.payload
  {
    if evs != [] {
      assert evs == evs[..|evs| - 1] + [evs[|evs| - 1]];
      ConsistentLatest(e, evs[..|evs| - 1]);
    }
  }

  lemma SameDeliveriesSameLatest(e: Exec, a: seq<Event>, b: seq<Event>)
    requires Consistent(e, a) && Consistent(e, b) && (forall ev :: ev in a <==> ev in b)
    ensures Latest(a) == Latest(b)
  {
    ConsistentLatest(e, a);
    ConsistentLatest(e, b);
    LatestKeys(a);
    LatestKeys(b);
    assert DistinctKeys(a) == DistinctKeys(b);
    forall k | k in Latest(a).Keys ensures Latest(a)[k] == Latest(b)[k] {
      var ev :| ev in a && IsSpan(ev) && KeyOf(ev) == k;
    }
  }

  /** The rows of an execution's deliveries and its completion. */
  lemma RowsOf(cfg: Settings, e: Exec, evs: seq<Event>, done: Event)
    requires Unfinished(e, evs) && done.Completed? && done.exec == e
    ensures HandleAll(cfg, EmptyStore, evs + [done]).rows ==
            if Keep(cfg, Failed(evs), done)
            then multiset{CompletionRow(e, done.payload, done.durationMs)} + SpanRows(e, Latest(evs)) else multiset{}
  {
    assert (evs + [done])[..|evs|] == evs;
    BufferedSpans(cfg, e, evs);
  }

  lemma SpanRowsDetermineSpans(e: Exec, a: map<SpanKey, Payload>, b: map<SpanKey, Payload>)
    requires SpanRows(e, a) == SpanRows(e, b)
    ensures a == b
  {
    forall k | k in a ensures k in b && b[k] == a[k] {
      assert SpanRow(e, k, a[k]) in SpanRows(e, a);
      assert SpanRow(e, k, a[k]) in SpanSet(e, b);
    }
    forall k | k in b ensures k in a {
      assert SpanRow(e, k, b[k]) in SpanRows(e, b);
      assert SpanRow(e, k, b[k]) in SpanSet(e, a);
    }
  }

  lemma OneMore(own: Row, a: multiset<Row>, b: multiset<Row>)
    ensures multiset{own} + a == multiset{own} + b <==> a == b
    ensures multiset{own} + a != multiset{} && multiset{own} + b != multiset{}
  {
    assert a == multiset{own} + a - multiset{own} && b == multiset{own} + b - multiset{own};
    assert (multiset{own} + a)[own] > 0 && (multiset{own} + b)[own] > 0;
  }

  /**
   * Two streams of deliveries give the same rows exactly when both are dropped, or both are kept
   * and agree on the last payload under every span key.
   */
  lemma SameRowsIff(cfg: Settings, e: Exec, a: seq<Event>, b: seq<Event>, done: Event)
    requires Unfinished(e, a) && Unfinished(e, b) && done.Completed? && done.exec == e
    ensures HandleAll(cfg, EmptyStore, a + [done]).rows == HandleAll(cfg, EmptyStore, b + [done]).rows
            <==> (if Keep(cfg, Failed(a), done) then Keep(cfg, Failed(b), done) && Latest(a) == Latest(b)
                  else !Keep(cfg, Failed(b), done))
  {
    RowsOf(cfg, e, a, done);
    RowsOf(cfg, e, b, done);
    var own := CompletionRow(e, done.payload, done.durationMs);
    OneMore(own, SpanRows(e, Latest(a)), SpanRows(e, Latest(b)));
    if SpanRows(e, Latest(a)) == SpanRows(e, Latest(b)) {
      SpanRowsDetermineSpans(e, Latest(a), Latest(b));
    }
  }

  /** Any order and any number of redeliveries before the completion give the same rows. */
  lemma RedeliveryIndependence(cfg: Settings, e: Exec, a: seq<Event>, b: seq<Event>, done: Event)
    requires Consistent(e, a) && Consistent(e, b) && (forall ev :: ev in a <==> ev in b)
    requires done.Completed? && done.exec == e
    ensures HandleAll(cfg, EmptyStore, a + [done]).rows == HandleAll(cfg, EmptyStore, b + [done]).rows
  {
    SameDeliveriesSameLatest(e, a, b);
    SameRowsIff(cfg, e, a, b, done);
  }

  lemma {:induction false} SpanSetSize(e: Exec, spans: map<SpanKey, Payload>)
    ensures |SpanSet(e, spans)| == |spans.Keys|
    decreases |spans.Keys|
  {
    if spans.Keys == {} {
      assert SpanSet(e, spans) == {};
    } else {
      var key :| key in spans.Keys;
      var rest := spans - {key};
      assert spans.Keys == rest.Keys + {key} && key !in rest.Keys;
      SpanSetSize(e, rest);
      assert SpanSet(e, spans) == SpanSet(e, rest) + {SpanRow(e, key, spans[key])};
      assert SpanRow(e, key, spans[key]) !in SpanSet(e, rest);
    }
  }

  lemma SpanRowsSize(e: Exec, spans: map<SpanKey, Payload>)
    ensures |SpanRows(e, spans)| == |spans.Keys|
  {
    SpanSetSize(e, spans);
  }

  /**
   * A trace is kept whenever a step failed or the execution was slow, however often it was paused,
   * resumed or redelivered; a kept trace is its completion row and one row per distinct span key,
   * that of the key's last delivery; buffer and flag are gone either way.
   */
  lemma KeptTrace(cfg: Settings, e: Exec, evs: seq<Event>, done: Event)
    requires Unfinished(e, evs) && done.Completed? && done.exec == e
    ensures var s := HandleAll(cfg, EmptyStore, evs + [done]);
            var kept := Failed(evs) || done.durationMs > cfg.slowThresholdMs || done.roll < cfg.sampleRate;
            && |s.rows| == (if kept then 1 + |DistinctKeys(evs)| else 0)
            && (kept ==> CompletionRow(e, done.payload, done.durationMs) in s.rows)
            && (kept ==> forall i: nat :: LastOfItsKey(evs, i) ==>
                  s.rows[SpanRow(e, KeyOf(evs[i]), evs[i].payload)] == 1)
            && e !in s.buffers && e !in s.failures
  {
    assert (evs + [done])[..|evs|] == evs;
    BufferedSpans(cfg, e, evs);
    LatestKeys(evs);
    SpanRowsSize(e, Latest(evs));
    forall i: nat | LastOfItsKey(evs, i)
      ensures SpanRows(e, Latest(evs))[SpanRow(e, KeyOf(evs[i]), evs[i].payload)] == 1
    {
      LatestIsLast(evs, i);
      assert SpanRow(e, KeyOf(evs[i]), evs[i].payload) in SpanSet(e, Latest(evs));
    }
  }

  // ---- The same by steps

  /** Two spans share a field of the hash exactly when they are of the same kind and, for steps, of the same index. */
  lemma SameFieldIff(x: Event, y: Event)
    requires IsSpan(x) && IsSpan(y)
    ensures KeyOf(x) == KeyOf(y) <==>
            || (x.Started? && y.Started?)
            || (x.StepCompleted? && y.StepCompleted? && x.index == y.index)
            || (x.StepFailed? && y.StepFailed? && x.index == y.index)
  {
  }

  ghost predicate WasStarted(evs: seq<Event>) {
    exists ev :: ev in evs && ev.Started?
  }

  function CompletedIndices(evs: seq<Event>): set<nat> {
    set ev | ev in evs && ev.StepCompleted? :: ev.index
  }

  function FailedIndices(evs: seq<Event>): set<nat> {
    set ev | ev in evs && ev.StepFailed? :: ev.index
  }

  /** No delivery after the i-th is of the same kind and, for a step, of the same index. */
  predicate LastOfItsKind(evs: seq<Event>, i: nat)
    requires i < |evs|
  {
    match evs[i]
    case Started(_, _) => forall j :: i < j < |evs| ==> !evs[j].Started?
    case StepCompleted(_, k, _) => forall j :: i < j < |evs| ==> !(evs[j].StepCompleted? && evs[j].index == k)
    case StepFailed(_, k, _) => forall j :: i < j < |evs| ==> !(evs[j].StepFailed? && evs[j].index == k)
    case _ => false
  }

  /** The trace row a span becomes. */
  function RowOf(ev: Event): Row
    requires IsSpan(ev)
  {
    match ev
    case Started(e, p) => SpanRow(e, StartedSpan, p)
    case StepCompleted(e, k, p) => SpanRow(e, StepSpan(k), p)
    case StepFailed(e, k, p) => SpanRow(e, FailedSpan(k), p)
  }

  lemma {:induction false} MapSize<T>(s: set<nat>, f: nat -> T, image: set<T>)
    requires image == (set x | x in s :: f(x)) && forall x, y :: f(x) == f(y) ==> x == y
    ensures |image| == |s|
    decreases |s|
  {
    if s == {} {
      assert image == {};
    } else {
      var x :| x in s;
      var rest := set y | y in s - {x} :: f(y);
      assert image == rest + {f(x)} && f(x) !in rest;
      MapSize(s - {x}, f, rest);
    }
  }

  function StartedKeys(evs: seq<Event>): set<SpanKey> {
    set ev | ev in evs && ev.Started? :: StartedSpan
  }

  function CompletedKeys(evs: seq<Event>): set<SpanKey> {
    set k | k in CompletedIndices(evs) :: StepSpan(k)
  }

  function FailedKeys(evs: seq<Event>): set<SpanKey> {
    set k | k in FailedIndices(evs) :: FailedSpan(k)
  }

  lemma KeysByKind(evs: seq<Event>)
    ensures DistinctKeys(evs) == StartedKeys(evs) + CompletedKeys(evs) + FailedKeys(evs)
  {
    forall ev | ev in evs && IsSpan(ev)
      ensures KeyOf(ev) in StartedKeys(evs) + CompletedKeys(evs) + FailedKeys(evs)
    {
      match ev
      case Started(_, _) =>
      case StepCompleted(_, k, _) => assert k in CompletedIndices(evs);
      case StepFailed(_, k, _) => assert k in FailedIndices(evs);
    }
    forall k | k in CompletedIndices(evs) ensures StepSpan(k) in DistinctKeys(evs) {
      var ev :| ev in evs && ev.StepCompleted? && ev.index == k;
      assert KeyOf(ev) == StepSpan(k);
    }
    forall k | k in FailedIndices(evs) ensures FailedSpan(k) in DistinctKeys(evs) {
      var ev :| ev in evs && ev.StepFailed? && ev.index == k;
      assert KeyOf(ev) == FailedSpan(k);
    }
    forall ev | ev in evs && ev.Started? ensures StartedSpan in DistinctKeys(evs) {
      assert KeyOf(ev) == StartedSpan;
    }
  }

  /** One field for Started if it was delivered, one per completed index, one per failed index. */
  lemma FieldsByStep(evs: seq<Event>)
    ensures |DistinctKeys(evs)| == (if WasStarted(evs) then 1 else 0) + |CompletedIndices(evs)| + |FailedIndices(evs)|
  {
    KeysByKind(evs);
    MapSize(CompletedIndices(evs), k => StepSpan(k), CompletedKeys(evs));
    MapSize(FailedIndices(evs), k => FailedSpan(k), FailedKeys(evs));
    assert StartedKeys(evs) == if WasStarted(evs) then {StartedSpan} else {};
    assert StartedKeys(evs) !! CompletedKeys(evs) && StartedKeys(evs) + CompletedKeys(evs) !! FailedKeys(evs);
  }

  lemma LastOfItsKindOnce(cfg: Settings, e: Exec, evs: seq<Event>, i: nat)
    requires Unfinished(e, evs) && i < |evs| && LastOfItsKind(evs, i)
    ensures LastOfItsKey(evs, i) && RowOf(evs[i]) == SpanRow(e, KeyOf(evs[i]), evs[i].payload)
  {
    forall j | i < j < |evs| && IsSpan(evs[j]) ensures KeyOf(evs[j]) != KeyOf(evs[i]) {
      SameFieldIff(evs[j], evs[i]);
    }
    assert evs[i] in evs;
  }

  /**
   * A kept trace is one completion row, one row for Started if it was delivered, one for every step
   * index reported completed and one for every step index reported failed: each the last delivery's.
   */
  lemma KeptTraceBySteps(cfg: Settings, e: Exec, evs: seq<Event>, done: Event)
    requires Unfinished(e, evs) && done.Completed? && done.exec == e
    ensures var rows := HandleAll(cfg, EmptyStore, evs + [done]).rows;
            if Failed(evs) || done.durationMs > cfg.slowThresholdMs || done.roll < cfg.sampleRate then
              && |rows| == 1 + (if WasStarted(evs) then 1 else 0) + |CompletedIndices(evs)| + |FailedIndices(evs)|
              && CompletionRow(e, done.payload, done.durationMs) in rows
              && (forall i: nat :: i < |evs| && LastOfItsKind(evs, i) ==> rows[RowOf(evs[i])] == 1)
            else |rows| == 0
  {
    KeptTrace(cfg, e, evs, done);
    FieldsByStep(evs);
    forall i: nat | i < |evs| && LastOfItsKind(evs, i)
      ensures LastOfItsKey(evs, i) && RowOf(evs[i]) == SpanRow(e, KeyOf(evs[i]), evs[i].payload)
    {
      LastOfItsKindOnce(cfg, e, evs, i);
    }
  }

  // ---- The audit log

  /** The deliveries that are audited: all but completed steps. */
  function Audited(evs: seq<Event>): seq<Event> {
    if evs == [] then []
    else Audited(evs[..|evs| - 1]) + (if evs[|evs| - 1].StepCompleted? then [] else [evs[|evs| - 1]])
  }

  /** The entry names the event's execution and kind. */
  predicate Records(entry: (AuditAction, Exec), ev: Event) {
    && entry.1 == ev.exec
    && (entry.0.AuditStarted? <==> ev.Started?) && (entry.0.AuditStepFailed? <==> ev.StepFailed?)
    && (entry.0.AuditCompleted? <==> ev.Completed?) && (entry.0.AuditPaused? <==> ev.Paused?)
  }

  /** Every delivery but those of completed steps leaves one audit entry, in order, whatever happens to the trace. */
  lemma {:induction false} AuditTrail(cfg: Settings, evs: seq<Event>)
    ensures var audit := HandleAll(cfg, EmptyStore, evs).audit;
            |audit| == |Audited(evs)| && forall i :: 0 <= i < |audit| ==> Records(audit[i], Audited(evs)[i])
  {
    if evs != [] {
      AuditTrail(cfg, evs[..|evs| - 1]);
    }
  }

  // ---- The database transaction fails after the buffer was flushed

  /** A completion whose transaction rolls back: Redis has lost the buffer, the tables are unchanged. */
  function FailedAttempt(s: Store, ev: Event): Store
    requires ev.Completed?
  {
    s.(buffers := s.buffers - {ev.exec}, failures := s.failures - {ev.exec})
  }

  /**
   * The redelivered completion, which draws a new random number, then writes the rows it
   * should have written exactly when there was nothing to lose: both times nothing is kept,
   * or both times the completion row is all there is. A failed step's trace is never among
   * those unless the execution was slow or is drawn by chance, and no span survives.
   */
  lemma RetryAfterRollbackIff(cfg: Settings, s: Store, ev: Event, roll: real)
    requires ev.Completed?
    ensures var retry := ev.(roll := roll);
            Handle(cfg, FailedAttempt(s, ev), retry).rows == Handle(cfg, s, ev).rows
            <==> (if Keep(cfg, ev.exec in s.failures, ev)
                  then Keep(cfg, false, retry) && Buffer(s, ev.exec) == map[]
                  else !Keep(cfg, false, retry))
  {
    var lost := FailedAttempt(s, ev);
    var retry := ev.(roll := roll);
    var spans := Buffer(s, ev.exec);
    assert Buffer(lost, ev.exec) == map[];
    SpanRowsSize(ev.exec, spans);
    SpanRowsSize(ev.exec, map[]);
    assert |Handle(cfg, lost, retry).rows| == |s.rows| + |Written(cfg, lost, retry)|;
    assert |Handle(cfg, s, ev).rows| == |s.rows| + |Written(cfg, s, ev)|;
    if spans != map[] {
      var k :| k in spans;
      assert |spans.Keys| > 0;
    }
  }

  // ---- The completion is delivered again after its transaction committed

  /**
   * A completion whose acknowledgement was lost finds no span and no flag: handled again, with a
   * new random number, it adds one more completion row exactly when it is slow or drawn, and never
   * a span row.
   */
  lemma RedeliveredCompletion(cfg: Settings, s: Store, ev: Event, roll: real)
    requires ev.Completed?
    ensures var once := Handle(cfg, s, ev);
            var again := Handle(cfg, once, ev.(roll := roll));
            && again.rows == once.rows + (if ev.durationMs > cfg.slowThresholdMs || roll < cfg.sampleRate
                                          then multiset{CompletionRow(ev.exec, ev.payload, ev.durationMs)}
                                          else multiset{})
            && again.buffers == once.buffers && again.failures == once.failures
            && again.audit == once.audit + [(AuditCompleted, ev.exec)]
  {
    var once := Handle(cfg, s, ev);
    assert Buffer(once, ev.exec) == map[] && SpanSet(ev.exec, map[]) == {};
    assert Handle(cfg, once, ev.(roll := roll)).buffers == once.buffers;
  }
}
