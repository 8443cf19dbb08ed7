/** What the queue does with segments, which go downstream whatever m_hr is, and when it counts as flushed. */
module OutputQueueSegments {
  import opened OutputQueueModel
  import opened OutputQueueLists
  import opened OutputQueueInvariant

  function Segments(es: seq<Event>): seq<Segment> {
    if es == [] then []
    else (if es[0].GotSegment? then [es[0].segment] else []) + Segments(es[1..])
  }

  lemma {:induction false} SegmentsAppend(a: seq<Event>, b: seq<Event>)
    ensures Segments(a + b) == Segments(a) + Segments(b)
  {
    if a == [] {
      assert a + b == b;
    } else {
      assert (a + b)[1..] == a[1..] + b && (a + b)[0] == a[0];
      SegmentsAppend(a[1..], b);
    }
  }

  lemma {:induction false} SamplesAreNoSegments(ids: seq<nat>)
    ensures Segments(SampleEvents(ids)) == []
  {
    if ids != [] {
      assert SampleEvents(ids)[1..] == SampleEvents(ids[1..]);
      SamplesAreNoSegments(ids[1..]);
    }
  }

  /** The segments on the list: each is in the packet behind its tag. */
  function Queued(list: seq<Item>): seq<Segment> {
    if list == [] then []
    else (if list[0].Params? then [list[0].segment] else []) + Queued(list[1..])
  }

  /** The segment a control packet stands for. */
  function InControl(k: Control): seq<Segment> {
    if k.SegmentControl? then [k.segment] else []
  }

  lemma {:induction false} QueuedAppend(a: seq<Item>, b: seq<Item>)
    ensures Queued(a + b) == Queued(a) + Queued(b)
  {
    if a == [] {
      assert a + b == b;
    } else {
      assert (a + b)[1..] == a[1..] + b && (a + b)[0] == a[0];
      QueuedAppend(a[1..], b);
    }
  }

  lemma {:induction false} NoSegmentsQueued(ids: seq<nat>)
    ensures Queued(SampleItems(ids)) == []
  {
    if ids != [] {
      assert SampleItems(ids)[1..] == SampleItems(ids[1..]);
      NoSegmentsQueued(ids[1..]);
    }
  }

  /** The collecting loop takes a segment off the list only into the worker's hand. */
  lemma {:induction false} CollectSegments(c: Config, list: seq<Item>, batch: seq<nat>)
    requires WellTagged(list)
    ensures match Collect(c, list, batch)
            case Wait(_) => Queued(list) == []
            case Go(rest, _, k) => InControl(k) + Queued(rest) == Queued(list)
    decreases list
  {
    if list != [] {
      match list[0]
      case Sample(id) => if |batch| + 1 != c.batchSize { CollectSegments(c, list[1..], batch + [id]); }
      case SendPacket => if batch == [] { CollectSegments(c, list[1..], batch); }
      case NewSegment => assert Queued(list[1..]) == [list[1].segment] + Queued(list[2..]);
      case EosPacket =>
      case ResetPacket =>
    }
  }

  /** Those submitted are those delivered, then the one in the worker's hand, then those on the list. */
  predicate Passed(submitted: seq<Segment>, delivered: seq<Segment>, k: Control, queued: seq<Segment>) {
    submitted == delivered + InControl(k) + queued
  }

  predicate SegmentsKept(s: State) {
    !s.flushing && !s.terminate
    && Passed(Segments(s.submitted), Segments(s.delivered), ControlInHand(s.worker), Queued(s.list))
  }

  lemma Extended(submitted: seq<Segment>, delivered: seq<Segment>, k: Control, queued: seq<Segment>, more: seq<Segment>)
    requires Passed(submitted, delivered, k, queued)
    ensures Passed(submitted + more, delivered, k, queued + more)
  {
  }

  lemma EnqueueSegments(s: State, q: seq<Item>, es: seq<Event>, n: nat, flushed: bool, resetting: bool, wake: bool)
    requires SegmentsKept(s) && Queued(q) == Segments(es)
    ensures SegmentsKept(Enqueue(s, q, es, n, flushed, resetting, wake))
  {
    QueuedAppend(s.list, q);
    SegmentsAppend(s.submitted, es);
    Extended(Segments(s.submitted), Segments(s.delivered), ControlInHand(s.worker), Queued(s.list), Segments(es));
  }

  lemma MessageSegments(g: Segment)
    ensures Queued([NewSegment, Params(g)]) == Segments([GotSegment(g)]) == [g]
    ensures Queued([EosPacket]) == Segments([GotEos]) == Queued([SendPacket]) == Queued([ResetPacket]) == []
  {
    assert [NewSegment, Params(g)][1..] == [Params(g)];
    assert Queued([Params(g)]) == [g];
    assert Segments([GotSegment(g)]) == [g];
    assert Segments([GotEos]) == [];
    assert Queued([EosPacket]) == Queued([SendPacket]) == Queued([ResetPacket]) == [];
  }

  lemma ClientSegments(c: Config, s: State, a: Action)
    requires SegmentsKept(s) && Enabled(s, a)
    requires a.AEos? || a.ASegment? || a.ASend? || a.AEnterReset?
    ensures SegmentsKept(Apply(c, s, a))
  {
    match a
    case AEos => MessageSegments(Segment(0, 0, 1.0)); EnqueueSegments(s, [EosPacket], [GotEos], 0, false, s.resetting, true);
    case ASegment(g) =>
      MessageSegments(g);
      EnqueueSegments(s, [NewSegment, Params(g)], [GotSegment(g)], 0, s.flushed, s.resetting, true);
    case ASend => MessageSegments(Segment(0, 0, 1.0)); EnqueueSegments(s, [SendPacket], [], 0, s.flushed, s.resetting, true);
    case AEnterReset => MessageSegments(Segment(0, 0, 1.0)); EnqueueSegments(s, [ResetPacket], [], 0, s.flushed, true, true);
  }

  lemma AcceptedSegments(s: State, n: nat, wake: bool)
    requires SegmentsKept(s)
    ensures var ids := IdRange(s.nextId, s.nextId + n);
            SegmentsKept(Enqueue(s, SampleItems(ids), SampleEvents(ids), n, false, s.resetting, wake))
  {
    var ids := IdRange(s.nextId, s.nextId + n);
    NoSegmentsQueued(ids);
    SamplesAreNoSegments(ids);
    EnqueueSegments(s, SampleItems(ids), SampleEvents(ids), n, false, s.resetting, wake);
  }

  lemma SubmitSegments(c: Config, s: State, n: nat)
    requires SegmentsKept(s)
    ensures SegmentsKept(Submit(c, s, n))
  {
    if s.hr == Ok { AcceptedSegments(s, n, !c.exact || |s.batch| + |s.list| + n >= c.batchSize); }
  }

  lemma Grouped(submitted: seq<Segment>, delivered: seq<Segment>, k: Control, rest: seq<Segment>, queued: seq<Segment>)
    requires Passed(submitted, delivered, NoControl, queued) && InControl(k) + rest == queued
    ensures Passed(submitted, delivered, k, rest)
  {
    assert delivered + [] == delivered;
  }

  lemma TopSegments(c: Config, s: State)
    requires SegmentsKept(s) && s.worker == AtTop && WellTagged(s.list)
    ensures SegmentsKept(TakeBatch(c, s))
  {
    CollectSegments(c, s.list, s.batch);
    match Collect(c, s.list, s.batch)
    case Wait(_) => assert Queued([]) == [];
    case Go(rest, _, k) => Grouped(Segments(s.submitted), Segments(s.delivered), k, Queued(rest), Queued(s.list));
  }

  lemma StartSegments(s: State)
    requires SegmentsKept(s) && s.worker.Holding?
    ensures SegmentsKept(WorkerStart(s))
  {
    var es := SampleEvents(s.worker.toSend);
    SegmentsAppend(s.delivered, es);
    SamplesAreNoSegments(s.worker.toSend);
    assert Segments(s.delivered) + [] == Segments(s.delivered) && s.delivered + [] == s.delivered;
    assert ControlInHand(WorkerStart(s).worker) == s.worker.control;
  }

  lemma Handed(submitted: seq<Segment>, delivered: seq<Segment>, k: Control, queued: seq<Segment>)
    requires Passed(submitted, delivered, k, queued)
    ensures Passed(submitted, delivered + InControl(k), NoControl, queued)
  {
  }

  lemma FinishSegments(s: State)
    requires SegmentsKept(s) && s.worker.Finishing?
    ensures SegmentsKept(WorkerFinish(s))
  {
    var k := s.worker.control;
    SegmentsOfFinish(s.hr, k);
    SegmentsAppend(s.delivered, FinishEvents(s.hr, k));
    Handed(Segments(s.submitted), Segments(s.delivered), k, Queued(s.list));
  }

  lemma SegmentsOfFinish(hr: Hr, k: Control)
    ensures Segments(FinishEvents(hr, k)) == InControl(k)
  {
    match k
    case SegmentControl(g) => assert [GotSegment(g)][1..] == [];
    case EosControl => assert [GotEos][1..] == [];
    case NoControl =>
    case ResetControl =>
  }

  predicate FromClient(a: Action) {
    a.ASubmit? || a.AEos? || a.ASegment? || a.ASend? || a.AEnterReset?
  }

  lemma AcceptsSegments(c: Config, s: State, a: Action)
    requires SegmentsKept(s) && Enabled(s, a) && FromClient(a)
    ensures SegmentsKept(Apply(c, s, a))
  {
    if a.ASubmit? { SubmitSegments(c, s, a.n); } else { ClientSegments(c, s, a); }
  }

  lemma SegmentsStep(c: Config, s: State, a: Action)
    requires FlushFlags(s) && WellTagged(s.list) && SegmentsKept(s) && Enabled(s, a) && a != ABeginFlush && a != ATerminate
    ensures SegmentsKept(Apply(c, s, a))
  {
    if FromClient(a) {
      AcceptsSegments(c, s, a);
    } else if a.AWorkerTop? {
      TopSegments(c, s);
    } else if a.AWorkerStart? {
      StartSegments(s);
    } else if a.AWorkerFinish? {
      FinishSegments(s);
    }
  }

  /** As long as nobody flushes or destroys the queue, through failures and resets, the segments submitted are those
      delivered, followed by those still held, in order. */
  lemma {:induction false} SegmentsPass(c: Config, s: State, steps: seq<Action>)
    requires Inv(c, s) && SegmentsKept(s) && ABeginFlush !in steps && ATerminate !in steps && Run(c, s, steps).Reached?
    ensures SegmentsKept(Run(c, s, steps).state)
    decreases |steps|
  {
    if steps != [] {
      SegmentsStep(c, s, steps[0]);
      StepInv(c, s, steps[0]);
      SegmentsPass(c, Apply(c, s, steps[0]), steps[1..]);
    }
  }

  // ------------------------------------------------------------------------------ m_bFlushed

  /** How many samples and ends of stream are among the events. */
  function Streamed(es: seq<Event>): nat {
    if es == [] then 0 else (if es[0].GotSegment? then 0 else 1) + Streamed(es[1..])
  }

  lemma {:induction false} StreamedAppend(a: seq<Event>, b: seq<Event>)
    ensures Streamed(a + b) == Streamed(a) + Streamed(b)
  {
    if a == [] {
      assert a + b == b;
    } else {
      assert (a + b)[1..] == a[1..] + b && (a + b)[0] == a[0];
      StreamedAppend(a[1..], b);
    }
  }

  lemma {:induction false} SamplesAreStreamed(ids: seq<nat>)
    ensures Streamed(SampleEvents(ids)) == |ids|
  {
    if ids != [] {
      assert SampleEvents(ids)[1..] == SampleEvents(ids[1..]);
      SamplesAreStreamed(ids[1..]);
    }
  }

  /** What a step takes in, and whether it leaves m_bFlushed as it should. */
  predicate FlushedKnows(s: State, t: State) {
    Streamed(t.submitted) >= Streamed(s.submitted)
    && (t.flushed <==> s.flushed && Streamed(t.submitted) == Streamed(s.submitted))
  }

  lemma SubmitFlushed(c: Config, s: State, n: nat)
    requires n > 0
    ensures FlushedKnows(s, Submit(c, s, n))
  {
    if s.hr == Ok {
      var ids := IdRange(s.nextId, s.nextId + n);
      SamplesAreStreamed(ids);
      StreamedAppend(s.submitted, SampleEvents(ids));
      assert Submit(c, s, n).submitted == s.submitted + SampleEvents(ids);
    }
  }

  lemma ClientFlushed(c: Config, s: State, a: Action)
    requires Enabled(s, a) && FromClient(a) && a != ASubmit(0)
    ensures FlushedKnows(s, Apply(c, s, a))
  {
    match a
    case ASubmit(n) => SubmitFlushed(c, s, n);
    case AEos =>
      StreamedAppend(s.submitted, [GotEos]);
      assert Streamed([GotEos]) == 1;
    case ASegment(g) =>
      StreamedAppend(s.submitted, [GotSegment(g)]);
      assert Streamed([GotSegment(g)]) == 0;
    case ASend => StreamedAppend(s.submitted, []);
    case AEnterReset => StreamedAppend(s.submitted, []);
  }

  lemma TakeFlushed(c: Config, s: State)
    requires WellTagged(s.list)
    ensures var t := TakeBatch(c, s); t.flushed == s.flushed && t.submitted == s.submitted
  {
  }

  lemma TopFlushed(c: Config, s: State)
    requires WellTagged(s.list)
    ensures var t := WorkerTop(c, s); t.flushed == s.flushed && t.submitted == s.submitted
  {
    TakeFlushed(c, DrainIfFlushing(s));
  }

  lemma FlushedStep(c: Config, s: State, a: Action)
    requires Enabled(s, a) && a != AEndFlushMark && a != ASubmit(0)
    ensures FlushedKnows(s, Apply(c, s, a))
  {
    if FromClient(a) { ClientFlushed(c, s, a); } else if a.AWorkerTop? { TopFlushed(c, s); }
  }

  /** Until the next EndFlush, m_bFlushed stays set exactly as long as no sample and no end of stream is taken in:
      segments, SendAnyway, Reset and refused samples leave it set. */
  lemma {:induction false} FlushedUntilStreamed(c: Config, s: State, steps: seq<Action>)
    requires AEndFlushMark !in steps && ASubmit(0) !in steps && Run(c, s, steps).Reached?
    ensures FlushedKnows(s, Run(c, s, steps).state)
    decreases |steps|
  {
    if steps != [] {
      FlushedStep(c, s, steps[0]);
      FlushedUntilStreamed(c, Apply(c, s, steps[0]), steps[1..]);
    }
  }
}
