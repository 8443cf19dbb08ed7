/** What every step of the queue keeps, whoever takes it and whenever. */
module OutputQueueInvariant {
  import opened OutputQueueModel
  import opened OutputQueueLists

  /** Between critical sections the batch is never full, and a partial one waits only in exact mode. */
  ghost predicate Shape(c: Config, s: State) {
    && WellTagged(s.list)
    && |s.batch| < c.batchSize
    && (!c.exact ==> s.batch == [])
    && |InHand(s.worker)| <= c.batchSize
    && (s.worker.Delivering? ==> s.worker.toSend != [])
  }

  /** A sleeping worker has exactly one wake-up coming: still owed by a client, or in the semaphore. */
  ghost predicate Tokens(s: State) {
    if s.worker == Asleep then s.waiting + s.sem == 1 else s.waiting == 0 && s.sem == 0
  }

  /** While nobody has notified the sleeping worker there is nothing for it to do. */
  ghost predicate Quiet(c: Config, s: State) {
    s.worker == Asleep && s.waiting == 1 ==>
      if c.exact then (forall i :: i in s.list ==> i.Sample?) && |s.list| + |s.batch| < c.batchSize
      else s.list == [] && s.batch == []
  }

  /** Nothing is delivered twice or out of order. */
  ghost predicate Ordered(s: State) {
    var line := DeliveredIds(s.delivered) + Pending(s);
    Increasing(line) && AllBelow(line, s.nextId)
  }

  /** Every sample ever submitted has been released exactly once or is still held exactly once. */
  ghost predicate Conserved(s: State) {
    s.released + multiset(Held(s)) == multiset(IdRange(0, s.nextId))
  }

  predicate BeforeWait(f: Flusher) { f.Begun? || f.WaitingForWorker? }

  predicate AfterWait(f: Flusher) { f.Passed? || f.Cleared? || f.Marked? }

  /** The flags of a flush, and that it does not overlap a call of Reset. */
  ghost predicate FlushFlags(s: State) {
    && (s.flushing <==> BeforeWait(s.flusher) || s.flusher.Passed?)
    && (s.flusher != NotFlushing ==> !s.resetting)
    && (s.worker == Exited ==> s.terminate)
  }

  /** What m_bFlushed and the completion event mean: no sample is left. While a flush that takes no short cut is
      under way, m_bFlushed may still be what an earlier flush has left behind. */
  ghost predicate FlushMeaning(c: Config, s: State) {
    && (s.flushed && (c.flushOpt || !BeforeWait(s.flusher)) ==> Held(s) == [])
    && (s.flusher != NotFlushing ==> s.hr != Ok && !ResetInHand(s.worker))
    && (BeforeWait(s.flusher) && s.evFlush ==> Held(s) == [])
    && (AfterWait(s.flusher) ==> Held(s) == [])
    && (s.flusher == WaitingForWorker ==> !(s.flushed && c.flushOpt))
    && (BeforeWait(s.flusher) && s.evFlush && !(s.flushed && c.flushOpt) ==> ResetPacket !in s.list)
    && (AfterWait(s.flusher) ==> ResetPacket !in s.list)
  }

  /** The flush protocol: a flush that begins well gives flag and event their meaning, whatever came before it. */
  ghost predicate FlushState(c: Config, s: State) {
    FlushFlags(s) && (s.sound ==> FlushMeaning(c, s))
  }

  ghost predicate Inv(c: Config, s: State) {
    && ValidConfig(c)
    && Shape(c, s)
    && Tokens(s)
    && Quiet(c, s)
    && Ordered(s)
    && Conserved(s)
    && FlushState(c, s)
  }

  lemma InitialInv(c: Config)
    requires ValidConfig(c)
    ensures Inv(c, Initial())
  {
    assert DeliveredIds(Initial().delivered) + Pending(Initial()) == [];
    assert IdRange(0, 0) == [];
  }

  // -------------------------------------------------- steps that move no sample

  /** Only flags, events and tokens differ. */
  ghost predicate SameData(s: State, t: State) {
    && t.list == s.list && t.batch == s.batch && t.worker == s.worker
    && t.delivered == s.delivered && t.released == s.released && t.nextId == s.nextId
  }

  lemma SameDataKeeps(c: Config, s: State, t: State)
    requires Inv(c, s) && SameData(s, t)
    ensures Shape(c, t) && Ordered(t) && Conserved(t)
    ensures Held(t) == Held(s) && NoReset(t) == NoReset(s)
  {
  }

  lemma LeaveResetInv(c: Config, s: State)
    requires Inv(c, s) && Enabled(s, ALeaveReset)
    ensures Inv(c, LeaveReset(s))
  {
    SameDataKeeps(c, s, LeaveReset(s));
  }

  lemma BeginFlushFlags(c: Config, s: State)
    requires Tokens(s) && Quiet(c, s) && FlushState(c, s) && Enabled(s, ABeginFlush)
    ensures var t := BeginFlush(c, s); Tokens(t) && Quiet(c, t) && FlushState(c, t)
  {
    var t := BeginFlush(c, s);
    assert Held(t) == Held(s) && t.list == s.list && t.worker == s.worker;
  }

  lemma BeginFlushInv(c: Config, s: State)
    requires Inv(c, s) && Enabled(s, ABeginFlush)
    ensures Inv(c, BeginFlush(c, s))
  {
    SameDataKeeps(c, s, BeginFlush(c, s));
    BeginFlushFlags(c, s);
  }

  lemma EndFlushEnterFlags(c: Config, s: State)
    requires Tokens(s) && Quiet(c, s) && FlushState(c, s) && s.flusher == Begun
    ensures var t := EndFlushEnter(c, s);
            Tokens(t) && Quiet(c, t) && FlushState(c, t) && SameData(s, t)
  {
    var t := EndFlushEnter(c, s);
    assert Held(t) == Held(s) && t.list == s.list && t.worker == s.worker;
  }

  lemma EndFlushEnterInv(c: Config, s: State)
    requires Inv(c, s) && s.flusher == Begun
    ensures Inv(c, EndFlushEnter(c, s))
  {
    EndFlushEnterFlags(c, s);
    SameDataKeeps(c, s, EndFlushEnter(c, s));
  }

  /** The wait passes only when nothing is left: the barrier. */
  lemma EndFlushWaitInv(c: Config, s: State)
    requires Inv(c, s) && s.flusher == WaitingForWorker && s.evFlush
    ensures Inv(c, EndFlushWait(s))
    ensures s.sound ==> Held(EndFlushWait(s)) == []
  {
    SameDataKeeps(c, s, EndFlushWait(s));
  }

  lemma EndFlushClearInv(c: Config, s: State)
    requires Inv(c, s) && s.flusher == Passed
    ensures Inv(c, EndFlushClear(s))
  {
    SameDataKeeps(c, s, EndFlushClear(s));
  }

  lemma EndFlushMarkInv(c: Config, s: State)
    requires Inv(c, s) && s.flusher == Cleared
    ensures Inv(c, EndFlushMark(s))
  {
    SameDataKeeps(c, s, EndFlushMark(s));
  }

  lemma EndFlushDoneInv(c: Config, s: State)
    requires Inv(c, s) && s.flusher == Marked
    ensures Inv(c, EndFlushDone(s))
  {
    SameDataKeeps(c, s, EndFlushDone(s));
  }

  lemma TerminateInv(c: Config, s: State)
    requires Inv(c, s) && !s.terminate
    ensures Inv(c, Terminate(s))
  {
    SameDataKeeps(c, s, Terminate(s));
  }

  // ----------------------------------------------------- steps that append to the list

  /** A client has queued q; everything behind the list is the worker's own and untouched. */
  ghost predicate Appends(s: State, t: State, q: seq<Item>) {
    && t.list == s.list + q
    && t.batch == s.batch && t.worker == s.worker
    && t.delivered == s.delivered && t.released == s.released
    && s.nextId <= t.nextId
    && WellTagged(q) && Ids(q) == IdRange(s.nextId, t.nextId)
  }

  lemma AppendedSamples(s: State, t: State, q: seq<Item>)
    requires Appends(s, t, q)
    ensures Held(t) == Held(s) + Ids(q)
    ensures Pending(t) == Pending(s) + Ids(q)
  {
    IdsAppend(s.list, q);
  }

  lemma RangeExtends(s: State, t: State, line: seq<nat>)
    requires s.nextId <= t.nextId
    ensures Increasing(line) && AllBelow(line, s.nextId) ==>
              Increasing(line + IdRange(s.nextId, t.nextId)) && AllBelow(line + IdRange(s.nextId, t.nextId), t.nextId)
    ensures multiset(IdRange(0, t.nextId)) == multiset(IdRange(0, s.nextId)) + multiset(IdRange(s.nextId, t.nextId))
  {
    assert IdRange(0, t.nextId) == IdRange(0, s.nextId) + IdRange(s.nextId, t.nextId);
  }

  lemma AppendedOrder(s: State, t: State, q: seq<Item>)
    requires Appends(s, t, q) && Ordered(s)
    ensures Ordered(t)
  {
    AppendedSamples(s, t, q);
    RangeExtends(s, t, DeliveredIds(s.delivered) + Pending(s));
    Concat3(DeliveredIds(s.delivered), Pending(s), Ids(q));
  }

  lemma AppendedConserves(s: State, t: State, q: seq<Item>)
    requires Appends(s, t, q) && Conserved(s)
    ensures Conserved(t)
  {
    AppendedSamples(s, t, q);
    RangeExtends(s, t, []);
  }

  lemma AppendedKeeps(c: Config, s: State, t: State, q: seq<Item>)
    requires Inv(c, s) && Appends(s, t, q)
    ensures Shape(c, t) && Ordered(t) && Conserved(t)
    ensures Held(t) == Held(s) + Ids(q)
  {
    TaggedConcat(s.list, q);
    AppendedSamples(s, t, q);
    AppendedOrder(s, t, q);
    AppendedConserves(s, t, q);
  }

  /** Submitting either leaves too little for a full batch or wakes the worker. */
  lemma SubmitWakes(c: Config, s: State, n: nat)
    requires ValidConfig(c) && Tokens(s) && Quiet(c, s) && s.hr == Ok
    ensures Tokens(Submit(c, s, n)) && Quiet(c, Submit(c, s, n))
  {
    var t := Submit(c, s, n);
    var q := SampleItems(IdRange(s.nextId, s.nextId + n));
    assert t.list == s.list + q && |q| == n;
    assert t.waiting != 0 ==> t.waiting == s.waiting && c.exact && |s.batch| + |t.list| < c.batchSize;
    assert forall i :: i in t.list ==> i in s.list || i in q;
  }

  lemma RefusedInv(c: Config, s: State, n: nat)
    requires Inv(c, s) && s.hr != Ok
    ensures Inv(c, Submit(c, s, n))
  {
    var t := Submit(c, s, n);
    RangeExtends(s, t, []);
    assert Held(t) == Held(s) && Pending(t) == Pending(s);
  }

  /** m_bFlushed is cleared, and no flush that began well lets a sample in. */
  lemma AcceptedFlags(c: Config, s: State, n: nat)
    requires FlushState(c, s) && s.hr == Ok
    ensures FlushState(c, Submit(c, s, n))
  {
  }

  lemma AcceptedInv(c: Config, s: State, n: nat)
    requires Inv(c, s) && s.hr == Ok
    ensures Inv(c, Submit(c, s, n))
  {
    var t := Submit(c, s, n);
    var ids := IdRange(s.nextId, s.nextId + n);
    SampleItemsFacts(ids);
    SubmitWakes(c, s, n);
    AcceptedFlags(c, s, n);
    AppendedKeeps(c, s, t, SampleItems(ids));
  }

  /** EOS, SEND, RESET and segment packets: no sample, and always a notification. */
  lemma PacketInv(c: Config, s: State, t: State, q: seq<Item>, es: seq<Event>)
    requires Inv(c, s) && WellTagged(q) && Ids(q) == []
    requires t == Enqueue(s, q, es, 0, t.flushed, t.resetting, true)
    requires t.flushed == s.flushed || (!t.flushed && s.hr == Ok)
    requires s.flusher != NotFlushing ==> ResetPacket !in q && t.resetting == s.resetting
    ensures Inv(c, t)
  {
    assert IdRange(s.nextId, t.nextId) == [];
    AppendedKeeps(c, s, t, q);
  }

  lemma SegmentInv(c: Config, s: State, g: Segment)
    requires Inv(c, s)
    ensures Inv(c, QueueSegment(s, g))
  {
    var q := [NewSegment, Params(g)];
    assert q[1..] == [Params(g)] && q[2..] == [] && Ids([Params(g)]) == [];
    PacketInv(c, s, QueueSegment(s, g), q, [GotSegment(g)]);
  }

  // ------------------------------------------------------------ the worker's own steps

  lemma DrainedOrder(s: State, t: State)
    requires Ordered(s) && t.delivered == s.delivered && t.nextId == s.nextId && Pending(t) == []
    ensures Ordered(t)
  {
    var line := DeliveredIds(s.delivered) + Pending(s);
    var drained := DeliveredIds(s.delivered) + [];
    assert forall i :: 0 <= i < |drained| ==> drained[i] == line[i];
  }

  lemma TakeBatchSamples(c: Config, s: State)
    requires WellTagged(s.list) && s.worker == AtTop
    ensures var t := TakeBatch(c, s);
            Held(t) == Held(s) && Pending(t) == Pending(s)
  {
    CollectKeepsSamples(c, s.list, s.batch);
    assert Held(s) == s.batch + Ids(s.list) == Pending(s);
    match Collect(c, s.list, s.batch)
    case Wait(b) => AsleepHolds(TakeBatch(c, s));
    case Go(l, b, k) => HoldingHolds(TakeBatch(c, s));
  }

  lemma AsleepHolds(t: State)
    requires t.worker == Asleep && t.list == []
    ensures Held(t) == t.batch == Pending(t)
  {
  }

  lemma HoldingHolds(t: State)
    requires t.worker.Holding? && t.batch == []
    ensures Held(t) == t.worker.toSend + Ids(t.list) == Pending(t)
  {
  }

  lemma TakeBatchInv(c: Config, s: State)
    requires Inv(c, s) && s.worker == AtTop && (s.flushing ==> s.list == [])
    ensures Inv(c, TakeBatch(c, s))
  {
    TakeBatchSamples(c, s);
    TakeBatchFlags(c, s);
    TakeBatchKeeps(c, s, TakeBatch(c, s));
  }

  lemma TakeBatchKeeps(c: Config, s: State, t: State)
    requires WellTagged(s.list) && t == TakeBatch(c, s) && Held(t) == Held(s) && Pending(t) == Pending(s)
    requires Ordered(s) && Conserved(s)
    ensures Ordered(t) && Conserved(t)
  {
    assert t.delivered == s.delivered && t.released == s.released && t.nextId == s.nextId;
    SameSamples(s, t);
  }

  lemma SameSamples(s: State, t: State)
    requires Held(t) == Held(s) && Pending(t) == Pending(s)
    requires t.delivered == s.delivered && t.released == s.released && t.nextId == s.nextId
    ensures Ordered(s) ==> Ordered(t)
    ensures Conserved(s) ==> Conserved(t)
  {
  }

  lemma TakeBatchFlags(c: Config, s: State)
    requires ValidConfig(c) && Shape(c, s) && Tokens(s) && FlushState(c, s) && s.worker == AtTop
    requires Held(TakeBatch(c, s)) == Held(s) && (s.flushing ==> s.list == [])
    ensures var t := TakeBatch(c, s); Shape(c, t) && Tokens(t) && Quiet(c, t) && FlushState(c, t)
  {
    CollectShape(c, s.list, s.batch);
  }

  lemma SplitCount(s: State)
    requires s.worker == AtTop
    ensures multiset(Held(s)) == multiset(Ids(s.list)) + multiset(s.batch)
  {
    var ids := Ids(s.list);
    assert Held(s) == s.batch + ids;
  }

  lemma FreeSamplesFlags(c: Config, s: State, w: Worker, ev: bool)
    requires Shape(c, s) && Tokens(s) && FlushState(c, s) && s.worker == AtTop
    requires (w == AtTop || (w == Exited && s.terminate)) && (ev ==> s.flushing || s.evFlush)
    ensures var t := FreeSamples(s, w, ev);
            Held(t) == [] && Pending(t) == [] && Shape(c, t) && Tokens(t) && Quiet(c, t) && FlushState(c, t)
  {
    var t := FreeSamples(s, w, ev);
    assert InHand(t.worker) == [] && Ids(t.list) == [];
  }

  /** Dropping the queue and the batch turns every sample in them into a released one. */
  lemma FreeSamplesInv(c: Config, s: State, w: Worker, ev: bool)
    requires Inv(c, s) && s.worker == AtTop && (w == AtTop || (w == Exited && s.terminate))
    requires ev ==> s.flushing || s.evFlush
    ensures Inv(c, FreeSamples(s, w, ev))
  {
    var t := FreeSamples(s, w, ev);
    FreeSamplesFlags(c, s, w, ev);
    SplitCount(s);
    DrainedOrder(s, t);
    assert t.released == s.released + multiset(Held(s));
  }

  lemma TopInv(c: Config, s: State)
    requires Inv(c, s) && s.worker == AtTop
    ensures Inv(c, WorkerTop(c, s))
  {
    if s.terminate {
      FreeSamplesInv(c, s, Exited, s.evFlush);
    } else {
      if s.flushing { FreeSamplesInv(c, s, AtTop, true); }
      TakeBatchInv(c, DrainIfFlushing(s));
    }
  }

  lemma WakeInv(c: Config, s: State)
    requires Inv(c, s) && s.worker == Asleep && s.sem > 0
    ensures Inv(c, WorkerWake(s))
  {
    var t := WorkerWake(s);
    assert Held(t) == Held(s) && Pending(t) == Pending(s);
  }

  lemma DropMiddle(d: seq<nat>, h: seq<nat>, p: seq<nat>, n: nat)
    requires Increasing(d + (h + p)) && AllBelow(d + (h + p), n)
    ensures Increasing(d + p) && AllBelow(d + p, n)
  {
    var line, rest := d + (h + p), d + p;
    forall i, j | 0 <= i < j < |rest| ensures rest[i] < rest[j] {
      var i', j' := if i < |d| then i else i + |h|, if j < |d| then j else j + |h|;
      assert rest[i] == line[i'] && rest[j] == line[j'] && line[i'] < line[j'];
    }
    forall i | 0 <= i < |rest| ensures rest[i] < n {
      assert rest[i] == line[if i < |d| then i else i + |h|];
    }
  }

  lemma StartOrder(s: State)
    requires Ordered(s) && s.worker.Holding?
    ensures Ordered(WorkerStart(s))
  {
    var t := WorkerStart(s);
    var hand, d, p := s.worker.toSend, DeliveredIds(s.delivered), s.batch + Ids(s.list);
    assert Pending(s) == hand + p && Pending(t) == p;
    if hand != [] && s.hr == Ok {
      DeliveredAppend(s.delivered, SampleEvents(hand));
      DeliveredSamples(hand);
      Concat3(d, hand, p);
    } else {
      assert t.delivered == s.delivered;
      DropMiddle(d, hand, p, s.nextId);
    }
  }

  lemma StartFlags(c: Config, s: State)
    requires Shape(c, s) && Tokens(s) && FlushState(c, s) && Conserved(s) && s.worker.Holding?
    ensures var t := WorkerStart(s); Shape(c, t) && Tokens(t) && Quiet(c, t) && FlushState(c, t) && Conserved(t)
  {
    var t := WorkerStart(s);
    assert InHand(t.worker) == InHand(s.worker) && ControlInHand(t.worker) == ControlInHand(s.worker);
    assert Held(t) == Held(s) && NoReset(t) == NoReset(s);
  }

  lemma StartInv(c: Config, s: State)
    requires Inv(c, s) && s.worker.Holding?
    ensures Inv(c, WorkerStart(s))
  {
    StartOrder(s);
    StartFlags(c, s);
  }

  lemma ReturnInv(c: Config, s: State, answer: Hr)
    requires Inv(c, s) && s.worker.Delivering?
    ensures Inv(c, WorkerReturn(s, answer))
  {
    var t := WorkerReturn(s, answer);
    assert Held(t) == Held(s) && Pending(t) == Pending(s);
  }

  lemma ReleaseInv(c: Config, s: State)
    requires Inv(c, s) && s.worker.Releasing?
    ensures Inv(c, WorkerRelease(s))
  {
    ReleaseConserves(s);
    ReleaseFlags(c, s);
  }

  lemma ReleaseConserves(s: State)
    requires Conserved(s) && s.worker.Releasing?
    ensures Conserved(WorkerRelease(s))
  {
    var t := WorkerRelease(s);
    var hand, rest := s.worker.toSend, Held(t);
    assert Held(s) == hand + rest;
    assert multiset(hand + rest) == multiset(hand) + multiset(rest);
  }

  lemma ReleaseFlags(c: Config, s: State)
    requires Shape(c, s) && Tokens(s) && Ordered(s) && FlushState(c, s) && s.worker.Releasing?
    ensures var t := WorkerRelease(s); Shape(c, t) && Tokens(t) && Quiet(c, t) && Ordered(t) && FlushState(c, t)
  {
    var t := WorkerRelease(s);
    assert Pending(t) == Pending(s);
    assert Held(s) == s.worker.toSend + Held(t);
    assert ResetInHand(t.worker) == ResetInHand(s.worker);
  }

  lemma FinishOrder(s: State)
    requires Ordered(s) && s.worker.Finishing?
    ensures Ordered(WorkerFinish(s))
  {
    var t := WorkerFinish(s);
    assert Pending(t) == Pending(s);
    var es := FinishEvents(s.hr, s.worker.control);
    DeliveredAppend(s.delivered, es);
    assert DeliveredIds(es) == [];
    assert DeliveredIds(t.delivered) == DeliveredIds(s.delivered);
  }

  lemma FinishFlags(c: Config, s: State)
    requires Shape(c, s) && Tokens(s) && FlushState(c, s) && Conserved(s) && s.worker.Finishing?
    ensures var t := WorkerFinish(s); Shape(c, t) && Tokens(t) && Quiet(c, t) && FlushState(c, t) && Conserved(t)
  {
    var t := WorkerFinish(s);
    assert Held(t) == Held(s);
    assert s.worker.control == ResetControl <==> ResetInHand(s.worker);
  }

  lemma FinishInv(c: Config, s: State)
    requires Inv(c, s) && s.worker.Finishing?
    ensures Inv(c, WorkerFinish(s))
  {
    FinishOrder(s);
    FinishFlags(c, s);
  }

  // ----------------------------------------------------------------------- any step

  lemma QueueStepInv(c: Config, s: State, a: Action)
    requires Inv(c, s) && Enabled(s, a)
    requires a.ASubmit? || a.AEos? || a.ASegment? || a.ASend? || a.AEnterReset?
    ensures Inv(c, Apply(c, s, a))
  {
    match a
    case ASubmit(n) => if s.hr == Ok { AcceptedInv(c, s, n); } else { RefusedInv(c, s, n); }
    case AEos => EosInv(c, s);
    case ASegment(g) => SegmentInv(c, s, g);
    case ASend => PacketInv(c, s, QueueSend(s), [SendPacket], []);
    case AEnterReset => PacketInv(c, s, EnterReset(s), [ResetPacket], []);
  }

  lemma EosInv(c: Config, s: State)
    requires Inv(c, s)
    ensures Inv(c, QueueEos(s))
  {
    if s.hr == Ok { PacketInv(c, s, QueueEos(s), [EosPacket], [GotEos]); }
  }

  lemma FlushStepInv(c: Config, s: State, a: Action)
    requires Inv(c, s) && Enabled(s, a)
    requires a.ALeaveReset? || a.ABeginFlush? || a.AEndFlushEnter? || a.AEndFlushWait? || a.AEndFlushClear?
             || a.AEndFlushMark? || a.AEndFlushDone? || a.ATerminate?
    ensures Inv(c, Apply(c, s, a))
  {
    match a
    case ALeaveReset => LeaveResetInv(c, s);
    case ABeginFlush => BeginFlushInv(c, s);
    case AEndFlushEnter => EndFlushEnterInv(c, s);
    case AEndFlushWait => EndFlushWaitInv(c, s);
    case AEndFlushClear => EndFlushClearInv(c, s);
    case AEndFlushMark => EndFlushMarkInv(c, s);
    case AEndFlushDone => EndFlushDoneInv(c, s);
    case ATerminate => TerminateInv(c, s);
  }

  lemma WorkerStepInv(c: Config, s: State, a: Action)
    requires Inv(c, s) && Enabled(s, a)
    requires a.AWorkerTop? || a.AWorkerWake? || a.AWorkerStart? || a.AWorkerReturn? || a.AWorkerRelease? || a.AWorkerFinish?
    ensures Inv(c, Apply(c, s, a))
  {
    match a
    case AWorkerTop => TopInv(c, s);
    case AWorkerWake => WakeInv(c, s);
    case AWorkerStart => StartInv(c, s);
    case AWorkerReturn(h) => ReturnInv(c, s, h);
    case AWorkerRelease => ReleaseInv(c, s);
    case AWorkerFinish => FinishInv(c, s);
  }

  /** Every step of every thread keeps the invariant. */
  lemma StepInv(c: Config, s: State, a: Action)
    requires Inv(c, s) && Enabled(s, a)
    ensures Inv(c, Apply(c, s, a))
  {
    if a.ASubmit? || a.AEos? || a.ASegment? || a.ASend? || a.AEnterReset? {
      QueueStepInv(c, s, a);
    } else if a.AWorkerTop? || a.AWorkerWake? || a.AWorkerStart? || a.AWorkerReturn? || a.AWorkerRelease? || a.AWorkerFinish? {
      WorkerStepInv(c, s, a);
    } else {
      FlushStepInv(c, s, a);
    }
  }

  /** The invariant over whole runs. */
  lemma {:induction false} RunInv(c: Config, s: State, steps: seq<Action>)
    requires Inv(c, s)
    ensures Run(c, s, steps).Reached? ==> Inv(c, Run(c, s, steps).state)
    decreases |steps|
  {
    if steps != [] && Enabled(s, steps[0]) {
      StepInv(c, s, steps[0]);
      RunInv(c, Apply(c, s, steps[0]), steps[1..]);
    }
  }
}
