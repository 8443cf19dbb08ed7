/** What the queue promises its clients, over every interleaving. */
module OutputQueueTheorems {
  import opened OutputQueueModel
  import opened OutputQueueLists
  import opened OutputQueueInvariant

  ghost predicate Reachable(c: Config, s: State) {
    ValidConfig(c) && exists steps :: Run(c, Initial(), steps) == Reached(s)
  }

  lemma ReachableInv(c: Config, s: State)
    requires Reachable(c, s)
    ensures Inv(c, s)
  {
    var steps :| Run(c, Initial(), steps) == Reached(s);
    InitialInv(c);
    RunInv(c, Initial(), steps);
  }

  // ------------------------------------------------------------------ exactly once

  lemma RangeCounts(n: nat, id: nat)
    ensures multiset(IdRange(0, n))[id] == if id < n then 1 else 0
  {
    if n > 0 {
      assert IdRange(0, n) == IdRange(0, n - 1) + [n - 1];
      RangeCounts(n - 1, id);
    }
  }

  /** Every submitted sample has been released exactly once or is held exactly once; nothing else has. */
  lemma ReleasedExactlyOnce(c: Config, s: State, id: nat)
    requires Reachable(c, s)
    ensures s.released[id] + multiset(Held(s))[id] == if id < s.nextId then 1 else 0
  {
    ReachableInv(c, s);
    RangeCounts(s.nextId, id);
    assert (s.released + multiset(Held(s)))[id] == multiset(IdRange(0, s.nextId))[id];
  }

  /** In every run, with flushes, resets and failures, samples go downstream at most once and in order. */
  lemma DeliveredInOrder(c: Config, s: State)
    requires Reachable(c, s)
    ensures Increasing(DeliveredIds(s.delivered)) && AllBelow(DeliveredIds(s.delivered), s.nextId)
  {
    ReachableInv(c, s);
    var d := DeliveredIds(s.delivered);
    var line := d + Pending(s);
    assert forall i :: 0 <= i < |d| ==> d[i] == line[i];
  }

  /** A call to the downstream pin never carries an empty or an oversized batch. */
  lemma BatchesAreLegal(c: Config, s: State)
    requires Reachable(c, s) && s.worker.Delivering?
    ensures 1 <= |s.worker.toSend| <= c.batchSize
  {
    ReachableInv(c, s);
  }

  // ----------------------------------------------------------------- wake-up protocol

  /** Work that must not be slept through. */
  predicate HasWork(c: Config, s: State) {
    if c.exact then (exists i :: i in s.list && !i.Sample?) || |s.list| + |s.batch| >= c.batchSize
    else s.list != [] || s.batch != []
  }

  /** No lost wake-up: a worker asleep on work has a token in the semaphore, and exactly one. */
  lemma NoLostWakeUp(c: Config, s: State)
    requires Reachable(c, s) && s.worker == Asleep && HasWork(c, s)
    ensures s.sem == 1 && s.waiting == 0 && Enabled(s, AWorkerWake)
  {
    ReachableInv(c, s);
  }

  /** The thread procedure's own assertions. */
  lemma ThreadProcAsserts(c: Config, s: State)
    requires Reachable(c, s)
    ensures s.worker == AtTop ==> s.waiting == 0
    ensures s.sound && (c.flushOpt || !BeforeWait(s.flusher)) ==>
              && (s.worker.Holding? && s.worker.toSend != [] ==> !s.flushed)
              && (s.worker.Delivering? ==> !s.flushed)
    ensures s.worker == AtTop ==> Enabled(s, AWorkerTop)
  {
    ReachableInv(c, s);
    assert InHand(s.worker) != [] ==> Held(s) != [];
  }

  /** IsIdle's own test in queued mode. */
  predicate LooksIdle(s: State) { s.waiting != 0 && s.batch == [] }

  /** What a queue that looks idle still holds: nothing, or in exact mode samples short of a batch. */
  lemma IdleQueueHolds(c: Config, s: State)
    requires Reachable(c, s) && LooksIdle(s)
    ensures s.worker == Asleep && Held(s) == Ids(s.list)
    ensures if c.exact then (forall i :: i in s.list ==> i.Sample?) && |s.list| < c.batchSize else s.list == []
  {
    ReachableInv(c, s);
  }

  /** In exact mode a worker that waits for a batch and is sent one sample makes the queue look idle. */
  lemma IdleWithASample(c: Config) returns (s: State)
    requires ValidConfig(c) && c.exact
    ensures Reachable(c, s) && LooksIdle(s) && |s.list| == 1
  {
    var s1 := WorkerTop(c, Initial());
    assert s1.worker == Asleep && s1.waiting == 1 && s1.hr == Ok && s1.list == [] && s1.batch == [];
    s := Submit(c, s1, 1);
    var steps := [AWorkerTop, ASubmit(1)];
    assert steps[1..] == [ASubmit(1)] && steps[1..][1..] == [];
    assert Run(c, s, []) == Reached(s);
    assert Run(c, s1, [ASubmit(1)]) == Reached(s);
    assert Run(c, Initial(), steps) == Reached(s);
  }

  /** IsIdle asserts that a queue that looks idle has an empty list: true exactly without exact batching. */
  lemma IdleAssertionIff(c: Config)
    requires ValidConfig(c)
    ensures (forall s :: Reachable(c, s) && LooksIdle(s) ==> s.list == []) <==> !c.exact
  {
    if c.exact {
      var _ := IdleWithASample(c);
    } else {
      forall s | Reachable(c, s) && LooksIdle(s) ensures s.list == [] { IdleQueueHolds(c, s); }
    }
  }

  // --------------------------------------------------------------------- FIFO refinement

  /** Steps of a run in which nothing fails and nobody flushes, resets or destroys. */
  predicate Calm(a: Action) {
    a.ASubmit? || a.AEos? || a.ASegment? || a.ASend?
    || a.AWorkerTop? || a.AWorkerWake? || a.AWorkerStart? || a == AWorkerReturn(Ok) || a.AWorkerRelease? || a.AWorkerFinish?
  }

  function WorkerFuture(w: Worker): seq<Event> {
    (if w.Holding? then SampleEvents(w.toSend) else []) + ControlEvents(ControlInHand(w))
  }

  /** What the object still owes the downstream pin. */
  function Future(s: State): seq<Event>
    requires WellTagged(s.list)
  {
    WorkerFuture(s.worker) + SampleEvents(s.batch) + EventsOf(s.list)
  }

  ghost predicate Fifo(s: State) {
    && s.hr == Ok && !s.flushing && !s.terminate && NoReset(s)
    && WellTagged(s.list)
    && s.submitted == s.delivered + Future(s)
  }

  lemma EnqueueFifo(s: State, q: seq<Item>, es: seq<Event>, n: nat, flushed: bool, wake: bool)
    requires Fifo(s) && WellTagged(q) && EventsOf(q) == es && ResetPacket !in q
    ensures Fifo(Enqueue(s, q, es, n, flushed, s.resetting, wake))
  {
    var t := Enqueue(s, q, es, n, flushed, s.resetting, wake);
    TaggedAppend(s.list, q);
    var w := WorkerFuture(s.worker) + SampleEvents(s.batch);
    Concat3(w, EventsOf(s.list), es);
    Concat3(s.delivered, Future(s), es);
    assert Future(t) == Future(s) + es;
  }

  lemma ClientFifo(c: Config, s: State, a: Action)
    requires Fifo(s) && (a.ASubmit? || a.AEos? || a.ASegment? || a.ASend?)
    ensures Fifo(Apply(c, s, a))
  {
    match a
    case ASubmit(n) =>
      var ids := IdRange(s.nextId, s.nextId + n);
      SampleItemsFacts(ids);
      EnqueueFifo(s, SampleItems(ids), SampleEvents(ids), n, false, !c.exact || |s.batch| + |s.list| + n >= c.batchSize);
    case AEos => EnqueueFifo(s, [EosPacket], [GotEos], 0, false, true);
    case ASegment(g) =>
      assert [NewSegment, Params(g)][2..] == [];
      EnqueueFifo(s, [NewSegment, Params(g)], [GotSegment(g)], 0, s.flushed, true);
    case ASend => EnqueueFifo(s, [SendPacket], [], 0, s.flushed, true);
  }

  lemma TakeBatchOwes(c: Config, s: State)
    requires ValidConfig(c) && |s.batch| < c.batchSize && WellTagged(s.list) && s.worker == AtTop
    ensures var t := TakeBatch(c, s);
            WellTagged(t.list) && Future(t) == Future(s)
  {
    CollectKeepsEvents(c, s.list, s.batch);
    AtTopOwes(s);
    match Collect(c, s.list, s.batch)
    case Wait(b) => AsleepOwes(TakeBatch(c, s));
    case Go(l, b, k) => HoldingOwes(TakeBatch(c, s));
  }

  lemma AtTopOwes(s: State)
    requires s.worker == AtTop && WellTagged(s.list)
    ensures Future(s) == SampleEvents(s.batch) + EventsOf(s.list)
  {
  }

  lemma AsleepOwes(t: State)
    requires t.worker == Asleep && t.list == []
    ensures Future(t) == SampleEvents(t.batch)
  {
  }

  lemma HoldingOwes(t: State)
    requires t.worker.Holding? && t.batch == [] && WellTagged(t.list)
    ensures Future(t) == SampleEvents(t.worker.toSend) + (ControlEvents(t.worker.control) + EventsOf(t.list))
  {
  }

  lemma TakeBatchFifo(c: Config, s: State)
    requires ValidConfig(c) && |s.batch| < c.batchSize && Fifo(s) && s.worker == AtTop
    ensures Fifo(TakeBatch(c, s))
  {
    TakeBatchOwes(c, s);
    CollectShape(c, s.list, s.batch);
  }

  lemma StartFifo(s: State)
    requires Fifo(s) && s.worker.Holding?
    ensures Fifo(WorkerStart(s))
  {
    var t := WorkerStart(s);
    var e, k := SampleEvents(s.worker.toSend), ControlEvents(s.worker.control);
    var rest := k + SampleEvents(s.batch) + EventsOf(s.list);
    assert Future(s) == e + rest;
    assert Future(t) == rest;
    Concat3(s.delivered, e, rest);
  }

  lemma FinishFifo(s: State)
    requires Fifo(s) && s.worker.Finishing?
    ensures Fifo(WorkerFinish(s))
  {
    var t := WorkerFinish(s);
    var k := ControlEvents(s.worker.control);
    assert Future(s) == k + Future(t);
    Concat3(s.delivered, k, Future(t));
  }

  lemma WorkerFifo(c: Config, s: State, a: Action)
    requires ValidConfig(c) && |s.batch| < c.batchSize && Fifo(s) && Enabled(s, a)
    requires a.AWorkerTop? || a.AWorkerWake? || a.AWorkerStart? || a == AWorkerReturn(Ok) || a.AWorkerRelease? || a.AWorkerFinish?
    ensures Fifo(Apply(c, s, a))
  {
    if a == AWorkerTop {
      TakeBatchFifo(c, s);
    } else if a == AWorkerStart {
      StartFifo(s);
    } else if a == AWorkerFinish {
      FinishFifo(s);
    } else {
      assert Future(Apply(c, s, a)) == Future(s);
    }
  }

  lemma {:induction false} CalmRunFifo(c: Config, s: State, steps: seq<Action>)
    requires Inv(c, s) && Fifo(s) && (forall a :: a in steps ==> Calm(a))
    ensures Run(c, s, steps).Reached? ==> Fifo(Run(c, s, steps).state) && Inv(c, Run(c, s, steps).state)
    decreases |steps|
  {
    if steps != [] && Enabled(s, steps[0]) {
      var a := steps[0];
      assert Calm(a);
      StepInv(c, s, a);
      if a.ASubmit? || a.AEos? || a.ASegment? || a.ASend? { ClientFifo(c, s, a); } else { WorkerFifo(c, s, a); }
      CalmRunFifo(c, Apply(c, s, a), steps[1..]);
    }
  }

  /** The queue is a FIFO: what was submitted is what was delivered followed by what is still owed.
      Segments carry their own parameters and everything keeps its place. */
  lemma QueueIsFifo(c: Config, steps: seq<Action>)
    requires ValidConfig(c) && (forall a :: a in steps ==> Calm(a))
    requires Run(c, Initial(), steps).Reached?
    ensures var s := Run(c, Initial(), steps).state;
            WellTagged(s.list) && s.submitted == s.delivered + Future(s)
  {
    InitialInv(c);
    CalmRunFifo(c, Initial(), steps);
  }

  /** Once the worker sleeps un-notified, everything has gone downstream; in exact mode all but part of a batch. */
  lemma QuietMeansDelivered(c: Config, steps: seq<Action>)
    requires ValidConfig(c) && (forall a :: a in steps ==> Calm(a))
    requires Run(c, Initial(), steps).Reached?
    requires var s := Run(c, Initial(), steps).state; s.worker == Asleep && s.waiting == 1
    ensures var s := Run(c, Initial(), steps).state;
            && s.delivered <= s.submitted
            && |s.submitted| - |s.delivered| < c.batchSize
            && (!c.exact ==> s.delivered == s.submitted)
  {
    InitialInv(c);
    CalmRunFifo(c, Initial(), steps);
    var s := Run(c, Initial(), steps).state;
    if c.exact { SamplesOnly(s.list); }
    assert WorkerFuture(s.worker) == [];
  }

  lemma {:induction false} SamplesOnly(list: seq<Item>)
    requires WellTagged(list) && (forall i :: i in list ==> i.Sample?)
    ensures |EventsOf(list)| == |list|
  {
    if list != [] { SamplesOnly(list[1..]); }
  }

  // ----------------------------------------------------------------------- flush barrier

  /** Samples numbered below n have all been released. */
  ghost predicate Gone(s: State, n: nat) {
    n <= s.nextId && forall id: nat :: id < n ==> s.released[id] >= 1
  }

  lemma GoneIsNotHeld(c: Config, s: State, n: nat)
    requires Inv(c, s) && Gone(s, n)
    ensures AllFrom(Held(s), n)
  {
    forall i | 0 <= i < |Held(s)| ensures Held(s)[i] >= n {
      var id := Held(s)[i];
      RangeCounts(s.nextId, id);
      assert (s.released + multiset(Held(s)))[id] == multiset(IdRange(0, s.nextId))[id];
      assert id in Held(s) && multiset(Held(s))[id] >= 1;
    }
  }

  lemma NothingHeldIsGone(c: Config, s: State)
    requires Inv(c, s) && Held(s) == []
    ensures Gone(s, s.nextId)
  {
    forall id: nat | id < s.nextId ensures s.released[id] >= 1 {
      RangeCounts(s.nextId, id);
      assert (s.released + multiset(Held(s)))[id] == multiset(IdRange(0, s.nextId))[id];
    }
  }

  /** What a step hands downstream. */
  function HandsOver(s: State, a: Action): seq<nat> {
    if a == AWorkerStart && s.worker.Holding? && s.hr == Ok then s.worker.toSend else []
  }

  lemma StepReleases(c: Config, s: State, a: Action)
    requires Enabled(s, a)
    ensures s.released <= Apply(c, s, a).released && s.nextId <= Apply(c, s, a).nextId
  {
    match a
    case AWorkerTop => TopReleases(c, s);
    case ASubmit(n) => SubmitReleases(c, s, n);
    case _ =>
  }

  lemma SubmitReleases(c: Config, s: State, n: nat)
    ensures s.released <= Submit(c, s, n).released && s.nextId <= Submit(c, s, n).nextId
  {
  }

  lemma TopReleases(c: Config, s: State)
    requires WellTagged(s.list)
    ensures s.released <= WorkerTop(c, s).released && s.nextId == WorkerTop(c, s).nextId
    ensures s.delivered == WorkerTop(c, s).delivered
  {
    var d := DrainIfFlushing(s);
    assert s.released <= d.released;
  }

  lemma StepDelivers(c: Config, s: State, a: Action)
    requires Enabled(s, a)
    ensures DeliveredIds(Apply(c, s, a).delivered) == DeliveredIds(s.delivered) + HandsOver(s, a)
  {
    if a == AWorkerStart {
      DeliveredAppend(s.delivered, SampleEvents(s.worker.toSend));
      DeliveredSamples(s.worker.toSend);
      assert s.delivered + [] == s.delivered;
    } else if a == AWorkerFinish {
      var es := FinishEvents(s.hr, s.worker.control);
      DeliveredAppend(s.delivered, es);
      assert DeliveredIds(es) == [];
    } else {
      if a == AWorkerTop { TopReleases(c, s); }
      assert Apply(c, s, a).delivered == s.delivered;
    }
  }

  lemma {:induction false} AfterBarrier(c: Config, s: State, steps: seq<Action>, n: nat)
    requires Inv(c, s) && Gone(s, n) && Run(c, s, steps).Reached?
    ensures var t := Run(c, s, steps).state;
            && AllFrom(Held(t), n)
            && |DeliveredIds(s.delivered)| <= |DeliveredIds(t.delivered)|
            && AllFrom(DeliveredIds(t.delivered)[|DeliveredIds(s.delivered)|..], n)
    decreases |steps|
  {
    GoneIsNotHeld(c, s, n);
    if steps != [] {
      var a := steps[0];
      var t := Apply(c, s, a);
      StepInv(c, s, a);
      StepReleases(c, s, a);
      StepDelivers(c, s, a);
      AfterBarrier(c, t, steps[1..], n);
      NeverTakenBack(c, t, steps[1..]);
      HandIsHeld(s, a, n);
      TailFrom(DeliveredIds(s.delivered), HandsOver(s, a), DeliveredIds(Run(c, s, steps).state.delivered), n);
    }
  }

  lemma HandIsHeld(s: State, a: Action, n: nat)
    requires AllFrom(Held(s), n)
    ensures AllFrom(HandsOver(s, a), n)
  {
    var h := HandsOver(s, a);
    assert h != [] ==> forall i :: 0 <= i < |h| ==> h[i] == Held(s)[i];
  }

  lemma TailFrom(d: seq<nat>, h: seq<nat>, e: seq<nat>, n: nat)
    requires d + h <= e && AllFrom(h, n) && AllFrom(e[|d + h|..], n)
    ensures AllFrom(e[|d|..], n)
  {
    assert e[|d|..] == h + e[|d + h|..];
  }

  /** Deliveries are never taken back. */
  lemma {:induction false} NeverTakenBack(c: Config, s: State, steps: seq<Action>)
    requires Run(c, s, steps).Reached?
    ensures DeliveredIds(s.delivered) <= DeliveredIds(Run(c, s, steps).state.delivered)
    decreases |steps|
  {
    if steps != [] {
      StepDelivers(c, s, steps[0]);
      NeverTakenBack(c, Apply(c, s, steps[0]), steps[1..]);
    }
  }

  /** EndFlush gets past the queue: either its wait is over, or it finds there was nothing to flush. */
  predicate FlushPasses(c: Config, s: State, a: Action) {
    Enabled(s, a) && (a == AEndFlushWait || (a == AEndFlushEnter && c.flushOpt && s.flushed))
  }

  /** What has been emptied stays so: no sample submitted before is held or delivered in any continuation. */
  lemma NothingComesBack(c: Config, s: State, later: seq<Action>)
    requires Inv(c, s) && Held(s) == [] && Run(c, s, later).Reached?
    ensures var u := Run(c, s, later).state;
            && AllFrom(Held(u), s.nextId)
            && DeliveredIds(s.delivered) <= DeliveredIds(u.delivered)
            && AllFrom(DeliveredIds(u.delivered)[|DeliveredIds(s.delivered)|..], s.nextId)
  {
    NothingHeldIsGone(c, s);
    AfterBarrier(c, s, later, s.nextId);
    NeverTakenBack(c, s, later);
  }

  // ------------------------------------------------------------------ EndFlush is not stuck

  /** While EndFlush waits for an event nobody has set, the worker has been told to come round. */
  ghost predicate FlushLive(c: Config, s: State) {
    && (s.flusher == WaitingForWorker ==> !(s.flushed && c.flushOpt))
    && (BeforeWait(s.flusher) && !s.evFlush ==> s.hr != Ok)
    && (BeforeWait(s.flusher) && !(s.flushed && c.flushOpt) && !s.evFlush ==> s.waiting == 0)
  }

  /** A worker that comes round during a flush says that it has. */
  lemma TopAnnounces(c: Config, s: State)
    requires Enabled(s, AWorkerTop)
    ensures var t := WorkerTop(c, s);
            && t.flusher == s.flusher && t.flushed == s.flushed
            && (s.terminate ==> t.evFlush == s.evFlush && t.waiting == s.waiting)
            && (!s.terminate && s.flushing ==> t.evFlush)
  {
    if !s.terminate { TakeBatchLeaves(c, DrainIfFlushing(s)); }
  }

  lemma TakeBatchLeaves(c: Config, s: State)
    requires WellTagged(s.list)
    ensures var t := TakeBatch(c, s);
            t.flusher == s.flusher && t.flushed == s.flushed && t.evFlush == s.evFlush
  {
  }

  lemma TopFlushLive(c: Config, s: State)
    requires FlushState(c, s) && FlushLive(c, s) && Enabled(s, AWorkerTop)
    ensures FlushLive(c, WorkerTop(c, s))
  {
    TopAnnounces(c, s);
  }

  lemma FlushLiveStep(c: Config, s: State, a: Action)
    requires FlushState(c, s) && FlushLive(c, s) && Enabled(s, a)
    ensures FlushLive(c, Apply(c, s, a))
  {
    if a.AWorkerTop? { TopFlushLive(c, s); }
  }

  lemma {:induction false} FlushLiveRun(c: Config, s: State, steps: seq<Action>)
    requires Inv(c, s) && FlushLive(c, s) && Run(c, s, steps).Reached?
    ensures FlushLive(c, Run(c, s, steps).state)
    decreases |steps|
  {
    if steps != [] {
      StepInv(c, s, steps[0]);
      FlushLiveStep(c, s, steps[0]);
      FlushLiveRun(c, Apply(c, s, steps[0]), steps[1..]);
    }
  }

  predicate WorkerCanStep(s: State) {
    Enabled(s, AWorkerTop) || Enabled(s, AWorkerWake) || Enabled(s, AWorkerStart)
    || s.worker.Delivering? || Enabled(s, AWorkerRelease) || Enabled(s, AWorkerFinish)
  }

  /** No deadlock: if EndFlush is blocked, the worker can step or is inside the downstream call. */
  lemma EndFlushIsNotStuck(c: Config, s: State)
    requires Reachable(c, s) && s.flusher == WaitingForWorker && !s.evFlush && s.worker != Exited
    ensures WorkerCanStep(s)
  {
    ReachableInv(c, s);
    ReachableFlushLive(c, s);
    WorkerIsWoken(c, s);
  }

  lemma ReachableFlushLive(c: Config, s: State)
    requires Reachable(c, s)
    ensures FlushLive(c, s)
  {
    var steps :| Run(c, Initial(), steps) == Reached(s);
    InitialInv(c);
    FlushLiveRun(c, Initial(), steps);
  }

  lemma WorkerIsWoken(c: Config, s: State)
    requires WellTagged(s.list) && Tokens(s) && FlushLive(c, s)
    requires s.flusher == WaitingForWorker && !s.evFlush && s.worker != Exited
    ensures WorkerCanStep(s)
  {
    assert s.worker == Asleep ==> Enabled(s, AWorkerWake);
  }
}
