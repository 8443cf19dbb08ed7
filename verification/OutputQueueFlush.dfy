/** When a flush is a barrier.  A RESET packet that the worker already holds when a flush begins outlives it:
    handling the packet makes m_hr S_OK again and sets the event that EndFlush waits for.  And the flush that
    was no barrier leaves m_bFlushed set with samples in the queue, for which a later one may skip them. */
module OutputQueueFlush {
  import opened OutputQueueModel
  import opened OutputQueueLists
  import opened OutputQueueInvariant
  import opened OutputQueueTheorems
  import opened OutputQueueRuns

  /** Steps between BeginFlush and EndFlush's getting past the queue. */
  predicate WithinFlush(steps: seq<Action>) {
    ABeginFlush !in steps && AEndFlushWait !in steps
  }

  /** Whatever happens in the flush begun at s, EndFlush does not get past the queue with a sample left in it. */
  ghost predicate FlushIsBarrier(c: Config, s: State)
    requires Enabled(s, ABeginFlush)
  {
    forall steps, a :: WithinFlush(steps) && Run(c, BeginFlush(c, s), steps).Reached?
                       && FlushPasses(c, Run(c, BeginFlush(c, s), steps).state, a)
                       ==> Held(Run(c, BeginFlush(c, s), steps).state) == []
  }

  lemma StepSound(c: Config, s: State, a: Action)
    requires Enabled(s, a) && a != ABeginFlush
    ensures Apply(c, s, a).sound == s.sound
  {
    if a.AWorkerTop? { TopSound(c, s); }
  }

  lemma TopSound(c: Config, s: State)
    requires WellTagged(s.list)
    ensures WorkerTop(c, s).sound == s.sound
  {
  }

  lemma {:induction false} RunSound(c: Config, s: State, steps: seq<Action>)
    requires ABeginFlush !in steps && Run(c, s, steps).Reached?
    ensures Run(c, s, steps).state.sound == s.sound
    decreases |steps|
  {
    if steps != [] {
      StepSound(c, s, steps[0]);
      RunSound(c, Apply(c, s, steps[0]), steps[1..]);
    }
  }

  lemma PassesEmpty(c: Config, s: State, a: Action)
    requires FlushState(c, s) && s.sound && FlushPasses(c, s, a)
    ensures Held(s) == []
  {
  }

  /** A flush that begins well passes with nothing left. */
  lemma WellBegunPasses(c: Config, s: State, during: seq<Action>, a: Action)
    requires Inv(c, s) && Enabled(s, ABeginFlush) && BeginsWell(c, s)
    requires WithinFlush(during) && Run(c, BeginFlush(c, s), during).Reached?
    requires FlushPasses(c, Run(c, BeginFlush(c, s), during).state, a)
    ensures Inv(c, Run(c, BeginFlush(c, s), during).state)
    ensures Held(Run(c, BeginFlush(c, s), during).state) == []
  {
    var t := BeginFlush(c, s);
    BeginFlushInv(c, s);
    RunInv(c, t, during);
    RunSound(c, t, during);
    PassesEmpty(c, Run(c, t, during).state, a);
  }

  lemma WellBegunHolds(c: Config, s: State)
    requires Inv(c, s) && Enabled(s, ABeginFlush) && BeginsWell(c, s)
    ensures FlushIsBarrier(c, s)
  {
    var t := BeginFlush(c, s);
    forall steps, a | WithinFlush(steps) && Run(c, t, steps).Reached? && FlushPasses(c, Run(c, t, steps).state, a)
      ensures Held(Run(c, t, steps).state) == []
    {
      WellBegunPasses(c, s, steps, a);
    }
  }

  /** The flush barrier.  However the queue came to where a flush begins well, and whatever happens in the flush:
      when EndFlush gets past the queue, no sample submitted before is queued, batched or in delivery, and in every
      continuation none of them is held or delivered again. */
  lemma FlushBarrier(c: Config, s: State, during: seq<Action>, a: Action, later: seq<Action>)
    requires Inv(c, s) && Enabled(s, ABeginFlush) && BeginsWell(c, s)
    requires WithinFlush(during) && Run(c, BeginFlush(c, s), during).Reached?
    requires FlushPasses(c, Run(c, BeginFlush(c, s), during).state, a)
    requires Run(c, Apply(c, Run(c, BeginFlush(c, s), during).state, a), later).Reached?
    ensures var t := Run(c, BeginFlush(c, s), during).state;
            var v, u := Apply(c, t, a), Run(c, Apply(c, t, a), later).state;
            && Held(v) == []
            && AllFrom(Held(u), t.nextId)
            && DeliveredIds(v.delivered) <= DeliveredIds(u.delivered)
            && AllFrom(DeliveredIds(u.delivered)[|DeliveredIds(v.delivered)|..], t.nextId)
  {
    var t := Run(c, BeginFlush(c, s), during).state;
    WellBegunPasses(c, s, during, a);
    StepInv(c, t, a);
    assert Held(Apply(c, t, a)) == Held(t);
    NothingComesBack(c, Apply(c, t, a), later);
  }

  // --------------------------------------------------------------- with the packet in hand

  /** A flush has begun and the worker holds a RESET packet. */
  predicate Overtaken(s: State) {
    s.flusher == Begun && !s.resetting && !s.terminate && s.hr != Ok && ResetInHand(s.worker)
  }

  function StepsLeft(w: Worker): nat {
    match w
    case Holding(_, _) => 3
    case Delivering(_, _) => 2
    case Releasing(_, _) => 1
    case _ => 0
  }

  function NextStep(w: Worker): Action {
    match w
    case Holding(_, _) => AWorkerStart
    case Delivering(_, _) => AWorkerReturn(Ok)
    case _ => AWorkerRelease
  }

  lemma StartGoesOn(s: State)
    requires Overtaken(s) && s.worker.Holding?
    ensures var t := WorkerStart(s); Overtaken(t) && StepsLeft(t.worker) < 3
  {
  }

  lemma ReturnGoesOn(s: State)
    requires Overtaken(s) && s.worker.Delivering?
    ensures var t := WorkerReturn(s, Ok); Overtaken(t) && StepsLeft(t.worker) < 2
  {
  }

  lemma ReleaseGoesOn(s: State)
    requires Overtaken(s) && s.worker.Releasing?
    ensures var t := WorkerRelease(s); Overtaken(t) && StepsLeft(t.worker) < 1
  {
  }

  lemma WorkerGoesOn(c: Config, s: State)
    requires Overtaken(s) && !s.worker.Finishing?
    ensures Enabled(s, NextStep(s.worker))
    ensures var t := Apply(c, s, NextStep(s.worker)); Overtaken(t) && StepsLeft(t.worker) < StepsLeft(s.worker)
  {
    match s.worker
    case Holding(_, _) => StartGoesOn(s);
    case Delivering(_, _) => ReturnGoesOn(s);
    case Releasing(_, _) => ReleaseGoesOn(s);
  }

  lemma {:induction false} WorkerComesTo(c: Config, s: State) returns (steps: seq<Action>)
    requires Overtaken(s)
    ensures WithinFlush(steps) && Run(c, s, steps).Reached?
    ensures var t := Run(c, s, steps).state; Overtaken(t) && t.worker.Finishing?
    decreases StepsLeft(s.worker)
  {
    if s.worker.Finishing? {
      steps := [];
    } else {
      var a := NextStep(s.worker);
      WorkerGoesOn(c, s);
      var rest := WorkerComesTo(c, Apply(c, s, a));
      steps := [a] + rest;
      assert steps[1..] == rest;
    }
  }

  /** The worker handles the packet, a sample is taken in, and EndFlush finds the event set. */
  lemma PacketOpensTheQueue(c: Config, s: State)
    requires Overtaken(s) && s.worker.Finishing?
    ensures var steps := [AWorkerFinish] + [ASubmit(1)] + [AEndFlushEnter];
      && Run(c, s, steps).Reached?
      && FlushPasses(c, Run(c, s, steps).state, AEndFlushWait)
      && Held(Run(c, s, steps).state) != []
  {
    var t := WorkerFinish(s);
    OneStep(c, s, AWorkerFinish, t);
    var u := Submit(c, t, 1);
    AndThen(c, s, [AWorkerFinish], t, ASubmit(1), u);
    SubmitIsHeld(c, t);
    var v := EndFlushEnter(c, u);
    AndThen(c, s, [AWorkerFinish] + [ASubmit(1)], u, AEndFlushEnter, v);
    assert Held(v) == Held(u);
  }

  lemma SubmitIsHeld(c: Config, s: State)
    requires s.hr == Ok
    ensures var t := Submit(c, s, 1); Held(t) != [] && t.flusher == s.flusher && !t.flushed && t.evFlush == s.evFlush
  {
    var ids := IdRange(s.nextId, s.nextId + 1);
    SampleItemsFacts(ids);
    IdsAppend(s.list, SampleItems(ids));
    assert |Ids(Submit(c, s, 1).list)| > 0;
  }

  lemma ResetInHandBreaks(c: Config, s: State)
    requires Enabled(s, ABeginFlush) && ResetInHand(s.worker)
    ensures !FlushIsBarrier(c, s)
  {
    var t := BeginFlush(c, s);
    var x := WorkerComesTo(c, t);
    var u := Run(c, t, x).state;
    var y := [AWorkerFinish] + [ASubmit(1)] + [AEndFlushEnter];
    PacketOpensTheQueue(c, u);
    RunAppend(c, t, x, y);
    assert WithinFlush(x + y) && FlushPasses(c, Run(c, t, x + y).state, AEndFlushWait);
  }

  /** With m_bFlushed set though samples are held, the short cut takes BeginFlush and EndFlush past them. */
  lemma StaleFlushedBreaks(c: Config, s: State)
    requires Enabled(s, ABeginFlush) && c.flushOpt && s.flushed && Held(s) != []
    ensures !FlushIsBarrier(c, s)
  {
    var t := BeginFlush(c, s);
    assert Run(c, t, []) == Reached(t) && Held(t) == Held(s);
    assert WithinFlush([]) && FlushPasses(c, t, AEndFlushEnter);
  }

  /** A flush is a barrier exactly if it begins well. */
  lemma FlushIsBarrierIff(c: Config, s: State)
    requires Inv(c, s) && Enabled(s, ABeginFlush)
    ensures FlushIsBarrier(c, s) <==> !(ResetInHand(s.worker) || (c.flushOpt && s.flushed && Held(s) != []))
  {
    if ResetInHand(s.worker) {
      ResetInHandBreaks(c, s);
    } else if c.flushOpt && s.flushed && Held(s) != [] {
      StaleFlushedBreaks(c, s);
    } else {
      WellBegunHolds(c, s);
    }
  }

  // ------------------------------------------------------------------- both do happen

  /** Though the calls of its client come one after another, a sample submitted before a flush is delivered after
      it. */
  lemma SampleSurvivesFlush(c: Config) returns (before: seq<Action>, flush: seq<Action>, later: seq<Action>)
    requires ValidConfig(c)
    ensures CallsApart(c, Initial(), before + flush + later) && Run(c, Initial(), before + flush + later).Reached?
    ensures Run(c, Initial(), before + flush).Reached? && Run(c, Initial(), before).Reached?
    ensures |flush| > 0 && flush[0] == ABeginFlush && Run(c, Initial(), before).state.nextId == 1
    ensures var t := Run(c, Initial(), before + flush).state;
            t.flusher == NotFlushing && t.hr == Ok && t.delivered == []
    ensures DeliveredIds(Run(c, Initial(), before + flush + later).state.delivered) == [0]
  {
    var s := Sampled([Sample(0)], Ok, false, false, false, Finishing(ResetControl), NotFlushing, true, []);
    var t := Sampled([Sample(0)], Ok, false, true, false, AtTop, NotFlushing, false, []);
    before := SampleQueued(c, s);
    flush := FlushInVain(c, s, t);
    var u;
    later, u := SampleGoesOut(c, t);
    Then(c, Initial(), before, s, flush, t);
    Then(c, Initial(), before + flush, t, later, u);
  }

  /** After such a flush m_bFlushed is set with the sample still queued and no RESET packet anywhere: with the
      short cut, the next flush is no barrier either. */
  lemma FlushedCanBeStale(c: Config) returns (steps: seq<Action>, s: State)
    requires ValidConfig(c)
    ensures Leads(c, Initial(), steps, s) && Enabled(s, ABeginFlush) && !InCall(s)
    ensures NoReset(s) && s.flushed && Held(s) == [0] && (c.flushOpt ==> !FlushIsBarrier(c, s))
  {
    var m := Sampled([Sample(0)], Ok, false, false, false, Finishing(ResetControl), NotFlushing, true, []);
    s := Sampled([Sample(0)], Ok, false, true, false, AtTop, NotFlushing, false, []);
    var x := SampleQueued(c, m);
    var y := FlushInVain(c, m, s);
    Then(c, Initial(), x, m, y, s);
    steps := x + y;
    assert [Sample(0)][1..] == [] && Ids([Sample(0)]) == [0];
    assert Held(s) == [] + [] + [0];
    if c.flushOpt { StaleFlushedBreaks(c, s); }
  }
}
