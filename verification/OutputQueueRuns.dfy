/** A run of the queue, for every configuration, in which no two calls of its client overlap.  It leads through
    the states that Reset() and the flush are not prepared for. */
module OutputQueueRuns {
  import opened OutputQueueModel
  import opened OutputQueueLists

  /** The steps lead from s to t, with the client's calls one after another. */
  ghost predicate Leads(c: Config, s: State, steps: seq<Action>, t: State) {
    Run(c, s, steps) == Reached(t) && CallsApart(c, s, steps)
  }

  lemma {:induction false} RunAppend(c: Config, s: State, x: seq<Action>, y: seq<Action>)
    requires Run(c, s, x).Reached?
    ensures Run(c, s, x + y) == Run(c, Run(c, s, x).state, y)
    decreases |x|
  {
    if x == [] {
      assert x + y == y;
    } else {
      assert (x + y)[1..] == x[1..] + y;
      RunAppend(c, Apply(c, s, x[0]), x[1..], y);
    }
  }

  lemma {:induction false} CallsAppend(c: Config, s: State, x: seq<Action>, y: seq<Action>)
    requires Run(c, s, x).Reached? && CallsApart(c, s, x) && CallsApart(c, Run(c, s, x).state, y)
    ensures CallsApart(c, s, x + y)
    decreases |x|
  {
    if x == [] {
      assert x + y == y;
    } else {
      assert (x + y)[1..] == x[1..] + y;
      CallsAppend(c, Apply(c, s, x[0]), x[1..], y);
    }
  }

  lemma OneStep(c: Config, s: State, a: Action, t: State)
    requires Enabled(s, a) && Apply(c, s, a) == t && (StartsCall(a) ==> !InCall(s))
    ensures Leads(c, s, [a], t)
  {
    assert [a][1..] == [];
  }

  lemma Then(c: Config, s: State, x: seq<Action>, t: State, y: seq<Action>, u: State)
    requires Leads(c, s, x, t) && Leads(c, t, y, u)
    ensures Leads(c, s, x + y, u)
  {
    RunAppend(c, s, x, y);
    CallsAppend(c, s, x, y);
  }

  lemma AndThen(c: Config, s: State, x: seq<Action>, t: State, a: Action, u: State)
    requires Leads(c, s, x, t) && Enabled(t, a) && Apply(c, t, a) == u && (StartsCall(a) ==> !InCall(t))
    ensures Leads(c, s, x + [a], u)
  {
    OneStep(c, t, a, u);
    Then(c, s, x, t, [a], u);
  }

  // ------------------------------------------------------------------ up to a stale event

  /** A queue that has been told of the end of its stream, and of no sample. */
  function Empty(list: seq<Item>, waiting: nat, sem: nat, hr: Hr, flushing: bool, flushed: bool, ev: bool, w: Worker,
                 f: Flusher): State {
    State(list, [], waiting, sem, hr, flushing, flushed, false, ev, w, f, false, true, 0, [GotEos], [], multiset{})
  }

  /** The end of the stream makes m_bFlushed false; a flush begins, and the worker sets the event. */
  lemma FirstSignal(c: Config, t: State) returns (steps: seq<Action>)
    requires ValidConfig(c) && t == Empty([], 1, 0, SFalse, true, false, true, Asleep, Begun)
    ensures Leads(c, Initial(), steps, t)
  {
    var s1 := Initial().(waiting := 1, worker := Asleep);
    var s2 := Empty([EosPacket], 0, 1, Ok, false, false, false, Asleep, NotFlushing);
    var s3 := Empty([EosPacket], 0, 1, SFalse, true, false, false, Asleep, Begun);
    var s4 := Empty([EosPacket], 0, 0, SFalse, true, false, false, AtTop, Begun);
    OneStep(c, Initial(), AWorkerTop, s1);
    AndThen(c, Initial(), [AWorkerTop], s1, AEos, s2);
    AndThen(c, Initial(), [AWorkerTop] + [AEos], s2, ABeginFlush, s3);
    AndThen(c, Initial(), [AWorkerTop] + [AEos] + [ABeginFlush], s3, AWorkerWake, s4);
    assert Ids([EosPacket]) == [];
    AndThen(c, Initial(), [AWorkerTop] + [AEos] + [ABeginFlush] + [AWorkerWake], s4, AWorkerTop, t);
    steps := [AWorkerTop] + [AEos] + [ABeginFlush] + [AWorkerWake] + [AWorkerTop];
  }

  /** SendAnyway is called, EndFlush passes its wait, and the worker, come round for the packet, sets the event
      again. */
  lemma SecondSignal(c: Config, s: State, t: State) returns (steps: seq<Action>)
    requires ValidConfig(c) && s == Empty([], 1, 0, SFalse, true, false, true, Asleep, Begun)
    requires t == Empty([], 1, 0, SFalse, true, false, true, Asleep, Passed)
    ensures Leads(c, s, steps, t)
  {
    var s1 := Empty([SendPacket], 0, 1, SFalse, true, false, true, Asleep, Begun);
    var s2 := Empty([SendPacket], 0, 1, SFalse, true, false, true, Asleep, WaitingForWorker);
    var s3 := Empty([SendPacket], 0, 1, SFalse, true, false, false, Asleep, Passed);
    var s4 := Empty([SendPacket], 0, 0, SFalse, true, false, false, AtTop, Passed);
    OneStep(c, s, ASend, s1);
    AndThen(c, s, [ASend], s1, AEndFlushEnter, s2);
    AndThen(c, s, [ASend] + [AEndFlushEnter], s2, AEndFlushWait, s3);
    AndThen(c, s, [ASend] + [AEndFlushEnter] + [AEndFlushWait], s3, AWorkerWake, s4);
    assert Ids([SendPacket]) == [];
    AndThen(c, s, [ASend] + [AEndFlushEnter] + [AEndFlushWait] + [AWorkerWake], s4, AWorkerTop, t);
    steps := [ASend] + [AEndFlushEnter] + [AEndFlushWait] + [AWorkerWake] + [AWorkerTop];
  }

  /** EndFlush goes on to its end, wherever the rest of the queue stands. */
  lemma FlushEnds(c: Config, s: State, t: State) returns (steps: seq<Action>)
    requires !s.terminate && s.flusher == Passed
    requires t == s.(flushing := false, flushed := true, hr := Ok, flusher := NotFlushing)
    ensures Leads(c, s, steps, t)
  {
    var s1 := s.(flushing := false, flusher := Cleared);
    var s2 := s1.(flushed := true, flusher := Marked);
    OneStep(c, s, AEndFlushClear, s1);
    AndThen(c, s, [AEndFlushClear], s1, AEndFlushMark, s2);
    AndThen(c, s, [AEndFlushClear] + [AEndFlushMark], s2, AEndFlushDone, t);
    steps := [AEndFlushClear] + [AEndFlushMark] + [AEndFlushDone];
  }

  /** No flush is going on, and the event is set. */
  lemma StaleEvent(c: Config, t: State) returns (steps: seq<Action>)
    requires ValidConfig(c) && t == Empty([], 1, 0, Ok, false, true, true, Asleep, NotFlushing)
    ensures Leads(c, Initial(), steps, t)
  {
    var s1 := Empty([], 1, 0, SFalse, true, false, true, Asleep, Begun);
    var s2 := Empty([], 1, 0, SFalse, true, false, true, Asleep, Passed);
    var x := FirstSignal(c, s1);
    var y := SecondSignal(c, s1, s2);
    var z := FlushEnds(c, s2, t);
    Then(c, Initial(), x, s1, y, s2);
    Then(c, Initial(), x + y, s2, z, t);
    steps := x + y + z;
  }

  // ------------------------------------------------------------- up to a packet left behind

  /** Reset returns at once and leaves its packet in the worker's hand. */
  lemma ResetReturns(c: Config, s: State, t: State) returns (steps: seq<Action>)
    requires ValidConfig(c) && s == Empty([], 1, 0, Ok, false, true, true, Asleep, NotFlushing)
    requires t == Empty([], 0, 0, Ok, false, true, false, Finishing(ResetControl), NotFlushing)
    ensures Leads(c, s, steps, t)
  {
    var s1 := Empty([ResetPacket], 0, 1, Ok, false, true, true, Asleep, NotFlushing).(resetting := true);
    var s2 := Empty([ResetPacket], 0, 0, Ok, false, true, true, AtTop, NotFlushing).(resetting := true);
    var s3 := Empty([], 0, 0, Ok, false, true, true, Holding([], ResetControl), NotFlushing).(resetting := true);
    var s4 := Empty([], 0, 0, Ok, false, true, false, Holding([], ResetControl), NotFlushing);
    OneStep(c, s, AEnterReset, s1);
    AndThen(c, s, [AEnterReset], s1, AWorkerWake, s2);
    assert [ResetPacket][1..] == [];
    AndThen(c, s, [AEnterReset] + [AWorkerWake], s2, AWorkerTop, s3);
    AndThen(c, s, [AEnterReset] + [AWorkerWake] + [AWorkerTop], s3, ALeaveReset, s4);
    AndThen(c, s, [AEnterReset] + [AWorkerWake] + [AWorkerTop] + [ALeaveReset], s4, AWorkerStart, t);
    steps := [AEnterReset] + [AWorkerWake] + [AWorkerTop] + [ALeaveReset] + [AWorkerStart];
  }

  /** No call of Reset is going on and the event is clear, but a RESET packet is still to be handled. */
  lemma PacketLeftBehind(c: Config, t: State) returns (steps: seq<Action>)
    requires ValidConfig(c) && t == Empty([], 0, 0, Ok, false, true, false, Finishing(ResetControl), NotFlushing)
    ensures Leads(c, Initial(), steps, t)
  {
    var s := Empty([], 1, 0, Ok, false, true, true, Asleep, NotFlushing);
    var x := StaleEvent(c, s);
    var y := ResetReturns(c, s, t);
    Then(c, Initial(), x, s, y, t);
    steps := x + y;
  }

  // --------------------------------------------------------- a flush that flushes nothing

  /** A queue that has been given one sample and has not released it. */
  function Sampled(list: seq<Item>, hr: Hr, flushing: bool, flushed: bool, ev: bool, w: Worker, f: Flusher, sound: bool,
                   delivered: seq<Event>): State {
    State(list, [], 0, 0, hr, flushing, flushed, false, ev, w, f, false, sound, 1, [GotEos] + [GotSample(0)], delivered,
          multiset{})
  }

  lemma SampleComesIn(c: Config, s: State, t: State)
    requires s == Empty([], 0, 0, Ok, false, true, false, Finishing(ResetControl), NotFlushing)
    requires t == Sampled([Sample(0)], Ok, false, false, false, Finishing(ResetControl), NotFlushing, true, [])
    ensures Leads(c, s, [ASubmit(1)], t)
  {
    assert IdRange(0, 1) == [0] && SampleItems([0]) == [Sample(0)] && SampleEvents([0]) == [GotSample(0)];
    OneStep(c, s, ASubmit(1), t);
  }

  /** The worker handles its packet, and EndFlush finds the event set. */
  lemma FlushGoesBy(c: Config, s: State, t: State) returns (steps: seq<Action>)
    requires s == Sampled([Sample(0)], Ok, false, false, false, Finishing(ResetControl), NotFlushing, true, [])
    requires t == Sampled([Sample(0)], Ok, true, false, false, AtTop, Passed, false, [])
    ensures Leads(c, s, steps, t) && |steps| > 0 && steps[0] == ABeginFlush
  {
    var s1 := Sampled([Sample(0)], SFalse, true, false, false, Finishing(ResetControl), Begun, false, []);
    var s2 := Sampled([Sample(0)], Ok, true, false, true, AtTop, Begun, false, []);
    var s3 := Sampled([Sample(0)], Ok, true, false, true, AtTop, WaitingForWorker, false, []);
    OneStep(c, s, ABeginFlush, s1);
    AndThen(c, s, [ABeginFlush], s1, AWorkerFinish, s2);
    AndThen(c, s, [ABeginFlush] + [AWorkerFinish], s2, AEndFlushEnter, s3);
    AndThen(c, s, [ABeginFlush] + [AWorkerFinish] + [AEndFlushEnter], s3, AEndFlushWait, t);
    steps := [ABeginFlush] + [AWorkerFinish] + [AEndFlushEnter] + [AEndFlushWait];
  }

  lemma SampleQueued(c: Config, t: State) returns (steps: seq<Action>)
    requires ValidConfig(c)
    requires t == Sampled([Sample(0)], Ok, false, false, false, Finishing(ResetControl), NotFlushing, true, [])
    ensures Leads(c, Initial(), steps, t)
  {
    var s := Empty([], 0, 0, Ok, false, true, false, Finishing(ResetControl), NotFlushing);
    var x := PacketLeftBehind(c, s);
    SampleComesIn(c, s, t);
    Then(c, Initial(), x, s, [ASubmit(1)], t);
    steps := x + [ASubmit(1)];
  }

  /** From BeginFlush to the end of EndFlush. */
  lemma FlushInVain(c: Config, s: State, t: State) returns (steps: seq<Action>)
    requires s == Sampled([Sample(0)], Ok, false, false, false, Finishing(ResetControl), NotFlushing, true, [])
    requires t == Sampled([Sample(0)], Ok, false, true, false, AtTop, NotFlushing, false, [])
    ensures Leads(c, s, steps, t) && |steps| > 0 && steps[0] == ABeginFlush
  {
    var m := Sampled([Sample(0)], Ok, true, false, false, AtTop, Passed, false, []);
    var x := FlushGoesBy(c, s, m);
    var y := FlushEnds(c, m, t);
    Then(c, s, x, m, y, t);
    steps := x + y;
  }

  lemma CollectsOne(c: Config, q: seq<Item>) returns (rest: seq<Item>)
    requires ValidConfig(c) && q == [Sample(0), SendPacket]
    ensures WellTagged(q) && Collect(c, q, []) == Go(rest, [0], NoControl)
  {
    assert q[1..] == [SendPacket] && q[1..][1..] == [] && [] + [0] == [0];
    assert WellTagged([SendPacket]);
    rest := if c.batchSize == 1 then [SendPacket] else [];
  }

  lemma SampleTaken(c: Config, s: State, t: State, rest: seq<Item>)
    requires s.worker == AtTop && !s.terminate && !s.flushing && s.batch == []
    requires WellTagged(s.list) && Collect(c, s.list, []) == Go(rest, [0], NoControl) && s.hr == Ok
    requires t == s.(list := rest, worker := Delivering([0], NoControl), delivered := s.delivered + [GotSample(0)])
    ensures Leads(c, s, [AWorkerTop] + [AWorkerStart], t)
  {
    var m := s.(list := rest, worker := Holding([0], NoControl));
    assert SampleEvents([0]) == [GotSample(0)];
    OneStep(c, s, AWorkerTop, m);
    AndThen(c, s, [AWorkerTop], m, AWorkerStart, t);
  }

  /** SendAnyway, so that the sample goes out with exact batching as well. */
  lemma SampleGoesOut(c: Config, s: State) returns (steps: seq<Action>, t: State)
    requires ValidConfig(c) && s == Sampled([Sample(0)], Ok, false, true, false, AtTop, NotFlushing, false, [])
    ensures Leads(c, s, steps, t) && DeliveredIds(t.delivered) == [0]
  {
    var q := [Sample(0), SendPacket];
    assert [Sample(0)] + [SendPacket] == q;
    var m := Sampled(q, Ok, false, true, false, AtTop, NotFlushing, false, []);
    OneStep(c, s, ASend, m);
    var rest := CollectsOne(c, q);
    t := m.(list := rest, worker := Delivering([0], NoControl), delivered := [] + [GotSample(0)]);
    SampleTaken(c, m, t, rest);
    Then(c, s, [ASend], m, [AWorkerTop] + [AWorkerStart], t);
    steps := [ASend] + ([AWorkerTop] + [AWorkerStart]);
    assert [GotSample(0)][1..] == [] && DeliveredIds([GotSample(0)]) == [0];
  }
}
