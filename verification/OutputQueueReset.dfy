/** Reset() is meant to return once the worker has handled its packet.  It shares its event with the
    flush, and the worker can set that event twice in one flush, so the promise needs a condition; and a call
    that has returned early leaves its packet to answer the next one. */
module OutputQueueReset {
  import opened OutputQueueModel
  import opened OutputQueueLists
  import opened OutputQueueInvariant
  import opened OutputQueueRuns

  /** RESET packets queued or in the worker's hand. */
  function ResetsPending(s: State): nat {
    multiset(s.list)[ResetPacket] + if ControlInHand(s.worker) == ResetControl then 1 else 0
  }

  /** At most one packet or one signal for the thread inside Reset(). */
  ghost predicate OneReset(s: State) {
    && s.resetting && s.flusher == NotFlushing && !s.flushing
    && WellTagged(s.list)
    && ResetsPending(s) + (if s.evFlush then 1 else 0) <= 1
  }

  lemma NonePendingIsNoReset(s: State)
    ensures ResetsPending(s) == 0 <==> NoReset(s)
  {
    assert ResetPacket in s.list <==> multiset(s.list)[ResetPacket] > 0;
  }

  lemma TailCount(list: seq<Item>)
    requires list != []
    ensures multiset(list)[ResetPacket] == multiset(list[1..])[ResetPacket] + if list[0] == ResetPacket then 1 else 0
  {
    assert list == [list[0]] + list[1..];
  }

  /** The collecting loop takes a RESET packet off the list only into the worker's hand. */
  lemma {:induction false} CollectKeepsResets(c: Config, list: seq<Item>, batch: seq<nat>)
    requires WellTagged(list)
    ensures match Collect(c, list, batch)
            case Wait(_) => multiset(list)[ResetPacket] == 0
            case Go(rest, _, k) =>
              multiset(rest)[ResetPacket] + (if k == ResetControl then 1 else 0) == multiset(list)[ResetPacket]
    decreases list
  {
    if list != [] {
      TailCount(list);
      match list[0]
      case Sample(id) => if |batch| + 1 != c.batchSize { CollectKeepsResets(c, list[1..], batch + [id]); }
      case SendPacket => if batch == [] { CollectKeepsResets(c, list[1..], batch); }
      case NewSegment => TailCount(list[1..]);
      case _ =>
    }
  }

  lemma EnqueueOneReset(s: State, q: seq<Item>, es: seq<Event>, n: nat, flushed: bool, wake: bool)
    requires OneReset(s) && WellTagged(q) && ResetPacket !in q
    ensures OneReset(Enqueue(s, q, es, n, flushed, s.resetting, wake))
  {
    TaggedConcat(s.list, q);
    assert multiset(s.list + q) == multiset(s.list) + multiset(q);
  }

  lemma RefusedOneReset(c: Config, s: State, n: nat)
    requires OneReset(s) && s.hr != Ok
    ensures OneReset(Submit(c, s, n))
  {
  }

  lemma AcceptedOneReset(c: Config, s: State, n: nat)
    requires OneReset(s) && s.hr == Ok
    ensures OneReset(Submit(c, s, n))
  {
    var ids := IdRange(s.nextId, s.nextId + n);
    var q, wake := SampleItems(ids), !c.exact || |s.batch| + |s.list| + n >= c.batchSize;
    SampleItemsFacts(ids);
    EnqueueOneReset(s, q, SampleEvents(ids), n, false, wake);
    assert Submit(c, s, n) == Enqueue(s, q, SampleEvents(ids), n, false, s.resetting, wake);
  }

  lemma ClientOneReset(c: Config, s: State, a: Action)
    requires OneReset(s) && Enabled(s, a) && (a.ASubmit? || a.AEos? || a.ASegment? || a.ASend?)
    ensures OneReset(Apply(c, s, a))
  {
    match a
    case ASubmit(n) => if s.hr == Ok { AcceptedOneReset(c, s, n); } else { RefusedOneReset(c, s, n); }
    case AEos => EnqueueOneReset(s, [EosPacket], [GotEos], 0, false, true);
    case ASegment(g) =>
      assert [NewSegment, Params(g)][2..] == [];
      EnqueueOneReset(s, [NewSegment, Params(g)], [GotSegment(g)], 0, s.flushed, true);
    case ASend => EnqueueOneReset(s, [SendPacket], [], 0, s.flushed, true);
  }

  lemma TopOneReset(c: Config, s: State)
    requires ValidConfig(c) && |s.batch| < c.batchSize && OneReset(s) && s.worker == AtTop
    ensures OneReset(WorkerTop(c, s))
  {
    if !s.terminate {
      CollectKeepsResets(c, s.list, s.batch);
      CollectShape(c, s.list, s.batch);
    }
  }

  lemma StepOneReset(c: Config, s: State, a: Action)
    requires Inv(c, s) && OneReset(s) && Enabled(s, a) && a != ALeaveReset
    ensures OneReset(Apply(c, s, a))
  {
    if a.ASubmit? || a.AEos? || a.ASegment? || a.ASend? {
      ClientOneReset(c, s, a);
    } else if a == AWorkerTop {
      TopOneReset(c, s);
    }
  }

  lemma {:induction false} RunOneReset(c: Config, s: State, steps: seq<Action>)
    requires Inv(c, s) && OneReset(s) && ALeaveReset !in steps && Run(c, s, steps).Reached?
    ensures OneReset(Run(c, s, steps).state)
    decreases |steps|
  {
    if steps != [] {
      StepOneReset(c, s, steps[0]);
      StepInv(c, s, steps[0]);
      RunOneReset(c, Apply(c, s, steps[0]), steps[1..]);
    }
  }

  /** Every way for the call entered at s to return leaves no RESET packet behind. */
  ghost predicate ResetIsSynchronous(c: Config, s: State)
    requires Enabled(s, AEnterReset)
  {
    forall steps :: ALeaveReset !in steps && Run(c, EnterReset(s), steps).Reached?
                    && Enabled(Run(c, EnterReset(s), steps).state, ALeaveReset)
                    ==> NoReset(Run(c, EnterReset(s), steps).state)
  }

  lemma StaleEventReturns(c: Config, s: State)
    requires Enabled(s, AEnterReset) && s.evFlush
    ensures !ResetIsSynchronous(c, s)
  {
    var t := EnterReset(s);
    assert Run(c, t, []) == Reached(t) && Enabled(t, ALeaveReset);
    assert t.list[|s.list|] == ResetPacket;
  }

  lemma EnterOneReset(c: Config, s: State)
    requires WellTagged(s.list) && FlushFlags(s) && Enabled(s, AEnterReset) && NoReset(s) && !s.evFlush
    ensures OneReset(EnterReset(s))
  {
    var t := EnterReset(s);
    NonePendingIsNoReset(s);
    assert multiset(t.list) == multiset(s.list) + multiset{ResetPacket};
    TaggedConcat(s.list, [ResetPacket]);
  }

  lemma ClearEventWaits(c: Config, s: State)
    requires Inv(c, s) && Enabled(s, AEnterReset) && NoReset(s) && !s.evFlush
    ensures ResetIsSynchronous(c, s)
  {
    var t := EnterReset(s);
    StepInv(c, s, AEnterReset);
    EnterOneReset(c, s);
    forall steps | ALeaveReset !in steps && Run(c, t, steps).Reached? && Enabled(Run(c, t, steps).state, ALeaveReset)
      ensures NoReset(Run(c, t, steps).state)
    {
      RunOneReset(c, t, steps);
      NonePendingIsNoReset(Run(c, t, steps).state);
    }
  }

  // -------------------------------------------------- with an earlier packet still pending

  /** A thread waits in Reset(), and there is a RESET packet to be handled before its own. */
  ghost predicate Chased(s: State) {
    && WellTagged(s.list) && s.resetting && !s.flushing && !s.terminate
    && s.worker != Exited && (s.worker == Asleep ==> s.sem > 0)
    && ResetsPending(s) >= 2
  }

  function WorkerStep(w: Worker): Action {
    match w
    case Asleep => AWorkerWake
    case AtTop => AWorkerTop
    case Holding(_, _) => AWorkerStart
    case Delivering(_, _) => AWorkerReturn(Ok)
    case Releasing(_, _) => AWorkerRelease
    case _ => AWorkerFinish
  }

  /** How far the worker is from entering its critical section. */
  function Stage(w: Worker): nat {
    match w
    case Holding(_, _) => 4
    case Delivering(_, _) => 3
    case Releasing(_, _) => 2
    case AtTop => 0
    case _ => 1
  }

  lemma {:induction false} CollectShrinks(c: Config, list: seq<Item>, batch: seq<nat>)
    requires WellTagged(list) && list != []
    ensures match Collect(c, list, batch)
            case Wait(_) => true
            case Go(rest, _, _) => |rest| < |list| && WellTagged(rest)
    decreases list
  {
    match list[0]
    case Sample(id) =>
      if |batch| + 1 != c.batchSize && list[1..] != [] { CollectShrinks(c, list[1..], batch + [id]); }
    case SendPacket => if batch == [] && list[1..] != [] { CollectShrinks(c, list[1..], batch); }
    case _ =>
  }

  lemma TopChased(c: Config, s: State)
    requires Chased(s) && s.worker == AtTop
    ensures Enabled(s, AWorkerTop)
    ensures var t := WorkerTop(c, s); Chased(t) && |t.list| < |s.list|
  {
    CollectKeepsResets(c, s.list, s.batch);
    CollectShrinks(c, s.list, s.batch);
  }

  lemma WorkerChased(c: Config, s: State)
    requires Chased(s) && s.worker != AtTop && s.worker != Finishing(ResetControl)
    ensures Enabled(s, WorkerStep(s.worker))
    ensures var t := Apply(c, s, WorkerStep(s.worker));
            Chased(t) && t.list == s.list && Stage(t.worker) < Stage(s.worker)
  {
    match s.worker
    case Asleep => assert Chased(WorkerWake(s));
    case Holding(_, _) => assert Chased(WorkerStart(s));
    case Delivering(_, _) => assert Chased(WorkerReturn(s, Ok));
    case Releasing(_, _) => assert Chased(WorkerRelease(s));
    case Finishing(_) => assert Chased(WorkerFinish(s));
  }

  /** The worker comes to the earlier packet, and the thread inside Reset() finds the event set. */
  lemma {:induction false} EarlierPacketAnswers(c: Config, s: State) returns (steps: seq<Action>)
    requires Chased(s)
    ensures ALeaveReset !in steps && Run(c, s, steps).Reached?
    ensures var t := Run(c, s, steps).state; Enabled(t, ALeaveReset) && !NoReset(t)
    decreases |s.list|, Stage(s.worker)
  {
    var a := WorkerStep(s.worker);
    if s.worker == Finishing(ResetControl) {
      steps := [AWorkerFinish];
      assert steps[1..] == [] && multiset(s.list)[ResetPacket] > 0;
      NonePendingIsNoReset(WorkerFinish(s));
      assert Run(c, s, steps) == Reached(WorkerFinish(s));
    } else {
      if s.worker == AtTop { TopChased(c, s); } else { WorkerChased(c, s); }
      var rest := EarlierPacketAnswers(c, Apply(c, s, a));
      steps := [a] + rest;
      assert steps[1..] == rest;
    }
  }

  lemma PendingResetReturns(c: Config, s: State)
    requires Inv(c, s) && Enabled(s, AEnterReset) && !NoReset(s)
    ensures !ResetIsSynchronous(c, s)
  {
    var t := EnterReset(s);
    EnteredBehind(s);
    var steps := EarlierPacketAnswers(c, t);
  }

  lemma EnteredBehind(s: State)
    requires WellTagged(s.list) && Tokens(s) && FlushFlags(s) && Enabled(s, AEnterReset) && !NoReset(s)
    ensures Chased(EnterReset(s))
  {
    var t := EnterReset(s);
    NonePendingIsNoReset(s);
    assert multiset(t.list) == multiset(s.list) + multiset{ResetPacket};
    TaggedConcat(s.list, [ResetPacket]);
  }

  /** Reset() waits for its own packet exactly when, on entry, the event is clear and no packet of an earlier call
      is still to be handled. */
  lemma ResetWaitsIff(c: Config, s: State)
    requires Inv(c, s) && Enabled(s, AEnterReset)
    ensures ResetIsSynchronous(c, s) <==> !s.evFlush && NoReset(s)
  {
    if s.evFlush {
      StaleEventReturns(c, s);
    } else if NoReset(s) {
      ClearEventWaits(c, s);
    } else {
      PendingResetReturns(c, s);
    }
  }

  // ------------------------------------------------------------------- both do happen

  /** Though its calls come one after another, a client can call Reset() with the event set... */
  lemma ResetCanReturnEarly(c: Config) returns (steps: seq<Action>, s: State)
    requires ValidConfig(c)
    ensures Leads(c, Initial(), steps, s) && Enabled(s, AEnterReset) && !InCall(s)
    ensures s.evFlush && NoReset(s) && !ResetIsSynchronous(c, s)
  {
    s := Empty([], 1, 0, Ok, false, true, true, Asleep, NotFlushing);
    steps := StaleEvent(c, s);
    StaleEventReturns(c, s);
  }

  /** ...and, that call having returned early, again before its packet has been handled. */
  lemma NextResetReturnsEarlyToo(c: Config) returns (steps: seq<Action>, s: State)
    requires ValidConfig(c)
    ensures Leads(c, Initial(), steps, s) && Enabled(s, AEnterReset) && !InCall(s)
    ensures !s.evFlush && !NoReset(s) && !ResetIsSynchronous(c, s)
  {
    s := Empty([], 0, 0, Ok, false, true, false, Finishing(ResetControl), NotFlushing);
    steps := PacketLeftBehind(c, s);
    InitialInv(c);
    RunInv(c, Initial(), steps);
    PendingResetReturns(c, s);
  }
}
