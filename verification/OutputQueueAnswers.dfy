/** The sticky code m_hr over runs: what makes it fail, what makes it S_OK again, and what stops in between.
    And how the thread ends. */
module OutputQueueAnswers {
  import opened OutputQueueModel
  import opened OutputQueueLists
  import opened OutputQueueInvariant
  import opened OutputQueueTheorems

  /** The steps after which m_hr is S_OK again: a RESET packet is handled, or a flush ends. */
  predicate Revives(c: Config, s: State, a: Action) {
    || (a == AWorkerFinish && s.worker == Finishing(ResetControl))
    || a == AEndFlushDone
    || (a == AEndFlushEnter && c.flushOpt && s.flushed)
  }

  /** The steps after which it no longer is: downstream gives another answer, a flush begins, or the object goes. */
  predicate Fails(a: Action) {
    (a.AWorkerReturn? && a.answer != Ok) || a == ABeginFlush || a == ATerminate
  }

  lemma TakeBatchKeepsHr(c: Config, s: State)
    requires WellTagged(s.list)
    ensures var t := TakeBatch(c, s);
            t.hr == s.hr && t.delivered == s.delivered && t.submitted == s.submitted && t.terminate == s.terminate
  {
  }

  lemma TopKeepsHr(c: Config, s: State)
    requires WellTagged(s.list)
    ensures var t := WorkerTop(c, s);
            t.hr == s.hr && t.delivered == s.delivered && t.submitted == s.submitted && t.terminate == s.terminate
  {
    if !s.terminate { TakeBatchKeepsHr(c, DrainIfFlushing(s)); }
  }

  /** A failing m_hr becomes S_OK by these steps and no others... */
  lemma RevivesIff(c: Config, s: State, a: Action)
    requires Enabled(s, a) && s.hr != Ok
    ensures Apply(c, s, a).hr == Ok <==> Revives(c, s, a)
    ensures !Revives(c, s, a) && a != ATerminate ==> Apply(c, s, a).hr == s.hr
  {
    if a == AWorkerTop { TopKeepsHr(c, s); }
  }

  /** ...and one that is S_OK fails by these, with the answer given. */
  lemma FailsIff(c: Config, s: State, a: Action)
    requires Enabled(s, a) && s.hr == Ok
    ensures Apply(c, s, a).hr != Ok <==> Fails(a)
    ensures a.AWorkerReturn? ==> Apply(c, s, a).hr == a.answer
  {
    if a == AWorkerTop { TopKeepsHr(c, s); }
  }

  /** No step of the run makes m_hr S_OK again. */
  predicate NoRevival(c: Config, s: State, steps: seq<Action>)
    decreases |steps|
  {
    steps == [] ||
    (Enabled(s, steps[0]) && !Revives(c, s, steps[0]) && NoRevival(c, Apply(c, s, steps[0]), steps[1..]))
  }

  /** Nothing but segments has gone downstream between the two. */
  ghost predicate OnlySegments(before: seq<Event>, after: seq<Event>) {
    before <= after && forall i :: |before| <= i < |after| ==> after[i].GotSegment?
  }

  /** A client's samples are refused: released at once, and not queued. */
  predicate Refuses(c: Config, s: State, n: nat)
    requires Enabled(s, ASubmit(n))
  {
    var t := Apply(c, s, ASubmit(n));
    && t.released == s.released + multiset(IdRange(s.nextId, s.nextId + n))
    && t.list == s.list && t.batch == s.batch && t.submitted == s.submitted && t.hr == s.hr
  }

  lemma FailingStep(c: Config, s: State, a: Action)
    requires Enabled(s, a) && s.hr != Ok && !Revives(c, s, a)
    ensures var t := Apply(c, s, a);
            t.hr != Ok && OnlySegments(s.delivered, t.delivered) && OnlySegments(s.submitted, t.submitted)
  {
    RevivesIff(c, s, a);
    if a == AWorkerTop { TopKeepsHr(c, s); }
  }

  /** Once m_hr fails nothing but segments is delivered, no sample or end of stream is taken in, and what clients
      send is released, until a RESET packet is handled or a flush ends. */
  lemma {:induction false} FailureEndsDelivery(c: Config, s: State, steps: seq<Action>)
    requires s.hr != Ok && NoRevival(c, s, steps) && Run(c, s, steps).Reached?
    ensures var u := Run(c, s, steps).state;
            && u.hr != Ok && (ATerminate !in steps ==> u.hr == s.hr)
            && OnlySegments(s.delivered, u.delivered) && OnlySegments(s.submitted, u.submitted)
            && forall n :: Enabled(u, ASubmit(n)) ==> Refuses(c, u, n)
    decreases |steps|
  {
    if steps != [] {
      var a := steps[0];
      RevivesIff(c, s, a);
      FailingStep(c, s, a);
      FailureEndsDelivery(c, Apply(c, s, a), steps[1..]);
    }
  }

  /** So an answer from downstream other than S_OK ends delivery, with the batch in hand released. */
  lemma AnswerEndsDelivery(c: Config, s: State, answer: Hr, steps: seq<Action>)
    requires s.hr == Ok && s.worker.Delivering? && answer != Ok
    requires var t := Apply(c, s, AWorkerReturn(answer)); NoRevival(c, t, steps) && Run(c, t, steps).Reached?
    ensures var u := Run(c, Apply(c, s, AWorkerReturn(answer)), steps).state;
            && u.hr != Ok && (ATerminate !in steps ==> u.hr == answer)
            && OnlySegments(s.delivered, u.delivered) && OnlySegments(s.submitted, u.submitted)
            && forall n :: Enabled(u, ASubmit(n)) ==> Refuses(c, u, n)
  {
    FailsIff(c, s, AWorkerReturn(answer));
    FailureEndsDelivery(c, Apply(c, s, AWorkerReturn(answer)), steps);
  }

  // ------------------------------------------------------------------------------ SendAnyway

  /** Nothing is left, or a SEND packet comes last. */
  predicate Sending(s: State) {
    WellTagged(s.list) && if s.list == [] then s.batch == [] else s.list[|s.list| - 1] == SendPacket
  }

  /** A packet that comes last lets the collecting loop wait only with nothing collected. */
  lemma {:induction false} CollectSends(c: Config, list: seq<Item>, batch: seq<nat>)
    requires WellTagged(list) && list != [] && list[|list| - 1] == SendPacket
    ensures match Collect(c, list, batch)
            case Wait(b) => b == []
            case Go(rest, _, _) => WellTagged(rest) && (rest == [] || rest[|rest| - 1] == SendPacket)
    decreases list
  {
    match list[0]
    case Sample(id) => if |batch| + 1 != c.batchSize { CollectSends(c, list[1..], batch + [id]); }
    case SendPacket => if batch == [] && list[1..] != [] { CollectSends(c, list[1..], batch); }
    case _ =>
  }

  /** A batch that no packet follows is a full one, unless SendAnyway asks for what there is, or batching is not
      exact and there is no more. */
  lemma {:induction false} CollectIsWhole(c: Config, list: seq<Item>, batch: seq<nat>) returns (taken: seq<Item>)
    requires WellTagged(list)
    ensures match Collect(c, list, batch)
            case Wait(_) => true
            case Go(rest, t, k) =>
              && list == taken + rest
              && (k == NoControl ==> |t| == c.batchSize || (!c.exact && rest == [])
                                     || (taken != [] && taken[|taken| - 1] == SendPacket))
    decreases list
  {
    taken := [];
    if list != [] {
      match list[0]
      case Sample(id) =>
        if |batch| + 1 != c.batchSize { taken := CollectIsWhole(c, list[1..], batch + [id]); }
        taken := [list[0]] + taken;
      case SendPacket =>
        if batch == [] { taken := CollectIsWhole(c, list[1..], batch); }
        taken := [list[0]] + taken;
      case NewSegment => taken := list[..2];
      case EosPacket => taken := [list[0]];
      case ResetPacket => taken := [list[0]];
    }
  }

  predicate WorkerOnly(steps: seq<Action>) {
    forall a {:trigger a in steps} :: a in steps ==>
      a.AWorkerTop? || a.AWorkerWake? || a.AWorkerStart? || a.AWorkerReturn? || a.AWorkerRelease? || a.AWorkerFinish?
  }

  lemma TopSends(c: Config, s: State)
    requires Sending(s) && s.worker == AtTop
    ensures Sending(WorkerTop(c, s))
  {
    var d := DrainIfFlushing(s);
    if !s.terminate && d.list != [] { CollectSends(c, d.list, d.batch); }
  }

  lemma WorkerSends(c: Config, s: State, a: Action)
    requires Sending(s) && WorkerOnly([a]) && Enabled(s, a)
    ensures Sending(Apply(c, s, a))
  {
    assert a in [a];
    if a.AWorkerTop? { TopSends(c, s); }
  }

  lemma NotAllSamples(list: seq<Item>)
    requires list != [] && list[|list| - 1] == SendPacket
    ensures !(forall i :: i in list ==> i.Sample?)
  {
    assert list[|list| - 1] in list;
  }

  lemma {:induction false} StaysSending(c: Config, s: State, steps: seq<Action>)
    requires Sending(s) && WorkerOnly(steps) && Run(c, s, steps).Reached?
    ensures Sending(Run(c, s, steps).state)
    decreases |steps|
  {
    if steps != [] {
      var a := steps[0];
      assert a in steps && forall x :: x in steps[1..] ==> x in steps;
      WorkerSends(c, s, a);
      StaysSending(c, Apply(c, s, a), steps[1..]);
    }
  }

  /** SendAnyway, in exact mode too: once the worker then sleeps, nothing is left in the queue. */
  lemma SendAnywaySends(c: Config, s: State, steps: seq<Action>)
    requires Reachable(c, s) && Enabled(s, ASend) && WorkerOnly(steps) && Run(c, Apply(c, s, ASend), steps).Reached?
    requires var u := Run(c, Apply(c, s, ASend), steps).state; u.worker == Asleep && u.waiting == 1
    ensures Held(Run(c, Apply(c, s, ASend), steps).state) == []
  {
    var t := Apply(c, s, ASend);
    SendQueued(c, s);
    StaysSending(c, t, steps);
    var u := Run(c, t, steps).state;
    if u.list != [] { NotAllSamples(u.list); }
    ReachableInv(c, s);
    StepInv(c, s, ASend);
    RunInv(c, t, steps);
  }

  lemma SendQueued(c: Config, s: State)
    requires Reachable(c, s) && Enabled(s, ASend)
    ensures Sending(Apply(c, s, ASend))
  {
    ReachableInv(c, s);
    TaggedConcat(s.list, [SendPacket]);
  }

  // -------------------------------------------------------------------------------- the end

  /** A worker told to end has been woken, and one that has ended has released everything. */
  ghost predicate Ending(s: State) {
    && (s.terminate ==> s.waiting == 0)
    && (s.worker == Exited ==> s.terminate && Held(s) == [])
  }

  lemma TopEnding(c: Config, s: State)
    requires Ending(s) && Enabled(s, AWorkerTop)
    ensures Ending(WorkerTop(c, s))
  {
    if s.terminate { assert Held(FreeSamples(s, Exited, s.evFlush)) == []; } else { TopKeepsHr(c, s); }
  }

  lemma EndingStep(c: Config, s: State, a: Action)
    requires Ending(s) && Enabled(s, a)
    ensures Ending(Apply(c, s, a))
  {
    if a.AWorkerTop? {
      TopEnding(c, s);
    }
  }

  lemma {:induction false} EndingRun(c: Config, s: State, steps: seq<Action>)
    requires Ending(s) && Run(c, s, steps).Reached?
    ensures Ending(Run(c, s, steps).state)
    decreases |steps|
  {
    if steps != [] {
      EndingStep(c, s, steps[0]);
      EndingRun(c, Apply(c, s, steps[0]), steps[1..]);
    }
  }

  /** The destructor, which waits for the thread, is not stuck: the worker can step or is in the downstream call
      until it has ended, and then every sample has been released. */
  lemma DestructorIsNotStuck(c: Config, s: State)
    requires Reachable(c, s) && s.terminate
    ensures s.worker != Exited ==> WorkerCanStep(s)
    ensures s.worker == Exited ==> Held(s) == []
  {
    ReachableInv(c, s);
    ReachableEnding(c, s);
    if s.worker != Exited { EndsOrSteps(c, s); }
  }

  lemma ReachableEnding(c: Config, s: State)
    requires Reachable(c, s)
    ensures Ending(s)
  {
    var steps :| Run(c, Initial(), steps) == Reached(s);
    EndingRun(c, Initial(), steps);
  }

  lemma EndsOrSteps(c: Config, s: State)
    requires WellTagged(s.list) && Tokens(s) && Ending(s) && s.terminate && s.worker != Exited
    ensures WorkerCanStep(s)
  {
    assert s.worker == Asleep ==> Enabled(s, AWorkerWake);
  }

  /** The next time it comes round it ends. */
  lemma TerminatedWorkerEnds(c: Config, s: State)
    requires Reachable(c, s) && s.terminate && s.worker == AtTop
    ensures Enabled(s, AWorkerTop) && Apply(c, s, AWorkerTop).worker == Exited
  {
    ReachableInv(c, s);
  }
}
