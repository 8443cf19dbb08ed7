/** COutputQueue in queued mode, as it is written: fields, loops and an array for the batch.
    Each method is one atomic step and is proved to be the step of the same name in the model, so the
    model's invariant and its theorems hold of the object.  `Laid` is what the array itself needs. */
module OutputQueueObject {
  import opened OutputQueueModel
  import opened OutputQueueLists

  /** Where the worker thread is; its locals are the fields numberToSend and control. */
  datatype Pc = PcTop | PcAsleep | PcHolding | PcDelivering | PcReleasing | PcFinishing | PcExited

  class OutputQueue {
    const config: Config
    const samples: array<nat>        // m_ppSamples
    var list: seq<Item>
    var nBatched: nat
    var waiting: nat
    var sem: nat
    var hr: Hr
    var flushing: bool
    var flushed: bool
    var terminate: bool
    var evFlush: bool

    var pc: Pc
    var numberToSend: nat
    var control: Control

    var flusher: Flusher
    var resetting: bool

    ghost var sound: bool
    ghost var nextId: nat
    ghost var submitted: seq<Event>
    ghost var delivered: seq<Event>
    ghost var released: multiset<nat>

    /** The samples being sent stay in the array while the batch count is already zero. */
    ghost function WorkerOf(): Worker
      reads this, samples
    {
      var hand := if numberToSend <= samples.Length then samples[..numberToSend] else [];
      match pc
      case PcTop => AtTop
      case PcAsleep => Asleep
      case PcHolding => Holding(hand, control)
      case PcDelivering => Delivering(hand, control)
      case PcReleasing => Releasing(hand, control)
      case PcFinishing => Finishing(control)
      case PcExited => Exited
    }

    ghost function Batch(): seq<nat>
      reads this, samples
    {
      if nBatched <= samples.Length then samples[..nBatched] else []
    }

    ghost function State(): State
      reads this, samples
    {
      OutputQueueModel.State(list, Batch(), waiting, sem, hr, flushing, flushed, terminate, evFlush,
                             WorkerOf(), flusher, resetting, sound, nextId, submitted, delivered, released)
    }

    /** Array bounds and the worker's claim on the array. */
    ghost predicate Laid()
      reads `nBatched, `numberToSend, `pc
    {
      && samples.Length == config.batchSize
      && nBatched < samples.Length
      && numberToSend <= samples.Length
      && (pc == PcHolding || pc == PcDelivering || pc == PcReleasing ==> nBatched == 0)
    }

    constructor (c: Config)
      requires ValidConfig(c)
      ensures Laid() && config == c && fresh(samples)
      ensures State() == Initial()
    {
      config := c;
      samples := new nat[c.batchSize];
      list, nBatched, waiting, sem, hr := [], 0, 0, 0, Ok;
      flushing, flushed, terminate, evFlush := false, true, false, false;
      pc, numberToSend, control := PcTop, 0, NoControl;
      flusher, resetting := NotFlushing, false;
      sound, nextId, submitted, delivered, released := true, 0, [], [], multiset{};
    }

    method QueueSample(i: Item)
      modifies this`list
      ensures list == old(list) + [i]
    {
      list := list + [i];
    }

    method NotifyThread()
      modifies this`sem, this`waiting
      ensures sem == old(sem) + old(waiting) && waiting == 0
    {
      if waiting != 0 {
        sem := sem + waiting;
        waiting := 0;
      }
    }

    method NotifyIf(enough: bool)
      modifies this`sem, this`waiting
      ensures sem == (if enough then old(sem) + old(waiting) else old(sem))
      ensures waiting == if enough then 0 else old(waiting)
    {
      if enough { NotifyThread(); }
    }

    method ReleaseAll(pp: seq<nat>)
      modifies this`released
      ensures released == old(released) + multiset(pp)
    {
      var i := 0;
      while i < |pp|
        invariant 0 <= i <= |pp|
        invariant released == old(released) + multiset(pp[..i])
      {
        assert pp[..i + 1] == pp[..i] + [pp[i]];
        released := released + multiset{pp[i]};
        i := i + 1;
      }
      assert pp[..i] == pp;
    }

    method QueueAll(pp: seq<nat>)
      modifies this`list
      ensures list == old(list) + SampleItems(pp)
    {
      var i := 0;
      while i < |pp|
        invariant 0 <= i <= |pp|
        invariant list == old(list) + SampleItems(pp[..i])
      {
        assert SampleItems(pp[..i + 1]) == SampleItems(pp[..i]) + [Sample(pp[i])];
        QueueSample(Sample(pp[i]));
        i := i + 1;
      }
      assert pp[..i] == pp;
    }

    /** Samples are numbered as they arrive; on return each has been queued or released. */
    method ReceiveMultiple(pp: seq<nat>) returns (r: Hr, processed: nat)
      requires Laid() && !terminate && pp == IdRange(nextId, nextId + |pp|)
      modifies this
      ensures Laid()
      ensures State() == Submit(config, old(State()), |pp|)
      ensures r == old(hr) && processed == if r == Ok then |pp| else 0
    {
      r := hr;
      if hr != Ok {
        processed := 0;
        ReleaseAll(pp);
        nextId := nextId + |pp|;
      } else {
        Accept(pp);
        processed := |pp|;
      }
    }

    method Accept(pp: seq<nat>)
      modifies this`flushed, this`list, this`sem, this`waiting, this`submitted, this`nextId
      ensures State() == Enqueue(old(State()), SampleItems(pp), SampleEvents(pp), |pp|, false, resetting,
                                 !config.exact || nBatched + |list| >= config.batchSize)
    {
      Store(pp);
      NotifyIf(!config.exact || nBatched + |list| >= config.batchSize);
    }

    method Store(pp: seq<nat>)
      modifies this`flushed, this`list, this`submitted, this`nextId
      ensures State() == Enqueue(old(State()), SampleItems(pp), SampleEvents(pp), |pp|, false, resetting, false)
    {
      flushed := false;
      QueueAll(pp);
      Record(SampleEvents(pp), |pp|);
    }

    ghost method Record(es: seq<Event>, n: nat)
      modifies this`submitted, this`nextId
      ensures State() == old(State()).(submitted := old(submitted) + es, nextId := old(nextId) + n)
    {
      submitted := submitted + es;
      nextId := nextId + n;
    }

    method EOS()
      requires Laid() && !terminate
      modifies this`flushed, this`list, this`sem, this`waiting, this`submitted
      ensures State() == QueueEos(old(State()))
    {
      if hr == Ok { AcceptEos(); }
    }

    method AcceptEos()
      modifies this`flushed, this`list, this`sem, this`waiting, this`submitted
      ensures State() == Enqueue(old(State()), [EosPacket], [GotEos], 0, false, resetting, true)
    {
      flushed := false;
      QueueSample(EosPacket);
      NotifyThread();
      submitted := submitted + [GotEos];
    }

    /** The locked part of NewSegment: tag and packet go in together. */
    method NewSegmentLocked(g: Segment)
      requires Laid() && !terminate
      modifies this`list, this`sem, this`waiting, this`submitted
      ensures State() == QueueSegment(old(State()), g)
    {
      assert list + [NewSegment] + [Params(g)] == list + [NewSegment, Params(g)];
      QueueSample(NewSegment);
      QueueSample(Params(g));
      NotifyThread();
      submitted := submitted + [GotSegment(g)];
    }

    method SendAnyway()
      requires Laid() && !terminate
      modifies this`list, this`sem, this`waiting
      ensures State() == QueueSend(old(State()))
    {
      assert submitted + [] == submitted;
      QueueSample(SendPacket);
      NotifyThread();
    }

    method ResetEnter()
      requires Laid() && Enabled(State(), AEnterReset)
      modifies this`list, this`sem, this`waiting, this`resetting
      ensures State() == EnterReset(old(State()))
    {
      assert submitted + [] == submitted;
      QueueSample(ResetPacket);
      NotifyThread();
      resetting := true;
    }

    method BeginFlushLocked() returns (downstream: bool)
      requires Laid() && Enabled(State(), ABeginFlush)
      modifies this`flusher, this`flushing, this`hr, this`evFlush, this`sem, this`waiting, this`sound
      ensures State() == BeginFlush(config, old(State()))
      ensures downstream <==> !(flushed && config.flushOpt)
    {
      RaiseFlush();
      downstream := !(flushed && config.flushOpt);
      if downstream { CallWorker(); }
    }

    method RaiseFlush()
      modifies this`flusher, this`flushing, this`hr, this`sound
      ensures flusher == Begun && flushing && hr == if old(hr) == Ok then SFalse else old(hr)
      ensures sound == BeginsWell(config, old(State()))
    {
      sound := BeginsWell(config, State());
      flusher := Begun;
      flushing := true;
      if hr == Ok {
        hr := SFalse;
      }
    }

    /** Make sure the worker comes round, and that EndFlush waits for it. */
    method CallWorker()
      modifies this`evFlush, this`sem, this`waiting
      ensures State() == old(State()).(evFlush := false, sem := old(sem) + old(waiting), waiting := 0)
    {
      evFlush := false;
      NotifyThread();
    }

    method EndFlushLocked() returns (mustWait: bool)
      requires Laid() && Enabled(State(), AEndFlushEnter)
      modifies this`flusher, this`flushing, this`hr
      ensures State() == EndFlushEnter(config, old(State()))
      ensures mustWait <==> flusher == WaitingForWorker
    {
      mustWait := !(config.flushOpt && flushed);
      if mustWait {
        flusher := WaitingForWorker;
      } else {
        flushing := false;
        hr := Ok;
        flusher := NotFlushing;
      }
    }

    /** The rest of EndFlush once its wait is over, field by field without the lock. */
    method ClearFlushing()
      requires Enabled(State(), AEndFlushClear)
      modifies this`flushing, this`flusher
      ensures State() == EndFlushClear(old(State()))
    {
      flushing := false;
      flusher := Cleared;
    }

    method SetFlushed()
      requires Enabled(State(), AEndFlushMark)
      modifies this`flushed, this`flusher
      ensures State() == EndFlushMark(old(State()))
    {
      flushed := true;
      flusher := Marked;
    }

    method ResumeAfterFlush()
      requires Enabled(State(), AEndFlushDone)
      modifies this`hr, this`flusher
      ensures State() == EndFlushDone(old(State()))
    {
      hr := Ok;
      flusher := NotFlushing;
    }

    method Terminate()
      requires Laid() && !terminate
      modifies this
      ensures Laid()
      ensures State() == OutputQueueModel.Terminate(old(State()))
    {
      terminate := true;
      hr := SFalse;
      NotifyThread();
    }

    // ------------------------------------------------------------------- the worker

    method FreeList()
      requires WellTagged(list)
      modifies this`list, this`released
      ensures list == []
      ensures released == old(released) + multiset(Ids(old(list)))
    {
      while list != []
        invariant WellTagged(list)
        invariant released + multiset(Ids(list)) == old(released) + multiset(Ids(old(list)))
        decreases |list|
      {
        var item := list[0];
        if item == NewSegment {
          assert Ids(list[1..]) == Ids(list[2..]);
          list := list[2..];
        } else {
          if item.Sample? {
            assert Ids(list) == [item.id] + Ids(list[1..]);
            released := released + multiset{item.id};
          }
          list := list[1..];
        }
      }
    }

    method FreeBatch()
      requires nBatched <= samples.Length
      modifies this`nBatched, this`released
      ensures nBatched == 0
      ensures released == old(released) + multiset(samples[..old(nBatched)])
    {
      var i := 0;
      while i < nBatched
        invariant 0 <= i <= nBatched == old(nBatched)
        invariant released == old(released) + multiset(samples[..i])
      {
        assert samples[..i + 1] == samples[..i] + [samples[i]];
        released := released + multiset{samples[i]};
        i := i + 1;
      }
      nBatched := 0;
    }

    /** Release every sample in the list and in the batch, delete every segment packet. */
    method FreeSamples()
      requires Laid() && WellTagged(list) && (pc == PcTop)
      modifies this`list, this`nBatched, this`released
      ensures Laid()
      ensures State() == OutputQueueModel.FreeSamples(old(State()), AtTop, evFlush)
    {
      FreeList();
      FreeBatch();
    }

    /** The locked part of ThreadProc: take entries off the list until there is something to send,
        something to obey, or nothing to do but wait. */
    method WorkerSection()
      requires Laid() && pc == PcTop && WellTagged(list)
      modifies this, samples
      ensures Laid()
      ensures State() == WorkerTop(config, old(State()))
    {
      if terminate {
        FreeSamples();
        pc := PcExited;
        return;
      }
      Drain();
      CollectBatch();
    }

    method Drain()
      requires Laid() && pc == PcTop && WellTagged(list)
      modifies this`list, this`nBatched, this`released, this`evFlush
      ensures Laid() && State() == DrainIfFlushing(old(State()))
    {
      if flushing {
        FreeSamples();
        evFlush := true;
      }
    }

    /** The loop proper.  Of the flags it tests, m_bTerminate is set under the lock; EndFlush clears m_bFlushing
        without it, which makes no difference to a loop that has found the flag set, as list and batch are then
        empty. */
    method CollectLoop() returns (wait: bool)
      requires samples.Length == config.batchSize && nBatched < samples.Length && WellTagged(list)
      modifies this`list, this`nBatched, this`control, samples
      ensures nBatched <= samples.Length
      ensures Collect(config, old(list), old(samples[..nBatched]))
              == if wait then Wait(samples[..nBatched]) else Go(list, samples[..nBatched], control)
      ensures wait ==> list == [] && nBatched < samples.Length
    {
      ghost var goal := Collect(config, list, samples[..nBatched]);
      var done := false;
      wait, control := false, NoControl;
      while !done
        invariant nBatched <= samples.Length && WellTagged(list)
        invariant !done ==> !wait && nBatched < samples.Length && control == NoControl
        invariant !done ==> Collect(config, list, samples[..nBatched]) == goal
        invariant wait ==> list == [] && nBatched < samples.Length && goal == Wait(samples[..nBatched])
        invariant done && !wait ==> goal == Go(list, samples[..nBatched], control)
        decreases !done, |list|
      {
        if list == [] {
          wait := config.exact || nBatched == 0;
          done := true;
        } else {
          var item := list[0];
          match item
          case Sample(id) =>
            Put(id);
            list := list[1..];
            done := nBatched == config.batchSize;
          case SendPacket =>
            list := list[1..];
            done := nBatched != 0;
          case EosPacket =>
            list, control, done := list[1..], EosControl, true;
          case ResetPacket =>
            list, control, done := list[1..], ResetControl, true;
          case NewSegment =>
            list, control, done := list[2..], SegmentControl(list[1].segment), true;
        }
      }
    }

    method Put(id: nat)
      requires nBatched < samples.Length
      modifies this`nBatched, samples
      ensures nBatched == old(nBatched) + 1 && samples[..nBatched] == old(samples[..nBatched]) + [id]
    {
      samples[nBatched] := id;
      nBatched := nBatched + 1;
    }

    /** Leave the critical section either to sleep or with a batch in hand. */
    method CollectBatch()
      requires Laid() && pc == PcTop && WellTagged(list)
      modifies this, samples
      ensures Laid()
      ensures State() == TakeBatch(config, old(State()))
    {
      var wait := CollectLoop();
      if wait { FallAsleep(); } else { TakeInHand(); }
    }

    method FallAsleep()
      requires pc == PcTop && nBatched <= samples.Length
      modifies this`waiting, this`pc
      ensures State() == old(State()).(waiting := old(waiting) + 1, worker := Asleep) && pc == PcAsleep
    {
      waiting := waiting + 1;
      pc := PcAsleep;
    }

    method TakeInHand()
      requires pc == PcTop && 0 < samples.Length && nBatched <= samples.Length
      modifies this`numberToSend, this`nBatched, this`pc
      ensures State() == old(State()).(batch := [], worker := Holding(old(Batch()), control))
      ensures numberToSend == old(nBatched) && nBatched == 0 && pc == PcHolding
    {
      numberToSend := nBatched;
      nBatched := 0;
      pc := PcHolding;
    }

    method WorkerWakes()
      requires Laid() && pc == PcAsleep && sem > 0
      modifies this
      ensures Laid()
      ensures State() == WorkerWake(old(State()))
    {
      sem := sem - 1;
      pc := PcTop;
    }

    /** Out of the lock: call downstream if m_hr still allows it. */
    method WorkerStarts()
      requires Laid() && pc == PcHolding
      modifies this
      ensures Laid()
      ensures State() == WorkerStart(old(State()))
    {
      assert delivered + [] == delivered;
      if numberToSend == 0 {
        pc := PcFinishing;
      } else if hr == Ok {
        delivered := delivered + SampleEvents(samples[..numberToSend]);
        pc := PcDelivering;
      } else {
        pc := PcReleasing;
      }
    }

    /** The downstream call has returned; a flushing code is not overwritten. */
    method WorkerReturns(answer: Hr)
      requires Laid() && pc == PcDelivering
      modifies this
      ensures Laid()
      ensures State() == WorkerReturn(old(State()), answer)
    {
      if hr == Ok {
        hr := answer;
      }
      pc := PcReleasing;
    }

    method WorkerReleases()
      requires Laid() && pc == PcReleasing
      modifies this
      ensures Laid()
      ensures State() == WorkerRelease(old(State()))
    {
      ReleaseHand();
      pc := PcFinishing;
    }

    method ReleaseHand()
      requires numberToSend <= samples.Length
      modifies this`numberToSend, this`released
      ensures numberToSend == 0
      ensures released == old(released) + multiset(samples[..old(numberToSend)])
    {
      while numberToSend != 0
        invariant numberToSend <= old(numberToSend)
        invariant released + multiset(samples[..numberToSend]) == old(released) + multiset(samples[..old(numberToSend)])
      {
        assert samples[..numberToSend] == samples[..numberToSend - 1] + [samples[numberToSend - 1]];
        numberToSend := numberToSend - 1;
        released := released + multiset{samples[numberToSend]};
      }
      assert samples[..0] == [];
    }

    /** Act on the control packet that ended the critical section. */
    method WorkerFinishes()
      requires Laid() && pc == PcFinishing
      modifies this
      ensures Laid()
      ensures State() == WorkerFinish(old(State()))
    {
      assert delivered + [] == delivered;
      match control {
        case EosControl =>
          if hr == Ok {
            delivered := delivered + [GotEos];
          }
        case ResetControl =>
          hr := Ok;
          evFlush := true;
        case SegmentControl(g) =>
          delivered := delivered + [GotSegment(g)];
        case NoControl =>
      }
      pc := PcTop;
    }
  }
}
