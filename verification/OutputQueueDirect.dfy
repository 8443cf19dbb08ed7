/** COutputQueue without a thread: samples go straight to the pin in batches. */
module OutputQueueDirect {
  import opened Arithmetic
  import opened OutputQueueModel

  /** Cut a line of samples into full batches... */
  function FullBatches(line: seq<nat>, size: nat): seq<seq<nat>>
    requires size > 0
  {
    if |line| < size then [] else [line[..size]] + FullBatches(line[size..], size)
  }

  /** ...and what is left over. */
  function Rest(line: seq<nat>, size: nat): (r: seq<nat>)
    requires size > 0
    ensures |r| < size
  {
    if |line| < size then line else Rest(line[size..], size)
  }

  function Flatten(bs: seq<seq<nat>>): seq<nat> {
    if bs == [] then [] else bs[0] + Flatten(bs[1..])
  }

  /** Batches and rest are the line again, in order. */
  lemma {:induction false} CutIsExact(line: seq<nat>, size: nat)
    requires size > 0
    ensures Flatten(FullBatches(line, size)) + Rest(line, size) == line
    ensures |Rest(line, size)| == |line| % size
    decreases |line|
  {
    if |line| >= size {
      CutIsExact(line[size..], size);
      var bs := FullBatches(line[size..], size);
      assert FullBatches(line, size)[1..] == bs;
      assert line == line[..size] + line[size..];
      ModStep(|line|, size);
    } else {
      assert |line| % size == |line|;
    }
  }

  lemma {:induction false} BatchesAreFull(line: seq<nat>, size: nat)
    requires size > 0
    ensures forall b :: b in FullBatches(line, size) ==> |b| == size
    decreases |line|
  {
    if |line| >= size { BatchesAreFull(line[size..], size); }
  }

  lemma ModStep(n: nat, size: nat)
    requires 0 < size <= n
    ensures (n - size) % size == n % size
  {
    MulDistrib(n / size, 1, size);
    DivModUnique(n - size, n / size - 1, n % size, size);
  }

  /** One more sample either completes a batch or joins the rest. */
  lemma {:induction false} CutAppend(line: seq<nat>, x: nat, size: nat)
    requires size > 0
    ensures var r := Rest(line, size) + [x];
            if |r| == size then FullBatches(line + [x], size) == FullBatches(line, size) + [r] && Rest(line + [x], size) == []
            else FullBatches(line + [x], size) == FullBatches(line, size) && Rest(line + [x], size) == r
    decreases |line|
  {
    var longer := line + [x];
    if |line| < size {
      if |longer| == size {
        assert longer[..size] == longer && longer[size..] == [];
      }
    } else {
      CutAppend(line[size..], x, size);
      assert longer[size..] == line[size..] + [x];
      assert longer[..size] == line[..size];
    }
  }

  // ------------------------------------------------------------------ does ReceiveMultiple's loop end?

  /** What decides over the loop: samples taken, samples batched. */
  datatype Loop = Loop(iDone: nat, nBatched: nat)

  /** The loop's guard; the flag is m_bSendAnyway, which SendAnyway writes without the lock. */
  predicate Guard(l: Loop, n: nat, flag: bool) {
    l.iDone < n || (l.nBatched != 0 && flag)
  }

  /** One turn with n samples in all. */
  function Turn(l: Loop, n: nat, size: nat, exact: bool, flag: bool): Loop {
    var t := if l.iDone < n then Loop(l.iDone + 1, l.nBatched + 1) else l;
    if t.nBatched == size || (n == 0 && (flag || !exact)) then t.(nBatched := 0) else t
  }

  /** The loop takes at least as many turns as there are flags, and finds these in m_bSendAnyway. */
  predicate Turns(l: Loop, n: nat, size: nat, exact: bool, flags: seq<bool>)
    decreases |flags|
  {
    flags == [] || (Guard(l, n, flags[0]) && Turns(Turn(l, n, size, exact, flags[0]), n, size, exact, flags[1..]))
  }

  predicate SetFrom(flags: seq<bool>, from: int) { forall i :: 0 <= i < |flags| && from <= i ==> flags[i] }

  lemma SetFromNext(flags: seq<bool>, from: int)
    requires flags != []
    ensures SetFrom(flags, from) <==> (from <= 0 ==> flags[0]) && SetFrom(flags[1..], from - 1)
  {
    assert forall i :: 1 <= i < |flags| ==> flags[i] == flags[1..][i - 1];
    if SetFrom(flags[1..], from - 1) && (from <= 0 ==> flags[0]) {
      forall i | 0 <= i < |flags| && from <= i ensures flags[i] {
        if i > 0 { assert flags[1..][i - 1]; }
      }
    }
  }

  /** All samples taken, and part of a batch left: no turn changes anything any more. */
  lemma {:induction false} StuckAsLongAsSet(l: Loop, n: nat, size: nat, exact: bool, flags: seq<bool>)
    requires n > 0 && l.iDone == n && 0 < l.nBatched < size
    ensures Turns(l, n, size, exact, flags) <==> SetFrom(flags, 0)
    decreases |flags|
  {
    if flags != [] {
      assert Turn(l, n, size, exact, flags[0]) == l;
      StuckAsLongAsSet(l, n, size, exact, flags[1..]);
      SetFromNext(flags, 0);
      assert SetFrom(flags[1..], 0) <==> SetFrom(flags[1..], -1);
    }
  }

  /** With samples to take, the loop takes one a turn, and goes on exactly as long as the flag is then found
      set if they do not fill the last batch. */
  lemma {:induction false} TurnsIff(l: Loop, n: nat, size: nat, exact: bool, flags: seq<bool>)
    requires n > 0 && l.iDone <= n && l.nBatched < size
    ensures Turns(l, n, size, exact, flags) <==>
              || |flags| <= n - l.iDone
              || ((l.nBatched + (n - l.iDone)) % size != 0 && SetFrom(flags, n - l.iDone))
    decreases |flags|
  {
    if l.iDone == n {
      SmallRemainder(l.nBatched, size);
      if l.nBatched > 0 { StuckAsLongAsSet(l, n, size, exact, flags); }
    } else if flags != [] {
      SameRemainder(l, n, size, exact, flags[0]);
      TurnsIff(Turn(l, n, size, exact, flags[0]), n, size, exact, flags[1..]);
      SetFromNext(flags, n - l.iDone);
    }
  }

  /** Taking a sample changes neither what will be left over nor that it is less than a batch. */
  lemma SameRemainder(l: Loop, n: nat, size: nat, exact: bool, flag: bool)
    requires l.iDone < n && l.nBatched < size
    ensures var t := Turn(l, n, size, exact, flag);
      && t.iDone == l.iDone + 1 && t.nBatched < size
      && (t.nBatched + (n - t.iDone)) % size == (l.nBatched + (n - l.iDone)) % size
  {
    if l.nBatched + 1 == size { ModStep(l.nBatched + (n - l.iDone), size); }
  }

  lemma SmallRemainder(x: nat, size: nat)
    requires x < size
    ensures x % size == x
  {
  }

  /** The condition on the flag, when nothing changes it during the call. */
  predicate LoopEnds(nBatched: nat, n: nat, size: nat, flag: bool)
    requires size > 0
  {
    !flag || n == 0 || (nBatched + n) % size == 0
  }

  function Always(flag: bool, k: nat): seq<bool> { seq(k, _ => flag) }

  /** It is the exact one: otherwise the loop takes any number of turns, with the lock held. */
  lemma LoopEndsIff(nBatched: nat, n: nat, size: nat, exact: bool, flag: bool)
    requires nBatched < size
    ensures LoopEnds(nBatched, n, size, flag) <==>
              exists k :: !Turns(Loop(0, nBatched), n, size, exact, Always(flag, k))
  {
    var l := Loop(0, nBatched);
    if n > 0 {
      forall k: nat ensures Turns(l, n, size, exact, Always(flag, k)) <==> k <= n || ((nBatched + n) % size != 0 && flag) {
        TurnsIff(l, n, size, exact, Always(flag, k));
        if k > n { assert Always(flag, k)[n] == flag; }
      }
      assert Turns(l, n, size, exact, Always(flag, n + 1)) <==> !LoopEnds(nBatched, n, size, flag);
    } else {
      assert Always(flag, 2)[1..][0] == flag;
      assert !Turns(l, n, size, exact, Always(flag, 2));
    }
  }

  /** So one sample and a batch of two keep it going if they come between SendAnyway's setting the flag and its
      own call, which waits for the lock. */
  lemma LoopCanHang(exact: bool, k: nat)
    ensures Turns(Loop(0, 0), 1, 2, exact, Always(true, k))
  {
    LoopEndsIff(0, 1, 2, exact, true);
  }

  /** From the code before and new answers to so many batches to the code after. */
  predicate Heeds(before: seq<Hr>, after: seq<Hr>, hr0: Hr, hr: Hr, batches: int) {
    && before <= after && |after| - |before| == batches
    && (forall i :: |before| <= i < |after| - 1 ==> after[i] == Ok)
    && hr == if batches == 0 then hr0 else after[|after| - 1]
  }

  lemma HeedsMore(a0: seq<Hr>, a1: seq<Hr>, a2: seq<Hr>, hr0: Hr, hr1: Hr, hr2: Hr, m: int, n: int)
    requires Heeds(a0, a1, hr0, hr1, m) && Heeds(a1, a2, hr1, hr2, n) && (n > 0 ==> hr1 == Ok)
    ensures Heeds(a0, a2, hr0, hr2, m + n)
  {
    forall i | |a0| <= i < |a2| - 1 ensures a2[i] == Ok {
      if i < |a1| { assert a2[i] == a1[i]; }
    }
  }

  class DirectQueue {
    const batchSize: nat
    const exact: bool
    const samples: array<nat>
    var nBatched: nat
    var hr: Hr
    var flushed: bool
    var sendAnyway: bool
    ghost var calls: seq<seq<nat>>       // batches handed downstream
    ghost var released: multiset<nat>
    ghost var answers: seq<Hr>           // what downstream has answered, batch by batch
    ghost var claimed: int               // how many samples downstream has claimed to have processed

    ghost predicate Valid()
      reads this
    {
      batchSize > 0 && samples.Length == batchSize && nBatched < batchSize
    }

    ghost function Batch(): seq<nat>
      reads this, samples
      requires nBatched <= samples.Length
    {
      samples[..nBatched]
    }

    constructor (size: nat, exact: bool)
      requires size > 0
      ensures Valid() && Batch() == [] && hr == Ok && calls == [] && released == multiset{} && fresh(samples)
      ensures batchSize == size && this.exact == (exact && size > 1) && answers == [] && flushed
    {
      batchSize, this.exact := size, exact && size > 1;
      samples := new nat[size];
      nBatched, hr, flushed, sendAnyway, calls, released, answers, claimed := 0, Ok, true, false, [], multiset{}, [], 0;
    }

    /** The downstream pin's answer to one batch; it may claim any number processed. */
    method AskDownstream() returns (answer: Hr, done: int)
      modifies this`answers
      ensures answers == old(answers) + [answer]
    {
      answer, done := *, *;
      answers := answers + [answer];
    }

    /** m_hr is what downstream answered last, none of its answers before that was an error, and each was to one
        batch. */
    ghost predicate Heeded(hr0: Hr, answers0: seq<Hr>, calls0: seq<seq<nat>>)
      reads this
    {
      Heeds(answers0, answers, hr0, hr, |calls| - |calls0|)
    }

    method ReleaseBatch()
      requires nBatched <= samples.Length
      modifies this`nBatched, this`released
      ensures nBatched == 0
      ensures released == old(released) + multiset(samples[..old(nBatched)])
    {
      var i := 0;
      while i < nBatched
        invariant 0 <= i <= nBatched == old(nBatched)
        invariant released == old(released) + multiset(samples[..i])
      {
        assert samples[..i + 1] == samples[..i] + [samples[i]];
        released := released + multiset{samples[i]};
        i := i + 1;
      }
      nBatched := 0;
    }

    /** Send the batch if the pin still answers S_OK, and release it either way; what the pin does not claim to
        have processed is lost. */
    method FlushBatch() returns (lost: int)
      requires nBatched <= samples.Length
      modifies this`nBatched, this`hr, this`calls, this`released, this`answers, this`claimed
      ensures Heeded(old(hr), old(answers), old(calls))
      ensures nBatched == 0 && lost == old(nBatched) - (claimed - old(claimed))
      ensures released == old(released) + multiset(old(Batch()))
      ensures calls == old(calls) + if old(hr) == Ok then [old(Batch())] else []
      ensures old(hr) != Ok ==> hr == old(hr) && claimed == old(claimed)
    {
      var done := 0;
      if hr == Ok {
        calls := calls + [samples[..nBatched]];
        hr, done := AskDownstream();
        claimed := claimed + done;
      }
      lost := nBatched - done;
      ReleaseBatch();
    }

    method Put(id: nat)
      requires nBatched < samples.Length
      modifies this`nBatched, samples
      ensures nBatched == old(nBatched) + 1 && Batch() == old(Batch()) + [id]
    {
      samples[nBatched] := id;
      nBatched := nBatched + 1;
    }

    lemma {:induction false} FlattenAppend(bs: seq<seq<nat>>, b: seq<nat>)
      ensures Flatten(bs + [b]) == Flatten(bs) + b
      decreases |bs|
    {
      if bs == [] {
        var one := bs + [b];
        assert one == [b] && one[1..] == [];
      } else {
        assert (bs + [b])[1..] == bs[1..] + [b];
        FlattenAppend(bs[1..], b);
      }
    }

    /** What the loop has done with a line: its full batches went downstream in order until one failed,
        and all of them have been released. */
    ghost predicate Batched(line: seq<nat>, calls0: seq<seq<nat>>, released0: multiset<nat>)
      reads this, samples
      requires Valid()
    {
      var full := FullBatches(line, batchSize);
      && Batch() == Rest(line, batchSize)
      && calls <= calls0 + full
      && (hr == Ok ==> calls == calls0 + full)
      && released == released0 + multiset(Flatten(full))
    }

    /** Samples of full batches that downstream has not claimed. */
    ghost function Lost(line: seq<nat>, claimed0: int): int
      reads this`claimed
      requires batchSize > 0
    {
      |Flatten(FullBatches(line, batchSize))| - (claimed - claimed0)
    }

    /** A turn of the loop that takes a sample. */
    method BatchOne(id: nat, ghost line: seq<nat>, ghost calls0: seq<seq<nat>>, ghost released0: multiset<nat>,
                    ghost answers0: seq<Hr>)
      returns (lost: int)
      requires Valid() && Batched(line, calls0, released0) && Heeded(Ok, answers0, calls0)
      modifies this`nBatched, this`hr, this`calls, this`released, this`answers, this`claimed, samples
      ensures Valid() && Batched(line + [id], calls0, released0) && Heeded(Ok, answers0, calls0)
      ensures lost == Lost(line + [id], 0) - old(Lost(line, 0))
    {
      lost := 0;
      CutAppend(line, id, batchSize);
      Put(id);
      if nBatched == batchSize { lost := SendFull(id, line, calls0, released0, answers0); }
    }

    /** The batch is full: it is sent. */
    method SendFull(id: nat, ghost line: seq<nat>, ghost calls0: seq<seq<nat>>, ghost released0: multiset<nat>,
                    ghost answers0: seq<Hr>)
      returns (lost: int)
      requires samples.Length == batchSize == nBatched && batchSize > 0 && Batch() == Rest(line, batchSize) + [id]
      requires Heeded(Ok, answers0, calls0) && calls <= calls0 + FullBatches(line, batchSize)
      requires hr == Ok ==> calls == calls0 + FullBatches(line, batchSize)
      requires released == released0 + multiset(Flatten(FullBatches(line, batchSize)))
      modifies this`nBatched, this`hr, this`calls, this`released, this`answers, this`claimed
      ensures Valid() && Batched(line + [id], calls0, released0) && Heeded(Ok, answers0, calls0)
      ensures lost == Lost(line + [id], 0) - old(Lost(line, 0))
    {
      ghost var full, b := FullBatches(line, batchSize), Batch();
      ghost var before, hr1, calls1 := answers, hr, calls;
      CutAppend(line, id, batchSize);
      FlattenAppend(full, b);
      CallsGrow(calls, calls0, full, b);
      lost := FlushBatch();
      HeedsMore(answers0, before, answers, Ok, hr1, hr, |calls1| - |calls0|, |calls| - |calls1|);
    }

    lemma CallsGrow(calls: seq<seq<nat>>, calls0: seq<seq<nat>>, full: seq<seq<nat>>, b: seq<nat>)
      requires calls <= calls0 + full
      ensures calls <= calls0 + (full + [b])
      ensures calls == calls0 + full ==> calls + [b] == calls0 + (full + [b])
    {
      assert calls0 + (full + [b]) == calls0 + full + [b];
    }

    lemma OneMore(batch: seq<nat>, pp: seq<nat>, i: nat)
      requires i < |pp|
      ensures batch + pp[..i] + [pp[i]] == batch + pp[..i + 1]
    {
      assert pp[..i + 1] == pp[..i] + [pp[i]];
    }

    lemma NothingBatched()
      requires Valid()
      ensures Batched(Batch(), calls, released) && Lost(Batch(), claimed) == 0
    {
      assert Flatten([]) == [];
    }

    /** The same turn, in terms of the batch before the loop and the samples taken so far. */
    method TakeOne(pp: seq<nat>, iDone: nat, ghost batch0: seq<nat>, ghost calls0: seq<seq<nat>>,
                   ghost released0: multiset<nat>, ghost answers0: seq<Hr>)
      returns (lost: int)
      requires Valid() && iDone < |pp| && LoopEnds(|batch0|, |pp|, batchSize, sendAnyway)
      requires Batched(batch0 + pp[..iDone], calls0, released0) && Heeded(Ok, answers0, calls0)
      modifies this`nBatched, this`hr, this`calls, this`released, this`answers, this`claimed, samples
      ensures Valid() && Batched(batch0 + pp[..iDone + 1], calls0, released0) && Heeded(Ok, answers0, calls0)
      ensures lost == Lost(batch0 + pp[..iDone + 1], 0) - old(Lost(batch0 + pp[..iDone], 0))
      ensures iDone + 1 == |pp| && sendAnyway ==> nBatched == 0
    {
      OneMore(batch0, pp, iDone);
      lost := BatchOne(pp[iDone], batch0 + pp[..iDone], calls0, released0, answers0);
      LengthOfRest(batch0, pp, iDone + 1);
    }

    /** What is left over of the samples so far. */
    lemma LengthOfRest(batch0: seq<nat>, pp: seq<nat>, iDone: nat)
      requires Valid() && iDone <= |pp|
      ensures |Rest(batch0 + pp[..iDone], batchSize)| == (|batch0| + iDone) % batchSize
    {
      CutIsExact(batch0 + pp[..iDone], batchSize);
    }

    /** The loop of ReceiveMultiple; the line is the old batch followed by the new samples.  The precondition is
        that the loop ends, as LoopEndsIff has it. */
    method BatchUp(pp: seq<nat>) returns (lost: int)
      requires Valid() && pp != [] && hr == Ok && LoopEnds(nBatched, |pp|, batchSize, sendAnyway)
      modifies this`nBatched, this`hr, this`calls, this`released, this`answers, this`claimed, samples
      ensures Valid() && Batched(old(Batch()) + pp, old(calls), old(released)) && Heeded(Ok, old(answers), old(calls))
      ensures lost == Lost(old(Batch()) + pp, 0) - old(Lost(Batch(), 0))
      ensures sendAnyway ==> nBatched == 0
    {
      var iDone := 0;
      lost := 0;
      ghost var batch0, calls0, released0, answers0, lost0 := Batch(), calls, released, answers, Lost(Batch(), 0);
      NothingBatched();
      assert batch0 + pp[..0] == batch0;
      while iDone < |pp| || (nBatched != 0 && sendAnyway)
        invariant 0 <= iDone <= |pp| && Valid()
        invariant Batched(batch0 + pp[..iDone], calls0, released0) && Heeded(Ok, answers0, calls0)
        invariant lost == Lost(batch0 + pp[..iDone], 0) - lost0
        invariant iDone == |pp| && sendAnyway ==> nBatched == 0
        decreases |pp| - iDone
      {
        var l := TakeOne(pp, iDone, batch0, calls0, released0, answers0);
        iDone, lost := iDone + 1, lost + l;
      }
      assert pp[..iDone] == pp;
    }

    /** The same loop without samples: it sends a partial batch if SendAnyway says so. */
    method SendPartial() returns (lost: int)
      requires Valid()
      modifies this`nBatched, this`hr, this`calls, this`released, this`answers, this`claimed
      ensures Valid() && Heeded(old(hr), old(answers), old(calls))
      ensures !sendAnyway ==> lost == 0 && hr == old(hr) && Batch() == old(Batch()) && calls == old(calls)
                              && released == old(released) && claimed == old(claimed)
      ensures sendAnyway ==> Batch() == [] && released == old(released) + multiset(old(Batch()))
                             && lost == |old(Batch())| - (claimed - old(claimed))
      ensures sendAnyway && old(hr) == Ok ==>
                calls == old(calls) + if old(Batch()) == [] then [] else [old(Batch())]
    {
      lost := 0;
      if nBatched != 0 && sendAnyway { lost := FlushBatch(); }
    }

    /** Receive samples, or (with none, from SendAnyway) send a partial batch. */
    method ReceiveMultiple(pp: seq<nat>) returns (r: Hr, processed: nat)
      requires Valid() && (hr == Ok ==> LoopEnds(nBatched, |pp|, batchSize, sendAnyway))
      modifies this, samples
      ensures Valid() && r == hr && sendAnyway == old(sendAnyway) && Heeded(old(hr), old(answers), old(calls))
      ensures flushed <==> old(flushed) && old(hr) != Ok
      ensures old(hr) != Ok ==> hr == old(hr) && processed == 0 && Batch() == old(Batch()) && calls == old(calls)
                                && released == old(released) + multiset(pp) && claimed == old(claimed)
      ensures old(hr) == Ok && (pp != [] || !sendAnyway) ==>
                && Batched(old(Batch()) + pp, old(calls), old(released))
                && processed == Max(0, |pp| - Lost(old(Batch()) + pp, old(claimed)))
      ensures old(hr) == Ok && sendAnyway ==> Batch() == []
      ensures old(hr) == Ok && sendAnyway && pp == [] ==>
                && released == old(released) + multiset(old(Batch()))
                && calls == old(calls) + (if old(Batch()) == [] then [] else [old(Batch())])
                && processed == Max(0, claimed - old(claimed) - |old(Batch())|)
    {
      if hr != Ok {
        ReleaseAll(pp);
        return hr, 0;
      }
      flushed := false;
      var lost := 0;
      if pp == [] {
        NothingBatched();
        lost := SendPartial();
        assert old(Batch()) + pp == old(Batch());
      } else {
        lost := BatchUp(pp);
      }
      processed := Max(0, |pp| - lost);
      r := hr;
    }

    /** SendAnyway, when nothing comes between its three steps. */
    method SendAnyway()
      requires Valid()
      modifies this, samples
      ensures Valid() && !sendAnyway && Heeded(old(hr), old(answers), old(calls))
      ensures if old(hr) == Ok
              then Batch() == [] && released == old(released) + multiset(old(Batch()))
                   && calls == old(calls) + if old(Batch()) == [] then [] else [old(Batch())]
              else hr == old(hr) && Batch() == old(Batch()) && calls == old(calls) && released == old(released)
    {
      sendAnyway := true;
      var _, _ := ReceiveMultiple([]);
      sendAnyway := false;
    }

    method ReleaseAll(pp: seq<nat>)
      modifies this`released
      ensures released == old(released) + multiset(pp)
    {
      var i := 0;
      while i < |pp|
        invariant 0 <= i <= |pp|
        invariant released == old(released) + multiset(pp[..i])
      {
        assert pp[..i + 1] == pp[..i] + [pp[i]];
        released := released + multiset{pp[i]};
        i := i + 1;
      }
      assert pp[..i] == pp;
    }
  }

  /** ReceiveMultiple asserts on entry that a partial batch means exact batching.  Without SendAnyway in
      between, that assertion of the next call holds exactly when batching is exact or the samples seen
      so far fill whole batches: with a batch above one and inexact batching it can fail. */
  lemma NextEntryAssertIff(line: seq<nat>, size: nat, exact: bool)
    requires size > 0
    ensures (Rest(line, size) == [] || exact) <==> (exact || |line| % size == 0)
  {
    CutIsExact(line, size);
  }

  /** It holds after every line of samples exactly for exact batching or batches of one. */
  lemma NextEntryAssertAlwaysIff(size: nat, exact: bool)
    requires size > 0
    ensures (forall line :: Rest(line, size) == [] || exact) <==> exact || size == 1
  {
    if !exact && size > 1 { assert Rest([7], size) == [7]; }
  }
}
