/** CBaseAllocator and CMemAllocator as they are written. Each method is one critical section (Alloc is part
    of Commit's) and is proved to be the step of the model that bears its name. */
module MemAllocatorObject {
  import opened AllocatorInvariant
  import opened AllocatorModel
  import opened MemoryLayout
  import opened FreeList
  import opened Arithmetic
  import opened BaseTypes

  datatype Result = Ok | AlreadyCommitted | BuffersOutstanding | BadAlign | SizeNotSet | OutOfMemory

  /** The samples of a block: numbered, and each with its own place. */
  ghost predicate Laid(samples: seq<MediaSample>, base: int, p: Props) {
    && (samples != [] ==> Settled(p) && Fits(p) && |samples| <= p.count)
    && forall i :: 0 <= i < |samples| ==>
         samples[i].id == i && samples[i].pointer == Pointer(base, p, i) && samples[i].size == p.size
  }

  lemma IdsCons(n: MediaSample, ns: seq<MediaSample>)
    ensures Ids([n] + ns) == [n.id] + Ids(ns)
  {
  }

  lemma IdsTail(ns: seq<MediaSample>)
    ensures ns != [] ==> Ids(ns[1..]) == Ids(ns)[1..] && Ids(ns)[0] == ns[0].id
    ensures ns == [] <==> Ids(ns) == []
  {
  }

  /** The number of samples an attempt to cut up a block ends with. */
  function Made(p: Props, block: int, limit: nat): nat {
    if !Settled(p) || !Fits(p) || block == 0 then 0 else if limit < p.count then limit else p.count
  }

  class MemAllocator {
    const lFree: SampleList
    var total: nat
    var count: int
    var size: int
    var align: int
    var prefix: int
    var changed: bool
    var committed: bool
    var decommitInProgress: bool
    var waiting: nat
    var sem: nat                    // the semaphore
    var buffer: int                 // the block, 0 if there is none

    ghost var samples: seq<MediaSample>   // all samples there are, in the order they were made
    ghost var laid: Props                 // the figures they were made with
    ghost var out: set<Sample>
    ghost var waiters: set<Thread>
    ghost var timeouts: nat
    ghost var refs: int
    ghost var owed: nat
    ghost var allocs: nat
    ghost var frees: nat

    ghost function Figures(): Props
      reads `count, `size, `align, `prefix
    {
      Props(count, size, align, prefix)
    }

    ghost function State(): Allocator
      reads this, lFree`nodes
    {
      Allocator(Ids(lFree.nodes), out, total, Figures(), laid, changed, committed,
                decommitInProgress, waiting, sem, waiters, timeouts, refs, owed, allocs, frees)
    }

    ghost predicate Valid()
      reads `samples, `total, `count, `size, `align, `prefix, lFree, (set n | n in lFree.nodes)`next
    {
      FreeListOk() && LongProps(Figures())
    }

    /** The free list holds samples of the block, which are numbered. */
    ghost predicate FreeListOk()
      reads `samples, `total, lFree, (set n | n in lFree.nodes)`next
    {
      && lFree.Valid() && |samples| == total
      && (forall i :: 0 <= i < |samples| ==> samples[i].id == i)
      && forall n :: n in lFree.nodes ==> n in samples
    }

    constructor ()
      ensures Valid() && State() == FRESH && fresh(lFree)
    {
      lFree := new SampleList();
      total, count, size, align, prefix, waiting, sem, buffer := 0, 0, 0, 0, 0, 0, 0, 0;
      changed, committed, decommitInProgress := false, false, false;
      samples, laid, out, waiters := [], Props(0, 0, 0, 0), {}, {};
      timeouts, refs, owed, allocs, frees := 0, 0, 0, 0, 0;
    }

    /** CMemAllocator::SetProperties; granularity is what the system reports. */
    method SetProperties(cBuffers: int, cbBuffer: int, cbAlign: int, cbPrefix: int, granularity: nat)
      returns (hr: Result)
      requires Valid() && Int32(cBuffers) && Int32(cbBuffer) && Int32(cbAlign) && Int32(cbPrefix)
      modifies this`count, this`size, this`align, this`prefix, this`changed
      ensures Valid()
      ensures hr == if !GoodAlign(cbAlign, granularity) then BadAlign
                    else if old(committed) then AlreadyCommitted
                    else if |lFree.nodes| < total then BuffersOutstanding
                    else Ok
      ensures hr == BadAlign ==> State() == old(State())
      ensures hr != BadAlign ==> State() == SetPropertiesStep(old(State()), Props(cBuffers, size, cbAlign, cbPrefix))
      ensures hr == Ok ==> Figures() == Props(cBuffers, SizeGiven(cbBuffer, cbPrefix, cbAlign), cbAlign, cbPrefix) && changed
      ensures hr != Ok ==> State() == old(State())
    {
      hr := Refusal(cbAlign, granularity);
      if hr == Ok { Accept(cBuffers, cbBuffer, cbAlign, cbPrefix); }
    }

    /** Whether SetProperties is to be turned away, and why. */
    method Refusal(cbAlign: int, granularity: nat) returns (hr: Result)
      ensures hr == if !GoodAlign(cbAlign, granularity) then BadAlign
                    else if committed then AlreadyCommitted
                    else if lFree.onList < total then BuffersOutstanding
                    else Ok
    {
      if !GoodAlign(cbAlign, granularity) { return BadAlign; }
      if committed { return AlreadyCommitted; }
      if lFree.onList < total { return BuffersOutstanding; }
      return Ok;
    }

    method Accept(cBuffers: int, cbBuffer: int, cbAlign: int, cbPrefix: int)
      requires Int32(cBuffers) && Int32(cbBuffer) && Int32(cbAlign) && Int32(cbPrefix) && cbAlign != 0
      modifies this`count, this`size, this`align, this`prefix, this`changed
      ensures State() == old(State()).(props := Props(cBuffers, size, cbAlign, cbPrefix), changed := true)
      ensures size == SizeGiven(cbBuffer, cbPrefix, cbAlign)
    {
      size := RoundRequest(cbBuffer, cbPrefix, cbAlign);
      count, align, prefix, changed := cBuffers, cbAlign, cbPrefix, true;
    }

    /** GetBuffer from taking the lock to letting it go. */
    method GetBuffer(who: Thread, nowait: bool) returns (answer: Answer, sample: MediaSample?)
      requires Valid()
      modifies this`waiting, this`out, this`waiters, this`timeouts, lFree
      ensures Valid() && answer == GetBufferAnswer(old(State()), nowait)
      ensures State() == GetBufferStep(old(State()), who, nowait)
      ensures if answer.Got? then sample != null && sample.id == answer.sample && sample in samples && sample !in lFree.nodes
              else sample == null
    {
      if !committed { return NotCommitted, null; }
      IdsTail(lFree.nodes);
      sample := lFree.RemoveHead();
      if sample == null {
        answer := SetWaiting(who, nowait);
        return;
      }
      out := out + {sample.id};
      answer := Got(sample.id);
    }

    /** SetWaiting, and what the caller makes of it. */
    method SetWaiting(who: Thread, nowait: bool) returns (answer: Answer)
      modifies this`waiting, this`waiters, this`timeouts
      ensures waiting == old(waiting) + 1 && answer == if nowait then TimedOut else MustWait
      ensures waiters == (if nowait then old(waiters) else old(waiters) + {who})
      ensures timeouts == if nowait then old(timeouts) + 1 else old(timeouts)
    {
      waiting := waiting + 1;
      if nowait {
        timeouts := timeouts + 1;
        return TimedOut;
      }
      waiters := waiters + {who};
      return MustWait;
    }

    /** WaitForSingleObject returning. */
    method WakeUp(who: Thread)
      requires Valid() && who in waiters && sem > 0
      modifies this`sem, this`waiters
      ensures Valid() && State() == WakeUpStep(old(State()), who)
    {
      sem := sem - 1;
      waiters := waiters - {who};
    }

    method NotifySample()
      modifies this`sem, this`waiting
      ensures sem == old(sem) + old(waiting) && waiting == 0
    {
      if waiting != 0 {
        sem := sem + waiting;
        waiting := 0;
      }
    }

    method PutBack(sample: MediaSample)
      requires Valid() && sample in samples && sample !in lFree.nodes
      modifies this`out, lFree, sample`next
      ensures Valid()
      ensures State() == old(State()).(free := [sample.id] + old(State()).free, out := old(out) - {sample.id})
    {
      IdsCons(sample, lFree.nodes);
      lFree.Add(sample);
      out := out - {sample.id};
    }

    /** ReleaseBuffer up to where it lets go of the lock; the reference is dropped afterwards. */
    method ReleaseBuffer(sample: MediaSample) returns (release: bool)
      requires Valid() && sample in samples && sample !in lFree.nodes && sample.id in out
      modifies this`sem, this`waiting, this`decommitInProgress, this`out, this`owed, this`frees, lFree, sample`next
      ensures Valid() && State() == ReleaseBufferStep(old(State()), sample.id)
      ensures release <==> owed == old(owed) + 1
    {
      PutBack(sample);
      release := Settle();
    }

    /** Wake the waiting threads and see whether this was the last buffer. */
    method Settle() returns (release: bool)
      requires lFree.onList == |lFree.nodes|
      modifies this`sem, this`waiting, this`decommitInProgress, this`owed, this`frees
      ensures release == (old(decommitInProgress) && |lFree.nodes| == total)
      ensures State() == old(State()).(sem := old(sem + waiting), waiting := 0,
                decommitting := old(decommitInProgress) && !release,
                owed := if release then old(owed) + 1 else old(owed),
                frees := if release then old(frees) + 1 else old(frees))
    {
      NotifySample();
      release := CompleteDecommit();
    }

    /** The last buffer back completes a pending decommit. */
    method CompleteDecommit() returns (release: bool)
      modifies this`decommitInProgress, this`owed, this`frees
      ensures release == (old(decommitInProgress) && lFree.onList == total)
      ensures decommitInProgress == (old(decommitInProgress) && !release)
      ensures owed == old(owed) + (if release then 1 else 0) && frees == old(frees) + (if release then 1 else 0)
    {
      release := false;
      if decommitInProgress && lFree.onList == total {
        frees := frees + 1;
        decommitInProgress := false;
        release := true;
        owed := owed + 1;
      }
    }

    /** ReallyFree: give up the samples, which are all free, and the block. */
    method ReallyFree()
      requires lFree.Valid()
      modifies this`total, this`buffer, this`samples, lFree
      ensures FreeListOk() && lFree.nodes == [] && samples == [] && total == 0 && buffer == 0
    {
      while true
        invariant lFree.Valid()
        decreases |lFree.nodes|
      {
        var sample := lFree.RemoveHead();
        if sample == null { break; }
      }
      total, buffer, samples := 0, 0, [];
    }

    /** The loop of Alloc that cuts up the block; limit is the number of samples there is memory for. */
    method MakeSamples(alignedSize: int, limit: nat) returns (hr: Result)
      requires FreeListOk() && lFree.nodes == [] && samples == [] && total == 0
      requires Settled(Figures()) && Fits(Figures()) && alignedSize == Stride(Figures())
      modifies this`total, this`samples, lFree
      ensures FreeListOk() && Ids(lFree.nodes) == Numbered(total) && Laid(samples, buffer, Figures())
      ensures total == (if limit < count then limit else count) && (hr == Ok <==> total == count)
      ensures hr == Ok || hr == OutOfMemory
    {
      var next := buffer;
      ghost var p := Figures();
      while total < count
        invariant FreeListOk() && Ids(lFree.nodes) == Numbered(total) && Laid(samples, buffer, p)
        invariant total <= limit && total <= count && next == buffer + total * alignedSize
        invariant fresh(set n | n in lFree.nodes)
      {
        if total == limit { return OutOfMemory; }
        AddSample(next);
        MulDistrib(total - 1, 1, alignedSize);
        next := next + alignedSize;
      }
      return Ok;
    }

    method AddSample(next: int)
      requires FreeListOk() && Ids(lFree.nodes) == Numbered(total)
      requires Settled(Figures()) && Fits(Figures()) && Laid(samples, buffer, Figures()) && total < count
      requires next == buffer + total * Stride(Figures())
      modifies this`total, this`samples, lFree
      ensures FreeListOk() && Ids(lFree.nodes) == Numbered(total) && total == old(total) + 1
      ensures Laid(samples, buffer, Figures()) && fresh((set n | n in lFree.nodes) - old(set n | n in lFree.nodes))
    {
      var sample := new MediaSample(total, next + prefix, size);
      IdsCons(sample, lFree.nodes);
      lFree.Add(sample);
      samples := samples + [sample];
      total := total + 1;
    }

    /** Alloc: block is the address the system gives for the block, 0 if it gives none. */
    method Alloc(block: int, limit: nat) returns (hr: Result)
      requires Valid()
      modifies this`total, this`changed, this`buffer, this`samples, this`laid, lFree
      ensures Valid()
      ensures State() == AllocStep(old(State()), block != 0 && limit >= count, Made(Figures(), block, limit))
      ensures hr == Ok <==> AllocSucceeds(old(State()), block != 0 && limit >= count)
      ensures hr == SizeNotSet <==> !Settled(Figures())
      ensures hr == Ok || hr == SizeNotSet || hr == OutOfMemory
      ensures if Settled(Figures()) && old(changed) then laid == Figures() && Laid(samples, buffer, laid)
              else samples == old(samples) && buffer == old(buffer) && laid == old(laid)
    {
      if count <= 0 || size <= 0 || align <= 0 { return SizeNotSet; }
      if !changed { return Ok; }
      hr := Reallocate(block, limit);
    }

    method Reallocate(block: int, limit: nat) returns (hr: Result)
      requires Valid() && Settled(Figures()) && changed
      modifies this`total, this`changed, this`buffer, this`samples, this`laid, lFree
      ensures Valid() && laid == Figures() && Laid(samples, buffer, laid)
      ensures hr == if Fits(Figures()) && block != 0 && limit >= count then Ok else OutOfMemory
      ensures hr == Ok ==> total == count
      ensures total == Made(Figures(), block, limit) && Ids(lFree.nodes) == Numbered(total) && changed == (hr != Ok)
    {
      ReallyFree();
      laid := Figures();
      var ok, alignedSize, toAllocate := PlanBlock(Props(count, size, align, prefix));
      if !ok { return OutOfMemory; }
      buffer := block;
      if buffer == 0 { return OutOfMemory; }
      hr := MakeSamples(alignedSize, limit);
      if hr == Ok { changed := false; }
    }

    /** There are as many samples as the figures in force say, of that size, each at its place. */
    ghost predicate InForce()
      reads this, samples
    {
      && |samples| == count
      && forall i :: 0 <= i < |samples| ==>
           && Settled(Figures()) && prefix >= 0
           && samples[i].size == size && samples[i].pointer == Pointer(buffer, Figures(), i)
    }

    lemma CommitPhases(a: Allocator, ok: bool, made: nat)
      ensures Phases(a) && CommitStep(a, ok, made).committed ==>
                var b := CommitStep(a, ok, made); b.laid == b.props && b.total == b.props.count && Settled(b.props)
    {
    }

    /** Commit: for a pending decommit it only cancels that. */
    method Commit(block: int, limit: nat) returns (hr: Result)
      requires Valid() && Laid(samples, buffer, laid)
      modifies this`total, this`changed, this`buffer, this`samples, this`laid, lFree
      modifies this`committed, this`decommitInProgress, this`refs, this`allocs
      ensures Valid() && Laid(samples, buffer, laid)
      ensures State() == CommitStep(old(State()), block != 0 && limit >= count, Made(Figures(), block, limit))
      ensures hr == if committed then Ok else if Settled(Figures()) then OutOfMemory else SizeNotSet
      ensures old(Phases(State())) && committed ==> InForce()
    {
      CommitPhases(State(), block != 0 && limit >= count, Made(Figures(), block, limit));
      if committed { return Ok; }
      committed := true;
      if decommitInProgress {
        decommitInProgress := false;
        return Ok;
      }
      hr := CommitAfresh(block, limit);
    }

    method CommitAfresh(block: int, limit: nat) returns (hr: Result)
      requires Valid() && Laid(samples, buffer, laid) && committed && !decommitInProgress
      modifies this`total, this`changed, this`buffer, this`samples, this`laid, lFree
      modifies this`committed, this`refs, this`allocs
      ensures Valid() && Laid(samples, buffer, laid)
      ensures State() == CommitAfreshStep(old(State()), block != 0 && limit >= count, Made(Figures(), block, limit))
      ensures hr == if committed then Ok else if Settled(Figures()) then OutOfMemory else SizeNotSet
    {
      hr := Alloc(block, limit);
      FinishCommit(hr);
    }

    method FinishCommit(hr: Result)
      requires committed
      modifies this`committed, this`refs, this`allocs
      ensures committed <==> hr == Ok
      ensures State() == if hr == Ok then old(State()).(refs := old(refs) + 1, allocs := old(allocs) + 1)
                         else old(State()).(committed := false)
    {
      if hr != Ok {
        committed := false;
        return;
      }
      refs, allocs := refs + 1, allocs + 1;
    }

    /** Decommit up to where it lets go of the lock; the reference is dropped afterwards. */
    method Decommit() returns (release: bool)
      requires Valid()
      modifies this`committed, this`decommitInProgress, this`sem, this`waiting, this`owed, this`frees
      ensures Valid() && State() == DecommitStep(old(State()))
      ensures release <==> owed == old(owed) + 1
    {
      release := false;
      if !committed && !decommitInProgress { return; }
      committed := false;
      release := WindDown();
    }

    /** Decommit now or later, and wake the waiting threads. */
    method WindDown() returns (release: bool)
      requires lFree.onList == |lFree.nodes|
      modifies this`decommitInProgress, this`sem, this`waiting, this`owed, this`frees
      ensures release == (|lFree.nodes| >= total)
      ensures State() == old(State()).(decommitting := !release, sem := old(sem + waiting), waiting := 0,
                owed := if release then old(owed) + 1 else old(owed),
                frees := if release then old(frees) + 1 else old(frees))
    {
      release := StartDecommit();
      NotifySample();
    }

    /** With buffers out the decommit is left to the last one that comes back. */
    method StartDecommit() returns (release: bool)
      modifies this`decommitInProgress, this`owed, this`frees
      ensures release == (lFree.onList >= total) && decommitInProgress == !release
      ensures owed == old(owed) + (if release then 1 else 0) && frees == old(frees) + (if release then 1 else 0)
    {
      release := lFree.onList >= total;
      decommitInProgress := !release;
      if release { frees, owed := frees + 1, owed + 1; }
    }

    /** The Release that completing a decommit leaves for after the lock. */
    method DropReference()
      requires Valid() && owed > 0
      modifies this`refs, this`owed
      ensures Valid() && State() == DropReferenceStep(old(State()))
    {
      refs, owed := refs - 1, owed - 1;
    }
  }
}
