/** CPullPin: reading a stretch of a stream in aligned pieces, one at a time or with requests overlapping. */
module PullPin {
  import opened Arithmetic
  import opened BaseTypes
  import opened Bits

  /** ll & ~(lAlign - 1) on 64-bit words, for a position that is not negative. */
  function AlignDown(ll: nat, align: nat): nat
    requires 0 < align <= Pow2(64)
  {
    BitAnd(ll, Pow2(64) - align)
  }

  function AlignUp(ll: nat, align: nat): nat
    requires 0 < align <= Pow2(64)
  {
    AlignDown(ll + align - 1, align)
  }

  /** For an alignment that is a power of two the masks do what their names say. */
  lemma AlignDownIs(ll: nat, align: nat, k: nat)
    requires k <= 64 && align == Pow2(k) && ll < Pow2(64)
    ensures align <= Pow2(64) && AlignDown(ll, align) == ll / align * align
  {
    AndHighMask(ll, k, 64);
    DivisionEquation(ll, align);
  }

  lemma AlignUpIs(ll: nat, align: nat, k: nat)
    requires k <= 64 && align == Pow2(k) && ll + align <= Pow2(64)
    ensures AlignUp(ll, align) == RoundUp(ll, align)
  {
    AlignDownIs(ll + align - 1, align, k);
  }

  /** A sample: the stretch it is for and whether it follows on from the one before. */
  datatype Piece = Piece(t1: int, t2: int, discontinuity: bool)

  datatype Hr = SOk | SFalse | Failed

  /** The calls that may fail on the way. */
  datatype Call = GetBuffer | Read | Deliver

  /** Which failures are to be reported to the filter: with overlapping requests all but those of GetBuffer. */
  function Reports(failures: seq<Call>, sync: bool): nat {
    if failures == [] then 0
    else Reports(failures[..|failures| - 1], sync) + if sync || failures[|failures| - 1] != GetBuffer then 1 else 0
  }

  lemma OneMoreFailure(failures: seq<Call>, call: Call, sync: bool)
    ensures Reports(failures + [call], sync) == Reports(failures, sync) + if sync || call != GetBuffer then 1 else 0
  {
    assert (failures + [call])[..|failures|] == failures;
  }

  /** The answers after which reading goes on: all S_OK, but if lenient the last may be S_FALSE. */
  predicate Goes(answers: seq<Hr>, lenient: bool) {
    forall i :: 0 <= i < |answers| ==> answers[i].SOk? || (lenient && i == |answers| - 1 && answers[i].SFalse?)
  }

  lemma OneMoreAnswer(answers: seq<Hr>, hr: Hr, lenient: bool)
    requires Goes(answers, false)
    ensures Goes(answers, lenient)
    ensures Goes(answers + [hr], lenient) <==> hr.SOk? || (lenient && hr.SFalse?)
  {
    var more := answers + [hr];
    assert more[|answers|] == hr;
    forall i | 0 <= i < |answers| ensures more[i].SOk? { assert answers[i].SOk?; }
  }

  function StopOf(current: int, last: int, span: int): int {
    if current + span > last then last else current + span
  }

  /** The stretches of at most span from current to last. */
  function Pieces(current: int, last: int, span: int, discontinuity: bool): seq<Piece>
    requires span > 0
    decreases last - current
  {
    if current >= last then []
    else
      var stop := StopOf(current, last, span);
      [Piece(current, stop, discontinuity)] + Pieces(stop, last, span, false)
  }

  /** DeliverSample's correction: not past the actual stop, and relative to the start. */
  function Shifted(p: Piece, first: int, stop: int): Piece {
    Piece(p.t1 - first, (if p.t2 > stop then stop else p.t2) - first, p.discontinuity)
  }

  function Corrected(ps: seq<Piece>, first: int, stop: int): seq<Piece> {
    seq(|ps|, i requires 0 <= i < |ps| => Shifted(ps[i], first, stop))
  }

  lemma CorrectedAppend(ps: seq<Piece>, p: Piece, first: int, stop: int)
    ensures Corrected(ps + [p], first, stop) == Corrected(ps, first, stop) + [Shifted(p, first, stop)]
  {
  }

  class PullPin {
    const tStart: nat
    const tStop: nat
    const tDuration: nat
    const sync: bool
    const align: nat
    const cBuffers: int
    const size: nat

    var queue: seq<Piece>        // requests made of the reader and not collected, which it answers in order
    var delivered: seq<Piece>    // what has been passed to Receive
    var answers: seq<Hr>         // what Receive has answered, sample by sample
    var errors: nat              // calls of OnError
    var eos: bool                // EndOfStream has been called
    ghost var most: nat          // the largest number of requests outstanding at once
    ghost var failures: seq<Call>    // the calls that have failed
    ghost var asked: bool            // the thread has been asked for something else

    constructor (tStart: nat, tStop: nat, tDuration: nat, sync: bool, align: nat, cBuffers: int, size: nat)
      ensures this.tStart == tStart && this.tStop == tStop && this.tDuration == tDuration && this.sync == sync
      ensures this.align == align && this.cBuffers == cBuffers && this.size == size
      ensures queue == [] && delivered == [] && answers == [] && errors == 0 && !eos && most == 0 && failures == [] && !asked
    {
      this.tStart, this.tStop, this.tDuration, this.sync := tStart, tStop, tDuration, sync;
      this.align, this.cBuffers, this.size := align, cBuffers, size;
      queue, delivered, answers, errors, eos, most, failures, asked := [], [], [], 0, false, 0, [], false;
    }

    predicate Sized() { 0 < align <= Pow2(64) && size > 0 }

    /** The aligned start, the actual stop and the aligned stop. */
    function First(): int
      requires Sized()
    {
      AlignDown(tStart / UNITS, align) * UNITS
    }

    function Stop(): int { if tStop > tDuration then tDuration else tStop }

    function Last(): int
      requires Sized()
    {
      AlignUp(Stop() / UNITS, align) * UNITS
    }

    function Whole(): seq<Piece>
      requires Sized()
    {
      if tStop <= tStart then [] else Pieces(First(), Last(), size * UNITS, true)
    }

    /** What an undisturbed run delivers. */
    function Expected(): seq<Piece>
      requires Sized()
    {
      Corrected(Whole(), First(), Stop())
    }

    /** done has been delivered, the queue is under way and rest is still to be asked for. */
    ghost predicate At(done: seq<Piece>, rest: seq<Piece>)
      requires Sized()
      reads `delivered, `queue
    {
      delivered == Corrected(done, First(), Stop()) && Whole() == done + queue + rest
    }

    /** The answer of a call this model does not decide. */
    method Ask(call: Call) returns (hr: Hr)
      modifies this`failures
      ensures failures == if hr.Failed? then old(failures) + [call] else old(failures)
    {
      hr := *;
      if hr.Failed? { failures := failures + [call]; }
    }

    method CheckRequest() returns (yes: bool)
      modifies this`asked
      ensures asked == yes
    {
      yes := *;
      asked := yes;
    }

    method EndOfStream()
      modifies this`eos
      ensures eos
    {
      eos := true;
    }

    /** CleanupCancelled and OnError: the reader hands back requests it has given up. */
    method GiveUp()
      modifies this`queue, this`errors
      ensures |queue| <= |old(queue)| && errors == old(errors) + 1
    {
      var kept: nat :| kept <= |queue|;
      queue := queue[|queue| - kept..];
      errors := errors + 1;
    }

    /** Ask the reader for the next piece. */
    method QueueSample(current: int, last: int, discontinuity: bool) returns (hr: Hr, next: int)
      requires Sized() && errors == Reports(failures, false)
      modifies this`queue, this`errors, this`most, this`failures
      ensures !hr.Failed? ==> queue == old(queue) + [Piece(current, next, discontinuity)]
      ensures !hr.Failed? ==> next == StopOf(current, last, size * UNITS)
      ensures |failures| == |old(failures)| + (if hr.Failed? then 1 else 0) && errors == Reports(failures, false)
      ensures most == if hr.Failed? then old(most) else Max(old(most), |queue|)
    {
      next := current;
      OneMoreFailure(failures, GetBuffer, false);
      hr := Ask(GetBuffer);
      if hr.Failed? { return; }
      var stopThis := current + size * UNITS;
      if stopThis > last { stopThis := last; }
      next := stopThis;
      OneMoreFailure(failures, Read, false);
      hr := Ask(Read);
      if hr.Failed? {
        GiveUp();
        return;
      }
      queue := queue + [Piece(current, stopThis, discontinuity)];
      most := Max(most, |queue|);
    }

    /** A sample whose times cannot be set is not passed on; what Receive answers is recorded. */
    method DeliverSample(p: Piece, first: int, stop: int) returns (hr: Hr)
      modifies this`delivered, this`answers, this`failures
      ensures if delivered == old(delivered) then hr.Failed? && answers == old(answers)
              else delivered == old(delivered) + [Shifted(p, first, stop)] && answers == old(answers) + [hr]
      ensures failures == if hr.Failed? then old(failures) + [Deliver] else old(failures)
    {
      var t1, t2 := p.t1, p.t2;
      if t2 > stop { t2 := stop; }
      t1, t2 := t1 - first, t2 - first;
      hr := Ask(Deliver);
      if hr.Failed? { return; }
      delivered := delivered + [Piece(t1, t2, p.discontinuity)];
      hr := Ask(Deliver);
      answers := answers + [hr];
    }

    /** Wait for the oldest request and deliver it. */
    method CollectAndDeliver(first: int, stop: int, ghost done: seq<Piece>, ghost rest: seq<Piece>) returns (hr: Hr)
      requires Sized() && queue != [] && first == First() && stop == Stop() && At(done, rest)
      requires errors == Reports(failures, false)
      modifies this`queue, this`errors, this`delivered, this`answers, this`failures
      ensures !hr.Failed? ==> At(done + [old(queue)[0]], rest) && queue == old(queue)[1..]
      ensures delivered <= Expected()
      ensures answers == if delivered == old(delivered) then old(answers) else old(answers) + [hr]
      ensures delivered == old(delivered) ==> hr.Failed? && delivered != Expected()
      ensures |failures| == |old(failures)| + (if hr.Failed? then 1 else 0) && errors == Reports(failures, false)
    {
      Short(done, rest);
      NextIsExpected(done, queue, rest);
      OneMoreFailure(failures, Read, false);
      hr := Ask(Read);
      if hr.Failed? {
        GiveUp();
        return;
      }
      var p := queue[0];
      queue := queue[1..];
      hr := DeliverOldest(p, first, stop, done, rest);
    }

    lemma NextIsExpected(done: seq<Piece>, q: seq<Piece>, rest: seq<Piece>)
      requires Sized() && q != [] && Whole() == done + q + rest
      ensures Whole() == done + [q[0]] + q[1..] + rest
      ensures Corrected(done + [q[0]], First(), Stop()) <= Expected()
    {
      assert done + (q + rest) == Whole();
      Prefixes(done, q + rest, q[0]);
    }

    /** What has been waited for goes on, or nothing more does. */
    method DeliverOldest(p: Piece, first: int, stop: int, ghost done: seq<Piece>, ghost rest: seq<Piece>) returns (hr: Hr)
      requires Sized() && first == First() && stop == Stop() && errors == Reports(failures, false)
      requires delivered == Corrected(done, First(), Stop()) && Whole() == done + [p] + queue + rest
      modifies this`queue, this`errors, this`delivered, this`answers, this`failures
      ensures !hr.Failed? ==> At(done + [p], rest) && queue == old(queue)
      ensures delivered == old(delivered) || delivered == Corrected(done + [p], First(), Stop())
      ensures answers == if delivered == old(delivered) then old(answers) else old(answers) + [hr]
      ensures delivered == old(delivered) ==> hr.Failed?
      ensures |failures| == |old(failures)| + (if hr.Failed? then 1 else 0) && errors == Reports(failures, false)
    {
      CorrectedAppend(done, p, first, stop);
      OneMoreFailure(failures, Deliver, false);
      hr := DeliverSample(p, first, stop);
      if hr.Failed? { GiveUp(); }
    }

    /** Process: read from the aligned start to the aligned stop. What reaches Receive is always a beginning
        of what is expected. EndOfStream follows exactly if all of it did and every answer was S_OK; but with
        requests overlapping also if the last answer was S_FALSE, though that asks for the data to stop. */
    method Process()
      requires Sized() && queue == [] && delivered == [] && answers == [] && !eos && errors == 0 && most == 0
      requires failures == [] && !asked
      modifies this
      ensures |failures| <= 1 && errors == Reports(failures, sync) && (eos ==> failures == [] && !asked)
      ensures delivered <= Expected()
      ensures eos <==> delivered == Expected() && Goes(answers, !sync && cBuffers > 1)
      ensures most <= if sync then 0 else if cBuffers > 1 then 2 else 1
    {
      if tStop <= tStart {
        EndOfStream();
        return;
      }
      var first := AlignDown(tStart / UNITS, align) * UNITS;
      var stop := tStop;
      if stop > tDuration { stop := tDuration; }
      var last := AlignUp(stop / UNITS, align) * UNITS;
      var interrupted;
      if !sync {
        interrupted := ProcessOverlapped(first, stop, last);
      } else {
        interrupted := ProcessSync(first, stop, last);
      }
      if interrupted { return; }
      EndOfStream();
    }

    ghost predicate Starting(first: int, stop: int, last: int)
      requires Sized()
      reads `queue, `delivered, `eos, `answers, `errors, `most, `failures, `asked
    {
      && queue == [] && delivered == [] && answers == [] && !eos && errors == 0 && most == 0 && failures == [] && !asked
      && tStart < tStop && first == First() && stop == Stop() && last == Last()
    }

    /** The loop that reads one sample at a time. */
    method ProcessSync(first: int, stop: int, last: int) returns (interrupted: bool)
      requires Sized() && Starting(first, stop, last)
      modifies this`delivered, this`answers, this`errors, this`failures, this`asked
      ensures delivered <= Expected() && (!interrupted <==> delivered == Expected() && Goes(answers, false))
      ensures |failures| <= 1 && errors == Reports(failures, true) && (!interrupted ==> failures == [] && !asked)
    {
      var current, discontinuity := first, true;
      ghost var done := [];
      while current < last
        invariant At(done, Pieces(current, last, size * UNITS, discontinuity)) && queue == [] && Goes(answers, false)
        invariant failures == [] && errors == 0 && !asked
        decreases last - current
      {
        Short(done, Pieces(current, last, size * UNITS, discontinuity));
        var yes := CheckRequest();
        if yes { return true; }
        var hr;
        hr, current, done := ReadOne(current, first, stop, last, discontinuity, done);
        discontinuity := false;
        if !hr.SOk? { return true; }
      }
      assert done + queue + [] == done;
      return false;
    }

    method ReadOne(current: int, first: int, stop: int, last: int, discontinuity: bool, ghost done: seq<Piece>)
      returns (hr: Hr, next: int, ghost more: seq<Piece>)
      requires Sized() && first == First() && stop == Stop() && queue == [] && Goes(answers, false) && current < last
      requires At(done, Pieces(current, last, size * UNITS, discontinuity)) && errors == Reports(failures, true)
      modifies this`delivered, this`answers, this`errors, this`failures
      ensures hr.SOk? ==> At(more, Pieces(next, last, size * UNITS, false)) && next > current && Goes(answers, false)
      ensures !hr.SOk? ==> delivered <= Expected() && (delivered == Expected() ==> !Goes(answers, false))
      ensures |failures| == |old(failures)| + (if hr.Failed? then 1 else 0) && errors == Reports(failures, true)
    {
      ghost var rest := Pieces(current, last, size * UNITS, discontinuity);
      Short(done, rest);
      next, more := current, done;
      hr := AskAndReport(GetBuffer);
      if hr.Failed? { return; }
      next := current + size * UNITS;
      if next > last { next := last; }
      var p := Piece(current, next, discontinuity);
      assert rest[0] == p && rest[1..] == Pieces(next, last, size * UNITS, false);
      hr := AskAndReport(Read);
      if hr.Failed? { return; }
      more := done + [p];
      OneMoreFailure(failures, Deliver, true);
      hr := DeliverNext(p, first, stop, done, rest);
      if hr.Failed? { errors := errors + 1; }
    }

    /** A call, and OnError if it fails. */
    method AskAndReport(call: Call) returns (hr: Hr)
      requires errors == Reports(failures, true)
      modifies this`errors, this`failures
      ensures |failures| == |old(failures)| + (if hr.Failed? then 1 else 0) && errors == Reports(failures, true)
    {
      OneMoreFailure(failures, call, true);
      hr := Ask(call);
      if hr.Failed? { errors := errors + 1; }
    }

    /** Deliver what has been read. */
    method DeliverNext(p: Piece, first: int, stop: int, ghost done: seq<Piece>, ghost rest: seq<Piece>) returns (hr: Hr)
      requires Sized() && first == First() && stop == Stop() && queue == [] && Goes(answers, false)
      requires At(done, rest) && rest != [] && rest[0] == p
      modifies this`delivered, this`answers, this`failures
      ensures hr.SOk? ==> At(done + [p], rest[1..]) && Goes(answers, false)
      ensures !hr.SOk? ==> delivered <= Expected() && (delivered == Expected() ==> !Goes(answers, false))
      ensures failures == if hr.Failed? then old(failures) + [Deliver] else old(failures)
    {
      assert done + queue + rest == done + rest;
      Prefixes(done, rest, p);
      CorrectedAppend(done, p, first, stop);
      assert done + rest == done + [p] + queue + rest[1..];
      ghost var before := answers;
      hr := DeliverSample(p, first, stop);
      OneMoreAnswer(before, hr, false);
    }

    /** The loop that keeps two requests going if there are buffers for them. */
    method ProcessOverlapped(first: int, stop: int, last: int) returns (interrupted: bool)
      requires Sized() && Starting(first, stop, last)
      modifies this`queue, this`delivered, this`answers, this`errors, this`most, this`failures, this`asked
      ensures delivered <= Expected() && (!interrupted <==> delivered == Expected() && Goes(answers, cBuffers > 1))
      ensures most <= if cBuffers > 1 then 2 else 1
      ensures |failures| <= 1 && errors == Reports(failures, false) && (!interrupted ==> failures == [] && !asked)
    {
      var current, discontinuity := first, true;
      ghost var done := [];
      while current < last
        invariant At(done, Pieces(current, last, size * UNITS, discontinuity)) && queue == []
        invariant current < last ==> discontinuity && Goes(answers, false) && most == 0
        invariant Goes(answers, cBuffers > 1) && most <= if cBuffers > 1 then 2 else 1
        invariant errors == 0 && failures == [] && !asked
        decreases last - current
      {
        Short(done, Pieces(current, last, size * UNITS, discontinuity));
        var yes := CheckRequest();
        if yes { return true; }
        var hr;
        if cBuffers > 1 {
          hr, current := QueueSample(current, last, true);
          discontinuity := false;
          if hr.Failed? { return true; }
        }
        while current < last
          invariant At(done, Pieces(current, last, size * UNITS, discontinuity))
          invariant |queue| == (if cBuffers > 1 then 1 else 0) && Goes(answers, false)
          invariant most <= if cBuffers > 1 then 2 else 1
          invariant errors == 0 && failures == [] && !asked
          decreases last - current
        {
          hr, current, done := Overlap(current, first, stop, last, discontinuity, done);
          discontinuity := false;
          if !hr.SOk? { return true; }
        }
        if cBuffers > 1 {
          hr, done := CollectLast(first, stop, done);
          if hr.Failed? { return true; }
        }
      }
      assert done + queue + [] == done;
      return false;
    }

    /** Deliver the one that is left when there is no more to ask for. */
    method CollectLast(first: int, stop: int, ghost done: seq<Piece>) returns (hr: Hr, ghost all: seq<Piece>)
      requires Sized() && |queue| == 1 && first == First() && stop == Stop() && At(done, []) && Goes(answers, false)
      requires errors == Reports(failures, false)
      modifies this`queue, this`errors, this`delivered, this`answers, this`failures
      ensures !hr.Failed? ==> At(all, []) && queue == [] && Goes(answers, true)
      ensures delivered <= Expected() && (hr.Failed? && delivered == Expected() ==> !Goes(answers, true))
      ensures |failures| == |old(failures)| + (if hr.Failed? then 1 else 0) && errors == Reports(failures, false)
    {
      all := done + [queue[0]];
      hr := CollectAndDeliver(first, stop, done, []);
      OneMoreAnswer(old(answers), hr, true);
    }

    /** Ask for one piece and deliver the oldest. */
    method Overlap(current: int, first: int, stop: int, last: int, discontinuity: bool, ghost done: seq<Piece>)
      returns (hr: Hr, next: int, ghost more: seq<Piece>)
      requires Sized() && first == First() && stop == Stop() && Goes(answers, false) && current < last
      requires At(done, Pieces(current, last, size * UNITS, discontinuity))
      requires errors == Reports(failures, false)
      modifies this`queue, this`delivered, this`answers, this`errors, this`most, this`failures
      ensures hr.SOk? ==> At(more, Pieces(next, last, size * UNITS, false)) && |queue| == |old(queue)|
      ensures hr.SOk? ==> Goes(answers, false)
      ensures hr.SOk? ==> next > current
      ensures most <= Max(old(most), |old(queue)| + 1)
      ensures !hr.SOk? ==> delivered <= Expected() && (delivered == Expected() ==> !Goes(answers, old(queue) != []))
      ensures |failures| == |old(failures)| + (if hr.Failed? then 1 else 0) && errors == Reports(failures, false)
    {
      ghost var rest := Pieces(current, last, size * UNITS, discontinuity);
      Short(done, rest);
      more := done;
      hr, next := QueueSample(current, last, discontinuity);
      if hr.Failed? { return; }
      assert rest[0] == Piece(current, next, discontinuity) && rest[1..] == Pieces(next, last, size * UNITS, false);
      assert done + old(queue) + rest == done + queue + rest[1..];
      ghost var p := queue[0];
      more := done + [p];
      Short(done, rest[1..]);
      ghost var lenient := old(queue) != [];
      hr := CollectAndDeliver(first, stop, done, rest[1..]);
      OneMoreAnswer(old(answers), hr, lenient);
      OneMoreAnswer(old(answers), hr, false);
      if !hr.Failed? && queue != [] { Short(more, rest[1..]); }
    }

    lemma Short(done: seq<Piece>, rest: seq<Piece>)
      requires Sized() && At(done, rest) && queue + rest != []
      ensures delivered <= Expected() && delivered != Expected()
    {
      assert done + (queue + rest) == done + queue + rest;
      Prefixes(done, queue + rest, (queue + rest)[0]);
    }

    lemma Prefixes(done: seq<Piece>, rest: seq<Piece>, p: Piece)
      requires Sized() && done + rest == Whole()
      ensures Corrected(done, First(), Stop()) <= Expected()
      ensures rest != [] && p == rest[0] ==> Corrected(done + [p], First(), Stop()) <= Expected()
    {
      forall i | 0 <= i < |done| ensures Corrected(done, First(), Stop())[i] == Expected()[i] {
        assert done[i] == Whole()[i];
      }
      if rest != [] && p == rest[0] {
        forall i | 0 <= i <= |done| ensures Corrected(done + [p], First(), Stop())[i] == Expected()[i] {
          assert (done + [p])[i] == Whole()[i];
        }
      }
    }
  }

  // --------------------------------------------------------------------- what is expected, as a tiling

  /** Pieces follow one another from current to last without gap or overlap. */
  lemma {:induction false} PiecesTile(current: int, last: int, span: int, discontinuity: bool)
    requires span > 0 && current < last
    ensures var ps := Pieces(current, last, span, discontinuity);
            && |ps| > 0 && ps[0].t1 == current && ps[|ps| - 1].t2 == last
            && (forall i :: 0 <= i < |ps| ==> ps[i].t1 < ps[i].t2 <= last && ps[i].t2 <= ps[i].t1 + span)
            && (forall i :: 0 <= i < |ps| ==> ps[i].t1 == current + i * span)
            && Contiguous(ps)
            && (forall i :: 0 <= i < |ps| ==> (ps[i].discontinuity <==> i == 0 && discontinuity))
    decreases last - current
  {
    var next := StopOf(current, last, span);
    var ps, rest := Pieces(current, last, span, discontinuity), Pieces(next, last, span, false);
    assert ps == [Piece(current, next, discontinuity)] + rest;
    if next < last {
      PiecesTile(next, last, span, false);
      forall i | 0 < i < |ps| ensures ps[i].t1 == current + i * span {
        assert ps[i] == rest[i - 1];
        MulDistrib(i, 1, span);
      }
    } else {
      assert rest == [];
    }
  }

  /** A multiple of the alignment below the aligned stop is below the stop itself. */
  lemma BelowStop(q: nat, s: nat, align: nat)
    requires align > 0 && q % align == 0 && q < RoundUp(s, align)
    ensures q < s
  {
    RoundUpIs(s, align);
    if q >= s {
      DivisionEquation(q, align);
      DivisionEquation(RoundUp(s, align), align);
      var m, n := q / align, RoundUp(s, align) / align;
      if m >= n { MulMono(n, m, align); } else {
        MulDistrib(m, 1, align);
        MulMono(m + 1, n, align);
      }
    }
  }

  lemma StartsAreAligned(first: nat, i: nat, size: nat, align: nat)
    requires align > 0 && first % align == 0 && size % align == 0
    ensures (first + i * size) % align == 0
  {
    DivisionEquation(first, align);
    DivisionEquation(size, align);
    var m, n := first / align, size / align;
    assert i * size == i * n * align;
    MulDistrib(m, i * n, align);
    DivModUnique(first + i * size, m + i * n, 0, align);
  }

  /** An alignment and sizes as the allocator gives them, and positions that fit 64 bits. */
  predicate Aligned(p: PullPin, k: nat) {
    && k < 31 && p.align == Pow2(k) && p.size > 0 && p.size % p.align == 0
    && p.tStart / UNITS < Pow2(62) && p.Stop() / UNITS < Pow2(62)
  }

  lemma AlignedBounds(p: PullPin, k: nat)
    requires Aligned(p, k)
    ensures p.Sized() && p.First() == p.tStart / UNITS / p.align * p.align * UNITS
    ensures p.Last() == RoundUp(p.Stop() / UNITS, p.align) * UNITS
  {
    PowersFit(k);
    AlignDownIs(p.tStart / UNITS, p.align, k);
    AlignUpIs(p.Stop() / UNITS, p.align, k);
  }

  lemma PowersFit(k: nat)
    requires k < 31
    ensures Pow2(k) <= Pow2(62) && Pow2(64) == 4 * Pow2(62)
  {
    Pow2Mono(k, 62);
    assert Pow2(64) == 2 * Pow2(63);
  }

  lemma GridBelowStop(f: nat, i: nat, size: nat, align: nat, stop: nat)
    requires align > 0 && f % align == 0 && size % align == 0
    requires f * UNITS + i * (size * UNITS) < RoundUp(stop / UNITS, align) * UNITS
    ensures f * UNITS + i * (size * UNITS) < stop
  {
    var q := f + i * size;
    Scaled(i, size);
    StartsAreAligned(f, i, size, align);
    BelowStop(q, stop / UNITS, align);
  }

  lemma Scaled(i: nat, size: nat)
    ensures i * (size * UNITS) == i * size * UNITS
  {
  }

  /** Raw pieces start before the stop, so that clipping to it leaves none empty. */
  lemma StartsBeforeStop(p: PullPin, k: nat, i: nat)
    requires Aligned(p, k)
    ensures p.Sized()
    ensures p.First() + i * (p.size * UNITS) < p.Last() ==> p.First() + i * (p.size * UNITS) < p.Stop()
  {
    AlignedBounds(p, k);
    if p.First() + i * (p.size * UNITS) < p.Last() {
      var m := p.tStart / UNITS / p.align;
      DivModUnique(m * p.align, m, 0, p.align);
      GridBelowStop(m * p.align, i, p.size, p.align, p.Stop());
    }
  }

  predicate Contiguous(ps: seq<Piece>) {
    forall i :: 0 <= i < |ps| - 1 ==> ps[i].t2 == ps[i + 1].t1
  }

  /** The stretch: from the last multiple of the alignment at or before the start, in whole units, to the first one
      that is not before the unit of the stop, which is cut off at the duration. */
  lemma StretchIs(p: PullPin, k: nat)
    requires Aligned(p, k)
    ensures p.Sized() && p.Stop() == Min(p.tStop, p.tDuration)
    ensures exists m: int :: p.First() == m * p.align * UNITS && m * p.align <= p.tStart / UNITS < (m + 1) * p.align
    ensures exists m: int :: p.Last() == m * p.align * UNITS && (m - 1) * p.align < p.Stop() / UNITS <= m * p.align
  {
    AlignedBounds(p, k);
    var t, u, d := p.tStart / UNITS, p.Stop() / UNITS, p.align;
    DivisionEquation(t, d);
    MulDistrib(t / d, 1, d);
    assert t / d * d <= t < (t / d + 1) * d;
    RoundUpIs(u, d);
    DivisionEquation(RoundUp(u, d), d);
    var m := RoundUp(u, d) / d;
    MulDistrib(m, 1, d);
    assert m * d == RoundUp(u, d) && (m - 1) * d < u <= m * d;
  }

  /** In either mode: what is delivered tiles the stretch from the aligned start, counted from there, to the
      stop or the aligned stop, whichever is earlier. No piece is empty, all but the last are as long as a buffer,
      and the first one alone is marked as a discontinuity. */
  lemma ExpectedTiles(p: PullPin, k: nat)
    requires Aligned(p, k) && p.tStart < p.tStop
    ensures p.Sized()
    ensures p.First() <= p.tStart && (p.First() >= p.Last() ==> p.Expected() == [])
    ensures p.First() < p.Last() ==>
              var e := p.Expected();
              && |e| > 0 && e[0].t1 == 0 && e[|e| - 1].t2 == Min(p.Last(), Min(p.tStop, p.tDuration)) - p.First()
              && Contiguous(e)
              && (forall i :: 0 <= i < |e| ==> e[i].t1 < e[i].t2 <= e[i].t1 + p.size * UNITS)
              && (forall i :: 0 <= i < |e| - 1 ==> e[i].t2 == e[i].t1 + p.size * UNITS)
              && (forall i :: 0 <= i < |e| ==> (e[i].discontinuity <==> i == 0))
  {
    AlignedBounds(p, k);
    AlignedStart(p.tStart, p.align);
    if p.First() < p.Last() {
      PiecesTile(p.First(), p.Last(), p.size * UNITS, true);
      var ps := p.Whole();
      forall i | 0 <= i < |ps| ensures ps[i].t1 < p.Stop() { StartsBeforeStop(p, k, i); }
      WholePieces(ps, p.First(), p.size * UNITS);
      ClippedTiles(ps, p.First(), p.Last(), p.Stop(), p.size * UNITS);
    }
  }

  /** Pieces that start at steps of span and follow one another are of that length. */
  lemma WholePieces(ps: seq<Piece>, first: int, span: int)
    requires Contiguous(ps) && forall i :: 0 <= i < |ps| ==> ps[i].t1 == first + i * span
    ensures forall i :: 0 <= i < |ps| - 1 ==> ps[i].t2 == ps[i].t1 + span
  {
    forall i | 0 <= i < |ps| - 1 ensures ps[i].t2 == ps[i].t1 + span {
      assert ps[i].t2 == ps[i + 1].t1;
      MulDistrib(i, 1, span);
    }
  }

  /** Clipping a tiling to a stop behind the last piece's start. */
  lemma ClippedTiles(ps: seq<Piece>, first: int, last: int, stop: int, span: int)
    requires |ps| > 0 && ps[0].t1 == first && ps[|ps| - 1].t2 == last && Contiguous(ps)
    requires forall i :: 0 <= i < |ps| ==> ps[i].t1 < ps[i].t2 <= last && ps[i].t2 <= ps[i].t1 + span
    requires forall i :: 0 <= i < |ps| ==> ps[i].t1 < stop
    ensures var e := Corrected(ps, first, stop);
            && |e| == |ps| && e[0].t1 == 0 && e[|e| - 1].t2 == Min(last, stop) - first && Contiguous(e)
            && (forall i :: 0 <= i < |e| ==> e[i].t1 < e[i].t2 <= e[i].t1 + span)
            && (forall i :: 0 <= i < |e| ==> (e[i].discontinuity <==> ps[i].discontinuity))
            && (forall i :: 0 <= i < |e| - 1 ==> e[i].t2 - e[i].t1 == ps[i].t2 - ps[i].t1)
  {
    var e := Corrected(ps, first, stop);
    forall i | 0 <= i < |e|
      ensures e[i] == Piece(ps[i].t1 - first, Min(ps[i].t2, stop) - first, ps[i].discontinuity)
    {
      assert e[i] == Shifted(ps[i], first, stop);
    }
    forall i | 0 <= i < |e| - 1 ensures e[i].t2 == e[i + 1].t1 && e[i].t2 == ps[i].t2 - first {
      assert ps[i].t2 == ps[i + 1].t1 < stop;
    }
  }

  lemma AlignedStart(tStart: nat, align: nat)
    requires align > 0
    ensures tStart / UNITS / align * align * UNITS <= tStart
  {
    DivisionEquation(tStart / UNITS, align);
  }

  /** The aligned stop is at or past the stop, so that nothing asked for is missing, except when the stop
      lies within a unit that begins at a multiple of the alignment: then the last part of a unit is. */
  lemma ReachesStopIff(p: PullPin, k: nat)
    requires Aligned(p, k)
    ensures p.Sized()
    ensures p.Last() >= p.Stop() <==> p.Stop() % UNITS == 0 || p.Stop() / UNITS % p.align != 0
  {
    AlignedBounds(p, k);
    RoundUpIs(p.Stop() / UNITS, p.align);
  }
}
