/** The dispatch loop of CAMSchedule::Advise as the machine runs it: a periodic request is put off by a 64-bit
    sum that may wrap. What comes of that, against the exact times of AdviseList. */
module AdviseDispatch {
  import opened AdviseList
  import opened BaseTypes

  /** Times and periods are 64-bit numbers, and no time is the sentinel's. */
  predicate WithinRange(p: Packet) { MIN64 <= p.time < MAX_TIME && (p.periodic ==> 0 < p.period <= MAX_TIME) }

  predicate InRange(ps: seq<Packet>) {
    forall p {:trigger p in ps} :: p in ps ==> WithinRange(p)
  }

  function PutOff(p: Packet): Packet { p.(time := WrappedSum(p.time, p.period)) }

  /** No node is later than the sentinel, so that the search for this request's new place ends at a null
      pointer. */
  predicate OffTheEnd(p: Packet) { p.periodic && PutOff(p).time == MAX_TIME }

  predicate Due(ps: seq<Packet>, t: int) { ps != [] && ps[0].time <= t }

  /** The list after a turn of the loop. */
  function Shunted(ps: seq<Packet>): seq<Packet>
    requires ps != []
  {
    Refile(ps, PutOff(ps[0]))
  }

  /** The loop comes to its end, having signalled fired and with rest on the list. */
  predicate Dispatches(ps: seq<Packet>, t: int, fired: seq<Firing>, rest: seq<Packet>)
    decreases |fired|
  {
    if !Due(ps, t) then fired == [] && rest == ps
    else fired != [] && fired[0] == Fired(ps[0]) && !OffTheEnd(ps[0]) && Dispatches(Shunted(ps), t, fired[1..], rest)
  }

  ghost predicate Completes(ps: seq<Packet>, t: int) {
    exists fired, rest :: Dispatches(ps, t, fired, rest)
  }

  /** After k turns the search runs off the list. */
  predicate FallsOffAfter(ps: seq<Packet>, t: int, k: nat)
    decreases k
  {
    Due(ps, t) && if k == 0 then OffTheEnd(ps[0]) else !OffTheEnd(ps[0]) && FallsOffAfter(Shunted(ps), t, k - 1)
  }

  ghost predicate FallsOff(ps: seq<Packet>, t: int) {
    exists k: nat :: FallsOffAfter(ps, t, k)
  }

  lemma {:induction false} DispatchesUnique(ps: seq<Packet>, t: int, f: seq<Firing>, r: seq<Packet>,
                                            f': seq<Firing>, r': seq<Packet>)
    requires Dispatches(ps, t, f, r) && Dispatches(ps, t, f', r')
    ensures f == f' && r == r'
    decreases |f|
  {
    if Due(ps, t) {
      DispatchesUnique(Shunted(ps), t, f[1..], r, f'[1..], r');
      assert f == [f[0]] + f[1..] && f' == [f'[0]] + f'[1..];
    }
  }

  lemma ShuntedKeeps(ps: seq<Packet>)
    requires ps != [] && InRange(ps) && !OffTheEnd(ps[0])
    ensures InRange(Shunted(ps)) && (Sorted(ps) ==> Sorted(Shunted(ps)))
  {
    RefileMembers(ps, PutOff(ps[0]));
    assert ps[0] in ps;
  }

  // ------------------------------------------------------------------ one request's ticks

  /** From time on, the first tick after t is the n-th and comes at last. */
  predicate Ends(time: int, period: int, t: int, n: nat, last: int)
    decreases n
  {
    if time > t then n == 0 && last == time else n > 0 && Ends(WrappedSum(time, period), period, t, n - 1, last)
  }

  /** The first n ticks. */
  function MachineTicks(time: int, period: int, n: nat): (ticks: seq<int>)
    ensures |ticks| == n
    decreases n
  {
    if n == 0 then [] else [time] + MachineTicks(WrappedSum(time, period), period, n - 1)
  }

  ghost predicate LeavesAt(p: Packet, t: int, last: int) {
    exists n: nat :: Ends(p.time, p.period, t, n, last)
  }

  ghost predicate Leaves(p: Packet, t: int) { exists last :: LeavesAt(p, t, last) }

  lemma {:induction false} EndsUnique(time: int, period: int, t: int, n: nat, last: int, n': nat, last': int)
    requires Ends(time, period, t, n, last) && Ends(time, period, t, n', last')
    ensures n == n' && last == last'
    decreases n
  {
    if time <= t { EndsUnique(WrappedSum(time, period), period, t, n - 1, last, n' - 1, last'); }
  }

  lemma LeavesOnce(p: Packet, t: int, last: int, last': int)
    requires LeavesAt(p, t, last) && LeavesAt(p, t, last')
    ensures last == last'
  {
    var n: nat :| Ends(p.time, p.period, t, n, last);
    var n': nat :| Ends(p.time, p.period, t, n', last');
    EndsUnique(p.time, p.period, t, n, last, n', last');
  }

  lemma PutOffLeavesAt(p: Packet, t: int, last: int)
    requires p.time <= t
    ensures LeavesAt(PutOff(p), t, last) <==> LeavesAt(p, t, last)
  {
    var q := PutOff(p);
    if LeavesAt(q, t, last) {
      var n: nat :| Ends(q.time, q.period, t, n, last);
      assert Ends(p.time, p.period, t, n + 1, last);
    }
    if LeavesAt(p, t, last) {
      var n: nat :| Ends(p.time, p.period, t, n, last);
      assert Ends(q.time, q.period, t, n - 1, last);
    }
  }

  lemma PutOffLeaves(p: Packet, t: int)
    requires p.time <= t
    ensures Leaves(PutOff(p), t) <==> Leaves(p, t)
  {
    forall last ensures LeavesAt(PutOff(p), t, last) <==> LeavesAt(p, t, last) { PutOffLeavesAt(p, t, last); }
  }

  /** The machine's ticks are the exact ones as long as these stay below the sentinel's time. A tick that falls
      on it is the last; one beyond it comes back 2^64 earlier, and so is due again. */
  lemma {:induction false} TicksBeyond(from: int, period: int, t: int, n: nat, last: int)
    requires MIN64 <= from < MAX_TIME && 0 < period <= MAX_TIME && t < MAX_TIME && Ends(from, period, t, n, last)
    ensures Ticks(from, period, t) <= MachineTicks(from, period, n)
    ensures NextTick(from, period, t) <= MAX_TIME ==>
              last == NextTick(from, period, t) && MachineTicks(from, period, n) == Ticks(from, period, t)
    ensures NextTick(from, period, t) > MAX_TIME ==>
              && |Ticks(from, period, t)| < n
              && MachineTicks(from, period, n)[|Ticks(from, period, t)|] == NextTick(from, period, t) - W64 <= t
    decreases n
  {
    if from <= t {
      var next := from + period;
      if next < MAX_TIME {
        TicksBeyond(next, period, t, n - 1, last);
      } else {
        assert Ticks(from, period, t) == [from] && NextTick(from, period, t) == next;
        if next > MAX_TIME { assert WrappedSum(from, period) == next - W64; }
      }
    }
  }

  // --------------------------------------------------------------- does the loop come to an end?

  ghost predicate AllLeave(ps: seq<Packet>, t: int) {
    forall p {:trigger p in ps} :: p in ps && p.periodic ==> Leaves(p, t)
  }

  ghost predicate SomeAtEnd(ps: seq<Packet>, t: int) {
    exists p {:trigger p in ps} :: p in ps && p.periodic && LeavesAt(p, t, MAX_TIME)
  }

  lemma ShuntedLeaves(ps: seq<Packet>, t: int)
    requires Due(ps, t)
    ensures AllLeave(Shunted(ps), t) <==> AllLeave(ps, t)
    ensures SomeAtEnd(Shunted(ps), t) <==> SomeAtEnd(ps, t)
  {
    var h, qs := ps[0], Shunted(ps);
    RefileMembers(ps, PutOff(h));
    PutOffLeaves(h, t);
    PutOffLeavesAt(h, t, MAX_TIME);
    assert h in ps && (h.periodic ==> PutOff(h) in qs);
    forall p | p in ps && p != h ensures p in qs { assert p in ps[1..]; }
    forall p | p in qs ensures p in ps || (h.periodic && p == PutOff(h)) {}
  }

  lemma HeadAtEnd(ps: seq<Packet>, t: int)
    requires Due(ps, t) && OffTheEnd(ps[0]) && t < MAX_TIME
    ensures SomeAtEnd(ps, t)
  {
    var h := ps[0];
    assert Ends(PutOff(h).time, h.period, t, 0, MAX_TIME);
    assert Ends(h.time, h.period, t, 1, MAX_TIME);
    assert h in ps;
  }

  lemma {:induction false} FallsOffMeans(ps: seq<Packet>, t: int, k: nat)
    requires FallsOffAfter(ps, t, k) && t < MAX_TIME
    ensures SomeAtEnd(ps, t)
    decreases k
  {
    if k == 0 {
      HeadAtEnd(ps, t);
    } else {
      FallsOffMeans(Shunted(ps), t, k - 1);
      ShuntedLeaves(ps, t);
    }
  }

  lemma NotDueMeans(ps: seq<Packet>, t: int)
    requires Sorted(ps) && InRange(ps) && !Due(ps, t)
    ensures AllLeave(ps, t) && !SomeAtEnd(ps, t)
  {
    forall p | p in ps && p.periodic ensures Leaves(p, t) && !LeavesAt(p, t, MAX_TIME) {
      LaterThanHead(ps, p);
      assert Ends(p.time, p.period, t, 0, p.time);
      assert LeavesAt(p, t, p.time);
      if LeavesAt(p, t, MAX_TIME) { LeavesOnce(p, t, p.time, MAX_TIME); }
    }
  }

  lemma {:induction false} DispatchesMeans(ps: seq<Packet>, t: int, fired: seq<Firing>, rest: seq<Packet>)
    requires Sorted(ps) && InRange(ps) && Dispatches(ps, t, fired, rest)
    ensures AllLeave(ps, t) && !SomeAtEnd(ps, t)
    ensures Sorted(rest) && InRange(rest) && !Due(rest, t)
    decreases |fired|
  {
    if Due(ps, t) {
      ShuntedKeeps(ps);
      DispatchesMeans(Shunted(ps), t, fired[1..], rest);
      ShuntedLeaves(ps, t);
    } else {
      NotDueMeans(ps, t);
    }
  }

  /** How many turns a request takes. */
  ghost function TurnsOf(p: Packet, t: int): (n: nat)
    requires p.periodic ==> Leaves(p, t)
    ensures p.periodic ==> exists last :: Ends(p.time, p.period, t, n, last)
  {
    if p.periodic then
      var last :| LeavesAt(p, t, last);
      var n: nat :| Ends(p.time, p.period, t, n, last);
      n
    else if p.time <= t then 1 else 0
  }

  lemma TurnsOfPutOff(p: Packet, t: int)
    requires p.periodic && p.time <= t && Leaves(p, t)
    ensures Leaves(PutOff(p), t) && TurnsOf(p, t) == TurnsOf(PutOff(p), t) + 1
  {
    var q := PutOff(p);
    PutOffLeaves(p, t);
    var last :| Ends(p.time, p.period, t, TurnsOf(p, t), last);
    var last' :| Ends(q.time, q.period, t, TurnsOf(q, t), last');
    EndsUnique(q.time, q.period, t, TurnsOf(p, t) - 1, last, TurnsOf(q, t), last');
  }

  ghost function TurnsLeft(ps: seq<Packet>, t: int): nat
    requires AllLeave(ps, t)
  {
    if ps == [] then 0
    else
      assert ps[0] in ps && forall p :: p in ps[1..] ==> p in ps;
      TurnsOf(ps[0], t) + TurnsLeft(ps[1..], t)
  }

  lemma {:induction false} InsertAfterTurns(ps: seq<Packet>, p: Packet, t: int)
    requires AllLeave(ps, t) && (p.periodic ==> Leaves(p, t))
    ensures AllLeave(InsertAfter(ps, p), t)
    ensures TurnsLeft(InsertAfter(ps, p), t) == TurnsLeft(ps, t) + TurnsOf(p, t)
  {
    var qs := InsertAfter(ps, p);
    InsertAfterFacts(ps, p);
    forall q | q in qs ensures q in ps || q == p { assert q in multiset(qs); }
    if ps == [] || ps[0].time > p.time {
      assert qs[1..] == ps;
    } else {
      assert ps[0] in ps && forall q :: q in ps[1..] ==> q in ps;
      InsertAfterTurns(ps[1..], p, t);
      assert qs[1..] == InsertAfter(ps[1..], p);
    }
  }

  lemma ShuntedTurns(ps: seq<Packet>, t: int)
    requires Due(ps, t) && AllLeave(ps, t)
    ensures AllLeave(Shunted(ps), t) && TurnsLeft(Shunted(ps), t) == TurnsLeft(ps, t) - 1
  {
    ShuntedLeaves(ps, t);
    var h := ps[0];
    assert h in ps && forall p :: p in ps[1..] ==> p in ps;
    if h.periodic {
      TurnsOfPutOff(h, t);
      InsertAfterTurns(ps[1..], PutOff(h), t);
    }
  }

  /** If every periodic request's ticks end, the loop ends: at the list's end or at a null pointer. */
  lemma {:induction false} EndsOneWay(ps: seq<Packet>, t: int)
    requires AllLeave(ps, t)
    ensures Completes(ps, t) || FallsOff(ps, t)
    decreases TurnsLeft(ps, t)
  {
    if !Due(ps, t) {
      assert Dispatches(ps, t, [], ps);
    } else if OffTheEnd(ps[0]) {
      assert FallsOffAfter(ps, t, 0);
    } else {
      ShuntedTurns(ps, t);
      EndsOneWay(Shunted(ps), t);
      if Completes(Shunted(ps), t) {
        var fired, rest :| Dispatches(Shunted(ps), t, fired, rest);
        var all := [Fired(ps[0])] + fired;
        assert all[1..] == fired;
        assert Dispatches(ps, t, all, rest);
      } else {
        var k: nat :| FallsOffAfter(Shunted(ps), t, k);
        assert FallsOffAfter(ps, t, k + 1);
      }
    }
  }

  /** The dispatch comes through exactly if the ticks of every periodic request end, and none on the sentinel's
      time. */
  lemma CompletesIff(ps: seq<Packet>, t: int)
    requires Sorted(ps) && InRange(ps) && t < MAX_TIME
    ensures Completes(ps, t) <==> AllLeave(ps, t) && !SomeAtEnd(ps, t)
  {
    if Completes(ps, t) {
      var fired, rest :| Dispatches(ps, t, fired, rest);
      DispatchesMeans(ps, t, fired, rest);
    }
    if AllLeave(ps, t) && !SomeAtEnd(ps, t) {
      EndsOneWay(ps, t);
      if k: nat :| FallsOffAfter(ps, t, k) { FallsOffMeans(ps, t, k); }
    }
  }

  /** It runs off the list exactly if some request's ticks end on the sentinel's time, as long as every one's
      end. */
  lemma FallsOffIff(ps: seq<Packet>, t: int)
    requires Sorted(ps) && InRange(ps) && t < MAX_TIME
    ensures FallsOff(ps, t) ==> SomeAtEnd(ps, t)
    ensures AllLeave(ps, t) ==> (FallsOff(ps, t) <==> SomeAtEnd(ps, t))
  {
    if k: nat :| FallsOffAfter(ps, t, k) { FallsOffMeans(ps, t, k); }
    if AllLeave(ps, t) && SomeAtEnd(ps, t) {
      EndsOneWay(ps, t);
      CompletesIff(ps, t);
    }
  }

  lemma {:induction false} ExactTicksEnd(from: int, period: int, t: int)
    requires MIN64 <= from && 0 < period && NextTick(from, period, t) <= MAX_TIME
    ensures Ends(from, period, t, |Ticks(from, period, t)|, NextTick(from, period, t))
    decreases t - from
  {
    if from <= t { ExactTicksEnd(from + period, period, t); }
  }

  /** So if no request's next tick is past the end of time, as none is while periods are no longer than what is
      left of it, the loop runs off the list exactly if some next tick is at the end of time. */
  lemma FallsOffIffNext(ps: seq<Packet>, t: int)
    requires Sorted(ps) && InRange(ps) && t < MAX_TIME
    requires forall p {:trigger p in ps} :: p in ps && p.periodic ==> NextTick(p.time, p.period, t) <= MAX_TIME
    ensures FallsOff(ps, t) <==> exists p {:trigger p in ps} ::
                                   p in ps && p.periodic && NextTick(p.time, p.period, t) == MAX_TIME
  {
    forall p | p in ps && p.periodic
      ensures Leaves(p, t) && (LeavesAt(p, t, MAX_TIME) <==> NextTick(p.time, p.period, t) == MAX_TIME)
    {
      ExactTicksEnd(p.time, p.period, t);
      assert LeavesAt(p, t, NextTick(p.time, p.period, t));
      if LeavesAt(p, t, MAX_TIME) { LeavesOnce(p, t, MAX_TIME, NextTick(p.time, p.period, t)); }
    }
    FallsOffIff(ps, t);
  }

  // ------------------------------------------------------------------------ what it signals

  lemma {:induction false} AbsentStaysQuiet(ps: seq<Packet>, t: int, cookie: nat, fired: seq<Firing>, rest: seq<Packet>)
    requires Absent(ps, cookie) && Dispatches(ps, t, fired, rest)
    ensures TimesOf(fired, cookie) == [] && Absent(rest, cookie)
    decreases |fired|
  {
    if Due(ps, t) {
      RefileMembers(ps, PutOff(ps[0]));
      assert ps[0] in ps;
      AbsentStaysQuiet(Shunted(ps), t, cookie, fired[1..], rest);
    }
  }

  /** A periodic request is signalled at each of its machine's ticks until one is after t, and waits there. */
  lemma {:induction false} PeriodicSignals(ps: seq<Packet>, t: int, p: Packet, fired: seq<Firing>, rest: seq<Packet>)
    returns (n: nat, last: int)
    requires Sorted(ps) && Unique(ps, p) && p.periodic && Dispatches(ps, t, fired, rest)
    ensures Ends(p.time, p.period, t, n, last)
    ensures TimesOf(fired, p.cookie) == MachineTicks(p.time, p.period, n) && Unique(rest, p.(time := last))
    decreases |fired|
  {
    assert p in multiset(ps) && p in ps;
    if !Due(ps, t) {
      LaterThanHead(ps, p);
      n, last := 0, p.time;
    } else {
      var b := PutOff(ps[0]);
      RefileMembers(ps, b);
      if ps[0] != p {
        UniqueInTail(ps, b, p);
        assert ps[0].cookie != p.cookie by { assert ps[0] in ps; }
        n, last := PeriodicSignals(Shunted(ps), t, p, fired[1..], rest);
      } else {
        UniqueHead(ps, b);
        var m;
        m, last := PeriodicSignals(Shunted(ps), t, b, fired[1..], rest);
        n := m + 1;
        assert b.(time := last) == p.(time := last);
      }
    }
  }

  lemma {:induction false} OneShotSignals(ps: seq<Packet>, t: int, p: Packet, fired: seq<Firing>, rest: seq<Packet>)
    requires Sorted(ps) && Unique(ps, p) && !p.periodic && Dispatches(ps, t, fired, rest)
    ensures TimesOf(fired, p.cookie) == Expected(p, t) && LeftOver(rest, p, t)
    decreases |fired|
  {
    assert p in multiset(ps) && p in ps;
    if !Due(ps, t) {
      LaterThanHead(ps, p);
    } else {
      var b := PutOff(ps[0]);
      RefileMembers(ps, b);
      if ps[0] != p {
        UniqueInTail(ps, b, p);
        assert ps[0].cookie != p.cookie by { assert ps[0] in ps; }
        OneShotSignals(Shunted(ps), t, p, fired[1..], rest);
      } else {
        UniqueHead(ps, b);
        AbsentStaysQuiet(Shunted(ps), t, p.cookie, fired[1..], rest);
      }
    }
  }

  /** A dispatch signals a request at all the times it should, and at no other exactly if its next tick is before
      the end of time. A periodic request whose next tick is beyond that is signalled again, 2^64 too early. */
  lemma SignalsAsExpectedIff(ps: seq<Packet>, t: int, p: Packet, fired: seq<Firing>, rest: seq<Packet>)
    requires Sorted(ps) && InRange(ps) && t < MAX_TIME && Unique(ps, p) && Dispatches(ps, t, fired, rest)
    ensures p.periodic ==> p.period > 0
    ensures var times, due := TimesOf(fired, p.cookie), Expected(p, t);
            && due <= times
            && (times == due <==> (p.periodic ==> NextTick(p.time, p.period, t) < MAX_TIME))
            && (times == due ==> LeftOver(rest, p, t))
            && (times != due ==> times[|due|] == NextTick(p.time, p.period, t) - W64)
  {
    assert p in multiset(ps) && p in ps;
    if p.periodic {
      var n, last := PeriodicSignals(ps, t, p, fired, rest);
      TicksBeyond(p.time, p.period, t, n, last);
      NextTickIs(p.time, p.period, t);
      DispatchesMeans(ps, t, fired, rest);
      assert LeavesAt(p, t, last);
    } else {
      OneShotSignals(ps, t, p, fired, rest);
    }
  }

  predicate Serves(p: Packet, f: Firing) {
    p.cookie == f.cookie && p.notify == f.notify && (f.signal == Released <==> p.periodic)
  }

  /** Whose request a notification is for: there is one on the list with its cookie and its handle, which is that of a
      semaphore exactly if the request is periodic. */
  ghost predicate Asked(ps: seq<Packet>, f: Firing) {
    exists p {:trigger p in ps} :: p in ps && Serves(p, f)
  }

  ghost predicate AllAsked(ps: seq<Packet>, fired: seq<Firing>) {
    forall f {:trigger f in fired} :: f in fired ==> Asked(ps, f)
  }

  /** Every notification goes to the handle given with the request that has its cookie. */
  lemma {:induction false} SignalsReachTheirHandles(ps: seq<Packet>, t: int, fired: seq<Firing>, rest: seq<Packet>)
    requires Dispatches(ps, t, fired, rest)
    ensures AllAsked(ps, fired)
    decreases |fired|
  {
    if Due(ps, t) {
      var h := ps[0];
      SignalsReachTheirHandles(Shunted(ps), t, fired[1..], rest);
      RefileMembers(ps, PutOff(h));
      assert h in ps;
      forall f | f in fired ensures Asked(ps, f) {
        if f != fired[0] {
          assert f in fired[1..];
          var p :| p in Shunted(ps) && Serves(p, f);
          if p !in ps { assert h in ps && Serves(h, f); }
        }
      }
    }
  }

  /** And with cookies of their own, to no other. */
  lemma SignalsReachOnly(ps: seq<Packet>, t: int, p: Packet, fired: seq<Firing>, rest: seq<Packet>)
    requires Dispatches(ps, t, fired, rest) && p in ps && Unique(ps, p)
    ensures forall f {:trigger f in fired} :: f in fired && f.cookie == p.cookie ==> Serves(p, f)
  {
    SignalsReachTheirHandles(ps, t, fired, rest);
    forall f | f in fired && f.cookie == p.cookie ensures Serves(p, f) {
      assert Asked(ps, f);
    }
  }

  // ----------------------------------------------------------------- against the exact dispatch

  lemma PutOffIsExact(p: Packet)
    requires p.periodic && MIN64 <= p.time && 0 < p.period && Bumped(p).time < MAX_TIME
    ensures PutOff(p) == Bumped(p)
  {
  }

  /** With no tick past the end of time, the machine does what the exact dispatch does. */
  lemma {:induction false} FitsCompletes(ps: seq<Packet>, t: int)
    requires InRange(ps) && Advancing(ps) && FitsUntil(ps, t)
    ensures Dispatches(ps, t, Advise(ps, t).fired, Advise(ps, t).rest)
    decreases Work(ps, t)
  {
    if Due(ps, t) {
      assert ps[0] in ps;
      FireHeadFits(ps, t);
      FireHeadProgress(ps, t);
      if ps[0].periodic { PutOffIsExact(ps[0]); }
      assert Shunted(ps) == FireHead(ps);
      ShuntedKeeps(ps);
      FitsCompletes(FireHead(ps), t);
      assert Advise(ps, t).fired[1..] == Advise(FireHead(ps), t).fired;
    }
  }

  /** The exact dispatch leaves a request that does not fit waiting past the end of time. */
  lemma {:induction false} LateIsLeft(ps: seq<Packet>, t: int) returns (q: Packet)
    requires Sorted(ps) && Advancing(ps) && !FitsUntil(ps, t)
    ensures q in Advise(ps, t).rest && q.time >= MAX_TIME
    decreases Work(ps, t)
  {
    if Due(ps, t) {
      FireHeadFits(ps, t);
      FireHeadProgress(ps, t);
      FireHeadMembers(ps);
      q := LateIsLeft(FireHead(ps), t);
    } else {
      q :| q in ps && q.periodic && NextTick(q.time, q.period, t) >= MAX_TIME;
      LaterThanHead(ps, q);
    }
  }

  /** And only then. */
  lemma DispatchIsExactIff(ps: seq<Packet>, t: int, fired: seq<Firing>, rest: seq<Packet>)
    requires Sorted(ps) && InRange(ps) && Dispatches(ps, t, fired, rest)
    ensures Advancing(ps)
    ensures Dispatch(fired, rest) == Advise(ps, t) <==> FitsUntil(ps, t)
  {
    if FitsUntil(ps, t) {
      FitsCompletes(ps, t);
      DispatchesUnique(ps, t, fired, rest, Advise(ps, t).fired, Advise(ps, t).rest);
    } else {
      var q := LateIsLeft(ps, t);
      DispatchesMeans(ps, t, fired, rest);
    }
  }

  // ---------------------------------------------------------------------- it does happen

  /** A request with the longest period is signalled three times where once would be right. */
  lemma SignalledThrice(p: Packet, t: int, fired: seq<Firing>, rest: seq<Packet>)
    requires p.periodic && p.time == 1 && p.period == MAX_TIME && 1 <= t < MAX_TIME - 1
    requires fired == [Fired(p), Fired(p.(time := MIN64)), Fired(p.(time := -1))] && rest == [p.(time := MAX_TIME - 1)]
    ensures Dispatches([p], t, fired, rest) && Expected(p, t) == [1]
  {
    var p1, p2 := p.(time := MIN64), p.(time := -1);
    assert PutOff(p) == p1 && PutOff(p1) == p2 && PutOff(p2) == p.(time := MAX_TIME - 1);
    assert Shunted([p]) == [p1] && Shunted([p1]) == [p2] && Shunted([p2]) == rest;
    assert fired[1..][1..][1..] == [] && Ticks(1 + MAX_TIME, MAX_TIME, t) == [];
    assert Dispatches([p2], t, fired[1..][1..], rest);
    assert Dispatches([p1], t, fired[1..], rest);
  }

  const QUARTER: int := 0x4000_0000_0000_0000

  /** Late in time a period of 2^62 steps over what is left of it in every cycle. */
  lemma {:induction false} QuartersGoOn(time: int, t: int, n: nat, last: int)
    requires time == QUARTER || time == MIN64 || time == -QUARTER || time == 0
    requires t >= QUARTER
    ensures !Ends(time, QUARTER, t, n, last)
    decreases n
  {
    if n > 0 { QuartersGoOn(WrappedSum(time, QUARTER), t, n - 1, last); }
  }

  /** The dispatch then neither comes through nor runs off the list: it does not end. */
  lemma EndlessDispatch(p: Packet, t: int)
    requires p.periodic && p.time == QUARTER && p.period == QUARTER && QUARTER <= t < MAX_TIME
    ensures !Completes([p], t) && !FallsOff([p], t)
  {
    forall last, n: nat ensures !Ends(p.time, p.period, t, n, last) { QuartersGoOn(p.time, t, n, last); }
    assert p in [p] && !Leaves(p, t);
    CompletesIff([p], t);
    FallsOffIff([p], t);
  }
}
