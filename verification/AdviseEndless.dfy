/** When a dispatch runs off the list although some request's ticks go on for ever. Such a request comes round
    again and again, and keeps those behind its latest tick from being looked at. */
module AdviseEndless {
  import opened AdviseDispatch
  import opened AdviseList
  import opened Arithmetic
  import opened BaseTypes

  /** The j-th tick from time on, as the machine forms it. */
  function TickAt(time: int, period: int, j: nat): int
    decreases j
  {
    if j == 0 then time else TickAt(WrappedSum(time, period), period, j - 1)
  }

  ghost predicate Reaches(p: Packet, b: int) {
    exists j: nat :: TickAt(p.time, p.period, j) >= b
  }

  ghost predicate Endless(p: Packet, t: int) { p.periodic && !Leaves(p, t) }

  /** Request a does not keep back the first n ticks of request p. */
  ghost predicate LetsPass(a: Packet, t: int, p: Packet, n: nat) {
    Endless(a, t) ==> forall i: nat :: i < n ==> Reaches(a, TickAt(p.time, p.period, i))
  }

  /** The ticks of p end on the sentinel's time, and none of them is behind all the ticks of an endless request. */
  ghost predicate ComesToTheEnd(ps: seq<Packet>, t: int, p: Packet) {
    p.periodic && exists n: nat :: Ends(p.time, p.period, t, n, MAX_TIME) && AllLetPass(ps, t, p, n)
  }

  ghost predicate AllLetPass(ps: seq<Packet>, t: int, p: Packet, n: nat) {
    forall a {:trigger a in ps} :: a in ps ==> LetsPass(a, t, p, n)
  }

  // -------------------------------------------------------------------- ticks come round

  lemma {:induction false} TickIsSum(time: int, period: int, j: nat)
    requires Int64(time) && Int64(period)
    ensures Int64(TickAt(time, period, j))
    ensures exists k: int :: TickAt(time, period, j) == time + j * period + k * W64
    decreases j
  {
    if j == 0 {
      assert TickAt(time, period, 0) == time + 0 * period + 0 * W64;
    } else {
      var next := WrappedSum(time, period);
      TickIsSum(next, period, j - 1);
      var k: int :| TickAt(next, period, j - 1) == next + (j - 1) * period + k * W64;
      var w := if next == time + period then 0 else if next < time + period then -1 else 1;
      MulDistrib(j, 1, period);
      assert TickAt(time, period, j) == time + j * period + (k + w) * W64;
    }
  }

  /** After 2^64 ticks a request is back where it began. */
  lemma TicksComeRound(time: int, period: int)
    requires Int64(time) && Int64(period)
    ensures TickAt(time, period, W64) == time
  {
    TickIsSum(time, period, W64);
    var k: int :| TickAt(time, period, W64) == time + W64 * period + k * W64;
    MulDistrib(period, k, W64);
    OnlyOne(TickAt(time, period, W64) - time, period + k);
  }

  lemma OnlyOne(x: int, m: int)
    requires -W64 < x < W64 && x == m * W64
    ensures x == 0
  {
  }

  /** So putting a request off changes nothing about which times it reaches. */
  lemma PutOffReaches(p: Packet, b: int)
    requires Int64(p.time) && Int64(p.period)
    ensures Reaches(PutOff(p), b) <==> Reaches(p, b)
  {
    var q := PutOff(p);
    if Reaches(p, b) {
      var j: nat :| TickAt(p.time, p.period, j) >= b;
      if j == 0 {
        TicksComeRound(p.time, p.period);
        assert TickAt(q.time, q.period, W64 - 1) >= b;
      } else {
        assert TickAt(q.time, q.period, j - 1) >= b;
      }
    }
    if Reaches(q, b) {
      var j: nat :| TickAt(q.time, q.period, j) >= b;
      assert TickAt(p.time, p.period, j + 1) >= b;
    }
  }

  lemma {:induction false} ReachedEnds(time: int, period: int, b: int, j: nat) returns (n: nat, last: int)
    requires TickAt(time, period, j) >= b
    ensures Ends(time, period, b - 1, n, last)
    decreases j
  {
    if time >= b {
      n, last := 0, time;
    } else {
      n, last := ReachedEnds(WrappedSum(time, period), period, b, j - 1);
      n := n + 1;
    }
  }

  lemma {:induction false} EndIsReached(time: int, period: int, t: int, n: nat, last: int)
    requires Ends(time, period, t, n, last)
    ensures TickAt(time, period, n) == last > t
    decreases n
  {
    if n > 0 { EndIsReached(WrappedSum(time, period), period, t, n - 1, last); }
  }

  // ---------------------------------------------------------------- what a turn keeps

  lemma PutOffLetsPass(a: Packet, t: int, p: Packet, n: nat)
    requires a.periodic && WithinRange(a) && a.time <= t
    ensures LetsPass(PutOff(a), t, p, n) <==> LetsPass(a, t, p, n)
  {
    PutOffLeaves(a, t);
    forall i: nat ensures Reaches(PutOff(a), TickAt(p.time, p.period, i)) <==> Reaches(a, TickAt(p.time, p.period, i)) {
      PutOffReaches(a, TickAt(p.time, p.period, i));
    }
  }

  /** What lets the ticks of p pass lets its later ones pass. */
  lemma LaterTicksPass(a: Packet, t: int, p: Packet, n: nat)
    requires n > 0 && LetsPass(a, t, p, n)
    ensures LetsPass(a, t, PutOff(p), n - 1)
  {
    if Endless(a, t) {
      forall i: nat | i < n - 1 ensures Reaches(a, TickAt(PutOff(p).time, p.period, i)) {
        assert Reaches(a, TickAt(p.time, p.period, i + 1));
      }
    }
  }

  /** The first tick of p passes what is not earlier, and so do all if the later ones do. */
  lemma FirstTickPasses(a: Packet, t: int, p: Packet, n: nat)
    requires n > 0 && a.time >= p.time && LetsPass(a, t, PutOff(p), n - 1)
    ensures LetsPass(a, t, p, n)
  {
    if Endless(a, t) {
      assert TickAt(a.time, a.period, 0) >= p.time;
      forall i: nat | i < n ensures Reaches(a, TickAt(p.time, p.period, i)) {
        if i > 0 { assert Reaches(a, TickAt(PutOff(p).time, p.period, i - 1)); }
      }
    }
  }

  // ------------------------------------------------------------- only what comes to the end

  lemma HeadComesToTheEnd(ps: seq<Packet>, t: int)
    requires Sorted(ps) && Due(ps, t) && OffTheEnd(ps[0]) && t < MAX_TIME
    ensures ps[0] in ps && ComesToTheEnd(ps, t, ps[0])
  {
    var p := ps[0];
    assert Ends(PutOff(p).time, p.period, t, 0, MAX_TIME);
    assert Ends(p.time, p.period, t, 1, MAX_TIME);
    forall a | a in ps ensures LetsPass(a, t, p, 1) {
      LaterThanHead(ps, a);
      FirstTickPasses(a, t, p, 1);
    }
  }

  /** A request that comes to the end after a turn did so before it. */
  lemma CameToTheEnd(ps: seq<Packet>, t: int, q: Packet) returns (p: Packet)
    requires Sorted(ps) && InRange(ps) && Due(ps, t) && q in Shunted(ps) && ComesToTheEnd(Shunted(ps), t, q)
    ensures p in ps && ComesToTheEnd(ps, t, p)
  {
    var h := ps[0];
    assert h in ps;
    RefileMembers(ps, PutOff(h));
    var n: nat :| Ends(q.time, q.period, t, n, MAX_TIME) && AllLetPass(Shunted(ps), t, q, n);
    forall a | a in ps && a.periodic ensures LetsPass(a, t, q, n) {
      if a != h {
        assert a in ps[1..] && a in Shunted(ps);
      } else {
        assert PutOff(h) in Shunted(ps);
        PutOffLetsPass(h, t, q, n);
      }
    }
    if q in ps {
      p := q;
      assert AllLetPass(ps, t, p, n);
    } else {
      p := h;
      assert Ends(h.time, h.period, t, n + 1, MAX_TIME);
      forall a | a in ps ensures LetsPass(a, t, h, n + 1) {
        LaterThanHead(ps, a);
        FirstTickPasses(a, t, h, n + 1);
      }
      assert AllLetPass(ps, t, p, n + 1);
    }
  }

  lemma {:induction false} OffMeansSome(ps: seq<Packet>, t: int, k: nat) returns (p: Packet)
    requires Sorted(ps) && InRange(ps) && t < MAX_TIME && FallsOffAfter(ps, t, k)
    ensures p in ps && ComesToTheEnd(ps, t, p)
    decreases k
  {
    if k == 0 {
      HeadComesToTheEnd(ps, t);
      p := ps[0];
    } else {
      ShuntedKeeps(ps);
      var q := OffMeansSome(Shunted(ps), t, k - 1);
      p := CameToTheEnd(ps, t, q);
    }
  }

  // ------------------------------------------------------------- and that in any case

  /** Every request of pre comes, from its next tick on, to time b or later. */
  ghost predicate AllMoveOn(pre: seq<Packet>, b: int) {
    forall x {:trigger x in pre} :: x in pre && x.periodic ==> Leaves(PutOff(x), b - 1)
  }

  /** How many turns the requests of pre take before a request at time b that is behind them. */
  ghost function Ahead(pre: seq<Packet>, b: int): nat
    requires AllMoveOn(pre, b)
  {
    if pre == [] then 0
    else
      assert pre[0] in pre && forall x :: x in pre[1..] ==> x in pre;
      1 + (if pre[0].periodic then TurnsOf(PutOff(pre[0]), b - 1) else 0) + Ahead(pre[1..], b)
  }

  lemma {:induction false} InsertAfterAhead(pre: seq<Packet>, x: Packet, b: int)
    requires AllMoveOn(pre, b) && x.periodic && Leaves(PutOff(x), b - 1)
    ensures AllMoveOn(InsertAfter(pre, x), b)
    ensures Ahead(InsertAfter(pre, x), b) == Ahead(pre, b) + 1 + TurnsOf(PutOff(x), b - 1)
  {
    var qs := InsertAfter(pre, x);
    InsertAfterFacts(pre, x);
    forall q | q in qs ensures q in pre || q == x { assert q in multiset(qs); }
    if pre == [] || pre[0].time > x.time {
      assert qs[1..] == pre;
    } else {
      assert pre[0] in pre && forall q :: q in pre[1..] ==> q in pre;
      InsertAfterAhead(pre[1..], x, b);
      assert qs[1..] == InsertAfter(pre[1..], x);
    }
  }

  /** Where a request goes that is put in among others and p. */
  lemma {:induction false} InsertAround(pre: seq<Packet>, p: Packet, post: seq<Packet>, x: Packet)
    requires forall y {:trigger y in pre} :: y in pre ==> y.time <= p.time
    ensures InsertAfter(pre + [p] + post, x) ==
            if x.time >= p.time then pre + [p] + InsertAfter(post, x) else InsertAfter(pre, x) + [p] + post
  {
    var ps := pre + [p] + post;
    if pre == [] {
      assert ps[0] == p && ps[1..] == post;
      assert InsertAfter([], x) == [x];
      if x.time < p.time { assert [x] + ps == [x] + [p] + post; }
    } else {
      assert pre[0] in pre && forall y :: y in pre[1..] ==> y in pre;
      assert ps[0] == pre[0] && ps[1..] == pre[1..] + [p] + post;
      InsertAround(pre[1..], p, post, x);
      if pre[0].time > x.time {
        assert [x] + ps == [x] + pre + [p] + post;
      } else if x.time >= p.time {
        assert [pre[0]] + (pre[1..] + [p] + InsertAfter(post, x)) == pre + [p] + InsertAfter(post, x);
      } else {
        assert [pre[0]] + (InsertAfter(pre[1..], x) + [p] + post) == InsertAfter(pre, x) + [p] + post;
      }
    }
  }

  lemma {:induction false} InsertSplits(ps: seq<Packet>, x: Packet) returns (pre: seq<Packet>, post: seq<Packet>)
    ensures ps == pre + post && InsertAfter(ps, x) == pre + [x] + post
    ensures forall y {:trigger y in pre} :: y in pre ==> y.time <= x.time
  {
    if ps == [] || ps[0].time > x.time {
      pre, post := [], ps;
    } else {
      var rest;
      rest, post := InsertSplits(ps[1..], x);
      pre := [ps[0]] + rest;
    }
  }

  /** A request p behind those of pre will come to the end if nothing keeps it back. */
  ghost predicate Waiting(pre: seq<Packet>, p: Packet, post: seq<Packet>, t: int, n: nat) {
    && InRange(pre + [p] + post) && t < MAX_TIME && p.periodic
    && (forall y {:trigger y in pre} :: y in pre ==> y.time <= p.time)
    && Ends(p.time, p.period, t, n, MAX_TIME)
    && AllLetPass(pre, t, p, n) && AllLetPass(post, t, p, n)
  }

  /** Whatever is in front of p will have moved on. */
  lemma MovesOn(x: Packet, t: int, p: Packet, n: nat)
    requires WithinRange(x) && x.periodic && x.time <= p.time <= t && n > 0 && LetsPass(x, t, p, n)
    ensures Leaves(PutOff(x), p.time - 1)
  {
    var q := PutOff(x);
    if Endless(x, t) {
      assert Reaches(x, TickAt(p.time, p.period, 0));
      PutOffReaches(x, p.time);
    } else {
      PutOffLeaves(x, t);
      var last :| LeavesAt(q, t, last);
      var m: nat :| Ends(q.time, q.period, t, m, last);
      EndIsReached(q.time, q.period, t, m, last);
    }
    var j: nat :| TickAt(q.time, q.period, j) >= p.time;
    var m, last := ReachedEnds(q.time, q.period, p.time, j);
    assert LeavesAt(q, p.time - 1, last);
  }

  lemma AllInFrontMoveOn(pre: seq<Packet>, p: Packet, post: seq<Packet>, t: int, n: nat)
    requires Waiting(pre, p, post, t, n) && n > 0
    ensures AllMoveOn(pre, p.time)
  {
    forall x | x in pre && x.periodic ensures Leaves(PutOff(x), p.time - 1) {
      assert x in pre + [p] + post;
      assert p in pre + [p] + post;
      MovesOn(x, t, p, n);
    }
  }

  lemma NotYet(p: Packet, t: int, n: nat)
    requires Ends(p.time, p.period, t, n, MAX_TIME) && p.time < MAX_TIME
    ensures n > 0 && p.time <= t
  {
  }

  /** The first of pre takes its turn and stays in front, or goes behind p, or off the list. */
  lemma FrontTakesTurn(pre: seq<Packet>, p: Packet, post: seq<Packet>, t: int, n: nat)
    returns (pre': seq<Packet>, post': seq<Packet>)
    requires Waiting(pre, p, post, t, n) && n > 0 && pre != [] && !OffTheEnd(pre[0]) && AllMoveOn(pre, p.time)
    ensures Shunted(pre + [p] + post) == pre' + [p] + post' && Waiting(pre', p, post', t, n)
    ensures AllMoveOn(pre', p.time) && Ahead(pre', p.time) < Ahead(pre, p.time)
  {
    var h, c := pre[0], PutOff(pre[0]);
    var ps := pre + [p] + post;
    assert h in pre && h in ps && p in ps && forall x :: x in pre[1..] ==> x in pre;
    assert ps[0] == h && ps[1..] == pre[1..] + [p] + post;
    ShuntedKeeps(ps);
    NotYet(p, t, n);
    pre', post' := pre[1..], post;
    if h.periodic {
      InsertAround(pre[1..], p, post, c);
      PutOffLetsPass(h, t, p, n);
      if c.time >= p.time {
        post' := InsertAfter(post, c);
        InsertedLetPass(post, c, t, p, n);
      } else {
        pre' := InsertAfter(pre[1..], c);
        InsertedLetPass(pre[1..], c, t, p, n);
        InsertedInFront(pre[1..], c, p.time);
        TurnsOfPutOff(c, p.time - 1);
        InsertAfterAhead(pre[1..], c, p.time);
      }
    }
  }

  lemma InsertedLetPass(ps: seq<Packet>, c: Packet, t: int, p: Packet, n: nat)
    requires AllLetPass(ps, t, p, n) && LetsPass(c, t, p, n)
    ensures AllLetPass(InsertAfter(ps, c), t, p, n)
  {
    InsertAfterFacts(ps, c);
    forall a | a in InsertAfter(ps, c) ensures LetsPass(a, t, p, n) {
      assert a in multiset(InsertAfter(ps, c));
      assert a in ps || a == c;
    }
  }

  lemma InsertedInFront(ps: seq<Packet>, c: Packet, b: int)
    requires c.time <= b && forall y {:trigger y in ps} :: y in ps ==> y.time <= b
    ensures forall y {:trigger y in InsertAfter(ps, c)} :: y in InsertAfter(ps, c) ==> y.time <= b
  {
    InsertAfterFacts(ps, c);
    forall y | y in InsertAfter(ps, c) ensures y.time <= b {
      assert y in multiset(InsertAfter(ps, c));
      assert y in ps || y == c;
    }
  }

  lemma TurnTakenFirst(ps: seq<Packet>, t: int)
    requires Due(ps, t) && (OffTheEnd(ps[0]) || FallsOff(Shunted(ps), t))
    ensures FallsOff(ps, t)
  {
    if OffTheEnd(ps[0]) {
      assert FallsOffAfter(ps, t, 0);
    } else {
      var k: nat :| FallsOffAfter(Shunted(ps), t, k);
      assert FallsOffAfter(ps, t, k + 1);
    }
  }

  /** p takes its turn, with nothing in front of it. */
  lemma TakesTurn(p: Packet, post: seq<Packet>, t: int, n: nat) returns (pre': seq<Packet>, post': seq<Packet>)
    requires Waiting([], p, post, t, n) && n > 0 && !OffTheEnd(p)
    ensures Shunted([p] + post) == pre' + [PutOff(p)] + post' && Waiting(pre', PutOff(p), post', t, n - 1)
  {
    var ps := [p] + post;
    assert [] + [p] + post == ps && p in ps && ps[1..] == post;
    NotYet(p, t, n);
    ShuntedKeeps(ps);
    pre', post' := InsertSplits(post, PutOff(p));
    forall a | a in post ensures LetsPass(a, t, PutOff(p), n - 1) { LaterTicksPass(a, t, p, n); }
    assert forall a :: a in pre' ==> a in pre' + post';
    assert forall a :: a in post' ==> a in pre' + post';
  }

  lemma {:induction false} WaitingFallsOff(pre: seq<Packet>, p: Packet, post: seq<Packet>, t: int, n: nat)
    requires Waiting(pre, p, post, t, n) && n > 0 && AllMoveOn(pre, p.time)
    ensures FallsOff(pre + [p] + post, t)
    decreases n, Ahead(pre, p.time)
  {
    var ps := pre + [p] + post;
    assert p in ps;
    NotYet(p, t, n);
    if pre == [] {
      assert ps == [p] + post;
      if !OffTheEnd(p) {
        var pre', post' := TakesTurn(p, post, t, n);
        assert PutOff(p) in pre' + [PutOff(p)] + post';
        NotYet(PutOff(p), t, n - 1);
        AllInFrontMoveOn(pre', PutOff(p), post', t, n - 1);
        WaitingFallsOff(pre', PutOff(p), post', t, n - 1);
      }
    } else {
      assert ps[0] == pre[0] && pre[0] in pre;
      if !OffTheEnd(pre[0]) {
        var pre', post' := FrontTakesTurn(pre, p, post, t, n);
        WaitingFallsOff(pre', p, post', t, n);
      }
    }
    TurnTakenFirst(ps, t);
  }

  /** A dispatch runs off the list exactly if the ticks of some request end on the sentinel's time, and none of
      them is later than all the ticks of a request whose ticks do not end. */
  lemma FallsOffExactly(ps: seq<Packet>, t: int)
    requires Sorted(ps) && InRange(ps) && t < MAX_TIME
    ensures FallsOff(ps, t) <==> exists p {:trigger p in ps} :: p in ps && ComesToTheEnd(ps, t, p)
  {
    if FallsOff(ps, t) {
      var k: nat :| FallsOffAfter(ps, t, k);
      var p := OffMeansSome(ps, t, k);
    }
    if p :| p in ps && ComesToTheEnd(ps, t, p) {
      var n: nat :| Ends(p.time, p.period, t, n, MAX_TIME) && AllLetPass(ps, t, p, n);
      var i :| 0 <= i < |ps| && ps[i] == p;
      var pre, post := ps[..i], ps[i + 1..];
      assert pre + [p] + post == ps;
      forall y | y in pre ensures y.time <= p.time && y in ps {
        var j :| 0 <= j < |pre| && pre[j] == y;
        assert ps[j] == y;
      }
      forall y | y in post ensures y in ps {}
      NotYet(p, t, n);
      AllInFrontMoveOn(pre, p, post, t, n);
      WaitingFallsOff(pre, p, post, t, n);
    }
  }

  /** It is not enough that its ticks end there: a request of period 2^62 keeps one that is later than all its
      ticks from ever being looked at. */
  lemma KeptBack(a: Packet, p: Packet, t: int)
    requires a.periodic && a.time == QUARTER && a.period == QUARTER
    requires p.periodic && p.time == QUARTER + 1 && p.period == MAX_TIME - p.time && p.time <= t < MAX_TIME
    ensures LeavesAt(p, t, MAX_TIME) && !FallsOff([a, p], t) && !Completes([a, p], t)
  {
    assert Ends(MAX_TIME, p.period, t, 0, MAX_TIME);
    assert Ends(p.time, p.period, t, 1, MAX_TIME);
    forall last, n: nat ensures !Ends(a.time, a.period, t, n, last) { QuartersGoOn(a.time, t, n, last); }
    assert a in [a, p] && Endless(a, t);
    CompletesIff([a, p], t);
    FallsOffExactly([a, p], t);
    if q :| q in [a, p] && ComesToTheEnd([a, p], t, q) {
      var n: nat :| Ends(q.time, q.period, t, n, MAX_TIME) && AllLetPass([a, p], t, q, n);
      assert q == p && LetsPass(a, t, p, n);
      assert n > 0 && Reaches(a, TickAt(p.time, p.period, 0));
      var j: nat :| TickAt(a.time, a.period, j) >= p.time;
      QuartersStayBelow(a.time, j);
      assert false;
    }
  }

  lemma {:induction false} QuartersStayBelow(time: int, j: nat)
    requires time == QUARTER || time == MIN64 || time == -QUARTER || time == 0
    ensures TickAt(time, QUARTER, j) <= QUARTER
    decreases j
  {
    if j > 0 { QuartersStayBelow(WrappedSum(time, QUARTER), j - 1); }
  }
}
