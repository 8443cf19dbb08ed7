/** The list of advise requests as a sequence: insertion, cancellation and dispatch, and what a dispatch
    up to a given time fires, with times as unbounded integers. */
module AdviseList {
  import opened Arithmetic
  import opened BaseTypes

  datatype Packet = Packet(cookie: nat, time: int, period: int, notify: int, periodic: bool)

  /** How a handle is signalled: a semaphore by one count more, an event by setting it. */
  datatype Signal = Released | Set

  /** One signalled notification. */
  datatype Firing = Firing(cookie: nat, time: int, notify: int, signal: Signal)

  predicate Sorted(ps: seq<Packet>) {
    forall i, j :: 0 <= i < j < |ps| ==> ps[i].time <= ps[j].time
  }

  /** Periodic requests move forward. */
  predicate Advancing(ps: seq<Packet>) {
    forall p {:trigger p in ps} :: p in ps && p.periodic ==> p.period > 0
  }

  /** AddAdvisePacket: in front of the first packet that is not earlier. */
  function InsertBefore(ps: seq<Packet>, p: Packet): seq<Packet> {
    if ps == [] || ps[0].time >= p.time then [p] + ps else [ps[0]] + InsertBefore(ps[1..], p)
  }

  /** ShuntHead: in front of the first packet that is later. */
  function InsertAfter(ps: seq<Packet>, p: Packet): seq<Packet> {
    if ps == [] || ps[0].time > p.time then [p] + ps else [ps[0]] + InsertAfter(ps[1..], p)
  }

  /** Unadvise: drop the first packet with this cookie. */
  function RemoveCookie(ps: seq<Packet>, cookie: nat): seq<Packet> {
    if ps == [] then [] else if ps[0].cookie == cookie then ps[1..] else [ps[0]] + RemoveCookie(ps[1..], cookie)
  }

  predicate HasCookie(ps: seq<Packet>, cookie: nat) {
    exists i :: 0 <= i < |ps| && ps[i].cookie == cookie
  }

  function Bumped(p: Packet): Packet { p.(time := p.time + p.period) }

  function Fired(p: Packet): Firing {
    Firing(p.cookie, p.time, p.notify, if p.periodic then Released else Set)
  }

  /** The list without its first packet, but with b where it belongs if that is to come back. */
  function Refile(ps: seq<Packet>, b: Packet): seq<Packet>
    requires ps != []
  {
    if ps[0].periodic then InsertAfter(ps[1..], b) else ps[1..]
  }

  /** The list after its first packet has been dispatched. */
  function FireHead(ps: seq<Packet>): seq<Packet>
    requires ps != []
  {
    Refile(ps, Bumped(ps[0]))
  }

  /** How far the packets are from being past time t. */
  function Work(ps: seq<Packet>, t: int): nat {
    if ps == [] then 0 else Max(0, t - ps[0].time + 1) + Work(ps[1..], t)
  }

  datatype Dispatch = Dispatch(fired: seq<Firing>, rest: seq<Packet>)

  /** CAMSchedule::Advise: dispatch the first packet as long as it is due. */
  function Advise(ps: seq<Packet>, t: int): Dispatch
    requires Advancing(ps)
    decreases Work(ps, t)
  {
    if ps == [] || ps[0].time > t then Dispatch([], ps)
    else
      FireHeadProgress(ps, t);
      FireHeadMembers(ps);
      var d := Advise(FireHead(ps), t);
      Dispatch([Fired(ps[0])] + d.fired, d.rest)
  }

  /** The time Advise returns: the first packet's, or the sentinel's. */
  function NextTime(ps: seq<Packet>): int { if ps == [] then MAX_TIME else ps[0].time }

  // --------------------------------------------------------------- what the list operations keep

  lemma StaysBehind(time: int, ps: seq<Packet>, qs: seq<Packet>, p: Packet)
    requires multiset(qs) == multiset(ps) + multiset{p}
    requires time <= p.time && forall i :: 0 <= i < |ps| ==> time <= ps[i].time
    ensures forall i :: 0 <= i < |qs| ==> time <= qs[i].time
  {
    forall i | 0 <= i < |qs| ensures time <= qs[i].time {
      assert qs[i] in multiset(qs);
      assert qs[i] in ps || qs[i] == p;
    }
  }

  lemma {:induction false} InsertAfterFacts(ps: seq<Packet>, p: Packet)
    ensures multiset(InsertAfter(ps, p)) == multiset(ps) + multiset{p}
    ensures Sorted(ps) ==> Sorted(InsertAfter(ps, p))
  {
    if ps != [] && ps[0].time <= p.time {
      var tail := InsertAfter(ps[1..], p);
      InsertAfterFacts(ps[1..], p);
      InsertBehind(ps, tail, p);
    }
  }

  /** Keeping the head and inserting p into the rest. */
  lemma InsertBehind(ps: seq<Packet>, tail: seq<Packet>, p: Packet)
    requires ps != [] && ps[0].time <= p.time
    requires multiset(tail) == multiset(ps[1..]) + multiset{p} && (Sorted(ps[1..]) ==> Sorted(tail))
    ensures multiset([ps[0]] + tail) == multiset(ps) + multiset{p}
    ensures Sorted(ps) ==> Sorted([ps[0]] + tail)
  {
    assert ps == [ps[0]] + ps[1..];
    if Sorted(ps) { StaysBehind(ps[0].time, ps[1..], tail, p); }
  }

  lemma {:induction false} InsertAfterWork(ps: seq<Packet>, p: Packet, t: int)
    ensures Work(InsertAfter(ps, p), t) == Work(ps, t) + Max(0, t - p.time + 1)
  {
    if ps == [] || ps[0].time > p.time {
      assert ([p] + ps)[1..] == ps;
    } else {
      InsertAfterWork(ps[1..], p, t);
      assert ([ps[0]] + InsertAfter(ps[1..], p))[1..] == InsertAfter(ps[1..], p);
    }
  }

  lemma {:induction false} InsertBeforeFacts(ps: seq<Packet>, p: Packet)
    ensures multiset(InsertBefore(ps, p)) == multiset(ps) + multiset{p}
    ensures Sorted(ps) ==> Sorted(InsertBefore(ps, p))
    ensures NextTime(InsertBefore(ps, p)) == if ps == [] || ps[0].time >= p.time then p.time else NextTime(ps)
  {
    if ps != [] && ps[0].time < p.time {
      var tail := InsertBefore(ps[1..], p);
      InsertBeforeFacts(ps[1..], p);
      InsertBehind(ps, tail, p);
    }
  }

  lemma FireHeadProgress(ps: seq<Packet>, t: int)
    requires ps != [] && Advancing(ps) && ps[0].time <= t
    ensures Work(FireHead(ps), t) < Work(ps, t)
  {
    assert ps[0] in ps;
    if ps[0].periodic { InsertAfterWork(ps[1..], Bumped(ps[0]), t); }
  }

  /** Refiling keeps every other packet, and puts b in if the first is periodic. */
  lemma RefileMembers(ps: seq<Packet>, b: Packet)
    requires ps != []
    ensures multiset(Refile(ps, b)) == multiset(ps[1..]) + if ps[0].periodic then multiset{b} else multiset{}
    ensures Sorted(ps) ==> Sorted(Refile(ps, b))
    ensures forall q :: q in Refile(ps, b) <==> q in ps[1..] || (ps[0].periodic && q == b)
    ensures forall q {:trigger q in Refile(ps, b)} :: q in Refile(ps, b) ==> q in ps || (ps[0].periodic && q == b)
  {
    if ps[0].periodic { InsertAfterFacts(ps[1..], b); }
    var f := Refile(ps, b);
    assert forall q :: q in f <==> q in multiset(f);
    assert forall q :: q in ps[1..] <==> q in multiset(ps[1..]);
  }

  /** Dispatch keeps every other packet, and the dispatched one if it is periodic. */
  lemma FireHeadMembers(ps: seq<Packet>)
    requires ps != []
    ensures multiset(FireHead(ps)) == multiset(ps[1..]) + if ps[0].periodic then multiset{Bumped(ps[0])} else multiset{}
    ensures Advancing(ps) ==> Advancing(FireHead(ps))
    ensures Sorted(ps) ==> Sorted(FireHead(ps))
    ensures forall q :: q in FireHead(ps) <==> q in ps[1..] || (ps[0].periodic && q == Bumped(ps[0]))
    ensures forall q {:trigger q in FireHead(ps)} ::
              q in FireHead(ps) ==> q in ps || (ps[0].periodic && q == Bumped(ps[0]))
  {
    RefileMembers(ps, Bumped(ps[0]));
    if Advancing(ps) {
      assert ps[0] in ps;
      forall q | q in FireHead(ps) && q.periodic ensures q.period > 0 {
        if q in ps[1..] { assert q in ps; }
      }
    }
  }

  // ------------------------------------------------------------------- what a dispatch fires

  /** The times at which one request was signalled. */
  function TimesOf(fs: seq<Firing>, cookie: nat): seq<int> {
    if fs == [] then []
    else (if fs[0].cookie == cookie then [fs[0].time] else []) + TimesOf(fs[1..], cookie)
  }

  /** from, from + period, ... up to and including t. */
  function Ticks(from: int, period: int, t: int): seq<int>
    requires period > 0
    decreases t - from
  {
    if from > t then [] else [from] + Ticks(from + period, period, t)
  }

  function Expected(p: Packet, t: int): seq<int>
    requires p.periodic ==> p.period > 0
  {
    if p.periodic then Ticks(p.time, p.period, t) else if p.time <= t then [p.time] else []
  }

  /** p is on the list once, and nothing else there has its cookie. */
  ghost predicate Unique(ps: seq<Packet>, p: Packet) {
    multiset(ps)[p] == 1 && forall q {:trigger q in ps} :: q in ps && q.cookie == p.cookie ==> q == p
  }

  ghost predicate Absent(ps: seq<Packet>, cookie: nat) {
    forall q {:trigger q in ps} :: q in ps ==> q.cookie != cookie
  }

  lemma HeadSplit(ps: seq<Packet>)
    requires ps != []
    ensures multiset(ps) == multiset{ps[0]} + multiset(ps[1..])
  {
    assert ps == [ps[0]] + ps[1..];
  }

  lemma {:induction false} AbsentStaysSilent(ps: seq<Packet>, t: int, cookie: nat)
    requires Advancing(ps) && Absent(ps, cookie)
    ensures TimesOf(Advise(ps, t).fired, cookie) == [] && Absent(Advise(ps, t).rest, cookie)
    decreases Work(ps, t)
  {
    if ps != [] && ps[0].time <= t {
      FireHeadProgress(ps, t);
      FireHeadMembers(ps);
      assert ps[0] in ps;
      assert Absent(FireHead(ps), cookie);
      AbsentStaysSilent(FireHead(ps), t, cookie);
      assert Advise(ps, t).fired[1..] == Advise(FireHead(ps), t).fired;
    }
  }

  /** A request that is not first keeps its place when the first is refiled. */
  lemma UniqueInTail(ps: seq<Packet>, b: Packet, p: Packet)
    requires ps != [] && Unique(ps, p) && ps[0] != p && b.cookie == ps[0].cookie
    ensures Unique(Refile(ps, b), p)
  {
    RefileMembers(ps, b);
    HeadSplit(ps);
    assert ps[0] in ps;
    assert b.cookie != p.cookie;
    assert forall q :: q in Refile(ps, b) && q.cookie == p.cookie ==> q in ps[1..] && q in ps;
  }

  lemma UniqueHead(ps: seq<Packet>, b: Packet)
    requires ps != [] && Unique(ps, ps[0]) && b.cookie == ps[0].cookie
    ensures Absent(ps[1..], ps[0].cookie)
    ensures ps[0].periodic ==> Unique(Refile(ps, b), b)
    ensures !ps[0].periodic ==> Absent(Refile(ps, b), ps[0].cookie)
  {
    RefileMembers(ps, b);
    HeadSplit(ps);
    var p := ps[0];
    forall q | q in ps[1..] ensures q.cookie != p.cookie {
      assert q in ps && q in multiset(ps[1..]);
    }
    if p.periodic {
      assert b !in multiset(ps[1..]);
    }
  }

  /** Where a request that survives is left. */
  ghost predicate LeftOver(rest: seq<Packet>, p: Packet, t: int)
    requires p.periodic ==> p.period > 0
  {
    if p.periodic then Unique(rest, p.(time := p.time + |Expected(p, t)| * p.period))
    else if p.time > t then Unique(rest, p)
    else Absent(rest, p.cookie)
  }

  lemma DueUnfolds(ps: seq<Packet>, t: int, cookie: nat)
    requires Advancing(ps) && ps != [] && ps[0].time <= t
    ensures Advancing(FireHead(ps)) && Work(FireHead(ps), t) < Work(ps, t)
    ensures var d, e := Advise(ps, t), Advise(FireHead(ps), t);
            && d.rest == e.rest
            && TimesOf(d.fired, cookie) == (if ps[0].cookie == cookie then [ps[0].time] else []) + TimesOf(e.fired, cookie)
  {
    FireHeadProgress(ps, t);
    FireHeadMembers(ps);
    assert Advise(ps, t).fired[1..] == Advise(FireHead(ps), t).fired;
  }

  lemma NotDueYet(ps: seq<Packet>, t: int, p: Packet)
    requires Sorted(ps) && Advancing(ps) && Unique(ps, p) && (p.periodic ==> p.period > 0)
    requires ps[0].time > t
    ensures Expected(p, t) == [] && LeftOver(ps, p, t)
  {
    assert p in multiset(ps) && p in ps;
    var i :| 0 <= i < |ps| && ps[i] == p;
    assert p.time >= ps[0].time;
    assert p.periodic ==> p.(time := p.time + 0 * p.period) == p;
  }

  lemma LeftOverBumped(rest: seq<Packet>, p: Packet, t: int)
    requires p.periodic && p.period > 0 && p.time <= t && LeftOver(rest, Bumped(p), t)
    ensures LeftOver(rest, p, t) && Expected(p, t) == [p.time] + Expected(Bumped(p), t)
  {
    var b := Bumped(p);
    var n := |Expected(b, t)|;
    MulDistrib(n, 1, p.period);
    assert b.(time := b.time + n * b.period) == p.(time := p.time + (n + 1) * p.period);
  }

  /** A dispatch to time t signals each request exactly when it should: a one-shot once and for all, a
      periodic one at every tick up to t, after which it waits at its next tick. */
  lemma {:induction false} FiresAsExpected(ps: seq<Packet>, t: int, p: Packet)
    requires Sorted(ps) && Advancing(ps) && Unique(ps, p) && (p.periodic ==> p.period > 0)
    ensures TimesOf(Advise(ps, t).fired, p.cookie) == Expected(p, t)
    ensures LeftOver(Advise(ps, t).rest, p, t)
    decreases Work(ps, t)
  {
    assert p in multiset(ps) && p in ps;
    if ps[0].time > t {
      NotDueYet(ps, t, p);
    } else {
      DueUnfolds(ps, t, p.cookie);
      FireHeadMembers(ps);
      if ps[0] != p {
        UniqueInTail(ps, Bumped(ps[0]), p);
        assert ps[0].cookie != p.cookie by { assert ps[0] in ps; }
        FiresAsExpected(FireHead(ps), t, p);
      } else {
        UniqueHead(ps, Bumped(p));
        if p.periodic {
          FiresAsExpected(FireHead(ps), t, Bumped(p));
          LeftOverBumped(Advise(ps, t).rest, p, t);
        } else {
          AbsentStaysSilent(FireHead(ps), t, p.cookie);
        }
      }
    }
  }

  /** How many ticks there are, and where. */
  lemma {:induction false} TicksAre(from: int, period: int, t: int)
    requires period > 0
    ensures |Ticks(from, period, t)| == if from > t then 0 else (t - from) / period + 1
    ensures forall i :: 0 <= i < |Ticks(from, period, t)| ==> Ticks(from, period, t)[i] == from + i * period
    decreases t - from
  {
    if from <= t {
      TicksAre(from + period, period, t);
      var n := (t - from) / period;
      DivisionEquation(t - from, period);
      MulDistrib(n, 1, period);
      if from + period <= t {
        DivModUnique(t - from - period, n - 1, (t - from) % period, period);
      } else {
        DivModUnique(t - from, 0, t - from, period);
      }
      var ticks := Ticks(from, period, t);
      forall i | 0 <= i < |ticks| ensures ticks[i] == from + i * period {
        if i > 0 {
          assert ticks[i] == Ticks(from + period, period, t)[i - 1];
          MulDistrib(i, 1, period);
        }
      }
    }
  }

  /** The first tick after t. */
  function NextTick(from: int, period: int, t: int): (n: int)
    requires period > 0
    ensures n > t && n >= from
    decreases t - from
  {
    if from > t then from else NextTick(from + period, period, t)
  }

  lemma {:induction false} NextTickIs(from: int, period: int, t: int)
    requires period > 0
    ensures NextTick(from, period, t) == from + |Ticks(from, period, t)| * period
    ensures NextTick(from, period, t) == if from > t then from else from + ((t - from) / period + 1) * period
    decreases t - from
  {
    TicksAre(from, period, t);
    if from <= t {
      NextTickIs(from + period, period, t);
      MulDistrib(|Ticks(from + period, period, t)|, 1, period);
    }
  }

  /** No request comes to its next tick after t as late as the sentinel. */
  predicate FitsUntil(ps: seq<Packet>, t: int)
    requires Advancing(ps)
  {
    forall p {:trigger p in ps} :: p in ps && p.periodic ==> NextTick(p.time, p.period, t) < MAX_TIME
  }

  lemma FireHeadFits(ps: seq<Packet>, t: int)
    requires ps != [] && ps[0].time <= t && Advancing(ps)
    ensures Advancing(FireHead(ps)) && (FitsUntil(FireHead(ps), t) <==> FitsUntil(ps, t))
    ensures FitsUntil(ps, t) && ps[0].periodic ==> Bumped(ps[0]).time < MAX_TIME
  {
    FireHeadMembers(ps);
    var h, qs := ps[0], FireHead(ps);
    assert h in ps;
    forall p | p in ps && p != h ensures p in qs { assert p in ps[1..]; }
    if h.periodic { assert Bumped(h) in qs && NextTick(h.time, h.period, t) == NextTick(Bumped(h).time, h.period, t); }
  }

  lemma LaterThanHead(ps: seq<Packet>, p: Packet)
    requires Sorted(ps) && p in ps
    ensures ps[0].time <= p.time
  {
    var i :| 0 <= i < |ps| && ps[i] == p;
  }

  predicate FiredInOrder(fs: seq<Firing>) {
    forall i, j :: 0 <= i < j < |fs| ==> fs[i].time <= fs[j].time
  }

  predicate FiredWithin(fs: seq<Firing>, from: int, t: int) {
    forall i :: 0 <= i < |fs| ==> from <= fs[i].time <= t
  }

  /** Notifications go out in time order and none of them early. */
  lemma {:induction false} DispatchIsOrdered(ps: seq<Packet>, t: int)
    requires Sorted(ps) && Advancing(ps)
    ensures FiredInOrder(Advise(ps, t).fired) && FiredWithin(Advise(ps, t).fired, NextTime(ps), t)
    decreases Work(ps, t)
  {
    if ps != [] && ps[0].time <= t {
      FireHeadProgress(ps, t);
      FireHeadMembers(ps);
      var e := Advise(FireHead(ps), t).fired;
      DispatchIsOrdered(FireHead(ps), t);
      HeadIsEarliest(ps);
      assert FiredWithin(e, NextTime(ps), t) by {
        if FireHead(ps) == [] { assert e == []; }
      }
      Prepend(Fired(ps[0]), e, t);
    }
  }

  lemma Prepend(f: Firing, fs: seq<Firing>, t: int)
    requires FiredInOrder(fs) && FiredWithin(fs, f.time, t) && f.time <= t
    ensures FiredInOrder([f] + fs) && FiredWithin([f] + fs, f.time, t)
  {
  }

  /** What is left is in order and not yet due. */
  lemma {:induction false} DispatchLeaves(ps: seq<Packet>, t: int)
    requires Sorted(ps) && Advancing(ps)
    ensures var rest := Advise(ps, t).rest;
            Sorted(rest) && Advancing(rest) && forall i :: 0 <= i < |rest| ==> rest[i].time > t
    decreases Work(ps, t)
  {
    if ps != [] && ps[0].time <= t {
      FireHeadProgress(ps, t);
      FireHeadMembers(ps);
      DispatchLeaves(FireHead(ps), t);
    }
  }

  lemma HeadIsEarliest(ps: seq<Packet>)
    requires ps != [] && Sorted(ps) && Advancing(ps)
    ensures FireHead(ps) != [] ==> NextTime(ps) <= NextTime(FireHead(ps))
  {
    FireHeadMembers(ps);
    var f := FireHead(ps);
    assert ps[0] in ps;
    if f != [] {
      assert f[0] in f;
      if f[0] in ps[1..] {
        var i :| 0 <= i < |ps[1..]| && ps[1..][i] == f[0];
        assert ps[i + 1] == f[0];
      }
    }
  }

  lemma HasCookieTail(ps: seq<Packet>, cookie: nat)
    requires ps != []
    ensures HasCookie(ps, cookie) <==> ps[0].cookie == cookie || HasCookie(ps[1..], cookie)
  {
    if HasCookie(ps, cookie) {
      var i :| 0 <= i < |ps| && ps[i].cookie == cookie;
      if i > 0 { assert ps[1..][i - 1].cookie == cookie; }
    }
    if HasCookie(ps[1..], cookie) {
      var i :| 0 <= i < |ps[1..]| && ps[1..][i].cookie == cookie;
      assert ps[i + 1].cookie == cookie;
    }
  }

  /** Cancelling an unknown cookie does nothing; cancelling a known one removes one request with it and
      nothing else. */
  lemma {:induction false} RemoveCookieFacts(ps: seq<Packet>, cookie: nat)
    ensures !HasCookie(ps, cookie) ==> RemoveCookie(ps, cookie) == ps
    ensures HasCookie(ps, cookie) ==>
              exists p :: p in ps && p.cookie == cookie && multiset(ps) == multiset(RemoveCookie(ps, cookie)) + multiset{p}
  {
    if ps != [] {
      HeadSplit(ps);
      HasCookieTail(ps, cookie);
      if ps[0].cookie == cookie {
        assert ps[0] in ps;
      } else {
        RemoveCookieFacts(ps[1..], cookie);
        var tail := RemoveCookie(ps[1..], cookie);
        HeadSplit([ps[0]] + tail);
        assert ([ps[0]] + tail)[1..] == tail;
      }
    }
  }

  /** Cancelling keeps the order and can only put off the next dispatch. */
  lemma {:induction false} RemoveCookieOrder(ps: seq<Packet>, cookie: nat)
    requires Sorted(ps) && (forall p {:trigger p in ps} :: p in ps ==> p.time < MAX_TIME)
    ensures var r := RemoveCookie(ps, cookie);
            && Sorted(r) && (forall p :: p in r ==> p in ps)
            && NextTime(ps) <= NextTime(r)
  {
    if ps != [] {
      assert ps[0] in ps;
      forall p | p in ps[1..] ensures p.time < MAX_TIME { assert p in ps; }
      RemoveCookieOrder(ps[1..], cookie);
      var tail := RemoveCookie(ps[1..], cookie);
      if ps[0].cookie != cookie {
        forall i | 0 <= i < |tail| ensures ps[0].time <= tail[i].time {
          assert tail[i] in ps[1..];
        }
      }
    }
  }
}
