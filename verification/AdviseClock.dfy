/** The clock's advise thread and the threads that ask it for notifications, one atomic step at a time.
    The event is an auto-reset event; critical sections are single steps. Times are in units of 100ns. */
module AdviseClock {
  import opened AdviseDispatch
  import opened AdviseList
  import opened BaseTypes

  const MS := 10000
  const INFINITE: int := 0xFFFF_FFFF

  /** Where the advise thread stands. */
  datatype Thread =
    | Asleep(rtNow: int, next: int, wait: nat)  // waiting for the event, at most wait ms
    | Awake
    | Knows(rtNow: int)                         // has read the clock
    | Advised(rtNow: int, next: int)            // has dispatched what was due
    | Finished

  /** age: ms since the thread last read the clock; slept: ms since it went to sleep; shifts: adjustments
      of the clock since it last read it. */
  datatype Clock = Clock(packets: seq<Packet>, nextCookie: nat, ev: bool, abort: bool, thread: Thread,
                         time: int, age: nat, slept: nat, shifts: nat)

  datatype Action =
    | Tick(ms: nat)
    | Shift(delta: int)
    | AdviseTime(baseTime: int, streamTime: int, h: int)
    | AdvisePeriodic(start: int, period: int, h: int)
    | Unadvise(cookie: nat)
    | Abort
    | WakeByEvent
    | WakeByTimeout
    | ReadClock
    | DispatchDue
    | GoToSleep

  /** AddAdvisePacket, event included. */
  function Add(c: Clock, time: int, period: int, h: int, periodic: bool): Clock {
    var p := Packet(c.nextCookie + 1, time, period, h, periodic);
    c.(packets := InsertBefore(c.packets, p), nextCookie := c.nextCookie + 1,
       ev := c.ev || time <= NextTime(c.packets))
  }

  function WithRest(c: Clock, rest: seq<Packet>): Clock
    requires c.thread.Knows?
  {
    c.(packets := rest, thread := Advised(c.thread.rtNow, NextTime(rest)))
  }

  /** The wait, in ms, for something due at next. */
  function WaitFor(rtNow: int, next: int): nat
    requires next > rtNow
  {
    if (next - rtNow) / MS > INFINITE then INFINITE else (next - rtNow) / MS
  }

  ghost predicate Enabled(c: Clock, a: Action) {
    match a
    case Tick(_) => true
    case Shift(_) => true
    case AdviseTime(b, s, _) => Int64(b) && Int64(s)
    case AdvisePeriodic(s, p, _) => Int64(s) && Int64(p)
    case Unadvise(_) => true
    case Abort => true
    case WakeByEvent => c.thread.Asleep? && c.ev
    case WakeByTimeout => c.thread.Asleep? && c.thread.wait < INFINITE && c.slept >= c.thread.wait
    case ReadClock => c.thread.Awake?
    case DispatchDue => c.thread.Knows? && MS + c.thread.rtNow < MAX_TIME && Completes(c.packets, MS + c.thread.rtNow)
    case GoToSleep => c.thread.Advised? && c.thread.next > c.thread.rtNow
  }

  /** What a dispatch leaves on the list. */
  ghost function RestOf(ps: seq<Packet>, t: int): (rest: seq<Packet>)
    requires Completes(ps, t)
    ensures exists fired :: Dispatches(ps, t, fired, rest)
  {
    var fired, rest :| Dispatches(ps, t, fired, rest);
    rest
  }

  ghost function Apply(c: Clock, a: Action): Clock
    requires Enabled(c, a)
  {
    match a
    case Tick(ms) => c.(time := c.time + MS * ms, age := c.age + ms, slept := c.slept + ms)
    case Shift(delta) =>
      c.(time := c.time + delta, shifts := c.shifts + 1, ev := c.ev || (delta > 5000 && |c.packets| > 0))
    case AdviseTime(b, s, h) =>
      var ref := WrappedSum(b, s);
      if ref <= 0 || ref == MAX_TIME then c else Add(c, ref, 0, h, false)
    case AdvisePeriodic(s, p, h) =>
      if s > 0 && p > 0 && s != MAX_TIME then Add(c, s, p, h, true) else c
    case Unadvise(cookie) => c.(packets := RemoveCookie(c.packets, cookie))
    case Abort => c.(abort := true, ev := true)
    case WakeByEvent => c.(ev := false, thread := Awake)
    case WakeByTimeout => c.(thread := Awake)
    case ReadClock =>
      if c.abort then c.(thread := Finished) else c.(thread := Knows(c.time), age := 0, shifts := 0)
    case DispatchDue => WithRest(c, RestOf(c.packets, MS + c.thread.rtNow))
    case GoToSleep =>
      if c.abort then c.(thread := Finished)
      else c.(thread := Asleep(c.thread.rtNow, c.thread.next, WaitFor(c.thread.rtNow, c.thread.next)), slept := 0)
  }

  function Start(time: int): Clock {
    Clock([], 0, false, false, Asleep(time, MAX_TIME, INFINITE), time, 0, 0, 0)
  }

  ghost predicate RunOk(c: Clock, run: seq<Action>)
    decreases |run|
  {
    run == [] || (Enabled(c, run[0]) && RunOk(Apply(c, run[0]), run[1..]))
  }

  ghost function Run(c: Clock, run: seq<Action>): Clock
    requires RunOk(c, run)
    decreases |run|
  {
    if run == [] then c else Run(Apply(c, run[0]), run[1..])
  }

  // ------------------------------------------------------------------------------- the invariant

  /** Every request is on the list once and has a cookie of its own, no larger than any yet handed out. */
  ghost predicate Cookies(ps: seq<Packet>, nextCookie: nat) {
    && (forall p {:trigger p in ps} :: p in ps ==> Unique(ps, p))
    && (forall p {:trigger p in ps} :: p in ps ==> 0 < p.cookie <= nextCookie)
  }

  ghost predicate ListOk(ps: seq<Packet>, nextCookie: nat) {
    Sorted(ps) && InRange(ps) && Cookies(ps, nextCookie)
  }

  /** Unless it is about to be woken, the thread plans for a time no later than the first request's. */
  predicate Covered(c: Clock) {
    !c.ev && (c.thread.Asleep? || c.thread.Advised?) ==> c.thread.next <= NextTime(c.packets)
  }

  /** The planned wait is positive and ends in time. */
  predicate Planned(c: Clock) {
    match c.thread
    case Asleep(rtNow, next, wait) => 1 <= wait <= INFINITE && (wait < INFINITE ==> rtNow + MS * wait <= next)
    case Advised(rtNow, next) => next > rtNow + MS
    case _ => true
  }

  /** Unless the thread is about to be woken, the clock has not run away from it: each adjustment since it
      read the clock has put it forward by half a millisecond at most. */
  predicate Paced(c: Clock) {
    && (c.thread.Asleep? ==> c.slept <= c.age)
    && (!c.ev && c.packets != [] && (c.thread.Asleep? || c.thread.Advised? || c.thread.Knows?) ==>
          c.time <= c.thread.rtNow + MS * c.age + 5000 * c.shifts)
  }

  predicate Stopping(c: Clock) {
    && (c.abort && c.thread.Asleep? ==> c.ev)
    && (c.thread.Finished? ==> c.abort)
  }

  ghost predicate Inv(c: Clock) {
    ListOk(c.packets, c.nextCookie) && Covered(c) && Planned(c) && Paced(c) && Stopping(c)
  }

  lemma AddKeeps(c: Clock, time: int, period: int, h: int, periodic: bool)
    requires Inv(c) && 0 < time < MAX_TIME && (periodic ==> 0 < period <= MAX_TIME)
    ensures Inv(Add(c, time, period, h, periodic))
  {
    var d := Add(c, time, period, h, periodic);
    var p := Packet(c.nextCookie + 1, time, period, h, periodic);
    InsertBeforeFacts(c.packets, p);
    InsertedMembers(c.packets, p, d.packets);
    assert ListOk(d.packets, d.nextCookie);
    assert Covered(d);
    if c.packets == [] { assert d.ev; }
  }

  lemma InsertedMembers(ps: seq<Packet>, p: Packet, qs: seq<Packet>)
    requires multiset(qs) == multiset(ps) + multiset{p}
    requires InRange(ps) && p.cookie > 0 && Cookies(ps, p.cookie - 1) && InRange([p])
    ensures InRange(qs) && Cookies(qs, p.cookie)
  {
    assert p in [p];
    forall q | q in qs ensures q in ps || q == p { assert q in multiset(qs); }
    forall q | q in qs ensures Unique(qs, q) {
      if q == p { assert p !in ps && p !in multiset(ps); } else { assert q in ps && Unique(ps, q); }
    }
  }

  lemma UnadviseKeeps(c: Clock, cookie: nat)
    requires Inv(c)
    ensures Inv(c.(packets := RemoveCookie(c.packets, cookie)))
  {
    var ps := RemoveCookie(c.packets, cookie);
    RemoveCookieFacts(c.packets, cookie);
    RemoveCookieOrder(c.packets, cookie);
    if HasCookie(c.packets, cookie) {
      var p :| p in c.packets && p.cookie == cookie && multiset(c.packets) == multiset(ps) + multiset{p};
      forall q | q in ps ensures Unique(ps, q) {
        assert q in c.packets && Unique(c.packets, q);
        assert q in multiset(ps);
      }
    }
  }

  lemma ShuntedCookies(ps: seq<Packet>, nextCookie: nat)
    requires ps != [] && Cookies(ps, nextCookie)
    ensures Cookies(Shunted(ps), nextCookie)
  {
    var b := PutOff(ps[0]);
    RefileMembers(ps, b);
    assert ps[0] in ps && Unique(ps, ps[0]);
    UniqueHead(ps, b);
    forall q | q in Shunted(ps) ensures Unique(Shunted(ps), q) && 0 < q.cookie <= nextCookie {
      if q in ps[1..] {
        assert q in ps && q != ps[0];
        UniqueInTail(ps, b, q);
      }
    }
  }

  /** Dispatch keeps the list in order and every cookie on it once. */
  lemma {:induction false} DispatchKeeps(ps: seq<Packet>, nextCookie: nat, t: int, fired: seq<Firing>, rest: seq<Packet>)
    requires ListOk(ps, nextCookie) && t < MAX_TIME && Dispatches(ps, t, fired, rest)
    ensures ListOk(rest, nextCookie) && NextTime(rest) > t && (ps == [] ==> rest == [])
    decreases |fired|
  {
    if Due(ps, t) {
      ShuntedKeeps(ps);
      ShuntedCookies(ps, nextCookie);
      DispatchKeeps(Shunted(ps), nextCookie, t, fired[1..], rest);
    }
  }

  lemma DispatchStep(c: Clock, rest: seq<Packet>)
    requires Inv(c) && Enabled(c, DispatchDue) && rest == RestOf(c.packets, MS + c.thread.rtNow)
    ensures Inv(WithRest(c, rest))
  {
    var fired :| Dispatches(c.packets, MS + c.thread.rtNow, fired, rest);
    DispatchKeeps(c.packets, c.nextCookie, MS + c.thread.rtNow, fired, rest);
    RestKeeps(c, rest);
  }

  lemma RestKeeps(c: Clock, rest: seq<Packet>)
    requires Inv(c) && c.thread.Knows? && (c.packets == [] ==> rest == []) && NextTime(rest) > MS + c.thread.rtNow
    requires ListOk(rest, c.nextCookie)
    ensures Inv(WithRest(c, rest))
  {
  }

  lemma StepInv(c: Clock, a: Action)
    requires Inv(c) && Enabled(c, a)
    ensures Inv(Apply(c, a))
  {
    match a
    case AdviseTime(b, s, h) =>
      var ref := WrappedSum(b, s);
      if 0 < ref && ref != MAX_TIME { AddKeeps(c, ref, 0, h, false); }
    case AdvisePeriodic(s, p, h) =>
      if s > 0 && p > 0 && s != MAX_TIME { AddKeeps(c, s, p, h, true); }
    case Unadvise(cookie) => UnadviseKeeps(c, cookie);
    case DispatchDue => DispatchStep(c, RestOf(c.packets, MS + c.thread.rtNow));
    case Tick(ms) =>
    case Shift(delta) =>
    case Abort =>
    case WakeByEvent =>
    case WakeByTimeout =>
    case ReadClock =>
    case GoToSleep =>
  }

  lemma {:induction false} RunInv(c: Clock, run: seq<Action>)
    requires Inv(c) && RunOk(c, run)
    ensures Inv(Run(c, run))
    decreases |run|
  {
    if run != [] {
      StepInv(c, run[0]);
      RunInv(Apply(c, run[0]), run[1..]);
    }
  }

  ghost predicate Reachable(c: Clock) {
    exists time: int, run :: RunOk(Start(time), run) && c == Run(Start(time), run)
  }

  lemma ReachableInv(c: Clock)
    requires Reachable(c)
    ensures Inv(c)
  {
    var time: int, run :| RunOk(Start(time), run) && c == Run(Start(time), run);
    RunInv(Start(time), run);
  }

  // -------------------------------------------------------------------------------- the theorems

  /** A sleeping thread that nothing is about to wake has planned for the first request or an earlier time;
      it sleeps for a while and, unless it sleeps without limit, not past that request. */
  lemma SleepsInTime(c: Clock)
    requires Reachable(c) && c.thread.Asleep? && !c.ev
    ensures c.thread.next <= NextTime(c.packets) && c.thread.wait >= 1
    ensures c.thread.wait < INFINITE ==> c.thread.rtNow + MS * c.thread.wait <= NextTime(c.packets)
  {
    ReachableInv(c);
  }

  /** However the clock is adjusted meanwhile: until the thread's timer goes off no request is overdue by
      more than the time the thread took to go to sleep and half a millisecond for each adjustment. */
  lemma OverdueIsBounded(c: Clock, p: Packet)
    requires Reachable(c) && c.thread.Asleep? && !c.ev && c.slept <= c.thread.wait < INFINITE
    requires p in c.packets
    ensures c.time - p.time <= MS * (c.age - c.slept) + 5000 * c.shifts
  {
    ReachableInv(c);
    var i :| 0 <= i < |c.packets| && c.packets[i] == p;
    assert c.packets[0].time <= p.time;
  }

  function Shifted(run: seq<Action>): int {
    if run == [] then 0 else (if run[0].Shift? then run[0].delta else 0) + Shifted(run[1..])
  }

  /** The half milliseconds do add up: no number of such adjustments wakes the thread, nor does one back. */
  lemma {:induction false} SmallShiftsGoUnnoticed(c: Clock, run: seq<Action>)
    requires c.thread.Asleep? && !c.ev && forall i :: 0 <= i < |run| ==> run[i].Shift? && run[i].delta <= 5000
    ensures RunOk(c, run) && Run(c, run) == c.(time := c.time + Shifted(run), shifts := c.shifts + |run|)
    decreases |run|
  {
    if run != [] {
      var d := Apply(c, run[0]);
      SmallShiftsGoUnnoticed(d, run[1..]);
      assert d == c.(time := c.time + run[0].delta, shifts := c.shifts + 1);
    }
  }

  lemma RunCons(c: Clock, a: Action, rest: seq<Action>)
    requires Enabled(c, a) && RunOk(Apply(c, a), rest)
    ensures RunOk(c, [a] + rest) && Run(c, [a] + rest) == Run(Apply(c, a), rest)
  {
    assert ([a] + rest)[1..] == rest;
  }

  lemma RunLast(c: Clock, a: Action)
    requires Enabled(c, a)
    ensures RunOk(c, [a]) && Run(c, [a]) == Apply(c, a)
  {
    RunCons(c, a, []);
  }

  /** The thread goes to sleep without limit exactly when the first request is 2^32 - 1 ms away or more; otherwise
      for all the whole milliseconds there are until then. */
  lemma SleepsWithoutLimitIff(c: Clock)
    requires Enabled(c, GoToSleep) && !c.abort
    ensures var w := Apply(c, GoToSleep).thread;
            && w.Asleep? && w.rtNow == c.thread.rtNow && w.next == c.thread.next
            && (w.wait == INFINITE <==> w.next - w.rtNow >= MS * INFINITE)
            && (w.wait != INFINITE ==> MS * w.wait <= w.next - w.rtNow < MS * (w.wait + 1))
  {
  }

  /** AdviseTime asks for the sum of its two times, where that is after the beginning and before the end of time;
      a sum below what 64 bits hold is taken for one 2^64 later, and all others are refused. */
  lemma AdviseTimeAsksFor(c: Clock, baseTime: int, streamTime: int, h: int)
    requires Reachable(c) && Int64(baseTime) && Int64(streamTime)
    ensures var d, sum := Apply(c, AdviseTime(baseTime, streamTime, h)), baseTime + streamTime;
            && (0 < sum < MAX_TIME ==>
                  multiset(d.packets) == multiset(c.packets) + multiset{Packet(c.nextCookie + 1, sum, 0, h, false)})
            && (-W64 < sum < MIN64 - 1 ==>
                  multiset(d.packets) == multiset(c.packets) + multiset{Packet(c.nextCookie + 1, sum + W64, 0, h, false)})
            && (!(0 < sum < MAX_TIME) && !(-W64 < sum < MIN64 - 1) ==> d == c)
  {
    AddPuts(c, WrappedSum(baseTime, streamTime), 0, h, false);
  }

  lemma AddPuts(c: Clock, time: int, period: int, h: int, periodic: bool)
    ensures multiset(Add(c, time, period, h, periodic).packets)
            == multiset(c.packets) + multiset{Packet(c.nextCookie + 1, time, period, h, periodic)}
  {
    InsertBeforeFacts(c.packets, Packet(c.nextCookie + 1, time, period, h, periodic));
  }

  /** AdvisePeriodic asks for what it is given. */
  lemma AdvisePeriodicAsksFor(c: Clock, start: int, period: int, h: int)
    requires Reachable(c) && Int64(start) && Int64(period)
    ensures var d := Apply(c, AdvisePeriodic(start, period, h));
            if 0 < start < MAX_TIME && period > 0
            then multiset(d.packets) == multiset(c.packets) + multiset{Packet(c.nextCookie + 1, start, period, h, true)}
            else d == c
  {
    AddPuts(c, start, period, h, true);
  }

  /** Then no passage of time wakes it, however long the request has been due. */
  lemma {:induction false} TimeAloneDoesNotWake(c: Clock, ticks: seq<Action>)
    requires c.thread.Asleep? && c.thread.wait == INFINITE && !c.ev && RunOk(c, ticks)
    requires forall i :: 0 <= i < |ticks| ==> ticks[i].Tick? || ticks[i].WakeByEvent? || ticks[i].WakeByTimeout?
    ensures Run(c, ticks).thread == c.thread && Run(c, ticks).packets == c.packets
    decreases |ticks|
  {
    if ticks != [] { TimeAloneDoesNotWake(Apply(c, ticks[0]), ticks[1..]); }
  }

  /** Whenever the thread looks at the list and gets through its dispatch, each request on it is signalled at all
      the times it is due by then, allowing a millisecond, and is left waiting for its next time or taken off. That
      is all, exactly if it is not periodic or its next tick is before the end of time; otherwise it is signalled
      again at a time 2^64 too early. */
  lemma DueRequestsFire(c: Clock, p: Packet, fired: seq<Firing>, rest: seq<Packet>)
    requires Reachable(c) && Enabled(c, DispatchDue) && p in c.packets
    requires Dispatches(c.packets, MS + c.thread.rtNow, fired, rest)
    ensures Apply(c, DispatchDue).packets == rest && (p.periodic ==> p.period > 0)
    ensures var t, times := MS + c.thread.rtNow, TimesOf(fired, p.cookie);
            && Expected(p, t) <= times
            && (times == Expected(p, t) <==> (p.periodic ==> NextTick(p.time, p.period, t) < MAX_TIME))
            && (times == Expected(p, t) ==> LeftOver(rest, p, t))
            && (times != Expected(p, t) ==> times[|Expected(p, t)|] == NextTick(p.time, p.period, t) - W64)
    ensures forall f {:trigger f in fired} :: f in fired && f.cookie == p.cookie ==> Serves(p, f)
  {
    var t := MS + c.thread.rtNow;
    assert ListOk(c.packets, c.nextCookie) by { ReachableInv(c); }
    assert Unique(c.packets, p);
    SignalsAsExpectedIff(c.packets, t, p, fired, rest);
    SignalsReachOnly(c.packets, t, p, fired, rest);
    var fired' :| Dispatches(c.packets, t, fired', RestOf(c.packets, t));
    DispatchesUnique(c.packets, t, fired, rest, fired', RestOf(c.packets, t));
  }

  /** Before the end of time the thread gets through its dispatch exactly if the ticks of every periodic request
      end, and none of them on the sentinel's time. */
  lemma DispatchGoesThroughIff(c: Clock)
    requires Reachable(c) && c.thread.Knows? && MS + c.thread.rtNow < MAX_TIME
    ensures Enabled(c, DispatchDue) <==>
              AllLeave(c.packets, MS + c.thread.rtNow) && !SomeAtEnd(c.packets, MS + c.thread.rtNow)
  {
    ReachableInv(c);
    CompletesIff(c.packets, MS + c.thread.rtNow);
  }

  /** AdvisePeriodic takes any period, and the thread comes to look at the list. */
  lemma AnyPeriodAccepted(period: int) returns (c: Clock)
    requires 0 < period <= MAX_TIME
    ensures Reachable(c) && c.thread == Knows(0) && c.packets == [Packet(1, 1, period, 0, true)]
  {
    var a := AdvisePeriodic(1, period, 0);
    var run := [a, WakeByEvent, ReadClock];
    var c1 := Apply(Start(0), a);
    assert c1.packets == [Packet(1, 1, period, 0, true)] && c1.ev;
    var c2 := Apply(c1, WakeByEvent);
    c := Apply(c2, ReadClock);
    RunLast(c2, ReadClock);
    RunCons(c1, WakeByEvent, [ReadClock]);
    RunCons(Start(0), a, [WakeByEvent] + [ReadClock]);
    assert [a] + ([WakeByEvent] + [ReadClock]) == run;
    assert RunOk(Start(0), run) && Run(Start(0), run) == c;
  }

  /** So it does not rule out a dispatch that runs off the list... */
  lemma DispatchCanFallOff() returns (c: Clock)
    ensures Reachable(c) && c.thread == Knows(0) && FallsOff(c.packets, MS)
  {
    c := AnyPeriodAccepted(MAX_TIME - 1);
    assert FallsOffAfter(c.packets, MS, 0);
  }

  /** ...or one that signals three times a request that is due once. */
  lemma RequestCanFireAgain() returns (c: Clock, fired: seq<Firing>, rest: seq<Packet>)
    ensures Reachable(c) && c.thread == Knows(0) && Enabled(c, DispatchDue)
    ensures Dispatches(c.packets, MS, fired, rest) && TimesOf(fired, 1) == [1, MIN64, -1]
    ensures c.packets == [Packet(1, 1, MAX_TIME, 0, true)] && Expected(c.packets[0], MS) == [1]
  {
    c := AnyPeriodAccepted(MAX_TIME);
    var p := c.packets[0];
    fired := [Fired(p), Fired(p.(time := MIN64)), Fired(p.(time := -1))];
    rest := [p.(time := MAX_TIME - 1)];
    SignalledThrice(p, MS, fired, rest);
    assert fired[1..] == [fired[1], fired[2]] && fired[1..][1..] == [fired[2]] && fired[1..][1..][1..] == [];
    assert TimesOf([fired[2]], 1) == [-1];
    assert TimesOf(fired[1..], 1) == [MIN64] + [-1];
  }

  /** A thread that is asleep when the clock is torn down wakes and finishes. */
  lemma TearDownEndsTheThread(c: Clock)
    requires Reachable(c) && c.abort && c.thread.Asleep?
    ensures RunOk(c, [WakeByEvent, ReadClock]) && Run(c, [WakeByEvent, ReadClock]).thread == Finished
  {
    ReachableInv(c);
    RunLast(Apply(c, WakeByEvent), ReadClock);
    RunCons(c, WakeByEvent, [ReadClock]);
  }

  // ---------------------------------------------------------------- what wakes the thread, and what is cancelled

  /** The step has put a request of its own first on the list. */
  ghost predicate PutsFirst(c: Clock, a: Action)
    requires Enabled(c, a)
  {
    (a.AdviseTime? || a.AdvisePeriodic?)
    && var d := Apply(c, a); d.nextCookie > c.nextCookie && d.packets != [] && d.packets[0].cookie == d.nextCookie
  }

  /** Reasons to have the thread look again: a new first request, a clock put forward by more than half a
      millisecond while somebody waits for it, and the end. */
  ghost predicate Rouses(c: Clock, a: Action)
    requires Enabled(c, a)
  {
    PutsFirst(c, a) || (a.Shift? && a.delta > 5000 && c.packets != []) || a == Abort
  }

  /** The event is set by the steps that give a reason, and reset by the wake-up it causes. */
  lemma EventIsSetIff(c: Clock, a: Action)
    requires Reachable(c) && Enabled(c, a)
    ensures Apply(c, a).ev <==> a != WakeByEvent && (c.ev || Rouses(c, a))
  {
    ReachableInv(c);
    if c.packets != [] { assert c.packets[0] in c.packets; }
  }

  /** How many steps of a run give the thread a reason to look. */
  ghost function Reasons(c: Clock, run: seq<Action>): nat
    requires RunOk(c, run)
    decreases |run|
  {
    if run == [] then 0 else (if Rouses(c, run[0]) then 1 else 0) + Reasons(Apply(c, run[0]), run[1..])
  }

  function WokenByEvent(run: seq<Action>): nat {
    if run == [] then 0 else (if run[0].WakeByEvent? then 1 else 0) + WokenByEvent(run[1..])
  }

  lemma Extend(c: Clock, a: Action)
    requires Reachable(c) && Enabled(c, a)
    ensures Reachable(Apply(c, a))
  {
    var time: int, run :| RunOk(Start(time), run) && c == Run(Start(time), run);
    RunExtend(Start(time), run, a);
  }

  lemma {:induction false} RunExtend(c: Clock, run: seq<Action>, a: Action)
    requires RunOk(c, run) && Enabled(Run(c, run), a)
    ensures RunOk(c, run + [a]) && Run(c, run + [a]) == Apply(Run(c, run), a)
    decreases |run|
  {
    if run == [] {
      RunLast(c, a);
      assert [] + [a] == [a];
    } else {
      RunExtend(Apply(c, run[0]), run[1..], a);
      assert (run + [a])[1..] == run[1..] + [a];
    }
  }

  /** The thread is not woken more often than there is reason to. */
  lemma {:induction false} WakesForAReason(c: Clock, run: seq<Action>)
    requires Reachable(c) && RunOk(c, run)
    ensures WokenByEvent(run) + (if Run(c, run).ev then 1 else 0) <= Reasons(c, run) + (if c.ev then 1 else 0)
    decreases |run|
  {
    if run != [] {
      EventIsSetIff(c, run[0]);
      Extend(c, run[0]);
      WakesForAReason(Apply(c, run[0]), run[1..]);
    }
  }

  lemma StaysAbsent(c: Clock, a: Action, cookie: nat)
    requires Inv(c) && Enabled(c, a) && Absent(c.packets, cookie) && cookie <= c.nextCookie
    ensures Absent(Apply(c, a).packets, cookie) && cookie <= Apply(c, a).nextCookie
  {
    match a
    case AdviseTime(b, s, h) => AbsentAfterAdd(c.packets, Packet(c.nextCookie + 1, WrappedSum(b, s), 0, h, false), cookie);
    case AdvisePeriodic(s, p, h) => AbsentAfterAdd(c.packets, Packet(c.nextCookie + 1, s, p, h, true), cookie);
    case Unadvise(other) =>
      assert forall p :: p in c.packets ==> WithinRange(p);
      RemoveCookieOrder(c.packets, other);
    case DispatchDue =>
      var t, rest := MS + c.thread.rtNow, RestOf(c.packets, MS + c.thread.rtNow);
      var fired :| Dispatches(c.packets, t, fired, rest);
      AbsentStaysQuiet(c.packets, t, cookie, fired, rest);
    case Tick(_) =>
    case Shift(_) =>
    case Abort =>
    case WakeByEvent =>
    case WakeByTimeout =>
    case ReadClock =>
    case GoToSleep =>
  }

  lemma OneMore(ps: seq<Packet>, p: Packet, qs: seq<Packet>)
    requires multiset(qs) == multiset(ps) + multiset{p}
    ensures forall q {:trigger q in qs} {:trigger q in ps} :: q in qs <==> q in ps || q == p
    ensures multiset(ps)[p] == multiset(qs)[p] - 1 && (multiset(qs)[p] == 1 ==> p !in ps)
  {
    forall q ensures q in qs <==> q in ps || q == p {
      assert (q in qs <==> q in multiset(qs)) && (q in ps <==> q in multiset(ps));
    }
    assert p in ps <==> p in multiset(ps);
  }

  lemma AbsentAfterAdd(ps: seq<Packet>, p: Packet, cookie: nat)
    requires Absent(ps, cookie) && p.cookie != cookie
    ensures Absent(InsertBefore(ps, p), cookie)
  {
    InsertBeforeFacts(ps, p);
    OneMore(ps, p, InsertBefore(ps, p));
  }

  /** Cancelling takes the one request with this cookie, and leaves every other as it is. */
  lemma CancelsOne(ps: seq<Packet>, cookie: nat)
    requires forall p {:trigger p in ps} :: p in ps ==> Unique(ps, p)
    ensures Absent(RemoveCookie(ps, cookie), cookie)
    ensures forall q {:trigger q in ps} :: q in ps && q.cookie != cookie ==> Unique(RemoveCookie(ps, cookie), q)
  {
    var rest := RemoveCookie(ps, cookie);
    RemoveCookieFacts(ps, cookie);
    if HasCookie(ps, cookie) {
      var p :| p in ps && p.cookie == cookie && multiset(ps) == multiset(rest) + multiset{p};
      OneMore(rest, p, ps);
      assert Unique(ps, p);
      forall q | q in ps && q.cookie != cookie ensures Unique(rest, q) {
        assert Unique(ps, q) && multiset(rest)[q] == multiset(ps)[q];
      }
    }
  }

  lemma {:induction false} AbsentForGood(c: Clock, run: seq<Action>, cookie: nat)
    requires Inv(c) && RunOk(c, run) && Absent(c.packets, cookie) && cookie <= c.nextCookie
    ensures Absent(Run(c, run).packets, cookie)
    decreases |run|
  {
    if run != [] {
      StepInv(c, run[0]);
      StaysAbsent(c, run[0], cookie);
      AbsentForGood(Apply(c, run[0]), run[1..], cookie);
    }
  }

  /** Once Unadvise has returned, no dispatch ever signals the request again. */
  lemma CancelledForGood(c: Clock, cookie: nat, run: seq<Action>, t: int, fired: seq<Firing>, rest: seq<Packet>)
    requires Reachable(c) && cookie <= c.nextCookie && RunOk(Apply(c, Unadvise(cookie)), run)
    requires Dispatches(Run(Apply(c, Unadvise(cookie)), run).packets, t, fired, rest)
    ensures TimesOf(fired, cookie) == []
  {
    ReachableInv(c);
    var d := Apply(c, Unadvise(cookie));
    CancelsOne(c.packets, cookie);
    StepInv(c, Unadvise(cookie));
    AbsentForGood(d, run, cookie);
    AbsentStaysQuiet(Run(d, run).packets, t, cookie, fired, rest);
  }

  /** And Unadvise leaves every other request as it is. */
  lemma OthersAreKept(c: Clock, cookie: nat, p: Packet)
    requires Reachable(c) && p in c.packets && p.cookie != cookie
    ensures Unique(Apply(c, Unadvise(cookie)).packets, p)
  {
    ReachableInv(c);
    CancelsOne(c.packets, cookie);
  }
}
