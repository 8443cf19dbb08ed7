/** CBaseStreamControl: starting and stopping a stream at given times, decided sample by sample.
    The decision code is proved against a timeline that says, for every instant, whether the stream flows. */
module StreamControl {

  import opened BaseTypes

  datatype Notice = Started(cookie: nat) | Stopped(cookie: nat)

  /** start and stop are MAX_TIME when no such command is pending; flowing is the state until one of them;
      sink: there is someone to notify. */
  datatype Control = Control(flowing: bool, start: int, startCookie: nat, stop: int, stopCookie: nat,
                             sink: bool, log: seq<Notice>)

  // ---------------------------------------------------------------------------- the timeline

  /** Whether the stream flows at time t: a start takes effect at its time, a stop just after its time, and of
      two at the same time the start comes first. */
  predicate FlowsAt(c: Control, t: int) {
    if t >= c.start then t <= c.stop || c.stop < c.start
    else if t > c.stop then false
    else c.flowing
  }

  /** The notifications still to come, in the order of the timeline. */
  function Due(c: Control): seq<Notice> {
    if c.start <= c.stop then StartDue(c) + StopDue(c) else StopDue(c) + StartDue(c)
  }

  function StartDue(c: Control): seq<Notice> {
    if c.start == MAX_TIME || c.startCookie == 0 then [] else [Started(c.startCookie)]
  }

  function StopDue(c: Control): seq<Notice> {
    if c.stop == MAX_TIME || c.stopCookie == 0 || !c.sink then [] else [Stopped(c.stopCookie)]
  }

  /** Nothing is left over from a command that is no longer pending. */
  predicate Tidy(c: Control) {
    && c.start <= MAX_TIME && c.stop <= MAX_TIME
    && (c.start == MAX_TIME ==> c.startCookie == 0)
    && (c.stop == MAX_TIME ==> c.stopCookie == 0)
  }

  // ------------------------------------------------------------------------- the decision code

  function DoStart(c: Control): Control {
    c.(flowing := true, start := MAX_TIME, startCookie := 0,
       log := if c.startCookie != 0 then c.log + [Started(c.startCookie)] else c.log)
  }

  /** The state after a stop that is pending is always to discard. */
  function DoStop(c: Control): Control {
    c.(flowing := c.stop == MAX_TIME, stop := MAX_TIME, stopCookie := 0,
       log := if c.stopCookie != 0 && c.sink then c.log + [Stopped(c.stopCookie)] else c.log)
  }

  function Check(c: Control, sampleStart: int, sampleStop: int): Control {
    if c.stop >= sampleStart then
      if c.start >= sampleStop then c
      else if c.stop < c.start then DoStart(DoStop(c))
      else DoStart(c)
    else if c.start >= sampleStop then DoStop(c)
    else if c.start <= c.stop then DoStop(DoStart(c))
    else DoStart(DoStop(c))
  }

  /** What NotifyFilterState does when the graph stops. */
  function Halt(c: Control): Control {
    var d :=
      if c.start != MAX_TIME && c.stop == MAX_TIME then DoStart(c)
      else if c.stop != MAX_TIME && c.start == MAX_TIME then DoStop(c)
      else if c.stop != MAX_TIME && c.start != MAX_TIME then
        if c.start <= c.stop then DoStop(DoStart(c)) else DoStart(DoStop(c))
      else c;
    d.(flowing := true)
  }

  predicate Sample(a: int, b: int) { a < b <= MAX_TIME }

  ghost predicate FlowsWithin(c: Control, a: int, b: int) {
    exists t :: a <= t < b && FlowsAt(c, t)
  }

  /** The nineteen cases: a sample is let through exactly if the stream flows at some instant within it, and
      from its end on the timeline is what it was. */
  lemma CheckFollowsTimeline(c: Control, a: int, b: int)
    requires Tidy(c) && Sample(a, b)
    ensures Check(c, a, b).flowing <==> FlowsWithin(c, a, b)
    ensures forall t :: b <= t < MAX_TIME ==> (FlowsAt(Check(c, a, b), t) <==> FlowsAt(c, t))
    ensures Tidy(Check(c, a, b))
  {
    if FlowsAt(c, a) {}
    if a <= c.start < b { assert FlowsAt(c, c.start); }
  }

  /** Deciding about a sample sends the notifications that have become due, in order, and no others. */
  lemma CheckConservesNotices(c: Control, a: int, b: int)
    requires Tidy(c) && Sample(a, b)
    ensures Check(c, a, b).log + Due(Check(c, a, b)) == c.log + Due(c)
  {
  }

  /** Stopping the graph sends all that are left. */
  lemma HaltSendsTheRest(c: Control)
    requires Tidy(c)
    ensures Halt(c).log == c.log + Due(c) && Due(Halt(c)) == [] && Halt(c).flowing && Tidy(Halt(c))
  {
  }

  // ------------------------------------------------------------------------- runs of samples

  type Times = (int, int)

  /** Samples in order, none overlapping the next. */
  predicate Ordered(ss: seq<Times>) {
    && (forall i :: 0 <= i < |ss| ==> Sample(ss[i].0, ss[i].1))
    && forall i, j :: 0 <= i < j < |ss| ==> ss[i].1 <= ss[j].0
  }

  function CheckAll(c: Control, ss: seq<Times>): Control
    decreases |ss|
  {
    if ss == [] then c else CheckAll(Check(c, ss[0].0, ss[0].1), ss[1..])
  }

  function Decisions(c: Control, ss: seq<Times>): (ds: seq<bool>)
    ensures |ds| == |ss|
    decreases |ss|
  {
    if ss == [] then []
    else
      var d := Check(c, ss[0].0, ss[0].1);
      [d.flowing] + Decisions(d, ss[1..])
  }

  /** Each decision is the one the original timeline calls for. */
  lemma {:induction false} DecisionsFollowTimeline(c: Control, ss: seq<Times>, i: nat)
    requires Tidy(c) && Ordered(ss) && i < |ss|
    ensures Decisions(c, ss)[i] <==> FlowsWithin(c, ss[i].0, ss[i].1)
    decreases |ss|
  {
    var d := Check(c, ss[0].0, ss[0].1);
    CheckFollowsTimeline(c, ss[0].0, ss[0].1);
    if i > 0 {
      DecisionsFollowTimeline(d, ss[1..], i - 1);
      SameWithin(c, d, ss[i].0, ss[i].1);
    }
  }

  lemma SameWithin(c: Control, d: Control, a: int, b: int)
    requires b <= MAX_TIME && forall t :: a <= t < MAX_TIME ==> (FlowsAt(d, t) <==> FlowsAt(c, t))
    ensures FlowsWithin(d, a, b) <==> FlowsWithin(c, a, b)
  {
    if FlowsWithin(d, a, b) {
      var t :| a <= t < b && FlowsAt(d, t);
      assert FlowsAt(c, t);
    }
    if FlowsWithin(c, a, b) {
      var t :| a <= t < b && FlowsAt(c, t);
      assert FlowsAt(d, t);
    }
  }

  /** Samples and then the end of the run send each pending notification once, in the order of the timeline. */
  lemma {:induction false} EachCommandIsReported(c: Control, ss: seq<Times>)
    requires Tidy(c) && Ordered(ss)
    ensures Tidy(CheckAll(c, ss)) && CheckAll(c, ss).log + Due(CheckAll(c, ss)) == c.log + Due(c)
    ensures Halt(CheckAll(c, ss)).log == c.log + Due(c)
    decreases |ss|
  {
    if ss != [] {
      CheckFollowsTimeline(c, ss[0].0, ss[0].1);
      CheckConservesNotices(c, ss[0].0, ss[0].1);
      EachCommandIsReported(Check(c, ss[0].0, ss[0].1), ss[1..]);
    } else {
      HaltSendsTheRest(c);
    }
  }

  // ------------------------------------------------------------------ a start nobody is told of

  /** Executing a start that is to be reported goes through the sink without checking that there is one. */
  predicate Unreportable(c: Control) { c.startCookie != 0 && !c.sink }

  /** The decision about sample s executes such a start. */
  predicate Faults(c: Control, s: Times) { c.start < s.1 && Unreportable(c) }

  predicate FaultsIn(c: Control, ss: seq<Times>)
    decreases |ss|
  {
    ss != [] && (Faults(c, ss[0]) || FaultsIn(Check(c, ss[0].0, ss[0].1), ss[1..]))
  }

  /** Some sample meets it exactly if the last one ends after the start; otherwise it is still pending then. */
  lemma {:induction false} FaultsInIff(c: Control, ss: seq<Times>)
    requires Tidy(c) && Ordered(ss)
    ensures FaultsIn(c, ss) <==> Unreportable(c) && ss != [] && c.start < ss[|ss| - 1].1
    ensures !FaultsIn(c, ss) ==> (Unreportable(CheckAll(c, ss)) <==> Unreportable(c))
    decreases |ss|
  {
    if ss != [] {
      var d := Check(c, ss[0].0, ss[0].1);
      CheckFollowsTimeline(c, ss[0].0, ss[0].1);
      FaultsInIff(d, ss[1..]);
      if |ss| > 1 {
        assert ss[1..][|ss| - 2] == ss[|ss| - 1];
        assert ss[0].1 <= ss[|ss| - 1].0;
      }
    }
  }

  /** Samples and then the end of the run meet it exactly if there is one. */
  lemma RunFaultsIff(c: Control, ss: seq<Times>)
    requires Tidy(c) && Ordered(ss)
    ensures FaultsIn(c, ss) || Unreportable(CheckAll(c, ss)) <==> Unreportable(c)
  {
    FaultsInIff(c, ss);
  }

  // --------------------------------------------------------------------------- the extra frame

  /** CheckStreamState's decision: a sample that would be held back passes once, if that was asked for and no
      stop is pending. The second result says whether one may still pass. */
  function Pass(c: Control, extra: bool, a: int, b: int): (bool, bool) {
    var d := Check(c, a, b);
    if d.flowing then (true, extra)
    else if extra && d.stop == MAX_TIME then (true, false)
    else (false, extra)
  }

  function Passes(c: Control, extra: bool, ss: seq<Times>): (ps: seq<bool>)
    ensures |ps| == |ss|
    decreases |ss|
  {
    if ss == [] then []
    else
      var p := Pass(c, extra, ss[0].0, ss[0].1);
      [p.0] + Passes(Check(c, ss[0].0, ss[0].1), p.1, ss[1..])
  }

  /** Sample s does not flow and comes after the stop. */
  ghost predicate HeldBack(c: Control, s: Times) {
    !FlowsWithin(c, s.0, s.1) && (c.stop == MAX_TIME || c.stop < s.0)
  }

  /** What passes is what flows and, if asked for, the first sample held back. */
  lemma {:induction false} OneExtraFrame(c: Control, extra: bool, ss: seq<Times>, i: nat)
    requires Tidy(c) && Ordered(ss) && i < |ss|
    ensures Passes(c, extra, ss)[i] <==>
              FlowsWithin(c, ss[i].0, ss[i].1) ||
              (extra && HeldBack(c, ss[i]) && forall j :: 0 <= j < i ==> !HeldBack(c, ss[j]))
    decreases |ss|
  {
    PassIs(c, extra, ss[0]);
    if i > 0 {
      var d, p := Check(c, ss[0].0, ss[0].1), Pass(c, extra, ss[0].0, ss[0].1);
      CheckFollowsTimeline(c, ss[0].0, ss[0].1);
      OneExtraFrame(d, p.1, ss[1..], i - 1);
      HeldBackLater(c, d, ss);
      SameWithin(c, d, ss[i].0, ss[i].1);
      assert ss[1..][i - 1] == ss[i];
      if forall j :: 0 <= j < i - 1 ==> !HeldBack(d, ss[1..][j]) {
        forall j | 0 < j < i ensures !HeldBack(c, ss[j]) { assert !HeldBack(d, ss[1..][j - 1]); }
      }
    }
  }

  lemma PassIs(c: Control, extra: bool, s: Times)
    requires Tidy(c) && Sample(s.0, s.1)
    ensures Pass(c, extra, s.0, s.1) == (FlowsWithin(c, s.0, s.1) || (extra && HeldBack(c, s)), extra && !HeldBack(c, s))
  {
    CheckFollowsTimeline(c, s.0, s.1);
  }

  /** A decision changes nothing about which later samples are held back. */
  lemma HeldBackLater(c: Control, d: Control, ss: seq<Times>)
    requires Tidy(c) && Ordered(ss) && ss != [] && d == Check(c, ss[0].0, ss[0].1)
    ensures forall j :: 0 <= j < |ss| - 1 ==> (HeldBack(d, ss[1..][j]) <==> HeldBack(c, ss[j + 1]))
  {
    CheckFollowsTimeline(c, ss[0].0, ss[0].1);
    forall j | 0 <= j < |ss| - 1 ensures HeldBack(d, ss[1..][j]) <==> HeldBack(c, ss[j + 1]) {
      SameWithin(c, d, ss[j + 1].0, ss[j + 1].1);
    }
  }

  // ---------------------------------------------------------------- commands and the graph's state

  datatype FilterState = StateStopped | StatePaused | StateRunning

  /** StopAt with a time. */
  function ScheduleStop(c: Control, state: FilterState, t: int, cookie: nat): Control {
    if t == MAX_TIME then
      c.(stop := MAX_TIME, stopCookie := 0, flowing := c.flowing && !(state.StateStopped? && c.start < MAX_TIME))
    else
      c.(stop := t, stopCookie := cookie, flowing := c.flowing || (state.StateStopped? && c.start > t))
  }

  /** StartAt with a time. */
  function ScheduleStart(c: Control, state: FilterState, t: int, cookie: nat): Control {
    if t == MAX_TIME then
      c.(start := MAX_TIME, startCookie := 0, flowing := c.flowing || (state.StateStopped? && c.stop < MAX_TIME))
    else
      c.(start := t, startCookie := cookie, flowing := c.flowing && !(state.StateStopped? && c.stop >= t))
  }

  /** What a stop at t makes of the timeline and of the notices to come: up to t the stream flows as it would
      without any stop, and after that only from a later start on. begins: whether it flows until then. */
  ghost predicate StopGiven(c: Control, begins: bool, t: int, cookie: nat, d: Control) {
    && (forall u :: u < MAX_TIME ==>
          (FlowsAt(d, u) <==> if u <= t then begins || c.start <= u else t < c.start <= u))
    && StopDue(d) == (if t < MAX_TIME && cookie != 0 && c.sink then [Stopped(cookie)] else [])
    && StartDue(d) == StartDue(c) && d.log == c.log && d.sink == c.sink
  }

  /** What a start at t makes of them: from t on the stream flows up to a stop that is not before t, and for ever
      if there is none; before that it flows as it would without any start. */
  ghost predicate StartGiven(c: Control, begins: bool, t: int, cookie: nat, d: Control) {
    && (forall u :: u < MAX_TIME ==>
          (FlowsAt(d, u) <==> if u < t then begins && u <= c.stop else u <= c.stop || c.stop < t))
    && StartDue(d) == (if t < MAX_TIME && cookie != 0 then [Started(cookie)] else [])
    && StopDue(d) == StopDue(c) && d.log == c.log && d.sink == c.sink
  }

  /** In every state of the graph a timed stop, or the end of time to cancel one, has that effect. Only while the
      graph is stopped does it also settle how the stream begins. */
  lemma StopIsPlaced(c: Control, state: FilterState, t: int, cookie: nat)
    requires Tidy(c) && t <= MAX_TIME
    ensures var d := ScheduleStop(c, state, t, cookie);
            StopGiven(c, d.flowing, t, cookie, d) && Tidy(d) && (!state.StateStopped? ==> d.flowing == c.flowing)
  {
  }

  lemma StartIsPlaced(c: Control, state: FilterState, t: int, cookie: nat)
    requires Tidy(c) && t <= MAX_TIME
    ensures var d := ScheduleStart(c, state, t, cookie);
            StartGiven(c, d.flowing, t, cookie, d) && Tidy(d) && (!state.StateStopped? ==> d.flowing == c.flowing)
  {
  }

  /** So a stop given to a graph that runs or is paused stops the stream: of ordered samples after it and before any
      start not one passes, and the first of them sends the notification. */
  lemma StopTakesEffect(c: Control, state: FilterState, t: int, cookie: nat, a: int, b: int)
    requires Tidy(c) && !state.StateStopped? && t < a && Sample(a, b) && (c.start <= t || b <= c.start)
    ensures var d := Check(ScheduleStop(c, state, t, cookie), a, b);
            !d.flowing && (cookie != 0 && c.sink ==> Stopped(cookie) in d.log)
  {
    var s := ScheduleStop(c, state, t, cookie);
    StopIsPlaced(c, state, t, cookie);
    CheckFollowsTimeline(s, a, b);
    CheckConservesNotices(s, a, b);
    if cookie != 0 && c.sink {
      assert StopDue(s) == [Stopped(cookie)] && Stopped(cookie) in s.log + Due(s);
    }
  }

  /** And a start given to it starts the stream. */
  lemma StartTakesEffect(c: Control, state: FilterState, t: int, cookie: nat, a: int, b: int)
    requires Tidy(c) && !state.StateStopped? && t < b && Sample(a, b) && (c.stop < t || a <= c.stop)
    ensures var d := Check(ScheduleStart(c, state, t, cookie), a, b);
            d.flowing && (cookie != 0 ==> Started(cookie) in d.log)
  {
    var s := ScheduleStart(c, state, t, cookie);
    StartIsPlaced(c, state, t, cookie);
    CheckFollowsTimeline(s, a, b);
    CheckConservesNotices(s, a, b);
    assert FlowsAt(s, if t <= a then a else t);
    if cookie != 0 {
      assert StartDue(s) == [Started(cookie)] && Started(cookie) in s.log + Due(s);
    }
  }

  /** One start and one stop, given in either order before the graph runs: the stream begins flowing exactly
      if the stop comes first. */
  lemma FirstCommandDecides(c: Control, start: int, k1: nat, stop: int, k2: nat)
    requires c.flowing && c.start == MAX_TIME && c.stop == MAX_TIME && start < MAX_TIME && stop < MAX_TIME
    ensures var d := ScheduleStop(ScheduleStart(c, StateStopped, start, k1), StateStopped, stop, k2);
            && d == ScheduleStart(ScheduleStop(c, StateStopped, stop, k2), StateStopped, start, k1)
            && (d.flowing <==> stop < start)
            && forall t :: FlowsAt(d, t) <==> if start <= stop then start <= t <= stop else t <= stop || t >= start
  {
    var d := ScheduleStop(ScheduleStart(c, StateStopped, start, k1), StateStopped, stop, k2);
    assert d == ScheduleStart(ScheduleStop(c, StateStopped, stop, k2), StateStopped, start, k1);
  }

  /** A timed command given before the graph runs; MAX_TIME cancels. */
  datatype Command = StopCommand(time: int, cookie: nat) | StartCommand(time: int, cookie: nat)

  function Give(c: Control, m: Command): Control {
    match m
    case StopCommand(t, k) => ScheduleStop(c, StateStopped, t, k)
    case StartCommand(t, k) => ScheduleStart(c, StateStopped, t, k)
  }

  function GiveAll(c: Control, ms: seq<Command>): Control
    decreases |ms|
  {
    if ms == [] then c else Give(GiveAll(c, ms[..|ms| - 1]), ms[|ms| - 1])
  }

  /** When the last stop, or the last start, among some commands is for. */
  function StopOf(ms: seq<Command>): int
    decreases |ms|
  {
    if ms == [] then MAX_TIME
    else if ms[|ms| - 1].StopCommand? then ms[|ms| - 1].time else StopOf(ms[..|ms| - 1])
  }

  function StartOf(ms: seq<Command>): int
    decreases |ms|
  {
    if ms == [] then MAX_TIME
    else if ms[|ms| - 1].StartCommand? then ms[|ms| - 1].time else StartOf(ms[..|ms| - 1])
  }

  predicate AnyPending(ms: seq<Command>) { StopOf(ms) < MAX_TIME || StartOf(ms) < MAX_TIME }

  predicate StopFirst(ms: seq<Command>) { StopOf(ms) < StartOf(ms) }

  /** The last command is for a time behind that of the other one. */
  predicate PutBehind(ms: seq<Command>)
    requires ms != []
  {
    var m := ms[|ms| - 1];
    m.time < MAX_TIME && (m.StopCommand? <==> !StopFirst(ms))
  }

  /** How many commands there are up to the last one that was not put behind the other. */
  function UpToLeader(ms: seq<Command>): (k: nat)
    ensures k <= |ms|
    decreases |ms|
  {
    if ms == [] then 0
    else if AnyPending(ms) && !PutBehind(ms) then |ms|
    else UpToLeader(ms[..|ms| - 1])
  }

  /** How the stream begins is how the last command had it that was not put behind the other when it was given,
      wherever later commands have moved the two. So it begins as the earlier one of the commands finally pending
      has it exactly if the order of the two was then what it is now. */
  lemma {:induction false} BeginsAsEarlierIff(c: Control, ms: seq<Command>)
    requires c.flowing && c.start == MAX_TIME && c.stop == MAX_TIME
    requires forall m :: m in ms ==> m.time <= MAX_TIME
    ensures var d, k := GiveAll(c, ms), UpToLeader(ms);
      && d.start == StartOf(ms) && d.stop == StopOf(ms)
      && (d.flowing <==> k == 0 || StopFirst(ms[..k]))
      && (AnyPending(ms) ==> k > 0 && ((d.flowing <==> d.stop < d.start) <==> (StopFirst(ms[..k]) <==> StopFirst(ms))))
    decreases |ms|
  {
    if ms != [] {
      var n := |ms| - 1;
      BeginsAsEarlierIff(c, ms[..n]);
      assert ms[..|ms|] == ms;
      var k := UpToLeader(ms);
      if k <= n { assert ms[..n][..k] == ms[..k]; }
    }
  }

  /** The stream begins as the earlier of the pending commands has it. */
  predicate BeginsRight(c: Control) {
    c.start < MAX_TIME || c.stop < MAX_TIME ==> (c.flowing <==> c.stop < c.start)
  }

  /** For one command more: what was right stays so unless the command moves a stop, or a start, that came first
      behind the other. */
  lemma StaysRightIff(c: Control, m: Command)
    requires Tidy(c) && BeginsRight(c) && m.time <= MAX_TIME
    ensures BeginsRight(Give(c, m)) <==>
              !(if m.StopCommand? then c.stop < c.start <= m.time < MAX_TIME
                else c.start <= c.stop < m.time < MAX_TIME)
  {
    var d := Give(c, m);
    assert d.start == (if m.StartCommand? then m.time else c.start) && d.stop == (if m.StopCommand? then m.time else c.stop);
  }

  lemma GiveThree(c: Control, m1: Command, m2: Command, m3: Command)
    ensures GiveAll(c, [m1, m2, m3]) == Give(Give(Give(c, m1), m2), m3)
  {
    assert [m1, m2, m3][..2] == [m1, m2] && [m1, m2][..1] == [m1] && [m1][..0] == [];
    assert GiveAll(c, [m1]) == Give(c, m1);
    assert GiveAll(c, [m1, m2]) == Give(Give(c, m1), m2);
  }

  /** A stop at 5, a start at 10, and then the stop moved to 20: the stream begins flowing, though the start now
      comes first. */
  lemma MovedStopStillDecides(c: Control)
    requires c.flowing && c.start == MAX_TIME && c.stop == MAX_TIME
    ensures var d := GiveAll(c, [StopCommand(5, 1), StartCommand(10, 2), StopCommand(20, 3)]);
            d.flowing && d.start < d.stop && FlowsAt(d, 0)
  {
    GiveThree(c, StopCommand(5, 1), StartCommand(10, 2), StopCommand(20, 3));
  }

  /** A stop at 10, a start at 5, and then the start moved to 20: it begins discarding, though the stop now comes
      first. */
  lemma MovedStartStillDecides(c: Control)
    requires c.flowing && c.start == MAX_TIME && c.stop == MAX_TIME
    ensures var d := GiveAll(c, [StopCommand(10, 1), StartCommand(5, 2), StartCommand(20, 3)]);
            !d.flowing && d.stop < d.start && !FlowsAt(d, 0)
  {
    GiveThree(c, StopCommand(10, 1), StartCommand(5, 2), StartCommand(20, 3));
  }

  // --------------------------------------------------------------------------------- the object

  class BaseStreamControl {
    var flowing: bool             // m_StreamState
    var flowingOnStop: bool       // m_StreamStateOnStop
    var tStart: int
    var tStop: int
    var startCookie: nat
    var stopCookie: nat
    var sendExtra: bool
    var extraSent: bool
    var filterState: FilterState
    var sink: bool
    var log: seq<Notice>          // what the sink has been told

    ghost function State(): Control
      reads this
    {
      Control(flowing, tStart, startCookie, tStop, stopCookie, sink, log)
    }

    /** Valid: cookies only for pending commands, and the state after a stop set only for a pending stop. */
    ghost predicate Valid()
      reads this
    {
      Tidy(State()) && (flowingOnStop <==> tStop == MAX_TIME)
    }

    constructor (sink: bool)
      ensures Valid() && State() == Control(true, MAX_TIME, 0, MAX_TIME, 0, sink, []) && filterState == StateStopped
    {
      flowing, flowingOnStop, tStart, tStop, startCookie, stopCookie := true, true, MAX_TIME, MAX_TIME, 0, 0;
      sendExtra, extraSent, filterState, log := false, false, StateStopped, [];
      this.sink := sink;
    }

    method CancelStop()
      modifies this`tStop, this`stopCookie, this`flowingOnStop
      ensures tStop == MAX_TIME && stopCookie == 0 && flowingOnStop
    {
      tStop, stopCookie, flowingOnStop := MAX_TIME, 0, true;
    }

    method CancelStart()
      modifies this`tStart, this`startCookie
      ensures tStart == MAX_TIME && startCookie == 0
    {
      tStart, startCookie := MAX_TIME, 0;
    }

    method ExecuteStop()
      requires Valid()
      modifies this`flowing, this`tStop, this`stopCookie, this`flowingOnStop, this`log
      ensures Valid() && State() == DoStop(old(State()))
    {
      flowing := flowingOnStop;
      if stopCookie != 0 && sink { log := log + [Stopped(stopCookie)]; }
      CancelStop();
    }

    /** fault: a start is to be reported, and there is no sink. */
    method ExecuteStart() returns (fault: bool)
      requires Valid()
      modifies this`flowing, this`tStart, this`startCookie, this`log
      ensures fault <==> Unreportable(old(State()))
      ensures !fault ==> Valid() && State() == DoStart(old(State()))
    {
      flowing := true;
      if startCookie != 0 {
        if !sink { return true; }
        log := log + [Started(startCookie)];
      }
      CancelStart();
      return false;
    }

    /** CheckSampleTimes: decides by the timeline, and tells the sink what has become due. */
    method CheckSampleTimes(sampleStart: int, sampleStop: int) returns (flows: bool, fault: bool)
      requires Valid() && Sample(sampleStart, sampleStop)
      modifies this`flowing, this`tStart, this`startCookie, this`tStop, this`stopCookie, this`flowingOnStop, this`log
      ensures fault <==> Faults(old(State()), (sampleStart, sampleStop))
      ensures !fault ==>
                && Valid() && State() == Check(old(State()), sampleStart, sampleStop)
                && flows == flowing && (flows <==> FlowsWithin(old(State()), sampleStart, sampleStop))
    {
      CheckFollowsTimeline(State(), sampleStart, sampleStop);
      fault := false;
      if tStop >= sampleStart {
        if tStart >= sampleStop { return flowing, false; }
        if tStop < tStart { ExecuteStop(); }
        fault := ExecuteStart();
        return flowing, fault;
      }
      if tStart >= sampleStop {
        ExecuteStop();
        return flowing, false;
      }
      if tStart <= tStop {
        fault := ExecuteStart();
        if fault { return flowing, true; }
        ExecuteStop();
        return flowing, false;
      } else {
        ExecuteStop();
        fault := ExecuteStart();
        return flowing, fault;
      }
    }

    /** One turn of CheckStreamState's loop for a sample with times, while running or paused. */
    method CheckOnce(sampleStart: int, sampleStop: int) returns (passes: bool, fault: bool)
      requires Valid() && Sample(sampleStart, sampleStop) && !filterState.StateStopped?
      modifies this`flowing, this`tStart, this`startCookie, this`tStop, this`stopCookie, this`flowingOnStop, this`log
      modifies this`extraSent
      ensures fault <==> Faults(old(State()), (sampleStart, sampleStop))
      ensures !fault ==>
                && Valid() && State() == Check(old(State()), sampleStart, sampleStop)
                && (passes, sendExtra && !extraSent) ==
                   Pass(old(State()), sendExtra && !old(extraSent), sampleStart, sampleStop)
    {
      passes, fault := CheckSampleTimes(sampleStart, sampleStop);
      if fault || passes { return; }
      if sendExtra && !extraSent && tStop == MAX_TIME && !filterState.StateStopped? {
        extraSent := true;
        passes := true;
      }
    }

    /** StopAt with a time; MAX_TIME cancels. */
    method StopAt(stop: int, bSendExtra: bool, cookie: nat)
      requires Valid() && stop <= MAX_TIME
      modifies this`sendExtra, this`extraSent, this`flowing, this`flowingOnStop, this`tStop, this`stopCookie
      ensures Valid() && State() == ScheduleStop(old(State()), filterState, stop, cookie)
      ensures StopGiven(old(State()), flowing, stop, cookie, State())
      ensures !filterState.StateStopped? ==> flowing == old(flowing)
      ensures !extraSent && sendExtra == (bSendExtra && stop != MAX_TIME)
    {
      StopIsPlaced(State(), filterState, stop, cookie);
      sendExtra, extraSent := false, false;
      if stop == MAX_TIME {
        CancelStop();
        if filterState.StateStopped? && tStart < MAX_TIME { flowing := false; }
        return;
      }
      if filterState.StateStopped? && tStart > stop { flowing := true; }
      sendExtra, tStop, stopCookie, flowingOnStop := bSendExtra, stop, cookie, false;
    }

    /** StopAt without a time: stop now. */
    method StopNow()
      requires Valid()
      modifies this`sendExtra, this`extraSent, this`flowing, this`flowingOnStop, this`tStop, this`stopCookie
      ensures Valid() && !sendExtra && State() == old(State()).(flowing := false, stop := MAX_TIME, stopCookie := 0)
      ensures forall u :: u < MAX_TIME ==> (FlowsAt(State(), u) <==> old(tStart) <= u)
    {
      sendExtra, extraSent := false, false;
      tStop, stopCookie, flowing, flowingOnStop := MAX_TIME, 0, false, true;
    }

    /** StartAt with a time; MAX_TIME cancels. */
    method StartAt(start: int, cookie: nat)
      requires Valid() && start <= MAX_TIME
      modifies this`flowing, this`tStart, this`startCookie
      ensures Valid() && State() == ScheduleStart(old(State()), filterState, start, cookie)
      ensures StartGiven(old(State()), flowing, start, cookie, State())
      ensures !filterState.StateStopped? ==> flowing == old(flowing)
    {
      StartIsPlaced(State(), filterState, start, cookie);
      if start == MAX_TIME {
        CancelStart();
        if filterState.StateStopped? && tStop < MAX_TIME { flowing := true; }
        return;
      }
      if filterState.StateStopped? && tStop >= start { flowing := false; }
      tStart, startCookie := start, cookie;
    }

    method StartNow()
      requires Valid()
      modifies this`flowing, this`tStart, this`startCookie
      ensures Valid() && State() == old(State()).(flowing := true, start := MAX_TIME, startCookie := 0)
      ensures forall u :: u < MAX_TIME ==> (FlowsAt(State(), u) <==> u <= old(tStop))
    {
      tStart, startCookie, flowing := MAX_TIME, 0, true;
    }

    method NotifyFilterState(newState: FilterState) returns (fault: bool)
      requires Valid()
      modifies this
      ensures fault <==> newState.StateStopped? && !old(filterState).StateStopped? && Unreportable(old(State()))
      ensures !fault ==> Valid() && filterState == newState && sendExtra == old(sendExtra) && extraSent == old(extraSent)
      ensures !fault ==> State() == if newState.StateStopped? && !old(filterState).StateStopped? then Halt(old(State()))
                                    else old(State())
    {
      fault := false;
      if filterState == newState { return; }
      if newState.StateStopped? {
        fault := ExecutePending();
        if fault { return; }
        flowing := true;
      }
      filterState := newState;
    }

    /** Execute what is pending, in order. */
    method ExecutePending() returns (fault: bool)
      requires Valid()
      modifies this`flowing, this`tStart, this`startCookie, this`tStop, this`stopCookie, this`flowingOnStop, this`log
      ensures fault <==> Unreportable(old(State()))
      ensures !fault ==> Valid() && State().(flowing := true) == Halt(old(State()))
    {
      fault := false;
      if tStart != MAX_TIME && tStop == MAX_TIME {
        fault := ExecuteStart();
      } else if tStop != MAX_TIME && tStart == MAX_TIME {
        ExecuteStop();
      } else if tStop != MAX_TIME && tStart != MAX_TIME {
        if tStart <= tStop {
          fault := ExecuteStart();
          if fault { return; }
          ExecuteStop();
        } else {
          ExecuteStop();
          fault := ExecuteStart();
        }
      }
    }
  }
}
