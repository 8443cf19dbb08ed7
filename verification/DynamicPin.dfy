/** CDynamicOutputPin's protocol for blocking a pin while nobody uses it. Critical sections are single steps;
    the unblock event is a manual-reset event, the caller's event is known by the number of its request. */
module DynamicPin {

  type Thread = nat
  datatype Option<T> = None | Some(value: T)
  datatype BlockState = NotBlocked | Pending | Blocked

  /** waiting: threads between finding the pin blocked and looking again; requests: block requests accepted
      so far; signals: the requests whose event has been set, in order. */
  datatype Pin = Pin(block: BlockState, caller: Thread, notify: Option<nat>, users: nat, unblock: bool, stop: bool,
                     waiting: set<Thread>, requests: nat, signals: seq<nat>)

  const IDLE := Pin(NotBlocked, 0, None, 0, true, false, {}, 0, [])

  datatype Action =
    | Block(who: Thread)
    | Unblock
    | StartUsing(who: Thread)
    | WakeUp(who: Thread)
    | StopUsing
    | SetStop(stop: bool)

  datatype Answer = Accepted | AlreadyBlocked | AlreadyBlockedOnThisThread

  datatype Waking = LookAgain | StateChanged

  function BlockAnswer(p: Pin, who: Thread): Answer {
    if p.block.NotBlocked? then Accepted
    else if p.caller == who then AlreadyBlockedOnThisThread
    else AlreadyBlocked
  }

  /** Only an accepted request does anything; without users it takes effect at once. */
  function BlockStep(p: Pin, who: Thread): Pin {
    if !p.block.NotBlocked? then p
    else if p.users > 0 then
      p.(block := Pending, caller := who, notify := Some(p.requests), requests := p.requests + 1)
    else
      p.(block := Blocked, caller := who, notify := None, unblock := false,
         requests := p.requests + 1, signals := p.signals + [p.requests])
  }

  /** Unblocking a pin whose block is still pending cancels that, and says so to the one who asked for it. */
  function UnblockStep(p: Pin): Pin {
    if p.block.NotBlocked? then p
    else
      p.(block := NotBlocked, caller := 0, notify := None, unblock := true,
         signals := if p.notify.Some? then p.signals + [p.notify.value] else p.signals)
  }

  /** A thread that finds the pin blocked waits; a pending block does not stop it. */
  function StartUsingStep(p: Pin, who: Thread): Pin {
    if p.block.Blocked? then p.(waiting := p.waiting + {who}) else p.(users := p.users + 1)
  }

  /** What the wait for both events reports: of two set events the first. */
  function WakingOf(p: Pin): Waking { if p.unblock then LookAgain else StateChanged }

  function WakeUpStep(p: Pin, who: Thread): Pin { p.(waiting := p.waiting - {who}) }

  /** The last user to leave completes a pending block. */
  function StopUsingStep(p: Pin): Pin
    requires p.users > 0
  {
    if p.users == 1 && p.notify.Some? then
      p.(users := 0, block := Blocked, notify := None, unblock := false, signals := p.signals + [p.notify.value])
    else p.(users := p.users - 1)
  }

  predicate Enabled(p: Pin, a: Action) {
    match a
    case Block(who) => who > 0
    case Unblock => true
    case StartUsing(who) => who !in p.waiting
    case WakeUp(who) => who in p.waiting && (p.unblock || p.stop)
    case StopUsing => p.users > 0
    case SetStop(_) => true
  }

  function Apply(p: Pin, a: Action): Pin
    requires Enabled(p, a)
  {
    match a
    case Block(who) => BlockStep(p, who)
    case Unblock => UnblockStep(p)
    case StartUsing(who) => StartUsingStep(p, who)
    case WakeUp(who) => WakeUpStep(p, who)
    case StopUsing => StopUsingStep(p)
    case SetStop(stop) => p.(stop := stop)
  }

  predicate RunOk(p: Pin, run: seq<Action>)
    decreases |run|
  {
    run == [] || (Enabled(p, run[0]) && RunOk(Apply(p, run[0]), run[1..]))
  }

  function Run(p: Pin, run: seq<Action>): Pin
    requires RunOk(p, run)
    decreases |run|
  {
    if run == [] then p else Run(Apply(p, run[0]), run[1..])
  }

  // ------------------------------------------------------------------------------- the invariant

  function UpTo(n: nat): (s: seq<nat>)
    ensures |s| == n && forall i :: 0 <= i < n ==> s[i] == i
  {
    if n == 0 then [] else UpTo(n - 1) + [n - 1]
  }

  predicate Consistent(p: Pin) {
    && (p.block.Blocked? ==> p.users == 0)
    && (p.block.Pending? <==> p.notify.Some?)
    && (p.block.Pending? ==> p.users > 0)
    && (p.block.NotBlocked? <==> p.caller == 0)
    && (p.unblock <==> !p.block.Blocked?)
  }

  /** Every accepted request has had its event set once, in order, but for one that is pending. */
  predicate Accounted(p: Pin) {
    match p.notify
    case None => p.signals == UpTo(p.requests)
    case Some(n) => p.requests == n + 1 && p.signals == UpTo(n)
  }

  predicate Inv(p: Pin) { Consistent(p) && Accounted(p) }

  lemma StepInv(p: Pin, a: Action)
    requires Inv(p) && Enabled(p, a)
    ensures Inv(Apply(p, a))
  {
  }

  lemma {:induction false} RunInv(p: Pin, run: seq<Action>)
    requires Inv(p) && RunOk(p, run)
    ensures Inv(Run(p, run))
    decreases |run|
  {
    if run != [] {
      StepInv(p, run[0]);
      RunInv(Apply(p, run[0]), run[1..]);
    }
  }

  lemma RunOne(p: Pin, a: Action)
    requires Enabled(p, a)
    ensures RunOk(p, [a]) && Run(p, [a]) == Apply(p, a)
  {
    assert [a][1..] == [];
  }

  ghost predicate Reachable(p: Pin) {
    exists run :: RunOk(IDLE, run) && p == Run(IDLE, run)
  }

  lemma ReachableInv(p: Pin)
    requires Reachable(p)
    ensures Inv(p)
  {
    var run :| RunOk(IDLE, run) && p == Run(IDLE, run);
    RunInv(IDLE, run);
  }

  // ------------------------------------------------------------------------------- the theorems

  function Count(s: seq<nat>, x: nat): nat { multiset(s)[x] }

  lemma {:induction false} UpToCounts(n: nat, x: nat)
    ensures Count(UpTo(n), x) == if x < n then 1 else 0
  {
    if n > 0 { UpToCounts(n - 1, x); }
  }

  /** Each request that was accepted has its event set exactly once, when the pin blocks or the request is
      cancelled; only the one that is still pending has not yet. No other event is ever set. */
  lemma EachRequestIsAnsweredOnce(p: Pin, request: nat)
    requires Reachable(p)
    ensures Count(p.signals, request) ==
            if request < p.requests && p.notify != Some(request) then 1 else 0
    ensures p.notify.Some? ==> p.block.Pending? && p.notify.value == p.requests - 1
  {
    ReachableInv(p);
    UpToCounts(|p.signals|, request);
  }

  /** A blocked pin has no users, and gets none until it is unblocked. */
  lemma BlockedPinIsQuiet(p: Pin, a: Action)
    requires Reachable(p) && p.block.Blocked? && Enabled(p, a)
    ensures p.users == 0 && Apply(p, a).users == 0
    ensures Apply(p, a).block.Blocked? || a.Unblock?
  {
    ReachableInv(p);
  }

  /** Threads wait only while the pin is blocked; otherwise each of them can go on and look again. */
  lemma NobodyWaitsForAnOpenPin(p: Pin, who: Thread)
    requires Reachable(p) && who in p.waiting && !p.block.Blocked?
    ensures Enabled(p, WakeUp(who)) && WakingOf(p) == LookAgain
  {
    ReachableInv(p);
  }

  /** A thread that comes to a blocked pin waits, through everything that happens, until somebody unblocks the pin
      or the stop event is set. */
  lemma {:induction false} LatecomerWaits(p: Pin, who: Thread, run: seq<Action>)
    requires Inv(p) && p.block.Blocked? && !p.stop && who in p.waiting
    requires RunOk(p, run) && Unblock !in run && SetStop(true) !in run
    ensures var q := Run(p, run); q.block.Blocked? && who in q.waiting && !Enabled(q, WakeUp(who))
    decreases |run|
  {
    if run != [] {
      StepInv(p, run[0]);
      LatecomerWaits(Apply(p, run[0]), who, run[1..]);
    }
  }

  /** That is where StartUsingOutputPin leaves it, on a blocked pin and on no other. */
  lemma ComesToWaitIff(p: Pin, who: Thread)
    requires Reachable(p) && who !in p.waiting
    ensures who in Apply(p, StartUsing(who)).waiting <==> p.block.Blocked?
    ensures forall other :: other != who ==> (other in Apply(p, StartUsing(who)).waiting <==> other in p.waiting)
  {
  }

  /** The stop event lets a waiting thread go without using the pin; it is told that the state has changed exactly
      while the pin is still blocked. */
  lemma StopEventLetsGo(p: Pin, who: Thread)
    requires Reachable(p) && who in p.waiting
    ensures RunOk(p, [SetStop(true), WakeUp(who)])
    ensures Run(p, [SetStop(true), WakeUp(who)]) == p.(stop := true, waiting := p.waiting - {who})
    ensures WakingOf(Apply(p, SetStop(true))) == StateChanged <==> p.block.Blocked?
  {
    ReachableInv(p);
    var q := Apply(p, SetStop(true));
    assert [SetStop(true), WakeUp(who)][1..] == [WakeUp(who)];
    RunOne(q, WakeUp(who));
  }

  lemma {:induction false} CallerStays(p: Pin, run: seq<Action>)
    requires !p.block.NotBlocked? && RunOk(p, run) && Unblock !in run
    ensures Run(p, run).caller == p.caller && !Run(p, run).block.NotBlocked?
    decreases |run|
  {
    if run != [] { CallerStays(Apply(p, run[0]), run[1..]); }
  }

  /** Until the pin is unblocked the block is the thread's whose request was accepted: it is told so if it asks
      again, and nobody else is. */
  lemma BlockBelongsToItsCaller(p: Pin, who: Thread, run: seq<Action>, other: Thread)
    requires Reachable(p) && p.block.NotBlocked? && who > 0
    requires RunOk(Apply(p, Block(who)), run) && Unblock !in run
    ensures BlockAnswer(Run(Apply(p, Block(who)), run), other)
            == if other == who then AlreadyBlockedOnThisThread else AlreadyBlocked
  {
    CallerStays(Apply(p, Block(who)), run);
  }

  /** A request while another is in force is turned away, and the answer tells whose that is. */
  lemma SecondRequestIsRefused(p: Pin, who: Thread)
    requires Reachable(p) && who > 0
    ensures BlockAnswer(p, who) == Accepted <==> p.caller == 0
    ensures BlockAnswer(p, who) == AlreadyBlockedOnThisThread <==> p.caller == who
    ensures BlockAnswer(p, who) != Accepted ==> Apply(p, Block(who)) == p
  {
    ReachableInv(p);
  }

  /** Whatever the threads do, as long as nobody unblocks it a pin once asked to block is blocked exactly when it
      has no users. */
  lemma {:induction false} BlockedIffUnused(p: Pin, run: seq<Action>)
    requires Inv(p) && !p.block.NotBlocked? && RunOk(p, run) && Unblock !in run
    ensures Run(p, run).block.Blocked? <==> Run(p, run).users == 0
    ensures !Run(p, run).block.NotBlocked?
    decreases |run|
  {
    if run != [] {
      StepInv(p, run[0]);
      BlockedIffUnused(Apply(p, run[0]), run[1..]);
    }
  }

  function Leaving(run: seq<Action>): nat
    decreases |run|
  {
    if run == [] then 0 else (if run[0] == StopUsing then 1 else 0) + Leaving(run[1..])
  }

  /** How many threads the run lets onto the pin. */
  function Entered(p: Pin, run: seq<Action>): nat
    requires RunOk(p, run)
    decreases |run|
  {
    if run == [] then 0
    else (if run[0].StartUsing? && !p.block.Blocked? then 1 else 0) + Entered(Apply(p, run[0]), run[1..])
  }

  /** Over every run the users are those there were, those let on since, and not those who have left. */
  lemma {:induction false} UsersAreCounted(p: Pin, run: seq<Action>)
    requires Inv(p) && RunOk(p, run)
    ensures Run(p, run).users == p.users + Entered(p, run) - Leaving(run)
    decreases |run|
  {
    if run != [] {
      StepInv(p, run[0]);
      UsersAreCounted(Apply(p, run[0]), run[1..]);
    }
  }

  /** So a thread let on and not yet gone keeps every request from being granted. */
  lemma NoBlockWhileInUse(run: seq<Action>)
    requires RunOk(IDLE, run) && Entered(IDLE, run) > Leaving(run)
    ensures !Run(IDLE, run).block.Blocked?
  {
    UsersAreCounted(IDLE, run);
    RunInv(IDLE, run);
  }

  predicate NoNewcomers(run: seq<Action>) { forall a :: a in run ==> !a.StartUsing? && !a.Unblock? }

  /** If no thread starts anew, a pending block takes effect exactly when those using the pin have all left. */
  lemma UsersLeaveAndPinBlocks(p: Pin, run: seq<Action>)
    requires Inv(p) && p.block.Pending? && RunOk(p, run) && NoNewcomers(run)
    ensures Leaving(run) <= p.users && Run(p, run).users == p.users - Leaving(run)
    ensures Run(p, run).block.Blocked? <==> Leaving(run) == p.users
  {
    NobodyEntered(p, run);
    UsersAreCounted(p, run);
    BlockedIffUnused(p, run);
  }

  lemma {:induction false} NobodyEntered(p: Pin, run: seq<Action>)
    requires RunOk(p, run) && NoNewcomers(run)
    ensures Entered(p, run) == 0
    decreases |run|
  {
    if run != [] { NobodyEntered(Apply(p, run[0]), run[1..]); }
  }

  /** But threads that keep relieving one another can hold it off for good. */
  lemma {:induction false} PendingBlockCanStarve(p: Pin, who: Thread, n: nat)
    requires p.block.Pending? && p.users > 0 && who !in p.waiting
    ensures var run := Relay(who, n);
            RunOk(p, run) && Run(p, run) == p
  {
    if n > 0 {
      var q := Apply(p, StartUsing(who));
      assert Apply(q, StopUsing) == p;
      var run := Relay(who, n);
      assert run[1..] == [StopUsing] + Relay(who, n - 1);
      assert run[1..][1..] == Relay(who, n - 1);
      PendingBlockCanStarve(p, who, n - 1);
    }
  }

  function Relay(who: Thread, n: nat): seq<Action> {
    if n == 0 then [] else [StartUsing(who), StopUsing] + Relay(who, n - 1)
  }

  /** A step that sets a caller's event leaves the pin blocked exactly if it is not an unblocking. */
  lemma EventMeansBlockedIff(p: Pin, a: Action)
    requires Reachable(p) && Enabled(p, a) && Apply(p, a).signals != p.signals
    ensures Apply(p, a).block.Blocked? <==> a != Unblock
    ensures Apply(p, a).signals == p.signals + [if p.notify.Some? then p.notify.value else p.requests]
  {
    ReachableInv(p);
  }

  /** The event does not tell a block from a cancellation: unblocking while the block is pending sets it, and
      the pin never was blocked. */
  lemma CancelledRequestLooksGranted(p: Pin, who: Thread)
    requires Reachable(p) && p.block.NotBlocked? && p.users > 0 && who > 0
    ensures RunOk(p, [Block(who), Unblock])
    ensures var q := Run(p, [Block(who), Unblock]);
            q == p.(unblock := true, requests := p.requests + 1, signals := p.signals + [p.requests])
  {
    ReachableInv(p);
    assert [Block(who), Unblock][1..] == [Unblock];
    RunOne(Apply(p, Block(who)), Unblock);
  }

  // ---------------------------------------------------------------------------------- the object

  class DynamicOutputPin {
    var blockState: BlockState
    var blockCallerThreadId: Thread
    var notifyEvent: Option<nat>     // m_hNotifyCallerPinBlockedEvent
    var users: nat                   // m_dwNumOutstandingOutputPinUsers
    var unblockEvent: bool
    var stopEvent: bool

    ghost var waiting: set<Thread>
    var requests: nat
    ghost var signals: seq<nat>

    ghost function State(): Pin
      reads this
    {
      Pin(blockState, blockCallerThreadId, notifyEvent, users, unblockEvent, stopEvent, waiting, requests, signals)
    }

    constructor ()
      ensures State() == IDLE
    {
      blockState, blockCallerThreadId, notifyEvent, users := NotBlocked, 0, None, 0;
      unblockEvent, stopEvent, waiting, requests, signals := true, false, {}, 0, [];
    }

    /** AsynchronousBlockOutputPin. */
    method AsynchronousBlock(who: Thread) returns (answer: Answer)
      requires Consistent(State()) && who > 0
      modifies this
      ensures Consistent(State()) && State() == BlockStep(old(State()), who)
      ensures answer == BlockAnswer(old(State()), who)
    {
      if !blockState.NotBlocked? {
        return if blockCallerThreadId == who then AlreadyBlockedOnThisThread else AlreadyBlocked;
      }
      notifyEvent := Some(requests);
      requests := requests + 1;
      blockState := Pending;
      blockCallerThreadId := who;
      if users == 0 { BlockOutputPin(); }
      return Accepted;
    }

    method BlockOutputPin()
      requires users == 0 && notifyEvent.Some?
      modifies this`unblockEvent, this`signals, this`blockState, this`notifyEvent
      ensures !unblockEvent && blockState.Blocked? && notifyEvent.None?
      ensures signals == old(signals) + [old(notifyEvent).value]
    {
      unblockEvent := false;
      signals := signals + [notifyEvent.value];
      blockState := Blocked;
      notifyEvent := None;
    }

    method UnblockOutputPin() returns (wasBlocked: bool)
      requires Consistent(State())
      modifies this
      ensures Consistent(State()) && State() == UnblockStep(old(State()))
      ensures wasBlocked <==> !old(blockState).NotBlocked?
    {
      if blockState.NotBlocked? { return false; }
      unblockEvent := true;
      if notifyEvent.Some? { signals := signals + [notifyEvent.value]; }
      blockState, blockCallerThreadId, notifyEvent := NotBlocked, 0, None;
      return true;
    }

    /** StartUsingOutputPin from taking the lock to letting it go, to wait or to return. */
    method StartUsing(who: Thread) returns (mustWait: bool)
      requires Consistent(State())
      modifies this`users, this`waiting
      ensures Consistent(State()) && State() == StartUsingStep(old(State()), who)
      ensures mustWait <==> blockState.Blocked?
      ensures users == old(users) + (if mustWait then 0 else 1)
    {
      if blockState.Blocked? {
        waiting := waiting + {who};
        return true;
      }
      users := users + 1;
      return false;
    }

    /** The wait in StartUsingOutputPin returning. */
    method WakeUp(who: Thread) returns (waking: Waking)
      requires Consistent(State()) && who in waiting && (unblockEvent || stopEvent)
      modifies this`waiting
      ensures Consistent(State()) && State() == WakeUpStep(old(State()), who) && waking == WakingOf(old(State()))
    {
      waiting := waiting - {who};
      return if unblockEvent then LookAgain else StateChanged;
    }

    method StopUsingOutputPin()
      requires Consistent(State()) && users > 0
      modifies this
      ensures Consistent(State()) && State() == StopUsingStep(old(State())) && users == old(users) - 1
    {
      users := users - 1;
      if users == 0 && !blockState.NotBlocked? { BlockOutputPin(); }
    }
  }
}
