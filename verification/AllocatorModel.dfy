/** CBaseAllocator's buffer pool, one critical section at a time: GetBuffer, ReleaseBuffer, Commit and
    Decommit called by any number of threads. The semaphore is a count, the self-reference a ghost count. */
module AllocatorModel {
  import opened MemoryLayout

  type Thread = nat
  type Sample = nat

  /** props: the figures in force; laid: those the samples were made with.
      waiters: threads that have announced that they wait and have not been let through yet;
      timeouts: GetBuffer calls that would not wait; refs: references the allocator holds on itself;
      owed: releases of such a reference still to be carried out; allocs, frees: times the memory was
      taken into use and given up. */
  datatype Allocator = Allocator(
    free: seq<Sample>, out: set<Sample>, total: nat, props: Props, laid: Props, changed: bool,
    committed: bool, decommitting: bool,
    waiting: nat, sem: nat, waiters: set<Thread>, timeouts: nat,
    refs: int, owed: nat, allocs: nat, frees: nat)

  const FRESH := Allocator([], {}, 0, Props(0, 0, 0, 0), Props(0, 0, 0, 0), false, false, false, 0, 0, {}, 0, 0, 0, 0, 0)

  datatype Action =
    | SetProperties(props: Props)
    | GetBuffer(who: Thread, nowait: bool)
    | WakeUp(who: Thread)
    | ReleaseBuffer(sample: Sample)
    | Commit(ok: bool, made: nat)
    | Decommit
    | DropReference

  datatype Answer = Got(sample: Sample) | NotCommitted | TimedOut | MustWait

  /** n new samples on the free list, the last one made in front. */
  function Numbered(n: nat): (s: seq<Sample>)
    ensures |s| == n && forall i :: 0 <= i < n ==> s[i] == n - 1 - i
  {
    if n == 0 then [] else [n - 1] + Numbered(n - 1)
  }

  // ------------------------------------------------------------------------------ critical sections

  /** SetProperties is turned away while committed and while buffers are out. */
  function SetPropertiesStep(a: Allocator, props: Props): Allocator {
    if a.committed || |a.free| < a.total then a else a.(props := props, changed := true)
  }

  function GetBufferAnswer(a: Allocator, nowait: bool): Answer {
    if !a.committed then NotCommitted
    else if a.free != [] then Got(a.free[0])
    else if nowait then TimedOut
    else MustWait
  }

  /** The part of GetBuffer's loop that holds the lock; without a buffer the thread announces that it waits. */
  function GetBufferStep(a: Allocator, who: Thread, nowait: bool): Allocator {
    match GetBufferAnswer(a, nowait)
    case NotCommitted => a
    case Got(s) => a.(free := a.free[1..], out := a.out + {s})
    case TimedOut => a.(waiting := a.waiting + 1, timeouts := a.timeouts + 1)
    case MustWait => a.(waiting := a.waiting + 1, waiters := a.waiters + {who})
  }

  /** WaitForSingleObject returns. */
  function WakeUpStep(a: Allocator, who: Thread): Allocator
    requires a.sem > 0
  {
    a.(sem := a.sem - 1, waiters := a.waiters - {who})
  }

  /** The last buffer to come back during a decommit completes it. */
  function ReleaseBufferStep(a: Allocator, s: Sample): Allocator {
    var last := a.decommitting && |a.free| + 1 == a.total;
    a.(free := [s] + a.free, out := a.out - {s}, sem := a.sem + a.waiting, waiting := 0,
       decommitting := a.decommitting && !last,
       owed := if last then a.owed + 1 else a.owed, frees := if last then a.frees + 1 else a.frees)
  }

  /** Alloc, which leaves everything alone if nothing has changed: ok and made say how it fares if it has to
      allocate, made being the number of samples a failing one leaves. */
  function AllocStep(a: Allocator, ok: bool, made: nat): Allocator {
    if !Settled(a.props) || !a.changed then a
    else if ok && Fits(a.props) then
      a.(free := Numbered(a.props.count), total := a.props.count, laid := a.props, changed := false)
    else a.(free := Numbered(made), total := made, laid := a.props)
  }

  predicate AllocSucceeds(a: Allocator, ok: bool) {
    Settled(a.props) && (!a.changed || (ok && Fits(a.props)))
  }

  function CommitStep(a: Allocator, ok: bool, made: nat): Allocator {
    if a.committed then a
    else if a.decommitting then a.(committed := true, decommitting := false)
    else CommitAfreshStep(a.(committed := true), ok, made)
  }

  function CommitAfreshStep(a: Allocator, ok: bool, made: nat): Allocator {
    var b := AllocStep(a, ok, made);
    if AllocSucceeds(a, ok) then b.(refs := b.refs + 1, allocs := b.allocs + 1) else b.(committed := false)
  }

  function DecommitStep(a: Allocator): Allocator {
    if !a.committed && !a.decommitting then a
    else
      var pending := |a.free| < a.total;
      a.(committed := false, decommitting := pending, sem := a.sem + a.waiting, waiting := 0,
         owed := if pending then a.owed else a.owed + 1, frees := if pending then a.frees else a.frees + 1)
  }

  function DropReferenceStep(a: Allocator): Allocator
    requires a.owed > 0
  {
    a.(refs := a.refs - 1, owed := a.owed - 1)
  }

  // ------------------------------------------------------------------------------------------ runs

  predicate Enabled(a: Allocator, act: Action) {
    match act
    case SetProperties(_) => true
    case GetBuffer(who, _) => who !in a.waiters
    case WakeUp(who) => who in a.waiters && a.sem > 0
    case ReleaseBuffer(s) => s in a.out
    case Commit(_, made) => made <= if a.props.count > 0 then a.props.count else 0
    case Decommit => true
    case DropReference => a.owed > 0
  }

  function Apply(a: Allocator, act: Action): Allocator
    requires Enabled(a, act)
  {
    match act
    case SetProperties(props) => SetPropertiesStep(a, props)
    case GetBuffer(who, nowait) => GetBufferStep(a, who, nowait)
    case WakeUp(who) => WakeUpStep(a, who)
    case ReleaseBuffer(s) => ReleaseBufferStep(a, s)
    case Commit(ok, made) => CommitStep(a, ok, made)
    case Decommit => DecommitStep(a)
    case DropReference => DropReferenceStep(a)
  }

  predicate RunOk(a: Allocator, run: seq<Action>)
    decreases |run|
  {
    run == [] || (Enabled(a, run[0]) && RunOk(Apply(a, run[0]), run[1..]))
  }

  function Run(a: Allocator, run: seq<Action>): Allocator
    requires RunOk(a, run)
    decreases |run|
  {
    if run == [] then a else Run(Apply(a, run[0]), run[1..])
  }
}
