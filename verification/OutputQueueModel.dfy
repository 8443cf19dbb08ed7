/** The queued mode of COutputQueue as a state machine.

    Every critical section of the source is one atomic step, and so is every
    unlocked step that other threads can observe.  `State` holds the fields of
    the object, the program counter of the worker thread, of the flushing
    thread and of the thread inside Reset(), and what has been seen downstream.
  */
module OutputQueueModel {

  /** S_OK, S_FALSE, or any other code; the code is "sticky" once it is not Ok. */
  datatype Hr = Ok | SFalse | Failed(code: int)

  datatype Segment = Segment(start: int, stop: int, rate: real)

  /** A list entry: a sample pointer, one of the four special pointers, or the
      parameter packet that follows a NEW_SEGMENT pointer. */
  datatype Item =
    | Sample(id: nat)
    | SendPacket
    | EosPacket
    | ResetPacket
    | NewSegment
    | Params(segment: Segment)

  /** What the downstream pin sees. */
  datatype Event = GotSample(id: nat) | GotSegment(segment: Segment) | GotEos

  /** The control packet that ended the worker's critical section. */
  datatype Control = NoControl | EosControl | ResetControl | SegmentControl(segment: Segment)

  datatype Config = Config(batchSize: nat, exact: bool, flushOpt: bool)

  /** The constructor's ASSERT, and its rule that exact batching needs a batch above one. */
  predicate ValidConfig(c: Config) {
    c.batchSize > 0 && (c.exact ==> c.batchSize > 1)
  }

  // ---------------------------------------------------------------- the list

  /** Every NEW_SEGMENT is followed by its own packet and packets occur nowhere else. */
  predicate WellTagged(list: seq<Item>) {
    if list == [] then true
    else if list[0] == NewSegment then |list| >= 2 && list[1].Params? && WellTagged(list[2..])
    else !list[0].Params? && WellTagged(list[1..])
  }

  /** The samples of a list, in order. */
  function Ids(list: seq<Item>): seq<nat> {
    if list == [] then []
    else (if list[0].Sample? then [list[0].id] else []) + Ids(list[1..])
  }

  /** What an entry other than a segment means downstream. */
  function EntryEvents(i: Item): seq<Event> {
    match i
    case Sample(id) => [GotSample(id)]
    case EosPacket => [GotEos]
    case _ => []
  }

  /** What a list means downstream: a tag and its packet are one NewSegment call. */
  function EventsOf(list: seq<Item>): seq<Event>
    requires WellTagged(list)
  {
    if list == [] then []
    else if list[0] == NewSegment then [GotSegment(list[1].segment)] + EventsOf(list[2..])
    else EntryEvents(list[0]) + EventsOf(list[1..])
  }

  function SampleEvents(ids: seq<nat>): (es: seq<Event>)
    ensures |es| == |ids|
  {
    seq(|ids|, i requires 0 <= i < |ids| => GotSample(ids[i]))
  }

  function SampleItems(ids: seq<nat>): (items: seq<Item>)
    ensures |items| == |ids|
  {
    seq(|ids|, i requires 0 <= i < |ids| => Sample(ids[i]))
  }

  function ControlEvents(c: Control): seq<Event> {
    match c
    case EosControl => [GotEos]
    case SegmentControl(s) => [GotSegment(s)]
    case _ => []
  }

  function DeliveredIds(es: seq<Event>): seq<nat> {
    if es == [] then []
    else (if es[0].GotSample? then [es[0].id] else []) + DeliveredIds(es[1..])
  }

  predicate Increasing(s: seq<nat>) {
    forall i, j :: 0 <= i < j < |s| ==> s[i] < s[j]
  }

  predicate AllBelow(s: seq<nat>, n: nat) {
    forall i :: 0 <= i < |s| ==> s[i] < n
  }

  predicate AllFrom(s: seq<nat>, n: nat) {
    forall i :: 0 <= i < |s| ==> s[i] >= n
  }

  /** The identifiers [from, to): samples are numbered in the order they are submitted. */
  function IdRange(from: nat, to: nat): (s: seq<nat>)
    requires from <= to
    ensures |s| == to - from
  {
    seq(to - from, i requires 0 <= i < to - from => from + i)
  }

  // ---------------------------------------------- the worker's critical section

  datatype Collected =
    | Wait(batch: seq<nat>)
    | Go(list: seq<Item>, toSend: seq<nat>, control: Control)

  /** The inner loop of ThreadProc: what it takes off the list, and whether it then waits. */
  function Collect(c: Config, list: seq<Item>, batch: seq<nat>): Collected
    requires WellTagged(list)
    decreases list
  {
    if list == [] then
      if c.exact || batch == [] then Wait(batch) else Go([], batch, NoControl)
    else match list[0]
      case Sample(id) =>
        if |batch| + 1 == c.batchSize then Go(list[1..], batch + [id], NoControl)
        else Collect(c, list[1..], batch + [id])
      case SendPacket =>
        if batch == [] then Collect(c, list[1..], batch) else Go(list[1..], batch, NoControl)
      case EosPacket => Go(list[1..], batch, EosControl)
      case ResetPacket => Go(list[1..], batch, ResetControl)
      case NewSegment => Go(list[2..], batch, SegmentControl(list[1].segment))
  }

  // ----------------------------------------------------------------- the state

  datatype Worker =
    | AtTop                                       // about to enter its critical section
    | Asleep                                      // in the wait for the semaphore
    | Holding(toSend: seq<nat>, control: Control)    // left the section, has not read m_hr yet
    | Delivering(toSend: seq<nat>, control: Control) // inside the downstream ReceiveMultiple
    | Releasing(toSend: seq<nat>, control: Control)
    | Finishing(control: Control)                 // about to act on the control packet
    | Exited

  datatype Flusher =
    | NotFlushing
    | Begun               // between BeginFlush and EndFlush
    | WaitingForWorker    // EndFlush, in the wait for m_evFlushComplete
    | Passed              // the wait is over
    | Cleared             // m_bFlushing has been cleared
    | Marked              // m_bFlushed has been set; only m_hr is left

  datatype State = State(
    list: seq<Item>,
    batch: seq<nat>,
    waiting: nat,
    sem: nat,
    hr: Hr,
    flushing: bool,
    flushed: bool,
    terminate: bool,
    evFlush: bool,        // auto-reset event
    worker: Worker,
    flusher: Flusher,
    resetting: bool,      // a thread is inside Reset()
    sound: bool,          // the last flush, if any, began well
    nextId: nat,
    submitted: seq<Event>,
    delivered: seq<Event>,
    released: multiset<nat>)

  function Initial(): State {
    State([], [], 0, 0, Ok, false, true, false, false, AtTop, NotFlushing, false, true, 0, [], [], multiset{})
  }

  function InHand(w: Worker): seq<nat> {
    match w
    case Holding(t, _) => t
    case Delivering(t, _) => t
    case Releasing(t, _) => t
    case _ => []
  }

  function ControlInHand(w: Worker): Control {
    match w
    case Holding(_, k) => k
    case Delivering(_, k) => k
    case Releasing(_, k) => k
    case Finishing(k) => k
    case _ => NoControl
  }

  /** Samples the object still holds a reference to. */
  function Held(s: State): seq<nat> {
    InHand(s.worker) + s.batch + Ids(s.list)
  }

  /** Held samples that have not been handed downstream yet. */
  function Pending(s: State): seq<nat> {
    (if s.worker.Holding? then s.worker.toSend else []) + s.batch + Ids(s.list)
  }

  predicate ResetInHand(w: Worker) { ControlInHand(w) == ResetControl }

  /** No RESET packet is queued or in the worker's hand. */
  predicate NoReset(s: State) {
    ResetPacket !in s.list && !ResetInHand(s.worker)
  }

  /** What a flush needs when it begins: no RESET packet in the worker's hand, whose handling would pass for the
      end of the flush; and with the short cut of a flushed queue, that m_bFlushed is true to its name. */
  predicate BeginsWell(c: Config, s: State) {
    !ResetInHand(s.worker) && (c.flushOpt && s.flushed ==> Held(s) == [])
  }

  // ------------------------------------------------------------------ the steps

  /** QueueSample for each entry of q, then NotifyThread if wake: the semaphore gets what was owed. */
  function Enqueue(s: State, q: seq<Item>, es: seq<Event>, n: nat, flushed: bool, resetting: bool, wake: bool): State {
    s.(list := s.list + q, submitted := s.submitted + es, nextId := s.nextId + n,
       flushed := flushed, resetting := resetting,
       sem := if wake then s.sem + s.waiting else s.sem,
       waiting := if wake then 0 else s.waiting)
  }

  /** ReceiveMultiple: refuse and release everything, or queue and wake the worker when there is enough. */
  function Submit(c: Config, s: State, n: nat): State {
    var ids := IdRange(s.nextId, s.nextId + n);
    if s.hr != Ok then s.(nextId := s.nextId + n, released := s.released + multiset(ids))
    else Enqueue(s, SampleItems(ids), SampleEvents(ids), n, false, s.resetting,
                 !c.exact || |s.batch| + |s.list| + n >= c.batchSize)
  }

  function QueueEos(s: State): State {
    if s.hr != Ok then s else Enqueue(s, [EosPacket], [GotEos], 0, false, s.resetting, true)
  }

  /** The locked part of NewSegment; m_hr was read before the lock was taken. */
  function QueueSegment(s: State, g: Segment): State {
    Enqueue(s, [NewSegment, Params(g)], [GotSegment(g)], 0, s.flushed, s.resetting, true)
  }

  function QueueSend(s: State): State {
    Enqueue(s, [SendPacket], [], 0, s.flushed, s.resetting, true)
  }

  function EnterReset(s: State): State {
    Enqueue(s, [ResetPacket], [], 0, s.flushed, true, true)
  }

  function LeaveReset(s: State): State {
    s.(evFlush := false, resetting := false)
  }

  /** BeginFlush up to its return or its downstream call; a flushed queue may skip the hand-shake. */
  function BeginFlush(c: Config, s: State): State {
    var skip := s.flushed && c.flushOpt;
    s.(flushing := true, hr := if s.hr == Ok then SFalse else s.hr, flusher := Begun,
       sound := BeginsWell(c, s),
       evFlush := skip && s.evFlush,
       sem := if skip then s.sem else s.sem + s.waiting,
       waiting := if skip then s.waiting else 0)
  }

  function EndFlushEnter(c: Config, s: State): State {
    if c.flushOpt && s.flushed then s.(flushing := false, hr := Ok, flusher := NotFlushing)
    else s.(flusher := WaitingForWorker)
  }

  function EndFlushWait(s: State): State {
    s.(evFlush := false, flusher := Passed)
  }

  /** The rest of EndFlush writes its fields one by one, without the lock. */
  function EndFlushClear(s: State): State {
    s.(flushing := false, flusher := Cleared)
  }

  function EndFlushMark(s: State): State {
    s.(flushed := true, flusher := Marked)
  }

  function EndFlushDone(s: State): State {
    s.(hr := Ok, flusher := NotFlushing)
  }

  function Terminate(s: State): State {
    s.(terminate := true, hr := SFalse, sem := s.sem + s.waiting, waiting := 0)
  }

  /** FreeSamples: release every sample, drop every control packet. */
  function FreeSamples(s: State, worker: Worker, ev: bool): State {
    s.(list := [], batch := [], worker := worker, evFlush := ev,
       released := s.released + multiset(Ids(s.list)) + multiset(s.batch))
  }

  /** A flush frees everything and says so before the worker looks at the list. */
  function DrainIfFlushing(s: State): State {
    if s.flushing then FreeSamples(s, s.worker, true) else s
  }

  function TakeBatch(c: Config, s: State): State
    requires WellTagged(s.list)
  {
    match Collect(c, s.list, s.batch)
    case Wait(b) => s.(list := [], batch := b, waiting := s.waiting + 1, worker := Asleep)
    case Go(l, b, k) => s.(list := l, batch := [], worker := Holding(b, k))
  }

  /** The worker's critical section. */
  function WorkerTop(c: Config, s: State): State
    requires WellTagged(s.list)
  {
    if s.terminate then FreeSamples(s, Exited, s.evFlush) else TakeBatch(c, DrainIfFlushing(s))
  }

  function WorkerWake(s: State): State
    requires s.sem > 0
  {
    s.(sem := s.sem - 1, worker := AtTop)
  }

  /** Reads m_hr without the lock and either calls downstream or goes on to release. */
  function WorkerStart(s: State): State
    requires s.worker.Holding?
  {
    var t, k := s.worker.toSend, s.worker.control;
    var call := t != [] && s.hr == Ok;
    s.(worker := if t == [] then Finishing(k) else if call then Delivering(t, k) else Releasing(t, k),
       delivered := s.delivered + if call then SampleEvents(t) else [])
  }

  /** The downstream call returns: do not overwrite a flushing code. */
  function WorkerReturn(s: State, answer: Hr): State
    requires s.worker.Delivering?
  {
    s.(hr := if s.hr == Ok then answer else s.hr,
       worker := Releasing(s.worker.toSend, s.worker.control))
  }

  function WorkerRelease(s: State): State
    requires s.worker.Releasing?
  {
    s.(released := s.released + multiset(s.worker.toSend), worker := Finishing(s.worker.control))
  }

  /** EndOfStream only goes downstream while m_hr is S_OK; NewSegment always does. */
  function FinishEvents(hr: Hr, k: Control): seq<Event> {
    if k == EosControl && hr != Ok then [] else ControlEvents(k)
  }

  function WorkerFinish(s: State): State
    requires s.worker.Finishing?
  {
    var k := s.worker.control;
    s.(worker := AtTop,
       hr := if k == ResetControl then Ok else s.hr,
       evFlush := k == ResetControl || s.evFlush,
       delivered := s.delivered + FinishEvents(s.hr, k))
  }

  datatype Action =
    | ASubmit(n: nat) | AEos | ASegment(segment: Segment) | ASend
    | AEnterReset | ALeaveReset
    | ABeginFlush | AEndFlushEnter | AEndFlushWait | AEndFlushClear | AEndFlushMark | AEndFlushDone
    | ATerminate
    | AWorkerTop | AWorkerWake | AWorkerStart | AWorkerReturn(answer: Hr) | AWorkerRelease | AWorkerFinish

  /** When a step can happen.  Client calls end with the destructor; calls of Reset and flushes do not
      overlap, though a packet of Reset may outlast its call. */
  predicate Enabled(s: State, a: Action) {
    match a
    case ASubmit(_) => !s.terminate
    case AEos => !s.terminate
    case ASegment(_) => !s.terminate
    case ASend => !s.terminate
    case AEnterReset => !s.terminate && s.flusher == NotFlushing && !s.resetting
    case ALeaveReset => !s.terminate && s.resetting && s.evFlush
    case ABeginFlush => !s.terminate && s.flusher == NotFlushing && !s.resetting
    case AEndFlushEnter => !s.terminate && s.flusher == Begun
    case AEndFlushWait => !s.terminate && s.flusher == WaitingForWorker && s.evFlush
    case AEndFlushClear => !s.terminate && s.flusher == Passed
    case AEndFlushMark => !s.terminate && s.flusher == Cleared
    case AEndFlushDone => !s.terminate && s.flusher == Marked
    case ATerminate => !s.terminate
    case AWorkerTop => s.worker == AtTop && WellTagged(s.list)
    case AWorkerWake => s.worker == Asleep && s.sem > 0
    case AWorkerStart => s.worker.Holding?
    case AWorkerReturn(_) => s.worker.Delivering?
    case AWorkerRelease => s.worker.Releasing?
    case AWorkerFinish => s.worker.Finishing?
  }

  function Apply(c: Config, s: State, a: Action): State
    requires Enabled(s, a)
  {
    match a
    case ASubmit(n) => Submit(c, s, n)
    case AEos => QueueEos(s)
    case ASegment(g) => QueueSegment(s, g)
    case ASend => QueueSend(s)
    case AEnterReset => EnterReset(s)
    case ALeaveReset => LeaveReset(s)
    case ABeginFlush => BeginFlush(c, s)
    case AEndFlushEnter => EndFlushEnter(c, s)
    case AEndFlushWait => EndFlushWait(s)
    case AEndFlushClear => EndFlushClear(s)
    case AEndFlushMark => EndFlushMark(s)
    case AEndFlushDone => EndFlushDone(s)
    case ATerminate => Terminate(s)
    case AWorkerTop => WorkerTop(c, s)
    case AWorkerWake => WorkerWake(s)
    case AWorkerStart => WorkerStart(s)
    case AWorkerReturn(h) => WorkerReturn(s, h)
    case AWorkerRelease => WorkerRelease(s)
    case AWorkerFinish => WorkerFinish(s)
  }

  /** The state after a schedule of steps, if every step was possible when it came. */
  datatype Outcome = Stuck | Reached(state: State)

  function Run(c: Config, s: State, steps: seq<Action>): Outcome
    decreases |steps|
  {
    if steps == [] then Reached(s)
    else if !Enabled(s, steps[0]) then Stuck
    else Run(c, Apply(c, s, steps[0]), steps[1..])
  }

  /** A call of Reset or EndFlush has begun and not ended. All other calls are single steps. */
  predicate InCall(s: State) {
    s.resetting || s.flusher.WaitingForWorker? || s.flusher.Passed? || s.flusher.Cleared? || s.flusher.Marked?
  }

  predicate StartsCall(a: Action) {
    a.ASubmit? || a.AEos? || a.ASegment? || a.ASend? || a.AEnterReset? || a.ABeginFlush? || a.AEndFlushEnter? || a.ATerminate?
  }

  /** No call of a client begins while another is going on. */
  predicate CallsApart(c: Config, s: State, steps: seq<Action>)
    decreases |steps|
  {
    steps == [] ||
    (Enabled(s, steps[0]) && (StartsCall(steps[0]) ==> !InCall(s)) && CallsApart(c, Apply(c, s, steps[0]), steps[1..]))
  }
}
