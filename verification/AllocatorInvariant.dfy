/** What every run of the allocator keeps, and what follows for threads waiting for a buffer. */
module AllocatorInvariant {
  import opened AllocatorModel
  import opened MemoryLayout

  // ----------------------------------------------------------------------------------- the invariant

  predicate NoRepeats(s: seq<Sample>) {
    forall i, j :: 0 <= i < j < |s| ==> s[i] != s[j]
  }

  /** Every sample is either free or out. */
  predicate Samples(a: Allocator) {
    && NoRepeats(a.free) && (forall i :: 0 <= i < |a.free| ==> a.free[i] !in a.out)
    && |a.free| + |a.out| == a.total
  }

  /** Samples are out only while committed or while a decommit is pending, and the latter only so long. */
  predicate Phases(a: Allocator) {
    && !(a.committed && a.decommitting)
    && (a.decommitting ==> |a.free| < a.total)
    && (!a.committed && !a.decommitting ==> |a.free| == a.total)
    && (!a.changed ==> a.total == a.props.count && a.laid == a.props)
    && (a.committed || a.decommitting ==> !a.changed && Settled(a.props))
  }

  /** The lazy signalling rules. */
  predicate Signalling(a: Allocator) {
    && (a.free != [] ==> a.waiting == 0)
    && (!a.committed ==> a.waiting == 0)
    && a.waiting + a.sem == |a.waiters| + a.timeouts
  }

  predicate References(a: Allocator) {
    var active := if a.committed || a.decommitting then 1 else 0;
    a.refs == a.owed + active && a.allocs == a.frees + active
  }

  predicate Inv(a: Allocator) {
    Samples(a) && Phases(a) && Signalling(a) && References(a)
  }

  lemma GetBufferKeeps(a: Allocator, who: Thread, nowait: bool)
    requires Inv(a) && who !in a.waiters
    ensures Inv(GetBufferStep(a, who, nowait))
  {
    var b := GetBufferStep(a, who, nowait);
    if GetBufferAnswer(a, nowait).Got? {
      assert forall i :: 0 <= i < |b.free| ==> b.free[i] == a.free[i + 1];
      assert |a.out + {a.free[0]}| == |a.out| + 1;
    }
  }

  lemma ReleaseKeeps(a: Allocator, s: Sample)
    requires Inv(a) && s in a.out
    ensures Inv(ReleaseBufferStep(a, s))
  {
    var b := ReleaseBufferStep(a, s);
    assert forall i :: 0 < i < |b.free| ==> b.free[i] == a.free[i - 1];
    assert |a.out - {s}| == |a.out| - 1;
  }

  lemma StepInv(a: Allocator, act: Action)
    requires Inv(a) && Enabled(a, act)
    ensures Inv(Apply(a, act))
  {
    match act
    case SetProperties(props) =>
    case GetBuffer(who, nowait) => GetBufferKeeps(a, who, nowait);
    case WakeUp(who) => assert |a.waiters - {who}| == |a.waiters| - 1;
    case ReleaseBuffer(s) => ReleaseKeeps(a, s);
    case Commit(ok, made) => NothingOut(a);
    case Decommit =>
    case DropReference =>
  }

  lemma NothingOut(a: Allocator)
    requires Inv(a)
    ensures !a.committed && !a.decommitting ==> a.out == {}
  {
  }

  lemma {:induction false} RunInv(a: Allocator, run: seq<Action>)
    requires Inv(a) && RunOk(a, run)
    ensures Inv(Run(a, run))
    decreases |run|
  {
    if run != [] {
      StepInv(a, run[0]);
      RunInv(Apply(a, run[0]), run[1..]);
    }
  }

  ghost predicate Reachable(a: Allocator) {
    exists run :: RunOk(FRESH, run) && a == Run(FRESH, run)
  }

  lemma ReachableInv(a: Allocator)
    requires Reachable(a)
    ensures Inv(a)
  {
    var run :| RunOk(FRESH, run) && a == Run(FRESH, run);
    RunInv(FRESH, run);
  }

  // ------------------------------------------------------------------------------------ the theorems

  /** The documented deadlock cannot happen: while a buffer is free, or once no buffer will be given out any
      more, every waiting thread can be let through, and then gets a buffer or a refusal. */
  lemma NobodyWaitsInVain(a: Allocator, who: Thread)
    requires Reachable(a) && who in a.waiters && (a.free != [] || !a.committed)
    ensures a.sem >= |a.waiters| > 0 && Enabled(a, WakeUp(who))
    ensures var b := WakeUpStep(a, who);
            && (forall nowait :: GetBufferAnswer(b, nowait).Got? || GetBufferAnswer(b, nowait).NotCommitted?)
            && (forall other :: other in b.waiters ==> Enabled(b, WakeUp(other)))
  {
    ReachableInv(a);
    assert |a.waiters - {who}| == |a.waiters| - 1;
    var b := WakeUpStep(a, who);
    forall other | other in b.waiters ensures b.sem > 0 {
      assert |b.waiters| > 0;
    }
  }

  /** If some thread cannot be let through, there is a buffer out, and whoever brings one back lets them all
      through. */
  lemma BlockedThreadsHaveAHolder(a: Allocator, who: Thread)
    requires Reachable(a) && who in a.waiters && a.sem < |a.waiters|
    ensures a.committed && a.free == [] && a.out != {}
    ensures forall s :: s in a.out ==> ReleaseBufferStep(a, s).sem >= |ReleaseBufferStep(a, s).waiters|
  {
    ReachableInv(a);
  }

  /** The counts the header states as equal are equal exactly as long as no GetBuffer call has declined to wait. */
  lemma CountsAgreeIff(a: Allocator)
    requires Reachable(a)
    ensures a.waiting + a.sem == |a.waiters| <==> a.timeouts == 0
    ensures a.waiting + a.sem >= |a.waiters|
  {
    ReachableInv(a);
  }

  /** One such call is enough, and nothing afterwards makes up for it. */
  lemma {:induction false} TimeoutsRemain(a: Allocator, run: seq<Action>)
    requires RunOk(a, run)
    ensures a.timeouts <= Run(a, run).timeouts
    ensures (forall i :: 0 <= i < |run| ==> !run[i].GetBuffer? || !run[i].nowait) ==> Run(a, run).timeouts == a.timeouts
    decreases |run|
  {
    if run != [] { TimeoutsRemain(Apply(a, run[0]), run[1..]); }
  }

  /** One such call upsets the counts whenever the buffers are all out ... */
  lemma DecliningUpsetsTheCounts(a: Allocator, who: Thread)
    requires Reachable(a) && a.committed && a.free == [] && who !in a.waiters
    ensures var b := Apply(a, GetBuffer(who, true));
            Reachable(b) && b.waiting + b.sem > |b.waiters|
  {
    Extend(a, GetBuffer(who, true));
    ReachableInv(a);
  }

  /** ... which they can be: with one buffer, of any size that fits, set up and taken. */
  lemma BuffersCanAllBeOut(p: Props)
    requires Settled(p) && Fits(p) && p.count == 1
    ensures exists a :: Reachable(a) && a.committed && a.free == [] && a.waiters == {}
  {
    assert Reachable(FRESH) by { assert Run(FRESH, []) == FRESH; }
    Extend(FRESH, SetProperties(p));
    var a := SetPropertiesStep(FRESH, p);
    Extend(a, Commit(true, 0));
    var b := CommitStep(a, true, 0);
    assert |b.free| == 1 && b.committed;
    Extend(b, GetBuffer(1, false));
    var c := GetBufferStep(b, 1, false);
    assert c.free == [];
  }

  lemma Extend(a: Allocator, act: Action)
    requires Reachable(a) && Enabled(a, act)
    ensures Reachable(Apply(a, act))
  {
    var run :| RunOk(FRESH, run) && a == Run(FRESH, run);
    RunAppend(FRESH, run, act);
  }

  lemma {:induction false} RunAppend(a: Allocator, run: seq<Action>, act: Action)
    requires RunOk(a, run) && Enabled(Run(a, run), act)
    ensures RunOk(a, run + [act]) && Run(a, run + [act]) == Apply(Run(a, run), act)
    decreases |run|
  {
    if run == [] {
      assert [] + [act] == [act] && [act][1..] == [];
    } else {
      RunAppend(Apply(a, run[0]), run[1..], act);
      assert (run + [act])[1..] == run[1..] + [act];
    }
  }

  /** Every sample is free or out, never both, and GetBuffer never gives out one that is out. */
  lemma SamplesAreConserved(a: Allocator, nowait: bool)
    requires Reachable(a)
    ensures Samples(a)
    ensures GetBufferAnswer(a, nowait).Got? ==>
              GetBufferAnswer(a, nowait).sample !in a.out && GetBufferAnswer(a, nowait).sample !in a.free[1..]
  {
    ReachableInv(a);
  }

  /** The allocator refers to itself once while it is committed or a decommit is pending, and once for each
      release still owed; every time the memory is taken into use it is given up once, at the latest now. */
  lemma ReferencesBalance(a: Allocator)
    requires Reachable(a)
    ensures a.refs == a.owed + (if a.committed || a.decommitting then 1 else 0)
    ensures a.allocs == a.frees + (if a.committed || a.decommitting then 1 else 0)
  {
    ReachableInv(a);
  }

  /** The memory is given up at most once at a time, with no buffer out and none to be had. */
  lemma FreedWhenIdle(a: Allocator, act: Action)
    requires Reachable(a) && Enabled(a, act) && Apply(a, act).frees != a.frees
    ensures Apply(a, act).frees == a.frees + 1 && (a.committed || a.decommitting)
    ensures var b := Apply(a, act);
            !b.committed && !b.decommitting && b.out == {} && b.owed == a.owed + 1
  {
    ReachableInv(a);
    StepInv(a, act);
  }

  /** The memory is not touched while buffers are out. */
  lemma BuffersOutAreSafe(a: Allocator, act: Action, s: Sample)
    requires Reachable(a) && Enabled(a, act) && s in a.out && act != ReleaseBuffer(s)
    ensures var b := Apply(a, act);
            s in b.out && b.total == a.total && b.props == a.props && b.allocs - b.frees == a.allocs - a.frees
  {
    ReachableInv(a);
    StepInv(a, act);
  }

  /** Decommitting with buffers out and committing again leaves everything as it was, except that waiting
      threads have been let through to look again. */
  lemma CommitCancelsDecommit(a: Allocator, ok: bool, made: nat)
    requires Reachable(a) && a.committed && a.out != {} && made <= a.props.count
    ensures RunOk(a, [Decommit, Commit(ok, made)])
    ensures Run(a, [Decommit, Commit(ok, made)]) == a.(sem := a.sem + a.waiting, waiting := 0)
  {
    ReachableInv(a);
    var b := DecommitStep(a);
    assert b.decommitting;
    RunOne(b, Commit(ok, made));
    assert [Decommit, Commit(ok, made)][1..] == [Commit(ok, made)];
  }

  lemma RunOne(a: Allocator, act: Action)
    requires Enabled(a, act)
    ensures RunOk(a, [act]) && Run(a, [act]) == Apply(a, act)
  {
    assert [act][1..] == [];
  }

  function Releases(order: seq<Sample>): seq<Action> {
    if order == [] then [] else [ReleaseBuffer(order[0])] + Releases(order[1..])
  }

  ghost predicate Lists(order: seq<Sample>, out: set<Sample>) {
    NoRepeats(order) && forall s :: s in order <==> s in out
  }

  lemma ListsTail(order: seq<Sample>, out: set<Sample>)
    requires order != [] && Lists(order, out)
    ensures Lists(order[1..], out - {order[0]})
  {
    var rest := order[1..];
    assert forall i :: 0 <= i < |rest| ==> rest[i] == order[i + 1];
    forall s ensures s in rest <==> s in out - {order[0]} {
      if s in out && s != order[0] {
        assert s in order;
        var i :| 0 <= i < |order| && order[i] == s;
        assert rest[i - 1] == s;
      }
      if s in rest { assert s in order; }
    }
  }

  /** A pending decommit completes, once, as soon as the last buffer comes back, whatever their order. */
  lemma {:induction false} DecommitCompletes(a: Allocator, order: seq<Sample>)
    requires Inv(a) && a.decommitting && Lists(order, a.out)
    ensures RunOk(a, Releases(order))
    ensures var b := Run(a, Releases(order));
            && !b.committed && !b.decommitting && b.out == {} && |b.free| == b.total == a.total
            && b.frees == a.frees + 1 && b.owed == a.owed + 1 && b.refs == a.refs
    decreases |order|
  {
    assert |a.out| > 0;
    var some :| some in a.out;
    assert some in order;
    if order != [] {
      var s, rest := order[0], order[1..];
      var b := ReleaseBufferStep(a, s);
      assert s in order;
      ReleaseKeeps(a, s);
      ListsTail(order, a.out);
      assert Releases(order)[1..] == Releases(rest);
      if rest == [] {
        assert a.out == {s};
        assert b.out == {};
      } else {
        assert rest[0] in b.out && |b.out| > 0;
        DecommitCompletes(b, rest);
      }
    }
  }

  /** While it is committed, or a decommit is pending, there are as many samples as asked for, laid out by the
      figures last accepted. */
  lemma SamplesAreAsAsked(a: Allocator)
    requires Reachable(a) && (a.committed || a.decommitting)
    ensures Settled(a.props) && a.laid == a.props && a.total == a.props.count
  {
    ReachableInv(a);
  }

  /** What SetProperties accepts is what the next successful Commit puts in force, whatever was in force before. */
  lemma NextCommitObeys(a: Allocator, p: Props, ok: bool, made: nat)
    requires Reachable(a) && RunOk(a, [SetProperties(p), Commit(ok, made)])
    requires !a.committed && !a.decommitting
    ensures var b := Run(a, [SetProperties(p), Commit(ok, made)]);
            && b.props == p && (b.committed <==> Settled(p) && ok && Fits(p))
            && (b.committed ==> b.laid == p && b.total == |b.free| == p.count && b.out == {})
  {
    ReachableInv(a);
    var acts := [SetProperties(p), Commit(ok, made)];
    assert acts[1..] == [Commit(ok, made)];
    var b := Apply(a, SetProperties(p));
    RunOne(b, Commit(ok, made));
    StepInv(a, SetProperties(p));
    StepInv(b, Commit(ok, made));
    assert Run(a, acts) == Apply(b, Commit(ok, made));
  }

  /** SetProperties leaves everything alone while committed or with buffers out, and changes only the figures
      otherwise. */
  lemma FiguresChangeOnlyAtRest(a: Allocator, act: Action)
    requires Reachable(a) && Enabled(a, act) && Apply(a, act).props != a.props
    ensures act.SetProperties? && Apply(a, act).props == act.props
    ensures !a.committed && !a.decommitting && a.out == {}
    ensures Apply(a, act).free == a.free && Apply(a, act).laid == a.laid && Apply(a, act).total == a.total
  {
    ReachableInv(a);
    NothingOut(a);
  }

  /** Decommitting with every buffer back and committing again needs no memory: the samples are kept, whatever an
      allocation would come to. */
  lemma CommitAgainKeepsSamples(a: Allocator, ok: bool, made: nat)
    requires Reachable(a) && a.committed && a.out == {} && made <= a.props.count
    ensures RunOk(a, [Decommit, Commit(ok, made)])
    ensures var b := Run(a, [Decommit, Commit(ok, made)]);
            b == a.(sem := a.sem + a.waiting, waiting := 0, owed := a.owed + 1, refs := a.refs + 1,
                    frees := a.frees + 1, allocs := a.allocs + 1)
  {
    ReachableInv(a);
    var b := DecommitStep(a);
    assert !b.decommitting && !b.committed;
    RunOne(b, Commit(ok, made));
    assert [Decommit, Commit(ok, made)][1..] == [Commit(ok, made)];
  }

  /** The buffer that came back last is the next one given out; everybody who waited may look again. */
  lemma LastBackIsNextOut(a: Allocator, s: Sample, nowait: bool)
    requires Reachable(a) && a.committed && s in a.out
    ensures var b := Apply(a, ReleaseBuffer(s)); GetBufferAnswer(b, nowait) == Got(s) && b.waiting == 0
  {
  }

  /** An allocation that runs out of memory has given up the old samples, keeps those it made, and leaves the next
      Commit to try again. */
  lemma FailedCommitTriesAgain(a: Allocator, made: nat)
    requires Reachable(a) && !a.committed && !a.decommitting && a.changed && Settled(a.props) && Fits(a.props)
    requires made <= a.props.count
    ensures RunOk(a, [Commit(false, made), Commit(true, 0)])
    ensures var b := Apply(a, Commit(false, made)); !b.committed && b.total == |b.free| == made && b.refs == a.refs
    ensures var b := Run(a, [Commit(false, made), Commit(true, 0)]); b.committed && b.total == a.props.count && b.laid == a.props
  {
    ReachableInv(a);
    var b := Apply(a, Commit(false, made));
    RunOne(b, Commit(true, 0));
    assert [Commit(false, made), Commit(true, 0)][1..] == [Commit(true, 0)];
  }
}
