/** CAMSchedule: the advise list as a singly linked list between two sentinels, changed in place, with a
    small cache of unused nodes. */
module AdviseSchedule {
  import opened AdviseDispatch
  import opened AdviseList
  import opened BaseTypes

  class Node {
    var next: Node?
    var cookie: nat
    var time: int
    var period: int
    var notify: int
    var periodic: bool

    constructor ()
      ensures next == null
    {
      next, cookie, time, period, notify, periodic := null, 0, 0, 0, 0, false;
    }

    ghost function Value(): Packet
      reads this`cookie, this`time, this`period, this`notify, this`periodic
    {
      Packet(cookie, time, period, notify, periodic)
    }

    method InsertAfter(p: Node)
      requires p != this
      modifies this`next, p`next
      ensures next == p && p.next == old(next)
    {
      p.next := next;
      next := p;
    }

    method RemoveNext() returns (n: Node)
      requires next != null && next != this
      modifies this`next
      ensures n == old(next) && next == n.next
    {
      n := next;
      next := n.next;
    }
  }

  /** The nodes follow one another, and nothing follows the last. */
  ghost predicate Chained(ns: seq<Node>)
    reads (set n | n in ns)`next
  {
    && (forall i :: 0 <= i < |ns| - 1 ==> ns[i].next == ns[i + 1])
    && (ns != [] ==> ns[|ns| - 1].next == null)
  }

  ghost predicate NoDuplicates(ns: seq<Node>) {
    forall i, j :: 0 <= i < j < |ns| ==> ns[i] != ns[j]
  }

  ghost predicate Apart(ns: seq<Node>, ms: seq<Node>) {
    forall n :: n in ns ==> n !in ms
  }

  /** A chain of two sentinels holds these packets between them. */
  ghost predicate Holds(ns: seq<Node>, ps: seq<Packet>)
    reads (set n | n in ns)`cookie, (set n | n in ns)`time, (set n | n in ns)`period,
          (set n | n in ns)`notify, (set n | n in ns)`periodic
  {
    && |ns| == |ps| + 2
    && ns[|ns| - 1].time == MAX_TIME
    && forall i :: 0 <= i < |ps| ==> ns[i + 1].Value() == ps[i]
  }

  // ------------------------------------------------------- the list operations by position

  lemma {:induction false} InsertBeforeAt(ps: seq<Packet>, p: Packet, k: nat)
    requires k <= |ps| && (forall j :: 0 <= j < k ==> ps[j].time < p.time) && (k < |ps| ==> ps[k].time >= p.time)
    ensures InsertBefore(ps, p) == ps[..k] + [p] + ps[k..]
  {
    if k > 0 {
      InsertBeforeAt(ps[1..], p, k - 1);
      assert ps[..k] == [ps[0]] + ps[1..][..k - 1];
    }
  }

  lemma {:induction false} InsertAfterAt(ps: seq<Packet>, p: Packet, k: nat)
    requires k <= |ps| && (forall j :: 0 <= j < k ==> ps[j].time <= p.time) && (k < |ps| ==> ps[k].time > p.time)
    ensures InsertAfter(ps, p) == ps[..k] + [p] + ps[k..]
  {
    if k > 0 {
      InsertAfterAt(ps[1..], p, k - 1);
      assert ps[..k] == [ps[0]] + ps[1..][..k - 1];
    }
  }

  lemma {:induction false} RemoveCookieAt(ps: seq<Packet>, cookie: nat, k: nat)
    requires k < |ps| && (forall j :: 0 <= j < k ==> ps[j].cookie != cookie) && ps[k].cookie == cookie
    ensures RemoveCookie(ps, cookie) == ps[..k] + ps[k + 1..]
  {
    if k > 0 {
      RemoveCookieAt(ps[1..], cookie, k - 1);
      assert ps[..k] == [ps[0]] + ps[1..][..k - 1];
    }
  }

  lemma {:induction false} RemoveCookieNone(ps: seq<Packet>, cookie: nat)
    requires forall j :: 0 <= j < |ps| ==> ps[j].cookie != cookie
    ensures RemoveCookie(ps, cookie) == ps && !HasCookie(ps, cookie)
  {
    if ps != [] { RemoveCookieNone(ps[1..], cookie); }
  }

  const CACHE_MAX := 5

  class Schedule {
    const head: Node
    const z: Node
    var nextCookie: nat
    var adviseCount: nat
    var cache: Node?
    var cacheCount: nat
    var ev: bool                    // the event that makes the clock look at its wait again

    ghost var chain: seq<Node>      // head, a node for each packet, z
    ghost var packets: seq<Packet>
    ghost var spare: seq<Node>      // the cache

    /** The list proper. */
    ghost predicate Listed()
      reads `chain, `packets, chain
    {
      && |chain| >= 2 && chain[0] == head && chain[|chain| - 1] == z
      && Chained(chain) && NoDuplicates(chain) && Holds(chain, packets)
    }

    /** The cache. */
    ghost predicate Cached()
      reads `spare, `cache, `cacheCount, (set n | n in spare)`next
    {
      && Chained(spare) && NoDuplicates(spare)
      && cache == (if spare == [] then null else spare[0])
      && cacheCount == |spare| <= CACHE_MAX
    }

    ghost predicate Linked()
      reads `chain, `packets, `spare, `cache, `cacheCount, chain, spare
    {
      Listed() && Cached() && Apart(chain, spare)
    }

    ghost predicate Valid()
      reads this, chain, spare
    {
      Linked() && adviseCount == |packets|
    }

    ghost function Nodes(): set<Node>
      reads `chain, `spare
    {
      set n | n in chain + spare
    }

    constructor ()
      ensures Valid() && packets == [] && !ev && nextCookie == 0
      ensures fresh(Nodes())
    {
      head := new Node();
      z := new Node();
      nextCookie, adviseCount, cache, cacheCount, ev := 0, 0, null, 0, false;
      new;
      head.next := z;
      z.time := MAX_TIME;
      chain, packets, spare := [head, z], [], [];
    }

    /** A node from the cache, or a new one. */
    method TakeNode() returns (p: Node)
      requires Valid()
      modifies this`cache, this`cacheCount, this`spare
      ensures Valid() && p !in chain && p !in spare
      ensures Nodes() == old(Nodes()) - {p}
      ensures if old(spare) == [] then fresh(p) else p == old(spare)[0]
      ensures spare == if old(spare) == [] then [] else old(spare)[1..]
    {
      if cache != null {
        p := cache;
        cache := p.next;
        cacheCount := cacheCount - 1;
        spare := spare[1..];
      } else {
        p := new Node();
      }
    }

    /** Keep an unused node if there is room for it. */
    method Delete(p: Node)
      requires Linked() && p !in chain && p !in spare
      modifies this`cache, this`cacheCount, this`spare, p`next
      ensures Linked()
      ensures spare == if old(cacheCount) >= CACHE_MAX then old(spare) else [p] + old(spare)
      ensures Nodes() <= old(Nodes()) + {p}
    {
      if cacheCount < CACHE_MAX {
        p.next := cache;
        cache := p;
        cacheCount := cacheCount + 1;
        spare := [p] + spare;
      }
    }

    /** The same, for one of the nodes there were. */
    method PutBy(p: Node, ghost all: set<Node>)
      requires Valid() && p !in chain && p !in spare && Nodes() <= all && p in all
      modifies this`cache, this`cacheCount, this`spare, p`next
      ensures Valid() && Nodes() <= all
    {
      Delete(p);
    }

    /** The node behind which a packet belongs. */
    method PlaceBefore(p: Node) returns (prev: Node, ghost k: nat)
      requires Linked() && p.time < MAX_TIME
      ensures k <= |packets| && prev == chain[k] && (prev == head <==> k == 0)
      ensures InsertBefore(packets, p.Value()) == packets[..k] + [p.Value()] + packets[k..]
      ensures k == 0 <==> p.time <= NextTime(packets)
    {
      prev, k := head, 0;
      while true
        invariant 0 <= k <= |packets| && prev == chain[k]
        invariant forall j :: 0 <= j < k ==> packets[j].time < p.time
        decreases |chain| - k
      {
        assert chain[k].next == chain[k + 1];
        assert k < |packets| ==> chain[k + 1].Value() == packets[k];
        var n := prev.next;
        if n.time >= p.time { break; }
        prev, k := n, k + 1;
      }
      InsertBeforeAt(packets, p.Value(), k);
    }

    /** The private AddAdvisePacket. */
    method Link(p: Node) returns (result: nat)
      requires Valid() && p !in chain && p !in spare && p.time < MAX_TIME
      modifies this`nextCookie, this`adviseCount, this`ev, this`chain, this`packets
      modifies p`cookie, p`next, (set n | n in chain)`next
      ensures Valid() && Nodes() == old(Nodes()) + {p}
      ensures result == nextCookie == old(nextCookie) + 1
      ensures packets == InsertBefore(old(packets), Packet(result, p.time, p.period, p.notify, p.periodic))
      ensures ev == (old(ev) || p.time <= NextTime(old(packets)))
    {
      nextCookie := nextCookie + 1;
      p.cookie := nextCookie;
      result := nextCookie;
      Place(p);
      adviseCount := adviseCount + 1;
    }

    /** Put a packet in its place and wake the clock if that is the first. */
    method Place(p: Node)
      requires Linked() && p !in chain && p !in spare && p.time < MAX_TIME
      modifies this`ev, this`chain, this`packets, p`next, (set n | n in chain)`next
      ensures Linked() && Nodes() == old(Nodes()) + {p}
      ensures packets == InsertBefore(old(packets), p.Value()) && |packets| == |old(packets)| + 1
      ensures ev == (old(ev) || p.time <= NextTime(old(packets)))
    {
      var prev, k := PlaceBefore(p);
      Attach(prev, p, k);
      if prev == head { ev := true; }
    }

    method Attach(prev: Node, p: Node, ghost k: nat)
      requires Linked() && p !in chain && p !in spare && k < |chain| - 1 && prev == chain[k]
      modifies this`chain, this`packets, p`next, prev`next
      ensures Linked() && chain == old(chain[..k + 1] + [p] + chain[k + 1..])
      ensures packets == old(packets[..k] + [p.Value()] + packets[k..])
      ensures Nodes() == old(Nodes()) + {p}
    {
      assert chain[k].next == chain[k + 1];
      ghost var was := chain;
      prev.InsertAfter(p);
      assert Cached();
      chain := was[..k + 1] + [p] + was[k + 1..];
      packets := packets[..k] + [p.Value()] + packets[k..];
      Spliced(was, p, k);
      SplicedHolds(was, old(packets), p, k);
      assert Listed() && Apart(chain, spare);
    }

    /** A node filled in for a new request. */
    method NewPacket(time1: int, time2: int, h: int, periodic: bool) returns (p: Node)
      requires Valid()
      modifies this`cache, this`cacheCount, this`spare
      modifies (set n | n in spare)`time, (set n | n in spare)`period, (set n | n in spare)`notify,
               (set n | n in spare)`periodic
      ensures Valid() && p !in chain && p !in spare
      ensures p.time == time1 && p.period == time2 && p.notify == h && p.periodic == periodic
      ensures (fresh(p) || p in old(Nodes())) && Nodes() <= old(Nodes())
    {
      p := TakeNode();
      p.time, p.period, p.notify, p.periodic := time1, time2, h, periodic;
    }

    /** AddAdvisePacket: put a new request on the list and answer with its cookie. */
    method AddAdvisePacket(time1: int, time2: int, h: int, periodic: bool) returns (result: nat)
      requires Valid() && time1 < MAX_TIME
      modifies this, chain, spare
      ensures Valid() && fresh(Nodes() - old(Nodes()))
      ensures result == nextCookie == old(nextCookie) + 1
      ensures packets == InsertBefore(old(packets), Packet(result, time1, time2, h, periodic))
      ensures ev == (old(ev) || time1 <= NextTime(old(packets)))
    {
      var p := NewPacket(time1, time2, h, periodic);
      result := Link(p);
    }

    /** Take the node behind position k out of the list. */
    method Detach(prev: Node, ghost k: nat) returns (p: Node)
      requires Linked() && k < |packets| && prev == chain[k]
      modifies this`chain, this`packets, prev`next
      ensures Linked() && p == old(chain[k + 1]) && p !in chain && p !in spare
      ensures chain == old(chain[..k + 1] + chain[k + 2..])
      ensures packets == old(packets[..k] + packets[k + 1..])
      ensures Nodes() == old(Nodes()) - {p} && p in old(Nodes())
    {
      ghost var was := chain;
      assert chain[k].next == chain[k + 1] && chain[k + 1].next == chain[k + 2];
      p := prev.RemoveNext();
      assert Cached();
      chain := was[..k + 1] + was[k + 2..];
      packets := packets[..k] + packets[k + 1..];
      Cut(was, k);
    }

    /** Next: the node behind this one, unless that is the closing sentinel. */
    method NextOf(prev: Node, ghost k: nat) returns (n: Node?)
      requires Linked() && k <= |packets| && prev == chain[k]
      ensures n == if k < |packets| then chain[k + 1] else null
      ensures n != null ==> n.Value() == packets[k]
    {
      assert chain[k].next == chain[k + 1];
      assert k < |packets| ==> chain[k + 1].next == chain[k + 2];
      n := prev.next;
      if n.next == null { n := null; }
    }

    /** The node behind the one to cancel, and that one if there is any. */
    method Find(cookie: nat) returns (prev: Node, n: Node?, ghost k: nat)
      requires Linked()
      ensures k <= |packets| && prev == chain[k] && n == if k < |packets| then chain[k + 1] else null
      ensures HasCookie(packets, cookie) <==> k < |packets|
      ensures RemoveCookie(packets, cookie) == if k < |packets| then packets[..k] + packets[k + 1..] else packets
    {
      prev, k := head, 0;
      while true
        invariant 0 <= k <= |packets| && prev == chain[k]
        invariant forall j :: 0 <= j < k ==> packets[j].cookie != cookie
        decreases |packets| - k
      {
        n := NextOf(prev, k);
        if n == null || n.cookie == cookie { break; }
        prev, k := n, k + 1;
      }
      if n == null { RemoveCookieNone(packets, cookie); } else { RemoveCookieAt(packets, cookie, k); }
    }

    /** Unadvise: cancel the request with this cookie, if there is one. */
    method Unadvise(cookie: nat) returns (found: bool)
      requires Valid()
      modifies this`chain, this`packets, this`spare, this`cache, this`cacheCount, this`adviseCount
      modifies (set n | n in chain)`next
      ensures Valid() && Nodes() <= old(Nodes())
      ensures found == HasCookie(old(packets), cookie)
      ensures packets == RemoveCookie(old(packets), cookie)
    {
      var prev, n, k := Find(cookie);
      if n == null { return false; }
      Discard(prev, n, k);
      return true;
    }

    /** Take a node out of the list and put it by. */
    method Discard(prev: Node, p: Node, ghost k: nat)
      requires Valid() && k < |packets| && prev == chain[k] && p == chain[k + 1]
      modifies this`chain, this`packets, this`spare, this`cache, this`cacheCount, this`adviseCount
      modifies prev`next, p`next
      ensures Valid() && Nodes() <= old(Nodes())
      ensures packets == old(packets[..k] + packets[k + 1..])
    {
      ghost var all := Nodes();
      var n := Detach(prev, k);
      adviseCount := adviseCount - 1;
      PutBy(n, all);
    }

    /** The node behind which the first packet belongs once its time has been put off. */
    method PlaceAfter(packet: Node) returns (prev: Node, ghost k: nat)
      requires Linked() && packets != [] && packet == chain[1] && packet.time < MAX_TIME
      ensures 0 < k <= |packets| && prev == chain[k] && (prev == packet <==> k == 1)
      ensures InsertAfter(packets[1..], packets[0]) == packets[1..][..k - 1] + [packets[0]] + packets[1..][k - 1..]
      ensures k == 1 ==> packets == InsertAfter(packets[1..], packets[0])
    {
      prev, k := head, 0;
      while true
        invariant 0 <= k <= |packets| && prev == chain[k]
        invariant forall j :: 0 <= j < k ==> packets[j].time <= packet.time
        decreases |chain| - k
      {
        assert chain[k].next == chain[k + 1];
        assert k < |packets| ==> chain[k + 1].Value() == packets[k];
        var n := prev.next;
        if n.time > packet.time { break; }
        prev, k := n, k + 1;
      }
      InsertAfterAt(packets[1..], packets[0], k - 1);
      assert packets == [packets[0]] + packets[1..];
      assert packets[1..][..0] == [] && packets[1..][0..] == packets[1..];
    }

    /** ShuntHead: move the first packet to where its new time belongs. */
    method ShuntHead()
      requires Linked() && packets != [] && packets[0].time < MAX_TIME
      modifies this`chain, this`packets, (set n | n in chain)`next
      ensures Linked() && Nodes() == old(Nodes())
      ensures packets == InsertAfter(old(packets[1..]), old(packets[0]))
    {
      var packet := head.next;
      assert chain[0].next == chain[1] && chain[1].Value() == packets[0];
      var prev, k := PlaceAfter(packet);
      assert head in chain && packet in chain && prev in chain;
      if prev != packet { Move(prev, packet, k); }
    }

    method Move(prev: Node, packet: Node, ghost k: nat)
      requires Linked() && 1 < k <= |packets| && prev == chain[k] && packet == chain[1]
      requires InsertAfter(packets[1..], packets[0]) == packets[1..][..k - 1] + [packets[0]] + packets[1..][k - 1..]
      modifies this`chain, this`packets, head`next, packet`next, prev`next
      ensures Linked() && Nodes() == old(Nodes())
      ensures packets == InsertAfter(old(packets[1..]), old(packets[0]))
    {
      assert chain[1].Value() == packets[0];
      ghost var was := packets;
      var _ := Detach(head, 0);
      assert packets == was[1..];
      Attach(prev, packet, k - 1);
    }

    /** Put the first packet off by its period, in 64 bits. */
    method Postpone(packet: Node)
      requires Linked() && packets != [] && packet == chain[1] && WrappedSum(packet.time, packet.period) < MAX_TIME
      modifies this`chain, this`packets, (set n | n in chain)`next, packet`time
      ensures Linked() && Nodes() == old(Nodes())
      ensures packets == InsertAfter(old(packets[1..]), PutOff(old(packets[0])))
    {
      assert chain[1].Value() == packets[0];
      ghost var was := packets;
      packet.time := WrappedSum(packet.time, packet.period);
      packets := [packet.Value()] + was[1..];
      assert Linked() by { assert forall i :: 0 <= i < |packets| ==> chain[i + 1].Value() == packets[i]; }
      ShuntHead();
    }

    /** The node behind the opening sentinel. */
    method First() returns (advise: Node)
      requires Linked()
      ensures advise == chain[1] && advise.time == NextTime(packets)
      ensures if packets == [] then advise.next == null else advise.next != null && advise.Value() == packets[0]
    {
      assert chain[0].next == chain[1];
      assert packets != [] ==> chain[1].next == chain[2];
      advise := head.next;
    }

    /** One turn of the dispatch loop: put the first packet off or drop it. */
    method DispatchFirst(advise: Node)
      requires Valid() && packets != [] && advise == chain[1] && advise.Value() == packets[0]
      requires packets[0].periodic ==> PutOff(packets[0]).time < MAX_TIME
      modifies this`chain, this`packets, this`spare, this`cache, this`cacheCount, this`adviseCount
      modifies (set n | n in chain)`next, advise`time
      ensures Valid() && Nodes() <= old(Nodes()) && packets == Shunted(old(packets))
    {
      if advise.periodic {
        ShuntedLength(packets);
        Postpone(advise);
      } else {
        Discard(head, advise, 0);
      }
    }

    /** Advise: signal everything due by time t and answer when the next request is due.  The precondition is that
        the loop comes to its end, as CompletesIff has it. */
    method Advise(t: int) returns (next: int, fired: seq<Firing>)
      requires Valid() && InRange(packets) && Completes(packets, t)
      modifies this`chain, this`packets, this`spare, this`cache, this`cacheCount, this`adviseCount, Nodes()
      ensures Valid() && Nodes() <= old(Nodes())
      ensures Dispatches(old(packets), t, fired, packets) && next == NextTime(packets)
      ensures AllAsked(old(packets), fired)
      ensures Advancing(old(packets)) && FitsUntil(old(packets), t) ==>
                Dispatch(fired, packets) == AdviseList.Advise(old(packets), t)
    {
      ghost var all, rest :| Dispatches(packets, t, all, rest);
      fired := [];
      while true
        invariant Valid() && Nodes() <= old(Nodes()) && InRange(packets)
        invariant |fired| <= |all| && fired == all[..|fired|] && Dispatches(packets, t, all[|fired|..], rest)
        decreases |all| - |fired|
      {
        var advise := First();
        next := advise.time;
        assert forall n :: n in chain ==> n in Nodes();
        if t < next || advise.next == null { break; }
        var signal := if advise.periodic then Released else Set;
        TurnTaken(packets, t, all, |fired| + 1, rest);
        fired := fired + [Firing(advise.cookie, advise.time, advise.notify, signal)];
        DispatchFirst(advise);
      }
      assert all[..|all|] == all;
      AsTheExact(old(packets), t, fired, packets);
    }
  }

  lemma ShuntedLength(ps: seq<Packet>)
    requires ps != []
    ensures |Shunted(ps)| == if ps[0].periodic then |ps| else |ps| - 1
  {
    RefileMembers(ps, PutOff(ps[0]));
    assert |multiset(Shunted(ps))| == |Shunted(ps)|;
  }

  /** One turn of a dispatch that signals all; n turns have then been taken. */
  lemma TurnTaken(ps: seq<Packet>, t: int, all: seq<Firing>, n: nat, rest: seq<Packet>)
    requires 0 < n <= |all| + 1 && InRange(ps) && Due(ps, t) && Dispatches(ps, t, all[n - 1..], rest)
    ensures n <= |all| && all[..n] == all[..n - 1] + [Fired(ps[0])]
    ensures Dispatches(Shunted(ps), t, all[n..], rest) && InRange(Shunted(ps))
    ensures ps[0].periodic ==> PutOff(ps[0]).time < MAX_TIME
  {
    ShuntedKeeps(ps);
    assert all[n - 1..][0] == all[n - 1] && all[n - 1..][1..] == all[n..];
    assert ps[0] in ps;
  }

  lemma AsTheExact(ps: seq<Packet>, t: int, fired: seq<Firing>, rest: seq<Packet>)
    requires InRange(ps) && Dispatches(ps, t, fired, rest)
    ensures AllAsked(ps, fired)
    ensures Advancing(ps) && (FitsUntil(ps, t) ==> Dispatch(fired, rest) == Advise(ps, t))
  {
    SignalsReachTheirHandles(ps, t, fired, rest);
    if FitsUntil(ps, t) {
      FitsCompletes(ps, t);
      DispatchesUnique(ps, t, fired, rest, Advise(ps, t).fired, Advise(ps, t).rest);
    }
  }

  lemma Cut(was: seq<Node>, k: nat)
    requires k + 2 < |was| && NoDuplicates(was)
    requires forall i :: 0 <= i < |was| - 1 && i != k ==> was[i].next == was[i + 1]
    requires was[|was| - 1].next == null && was[k].next == was[k + 2]
    ensures var ns := was[..k + 1] + was[k + 2..];
            Chained(ns) && NoDuplicates(ns) && was[k + 1] !in ns
  {
    var ns := was[..k + 1] + was[k + 2..];
    forall i | 0 <= i < |ns| - 1 ensures ns[i].next == ns[i + 1] {
      if i > k { assert ns[i] == was[i + 1] && ns[i + 1] == was[i + 1 + 1]; }
    }
  }

  lemma SplicedHolds(was: seq<Node>, ps: seq<Packet>, p: Node, k: nat)
    requires Holds(was, ps) && k + 1 < |was|
    ensures Holds(was[..k + 1] + [p] + was[k + 1..], ps[..k] + [p.Value()] + ps[k..])
  {
    var ns, qs := was[..k + 1] + [p] + was[k + 1..], ps[..k] + [p.Value()] + ps[k..];
    forall i | 0 <= i < |qs| ensures ns[i + 1].Value() == qs[i] {
      if i > k { assert ns[i + 1] == was[i - 1 + 1]; }
    }
  }

  /** Linking p in behind position k of a chain. */
  lemma Spliced(was: seq<Node>, p: Node, k: nat)
    requires k + 1 < |was| && p !in was && NoDuplicates(was)
    requires forall i :: 0 <= i < |was| - 1 && i != k ==> was[i].next == was[i + 1]
    requires was[|was| - 1].next == null && was[k].next == p && p.next == was[k + 1]
    ensures var ns := was[..k + 1] + [p] + was[k + 1..];
            Chained(ns) && NoDuplicates(ns)
  {
    var ns := was[..k + 1] + [p] + was[k + 1..];
    forall i | 0 <= i < |ns| - 1 ensures ns[i].next == ns[i + 1] {
      if i > k + 1 { assert ns[i] == was[i - 1] && ns[i + 1] == was[i - 1 + 1]; }
    }
  }
}
