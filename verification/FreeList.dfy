/** The allocator's free list: samples linked through a field of their own. */
module FreeList {

  class MediaSample {
    const id: nat
    const pointer: int      // where the data goes
    const size: int
    var next: MediaSample?

    constructor (id: nat, pointer: int, size: int)
      ensures this.id == id && this.pointer == pointer && this.size == size
    {
      this.id, this.pointer, this.size := id, pointer, size;
      next := null;
    }
  }

  ghost predicate Chained(ns: seq<MediaSample>)
    reads (set n | n in ns)`next
  {
    && (forall i :: 0 <= i < |ns| - 1 ==> ns[i].next == ns[i + 1])
    && (ns != [] ==> ns[|ns| - 1].next == null)
  }

  ghost predicate NoDuplicates(ns: seq<MediaSample>) {
    forall i, j :: 0 <= i < j < |ns| ==> ns[i] != ns[j]
  }

  ghost function Ids(ns: seq<MediaSample>): (ids: seq<nat>)
    ensures |ids| == |ns| && forall i :: 0 <= i < |ns| ==> ids[i] == ns[i].id
  {
    seq(|ns|, i requires 0 <= i < |ns| => ns[i].id)
  }

  class SampleList {
    var list: MediaSample?
    var onList: nat
    ghost var nodes: seq<MediaSample>

    ghost predicate Valid()
      reads this, (set n | n in nodes)`next
    {
      && Chained(nodes) && NoDuplicates(nodes)
      && list == (if nodes == [] then null else nodes[0])
      && onList == |nodes|
    }

    constructor ()
      ensures Valid() && nodes == []
    {
      list, onList, nodes := null, 0, [];
    }

    method Add(sample: MediaSample)
      requires Valid() && sample !in nodes
      modifies this, sample`next
      ensures Valid() && nodes == [sample] + old(nodes)
    {
      sample.next := list;
      list := sample;
      onList := onList + 1;
      nodes := [sample] + nodes;
    }

    method RemoveHead() returns (sample: MediaSample?)
      requires Valid()
      modifies this
      ensures Valid()
      ensures if old(nodes) == [] then sample == null && nodes == []
              else sample == old(nodes)[0] && sample !in nodes && nodes == old(nodes)[1..]
    {
      sample := list;
      if sample != null {
        list := list.next;
        onList := onList - 1;
        nodes := nodes[1..];
      }
    }

    /** The link that leads to a sample is the list's own or that of the sample in front. */
    method Remove(sample: MediaSample)
      requires Valid() && sample in nodes
      modifies this, (set n | n in nodes)`next
      ensures Valid() && sample.next == null
      ensures exists k :: 0 <= k < |old(nodes)| && old(nodes)[k] == sample && nodes == old(nodes)[..k] + old(nodes)[k + 1..]
    {
      var prev, k := FindLink(sample);
      ghost var was := nodes;
      assert k + 1 < |was| ==> was[k].next == was[k + 1];
      if prev == null {
        list := sample.next;
      } else {
        prev.next := sample.next;
      }
      sample.next := null;
      onList := onList - 1;
      nodes := was[..k] + was[k + 1..];
      assert was[k] == sample;
      Unlinked(was, k);
    }

    method FindLink(sample: MediaSample) returns (prev: MediaSample?, ghost k: nat)
      requires Valid() && sample in nodes
      ensures k < |nodes| && nodes[k] == sample && prev == if k == 0 then null else nodes[k - 1]
    {
      prev, k := null, 0;
      var search := list;
      while search != sample
        invariant 0 <= k < |nodes| && search == nodes[k] && sample in nodes[k..]
        invariant prev == if k == 0 then null else nodes[k - 1]
        decreases |nodes| - k
      {
        assert nodes[k..] == [nodes[k]] + nodes[k + 1..];
        assert k + 1 < |nodes| && nodes[k].next == nodes[k + 1];
        prev, search, k := search, search.next, k + 1;
      }
    }
  }

  lemma Unlinked(was: seq<MediaSample>, k: nat)
    requires k < |was| && NoDuplicates(was)
    requires forall i :: 0 <= i < |was| - 1 && i != k && i != k - 1 ==> was[i].next == was[i + 1]
    requires k > 0 ==> was[k - 1].next == if k + 1 < |was| then was[k + 1] else null
    requires k + 1 < |was| ==> was[|was| - 1].next == null
    ensures var ns := was[..k] + was[k + 1..];
            Chained(ns) && NoDuplicates(ns)
  {
    var ns := was[..k] + was[k + 1..];
    forall i | 0 <= i < |ns| - 1 ensures ns[i].next == ns[i + 1] {
      if i >= k { assert ns[i] == was[i + 1] && ns[i + 1] == was[i + 1 + 1]; }
    }
  }
}
