/** Facts about the queue's list and about the worker's collecting loop. */
module OutputQueueLists {
  import opened OutputQueueModel

  lemma {:induction false} IdsAppend(a: seq<Item>, b: seq<Item>)
    ensures Ids(a + b) == Ids(a) + Ids(b)
  {
    if a == [] {
      assert a + b == b;
    } else {
      assert (a + b)[1..] == a[1..] + b;
      IdsAppend(a[1..], b);
    }
  }

  lemma {:induction false} DeliveredAppend(a: seq<Event>, b: seq<Event>)
    ensures DeliveredIds(a + b) == DeliveredIds(a) + DeliveredIds(b)
  {
    if a == [] {
      assert a + b == b;
    } else {
      assert (a + b)[1..] == a[1..] + b && (a + b)[0] == a[0];
      DeliveredAppend(a[1..], b);
    }
  }

  lemma {:induction false} DeliveredSamples(ids: seq<nat>)
    ensures DeliveredIds(SampleEvents(ids)) == ids
  {
    if ids != [] {
      assert SampleEvents(ids)[1..] == SampleEvents(ids[1..]);
      DeliveredSamples(ids[1..]);
    }
  }

  lemma Concat3<T>(a: seq<T>, b: seq<T>, c: seq<T>)
    ensures a + b + c == a + (b + c)
  {
  }

  lemma {:induction false} TaggedConcat(a: seq<Item>, b: seq<Item>)
    requires WellTagged(a) && WellTagged(b)
    ensures WellTagged(a + b)
    decreases a
  {
    var ab := a + b;
    if a == [] {
      assert ab == b;
    } else if a[0] == NewSegment {
      TaggedConcat(a[2..], b);
      assert ab[0] == a[0] && ab[1] == a[1] && ab[2..] == a[2..] + b;
    } else {
      TaggedConcat(a[1..], b);
      assert ab[0] == a[0] && ab[1..] == a[1..] + b;
    }
  }

  /** Appending a whole message keeps tags and packets together, and adds its meaning at the end. */
  lemma {:induction false} TaggedAppend(a: seq<Item>, b: seq<Item>)
    requires WellTagged(a) && WellTagged(b)
    ensures WellTagged(a + b)
    ensures EventsOf(a + b) == EventsOf(a) + EventsOf(b)
    decreases a
  {
    TaggedConcat(a, b);
    var ab := a + b;
    if a == [] {
      assert ab == b;
    } else if a[0] == NewSegment {
      TaggedAppend(a[2..], b);
      assert ab[0] == a[0] && ab[1] == a[1] && ab[2..] == a[2..] + b;
      assert EventsOf(ab) == [GotSegment(a[1].segment)] + EventsOf(a[2..] + b);
      Concat3([GotSegment(a[1].segment)], EventsOf(a[2..]), EventsOf(b));
    } else {
      TaggedAppend(a[1..], b);
      assert ab[0] == a[0] && ab[1..] == a[1..] + b;
      assert EventsOf(ab) == EntryEvents(a[0]) + EventsOf(a[1..] + b);
      Concat3(EntryEvents(a[0]), EventsOf(a[1..]), EventsOf(b));
    }
  }

  lemma {:induction false} SampleItemsFacts(ids: seq<nat>)
    ensures WellTagged(SampleItems(ids))
    ensures Ids(SampleItems(ids)) == ids
    ensures EventsOf(SampleItems(ids)) == SampleEvents(ids)
    ensures forall i :: i in SampleItems(ids) ==> i.Sample?
  {
    if ids != [] {
      assert SampleItems(ids)[1..] == SampleItems(ids[1..]);
      assert SampleEvents(ids) == [GotSample(ids[0])] + SampleEvents(ids[1..]);
      SampleItemsFacts(ids[1..]);
    }
  }

  lemma SampleEventsAppend(a: seq<nat>, b: seq<nat>)
    ensures SampleEvents(a + b) == SampleEvents(a) + SampleEvents(b)
  {
  }

  /** A wait leaves nothing to do; anything else is a batch of legal size or a control packet. */
  lemma {:induction false} CollectShape(c: Config, list: seq<Item>, batch: seq<nat>)
    requires ValidConfig(c) && WellTagged(list) && |batch| < c.batchSize
    ensures match Collect(c, list, batch)
            case Wait(b) => |b| < c.batchSize && (!c.exact ==> b == [])
            case Go(rest, t, k) =>
              && WellTagged(rest)
              && |t| <= c.batchSize
              && (k == NoControl ==> t != [])
              && (ResetPacket !in list ==> ResetPacket !in rest && k != ResetControl)
    decreases list
  {
    if list != [] {
      match list[0]
      case Sample(id) => if |batch| + 1 < c.batchSize { CollectShape(c, list[1..], batch + [id]); }
      case SendPacket => if batch == [] { CollectShape(c, list[1..], batch); }
      case _ =>
    }
  }

  /** The loop loses no sample and keeps their order. */
  lemma {:induction false} CollectKeepsSamples(c: Config, list: seq<Item>, batch: seq<nat>)
    requires WellTagged(list)
    ensures match Collect(c, list, batch)
            case Wait(b) => b == batch + Ids(list)
            case Go(rest, t, _) => t + Ids(rest) == batch + Ids(list)
    decreases list
  {
    if list != [] {
      match list[0]
      case Sample(id) =>
        Concat3(batch, [id], Ids(list[1..]));
        if |batch| + 1 != c.batchSize { CollectKeepsSamples(c, list[1..], batch + [id]); }
      case SendPacket => if batch == [] { CollectKeepsSamples(c, list[1..], batch); }
      case NewSegment => assert Ids(list[1..]) == Ids(list[2..]);
      case _ =>
    }
  }

  /** What the worker will do downstream is what the list and the batch meant. */
  lemma {:induction false} CollectKeepsEvents(c: Config, list: seq<Item>, batch: seq<nat>)
    requires ValidConfig(c) && WellTagged(list) && |batch| < c.batchSize
    ensures match Collect(c, list, batch)
            case Wait(b) => SampleEvents(b) == SampleEvents(batch) + EventsOf(list)
            case Go(rest, t, k) =>
              && WellTagged(rest)
              && SampleEvents(t) + (ControlEvents(k) + EventsOf(rest)) == SampleEvents(batch) + EventsOf(list)
    decreases list
  {
    if list != [] {
      match list[0]
      case Sample(id) =>
        SampleEventsAppend(batch, [id]);
        assert SampleEvents([id]) == [GotSample(id)];
        Concat3(SampleEvents(batch), [GotSample(id)], EventsOf(list[1..]));
        if |batch| + 1 < c.batchSize { CollectKeepsEvents(c, list[1..], batch + [id]); }
      case SendPacket => if batch == [] { CollectKeepsEvents(c, list[1..], batch); }
      case _ =>
    }
  }
}
