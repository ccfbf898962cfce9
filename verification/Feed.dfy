// The market-data feed end to end: the matching thread pushes events into the SPSC ring, the
// publisher thread pops them one by one and forms packets, and a receiver parses them. The
// state machine composes the ring of Spsc.dfy with the loop of thread_main in
// net/md_publisher.cpp, interleaved step by step.
module Feed {
  import opened LobTypes
  import opened Itch
  import opened MarketData
  import R = Spsc

  /** Where the publisher thread stands in its loop. */
  datatype Sender =
    | Deciding   // before the condition of the batching loop
    | Popping    // in try_pop
    | Shipping   // after the batching loop

  /** `batch` is what was popped and packed since the last packet, `shipped` the events of the
      packets formed so far. */
  datatype Feed = Feed(
    ring: R.Ring<Event>, sender: Sender, batch: seq<Event>, shipped: seq<Event>, packets: seq<seq<byte>>)

  ghost predicate Init(s: Feed) {
    R.Init(s.ring) && s.sender == Deciding && s.batch == s.shipped == [] && s.packets == []
  }

  datatype Step = Offer(store: R.Step<Event>) | Decide | InPop(load: R.Step<Event>) | Ship(sendNs: U64)

  /** A step of try_push, of an event of a known kind. */
  predicate Offers(step: R.Step<Event>) {
    match step
    case Push(e) => Known(e.kind)
    case LoadTail(_) => true
    case BeginWrite => true
    case EndWrite => true
    case StoreHead => true
    case _ => false
  }

  /** A step of try_pop after its first. */
  predicate Pops(step: R.Step<Event>) {
    step.LoadHead? || step.EndRead? || step.StoreTail?
  }

  predicate RoomFor(batch: seq<Event>) {
    |batch| < MAX_BATCH && HEADER_BYTES + |Body(batch)| + MAX_MSG_BYTES <= UDP_PAYLOAD
  }

  ghost predicate Taken(s: Feed, s': Feed, step: Step) {
    match step
    case Offer(store) => Offers(store) && R.Taken(s.ring, s'.ring, store) && s' == s.(ring := s'.ring)
    case Decide =>
      && s.sender.Deciding?
      && if RoomFor(s.batch) then R.Taken(s.ring, s'.ring, R.Pop) && s' == s.(ring := s'.ring, sender := Popping)
         else s' == s.(sender := Shipping)
    case InPop(load) =>
      && s.sender.Popping? && Pops(load) && R.Taken(s.ring, s'.ring, load)
      && s' == if load.StoreTail?
               then s.(ring := s'.ring, sender := Deciding, batch := s.batch + [s.ring.consumer.value])
               else if s'.ring.consumer.Waiting? then s.(ring := s'.ring, sender := Shipping)
               else s.(ring := s'.ring)
    case Ship(sendNs) =>
      && s.sender.Shipping?
      && s' == if s.batch == [] then s.(sender := Deciding)
               else s.(sender := Deciding, batch := [], shipped := s.shipped + s.batch,
                       packets := s.packets + [Packet(s.batch, |s.packets|, sendNs)])
  }

  ghost predicate Next(s: Feed, s': Feed) {
    exists step :: Taken(s, s', step)
  }

  // ----- the invariant -----

  ghost predicate PacketsOk(s: Feed) {
    && (forall k: nat :: k < |s.packets| ==> GoodPacket(s.packets[k], k))
    && AllReceived(s.packets) == AllCarried(s.shipped)
  }

  ghost predicate BatchOk(s: Feed) {
    && |s.batch| <= MAX_BATCH && HEADER_BYTES + |Body(s.batch)| <= UDP_PAYLOAD
    && s.ring.popped == s.shipped + s.batch
    && AllKnown(s.ring.pushed) && AllKnown(s.batch)
    && (!s.ring.producer.Idle? ==> Known(s.ring.producer.value.kind))
    && (s.sender.Popping? <==> !s.ring.consumer.Waiting?)
  }

  ghost predicate Inv(s: Feed) {
    R.Inv(s.ring) && BatchOk(s) && PacketsOk(s)
  }

  lemma InitInv(s: Feed)
    requires Init(s)
    ensures Inv(s)
  {
    assert s.shipped + s.batch == [];
  }

  lemma {:induction false} OfferInv(s: Feed, s': Feed, store: R.Step<Event>)
    requires Inv(s) && Taken(s, s', Offer(store))
    ensures Inv(s')
  {
    R.NextInv(s.ring, s'.ring);
    hide R.Inv, PacketsOk, Body;
  }

  lemma {:induction false} DecideInv(s: Feed, s': Feed)
    requires Inv(s) && Taken(s, s', Decide)
    ensures Inv(s')
  {
    if RoomFor(s.batch) {
      R.NextInv(s.ring, s'.ring);
    }
    hide R.Inv, PacketsOk, Body;
  }

  /** The event popped last fits behind the others. */
  lemma OneMore(batch: seq<Event>, e: Event)
    requires AllKnown(batch) && Known(e.kind)
    ensures AllKnown(batch + [e]) && |Body(batch + [e])| <= |Body(batch)| + MAX_MSG_BYTES
  {
    BodyAppend(batch, e);
    CarriedCanonical(e);
    hide Body, Carried;
  }

  /** While try_pop is under way the batch still has room. */
  ghost predicate RoomWhilePopping(s: Feed) {
    s.sender.Popping? ==> RoomFor(s.batch)
  }

  lemma {:induction false} PopInv(s: Feed, s': Feed, load: R.Step<Event>)
    requires Inv(s) && RoomWhilePopping(s) && Taken(s, s', InPop(load))
    ensures Inv(s')
  {
    R.NextInv(s.ring, s'.ring);
    if load.StoreTail? {
      var e := s.ring.consumer.value;
      assert e == s.ring.pushed[s.ring.tail];
      OneMore(s.batch, e);
      assert (s.shipped + s.batch) + [e] == s.shipped + (s.batch + [e]);
    }
    hide R.Inv, PacketsOk, Body;
  }

  lemma ShippedPackets(s: Feed, s': Feed, sendNs: U64)
    requires BatchOk(s) && PacketsOk(s) && Taken(s, s', Ship(sendNs)) && s.batch != []
    ensures PacketsOk(s')
  {
    hide Packet, GoodPacket, AllReceived, AllCarried, Receive, Body, AllKnown;
    PacketIsGood(s.batch, |s.packets|, sendNs);
    Formed(s.shipped, s.packets, s.batch, Packet(s.batch, |s.packets|, sendNs));
  }

  lemma ShippedBatch(s: Feed, s': Feed, sendNs: U64)
    requires BatchOk(s) && Taken(s, s', Ship(sendNs)) && s.batch != []
    ensures BatchOk(s')
  {
    hide Packet;
    assert s.shipped + s.batch + [] == s.shipped + s.batch;
    assert Body([]) == [];
  }

  lemma ShipInv(s: Feed, s': Feed, sendNs: U64)
    requires Inv(s) && Taken(s, s', Ship(sendNs))
    ensures Inv(s')
  {
    hide R.Inv, Packet, GoodPacket, AllReceived, AllCarried, Receive, Body, AllKnown;
    if s.batch != [] {
      ShippedPackets(s, s', sendNs);
      ShippedBatch(s, s', sendNs);
    }
  }

  lemma {:induction false} NextInv(s: Feed, s': Feed)
    requires Inv(s) && RoomWhilePopping(s) && Next(s, s')
    ensures Inv(s') && RoomWhilePopping(s')
  {
    var step :| Taken(s, s', step);
    match step {
      case Offer(store) => OfferInv(s, s', store);
      case Decide => DecideInv(s, s');
      case InPop(load) => PopInv(s, s', load);
      case Ship(sendNs) => ShipInv(s, s', sendNs);
    }
    hide Inv, R.Taken, Packet;
  }

  ghost predicate Run(run: seq<Feed>) {
    && run != [] && Init(run[0])
    && forall k :: 0 <= k < |run| - 1 ==> Next(run[k], run[k + 1])
  }

  lemma {:induction false} RunInv(run: seq<Feed>, i: nat)
    requires Run(run) && i < |run|
    ensures Inv(run[i]) && RoomWhilePopping(run[i])
  {
    if i == 0 {
      InitInv(run[0]);
    } else {
      RunInv(run, i - 1);
      assert Next(run[i - 1], run[i - 1 + 1]);
      NextInv(run[i - 1], run[i]);
    }
  }

  /** Before a packet is formed nothing more would fit, or the ring looked empty: the tail has
      reached the last value of head the publisher loaded. */
  ghost predicate DoneBatching(s: Feed) {
    s.sender.Shipping? ==> !RoomFor(s.batch) || s.ring.tail == s.ring.seenHead
  }

  lemma DoneBatchingNext(s: Feed, s': Feed)
    requires Inv(s) && DoneBatching(s) && Next(s, s')
    ensures DoneBatching(s')
  {
    var step :| Taken(s, s', step);
    hide R.Inv, PacketsOk, RoomFor, Packet;
  }

  /** The publisher sends only when it must: before every packet the batch is as long as it may
      be, or the ring looked empty. */
  lemma {:induction false} ShipsWhenDone(run: seq<Feed>, i: nat)
    requires Run(run) && i < |run|
    ensures
      var s := run[i];
      s.sender.Shipping? ==>
        || |s.batch| == 64 || 24 + |Body(s.batch)| + 42 > 1400
        || s.ring.tail == s.ring.seenHead
    ensures DoneBatching(run[i])
  {
    RunInv(run, i);
    if i > 0 {
      ShipsWhenDone(run, i - 1);
      RunInv(run, i - 1);
      assert Next(run[i - 1], run[i - 1 + 1]);
      hide Next, Inv, RoomFor;
      DoneBatchingNext(run[i - 1], run[i]);
    }
    hide R.Inv, PacketsOk, Body;
  }

  /** End to end, for every interleaving of the two threads and however stale their view of each
      other: parsing the packets formed so far gives exactly what the first events accepted
      carry, in order; none is missing or twice; only what is in the ring or in the unfinished
      batch is still to come; and every packet is well formed and numbered without gaps. */
  lemma ReceivedIsPrefix(run: seq<Feed>, i: nat)
    requires Run(run) && i < |run|
    ensures
      var s := run[i];
      && |s.shipped| <= |s.ring.pushed| <= |s.shipped| + MAX_BATCH + s.ring.Cap()
      && AllReceived(s.packets) == AllCarried(s.ring.pushed[..|s.shipped|])
      && forall k: nat :: k < |s.packets| ==> GoodPacket(s.packets[k], k)
  {
    RunInv(run, i);
    var s := run[i];
    hide AllReceived, AllCarried, GoodPacket, Body;
    assert s.shipped == s.ring.popped[..|s.shipped|] == s.ring.pushed[..|s.shipped|];
  }
}
