// try_publish_snapshot of net/md_publisher.cpp on the OrderBook class.
module Snapshots {
  import opened LobTypes
  import opened BookSpec
  import opened BookLaws
  import opened OrderBooks
  import opened Itch
  import opened MarketData

  /** The inside of a side fits the 64-bit fields of the wire. */
  predicate SideFits(ls: seq<Level>) {
    ls != [] ==> -0x8000_0000_0000_0000 <= ls[0].price < 0x8000_0000_0000_0000 && BestQty(ls) < TWO_TO_THE_64
  }

  /** The snapshot of a book: its best prices and what rests there. */
  function TopMessage(b: Book, ns: U64): Message
    requires SideFits(b.bids) && SideFits(b.asks)
  {
    SnapshotOf(if b.bids == [] then None else Some(b.bids[0].price), if b.bids == [] then 0 else BestQty(b.bids),
               if b.asks == [] then None else Some(b.asks[0].price), if b.asks == [] then 0 else BestQty(b.asks), ns)
  }

  method TryPublishSnapshot(publisher: Publisher, book: OrderBook, ns: U64, refused: bool) returns (ok: bool)
    requires publisher.Valid() && (|publisher.queue| >= QUEUE_CAPACITY ==> refused)
    requires book.Valid() && SideFits(book.Abs().bids) && SideFits(book.Abs().asks)
    modifies publisher`queue, publisher`enqueued, publisher`dropped, publisher`accepted
    ensures publisher.Valid() && ok == !refused
    ensures ok ==>
              && PutLast(old(publisher.queue), publisher.queue, TopMessage(old(book.Abs()), ns))
              && publisher.accepted == old(publisher.accepted) + publisher.queue[|old(publisher.queue)|..]
              && publisher.dropped == old(publisher.dropped)
    ensures !ok ==>
              && publisher.queue == old(publisher.queue) && publisher.accepted == old(publisher.accepted)
              && publisher.dropped == old(publisher.dropped) + 1
  {
    hide OrderBook.Valid, Publisher.Valid, SnapshotOf, PutLast;
    var bid, ask := None, None;
    var bidQty, askQty := 0, 0;
    var b := book.Best(Buy);
    if b.Some? {
      bid := Some(b.value);
      bidQty := book.BestQuantity(Buy);
    }
    var a := book.Best(Sell);
    if a.Some? {
      ask := Some(a.value);
      askQty := book.BestQuantity(Sell);
    }
    ok := publisher.PublishInside(bid, bidQty, ask, askQty, ns, refused);
  }

  /** What a snapshot says of a well-formed book: a side is flagged if and only if something
      rests on it, and then the price is the extremum over all resting orders of the side and
      the quantity is what rests visibly at that price. */
  lemma SnapshotIsInside(b: Book, ns: U64)
    requires BookOk(b) && SideFits(b.bids) && SideFits(b.asks)
    ensures
      var m := TopMessage(b, ns);
      && m.kind == SNAPSHOT && m.eventNs == ns && m.flags < 4
      && (m.flags % 2 == 1 <==> exists px :: Queue(Buy, b.bids, px) != [])
      && (m.flags >= 2 <==> exists px :: Queue(Sell, b.asks, px) != [])
      && (m.flags % 2 == 1 ==>
            && Queue(Buy, b.bids, m.bid) != [] && m.bidQty == Visible(Queue(Buy, b.bids, m.bid))
            && forall px :: Queue(Buy, b.bids, px) != [] ==> px <= m.bid)
      && (m.flags >= 2 ==>
            && Queue(Sell, b.asks, m.ask) != [] && m.askQty == Visible(Queue(Sell, b.asks, m.ask))
            && forall px :: Queue(Sell, b.asks, px) != [] ==> m.ask <= px)
  {
    assert b.SideOf(Buy) == b.bids && b.SideOf(Sell) == b.asks;
    assert Sorted(Buy, b.SideOf(Buy)) && Sorted(Sell, b.SideOf(Sell));
    BestIsExtremum(Buy, b.bids);
    BestIsExtremum(Sell, b.asks);
    hide BookOk, Queue, Sorted, NoEmpty, Visible;
  }
}
