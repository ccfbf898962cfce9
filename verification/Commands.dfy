// The commands of include/lob/pipeline.hpp on the OrderBook class: apply and publish_quote,
// what each command does to the two sides of the book, and what a quote says about them.
module Commands {
  import opened LobTypes
  import opened Sums
  import opened BookSpec
  import opened BookLaws
  import opened MarketLaws
  import opened OrderBooks
  import opened Policies
  import opened EngineSpec
  import L = Ledgers
  import opened Ids
  import S = Seqlock

  datatype Command =
    | Limit(side: Side, price: int, qty: nat)
    | Market(side: Side, qty: nat)
    | Cancel(id: nat)

  /** apply. */
  function Apply(b: Book, c: Command): Book {
    match c
    case Limit(side, price, qty) => AddLimit(b, side, price, qty).book
    case Market(side, qty) => BookSpec.Market(b, side, qty).book
    case Cancel(id) => BookSpec.Cancel(b, id).book
  }

  /** The book after all of `cs`. */
  function Fold(b: Book, cs: seq<Command>): Book {
    if cs == [] then b else Apply(Fold(b, cs[..|cs| - 1]), cs[|cs| - 1])
  }

  lemma FoldAppend(b: Book, cs: seq<Command>, c: Command)
    ensures Fold(b, cs + [c]) == Apply(Fold(b, cs), c)
  {
    assert (cs + [c])[..|cs|] == cs;
  }

  /** The quote publish_quote builds. */
  function Top(b: Book): S.Quote {
    var bid, ask := BestPrice(b.bids), BestPrice(b.asks);
    S.Quote(if bid.Some? then bid.value else 0, if ask.Some? then ask.value else 0,
            if bid.Some? then BestQty(b.bids) else 0, if ask.Some? then BestQty(b.asks) else 0,
            bid.Some?, ask.Some?)
  }

  // ----- apply and publish_quote on the OrderBook class -----

  method ApplyCommand(book: OrderBook, c: Command)
    requires book.Valid() && book.Abs().stops == map[]
    modifies book, book.bids, book.asks, book.pool, book.pool.buffer
    ensures book.Valid() && book.Abs() == Apply(old(book.Abs()), c) && book.Abs().stops == map[]
  {
    ghost var b := book.Abs();
    ApplyKeepsStops(b, c);
    hide OrderBook.Valid, AddLimit, BookSpec.Market, BookSpec.Cancel;
    match c {
      case Limit(side, price, qty) => var id := book.AddLimitOrder(side, price, qty);
      case Market(side, qty) => var fills := book.MarketOrder(side, qty);
      case Cancel(id) => var ok := book.CancelOrder(id);
    }
  }

  method BuildQuote(book: OrderBook) returns (q: S.Quote)
    requires book.Valid()
    ensures q == Top(book.Abs())
    ensures IsInside(q, book.Abs())
  {
    q := S.ZERO_QUOTE;
    var b := book.Best(Buy);
    if b.Some? {
      var qty := book.BestQuantity(Buy);
      q := q.(hasBid := true, bid := b.value, bidQty := qty);
    }
    var a := book.Best(Sell);
    if a.Some? {
      var qty := book.BestQuantity(Sell);
      q := q.(hasAsk := true, ask := a.value, askQty := qty);
    }
    ValidBookIsOk(book.State());
    PricedBook(book.Abs());
    hide OrderBook.Valid, Top, Priced, IsInside;
    QuoteIsInside(book.Abs());
  }

  lemma ApplyKeepsStops(b: Book, c: Command)
    ensures Apply(b, c).stops == b.stops
  {
    hide AddOrder, Sweep, SetQueue, Resting;
  }

  // ----- what a quote says -----

  /** Both ladders sorted, best price first, and without empty levels. */
  predicate Priced(b: Book) {
    && Sorted(Buy, b.bids) && NoEmpty(b.bids)
    && Sorted(Sell, b.asks) && NoEmpty(b.asks)
  }

  lemma PricedBook(b: Book)
    requires BookOk(b)
    ensures Priced(b)
  {
    assert b.SideOf(Buy) == b.bids && b.SideOf(Sell) == b.asks;
    assert Sorted(Buy, b.SideOf(Buy)) && Sorted(Sell, b.SideOf(Sell));
  }

  /** `q` is the inside of `b`: a side is flagged if and only if something rests on it; then its
      price is the highest bid, or the lowest ask, and its quantity what rests visibly there. */
  ghost predicate IsInside(q: S.Quote, b: Book) {
    && (q.hasBid <==> exists px :: Queue(Buy, b.bids, px) != [])
    && (q.hasBid ==>
          && Queue(Buy, b.bids, q.bid) != [] && q.bidQty == Visible(Queue(Buy, b.bids, q.bid))
          && forall px :: Queue(Buy, b.bids, px) != [] ==> px <= q.bid)
    && (!q.hasBid ==> q.bid == 0 && q.bidQty == 0)
    && (q.hasAsk <==> exists px :: Queue(Sell, b.asks, px) != [])
    && (q.hasAsk ==>
          && Queue(Sell, b.asks, q.ask) != [] && q.askQty == Visible(Queue(Sell, b.asks, q.ask))
          && forall px :: Queue(Sell, b.asks, px) != [] ==> q.ask <= px)
    && (!q.hasAsk ==> q.ask == 0 && q.askQty == 0)
  }

  lemma QuoteIsInside(b: Book)
    requires Priced(b)
    ensures IsInside(Top(b), b)
  {
    BestIsExtremum(Buy, b.bids);
    BestIsExtremum(Sell, b.asks);
    hide Queue, Sorted, NoEmpty, Visible;
  }

  // ----- what a command does to the two sides -----

  /** The queue without the order `id`. */
  function Without(os: seq<Ord>, id: nat): seq<Ord> {
    if os == [] then [] else (if os[0].id == id then [] else [os[0]]) + Without(os[1..], id)
  }

  lemma {:induction false} WithoutAbsent(os: seq<Ord>, id: nat)
    requires forall k :: 0 <= k < |os| ==> os[k].id != id
    ensures Without(os, id) == os
  {
    if os != [] {
      WithoutAbsent(os[1..], id);
    }
  }

  lemma {:induction false} WithoutOne(os: seq<Ord>, k: nat)
    requires k < |os| && forall j :: 0 <= j < |os| && j != k ==> os[j].id != os[k].id
    ensures Without(os, os[k].id) == RemoveAt(os, k)
  {
    if k == 0 {
      WithoutAbsent(os[1..], os[0].id);
      assert [] + os[1..] == os[1..];
    } else {
      WithoutOne(os[1..], k - 1);
      assert RemoveAt(os, k) == [os[0]] + RemoveAt(os[1..], k - 1);
    }
  }

  /** A market order trades with the other side only: it takes the first `qty` units of that
      side's schedule, and the slots of the orders it finished become free. */
  lemma MarketTakes(b: Book, side: Side, qty: nat)
    requires Priced(b) && Sane(b.bids) && Sane(b.asks)
    ensures
      var b' := Apply(b, Market(side, qty));
      && b'.nextId == b.nextId && b'.stops == b.stops
      && (side == Buy ==>
            && b'.bids == b.bids && Schedule(b'.asks) == Rest(Schedule(b.asks), qty)
            && Liquidity(b'.asks) == Liquidity(b.asks) - Min(qty, Liquidity(b.asks))
            && b'.free + Sum(b'.asks, Count) == b.free + Sum(b.asks, Count))
      && (side == Sell ==>
            && b'.asks == b.asks && Schedule(b'.bids) == Rest(Schedule(b.bids), qty)
            && Liquidity(b'.bids) == Liquidity(b.bids) - Min(qty, Liquidity(b.bids))
            && b'.free + Sum(b'.bids, Count) == b.free + Sum(b.bids, Count))
      && Priced(b') && Sane(b'.bids) && Sane(b'.asks)
  {
    var ls := if side == Buy then b.asks else b.bids;
    MarketConserves(Opposite(side), ls, qty);
    SweepFollowsSchedule(ls, qty);
    SweepKeepsShape(Opposite(side), ls, qty);
    SweepCount(ls, qty);
    hide Sweep, Schedule, Sorted, NoEmpty, Sane, Sum;
  }

  lemma AddKeepsPriced(side: Side, ls: seq<Level>, px: int, o: Ord)
    requires Sorted(side, ls) && NoEmpty(ls)
    ensures var ls' := AddOrder(side, ls, px, o); Sorted(side, ls') && NoEmpty(ls')
    ensures forall p :: Queue(side, AddOrder(side, ls, px, o), p)
                     == Queue(side, ls, p) + if p == px then [o] else []
  {
    forall p
      ensures Sorted(side, AddOrder(side, ls, px, o))
      ensures Queue(side, AddOrder(side, ls, px, o), p) == Queue(side, ls, p) + if p == px then [o] else []
    {
      AddAppends(side, ls, px, o, p);
      hide AddOrder, Queue;
      assert Queue(side, ls, p) + [] == Queue(side, ls, p);
    }
    assert Sorted(side, AddOrder(side, ls, px, o)) by {
      AddAppends(side, ls, px, o, px);
    }
  }

  /** A limit order joins the tail of the queue at its price, on its own side, whole and visible
      under the next id; it is refused exactly when no slot is free. */
  lemma LimitQueues(b: Book, side: Side, px: int, qty: nat)
    requires Priced(b)
    ensures
      var b', joined := Apply(b, Limit(side, px, qty)), [Ord(b.nextId, qty, qty, 0, 0)];
      && (b.free == 0 ==> b' == b)
      && (b.free > 0 ==>
            && b'.nextId == b.nextId + 1 && b'.free == b.free - 1 && b'.stops == b.stops
            && (side == Buy ==>
                  && b'.asks == b.asks
                  && forall p :: Queue(Buy, b'.bids, p) == Queue(Buy, b.bids, p) + if p == px then joined else [])
            && (side == Sell ==>
                  && b'.bids == b.bids
                  && forall p :: Queue(Sell, b'.asks, p) == Queue(Sell, b.asks, p) + if p == px then joined else []))
      && Priced(b')
  {
    var ls := if side == Buy then b.bids else b.asks;
    AddKeepsPriced(side, ls, px, Ord(b.nextId, qty, qty, 0, 0));
    hide AddOrder, Queue, Sorted, NoEmpty;
  }

  lemma SetKeepsPriced(side: Side, ls: seq<Level>, i: nat, os: seq<Ord>)
    requires Sorted(side, ls) && NoEmpty(ls) && i < |ls|
    ensures Sorted(side, SetQueue(ls, i, os)) && NoEmpty(SetQueue(ls, i, os))
  {
    SetQueueSets(side, ls, i, os, ls[i].price);
    if os == [] {
      forall j: nat | j < |ls| - 1
        ensures RemoveAt(ls, i)[j].orders != []
      {
        RemoveAtIndex(ls, i, j);
      }
    }
  }

  /** An absent id changes no queue. */
  lemma QueuesWithout(side: Side, ls: seq<Level>, id: nat)
    requires Absent(ls, id)
    ensures forall p :: Without(Queue(side, ls, p), id) == Queue(side, ls, p)
  {
    forall p
      ensures Without(Queue(side, ls, p), id) == Queue(side, ls, p)
    {
      WithoutAbsent(Queue(side, ls, p), id);
    }
  }

  lemma RestsNowhere(ls: seq<Level>, id: nat)
    requires !Rests(ls, id)
    ensures Absent(ls, id)
  {
    forall i: nat, k: nat | i < |ls| && k < |ls[i].orders|
      ensures ls[i].orders[k].id != id
    {
      assert !HasId(ls[i].orders, id);
    }
  }

  /** The side an order was taken out of. */
  lemma TakenQueues(side: Side, ls: seq<Level>, i: nat, k: nat)
    requires Sorted(side, ls) && NoEmpty(ls) && i < |ls| && k < |ls[i].orders|
    requires Absent(SetQueue(ls, i, RemoveAt(ls[i].orders, k)), ls[i].orders[k].id)
    ensures
      var ls', id := SetQueue(ls, i, RemoveAt(ls[i].orders, k)), ls[i].orders[k].id;
      && Sorted(side, ls') && NoEmpty(ls')
      && forall p :: Queue(side, ls', p) == Without(Queue(side, ls, p), id)
  {
    var os, id := ls[i].orders, ls[i].orders[k].id;
    var ls' := SetQueue(ls, i, RemoveAt(os, k));
    SetKeepsPriced(side, ls, i, RemoveAt(os, k));
    QueuesWithout(side, ls', id);
    LowerFinds(side, ls, i);
    forall j: nat | j < |os| && j != k
      ensures os[j].id != id
    {
      var n := if j < k then j else j - 1;
      RemoveAtIndex(os, k, n);
      assert RemoveAt(os, k)[n] == os[j] && ls'[i].orders[n] == os[j];
    }
    WithoutOne(os, k);
    forall p
      ensures Queue(side, ls', p) == Without(Queue(side, ls, p), id)
    {
      SetQueueSets(side, ls, i, RemoveAt(os, k), p);
      hide SetQueue, Queue, Without, RemoveAt;
    }
  }

  /** Cancelling takes exactly the order `id` out of the book: no queue keeps it, and every
      other order stays in its queue, in its place among the others. */
  lemma CancelRemoves(b: Book, id: nat)
    requires Priced(b) && IdsOk(b)
    ensures
      var b' := Apply(b, Cancel(id));
      && (forall p :: Queue(Buy, b'.bids, p) == Without(Queue(Buy, b.bids, p), id))
      && (forall p :: Queue(Sell, b'.asks, p) == Without(Queue(Sell, b.asks, p), id))
      && b'.nextId == b.nextId && b'.stops == b.stops
      && b'.free == b.free + (if Resting(b, id) then 1 else 0) && !Resting(b', id)
      && Priced(b')
  {
    if !Resting(b, id) {
      RestsNowhere(b.bids, id);
      RestsNowhere(b.asks, id);
      hide Queue, Without, Sorted, NoEmpty;
      QueuesWithout(Buy, b.bids, id);
      QueuesWithout(Sell, b.asks, id);
    } else {
      var side := SideHolding(b, id);
      var ls := b.SideOf(side);
      var i := LevelOf(ls, id);
      var k := IndexOf(ls[i].orders, id);
      CancelledGone(b, id);
      hide Queue, Without, Sorted, NoEmpty, SetQueue, RemoveAt, Absent, IdsOk;
      TakenQueues(side, ls, i, k);
      QueuesWithout(Opposite(side), b.SideOf(Opposite(side)), id);
      AbsentRestsNot(Take(b, id).bids, id);
      AbsentRestsNot(Take(b, id).asks, id);
    }
  }

  lemma CancelledGone(b: Book, id: nat)
    requires IdsOk(b) && Resting(b, id)
    ensures Absent(Take(b, id).bids, id) && Absent(Take(b, id).asks, id)
  {
    var side := SideHolding(b, id);
    var ls := b.SideOf(side);
    var i := LevelOf(ls, id);
    var k := IndexOf(ls[i].orders, id);
    assert IdOk(b, id);
    L.TakenAccount(b, side, i, k, id);
    L.NoCountAbsent(Take(b, id).bids, id);
    L.NoCountAbsent(Take(b, id).asks, id);
  }

  // ----- sequences of commands -----

  /** The operation of the ledger that a command is. */
  function ActOf(c: Command): L.Act {
    match c
    case Limit(side, price, qty) => L.SubmitLimit(side, price, qty, 0)
    case Market(side, qty) => L.MarketOrder(Fifo, side, qty)
    case Cancel(id) => L.CancelOne(id)
  }

  function ActsOf(cs: seq<Command>): seq<L.Act> {
    seq(|cs|, i requires 0 <= i < |cs| => ActOf(cs[i]))
  }

  lemma ApplyIsAct(l: L.Ledger, c: Command)
    ensures L.Do(l, ActOf(c)).book == Apply(l.book, c)
    ensures L.Conserving(l.book, ActOf(c))
  {
    hide AddOrder, Sweep, Take, Resting;
  }

  lemma ApplyKeepsPriced(b: Book, c: Command)
    requires Priced(b) && IdsOk(b)
    ensures Priced(Apply(b, c))
  {
    match c {
      case Limit(side, price, qty) => LimitQueues(b, side, price, qty);
      case Market(side, qty) => MarketTakes(b, side, qty);
      case Cancel(id) => CancelRemoves(b, id);
    }
  }

  lemma ActsAppend(cs: seq<Command>)
    requires cs != []
    ensures
      var n, acts := |cs| - 1, ActsOf(cs);
      acts != [] && acts[..|acts| - 1] == ActsOf(cs[..n]) && acts[|acts| - 1] == ActOf(cs[n])
  {
  }

  /** A sequence of commands is a run of the operations of the ledger, each within its
      condition, and it keeps the book in order. */
  lemma {:induction false} FoldIsRun(l: L.Ledger, cs: seq<Command>)
    requires Priced(l.book) && IdsOk(l.book)
    ensures L.After(l, ActsOf(cs)).book == Fold(l.book, cs) && L.AllConserving(l, ActsOf(cs))
    ensures Priced(Fold(l.book, cs)) && IdsOk(Fold(l.book, cs))
  {
    if cs != [] {
      var n := |cs| - 1;
      var before := L.After(l, ActsOf(cs[..n]));
      FoldIsRun(l, cs[..n]);
      ActsAppend(cs);
      hide Apply, ActOf, ActsOf, L.Do, L.Conserving, Priced, IdsOk;
      ApplyIsAct(before, cs[n]);
      DoKeepsIds(before, ActOf(cs[n]));
      ApplyKeepsPriced(before.book, cs[n]);
    }
  }

  /** Whatever commands are applied to a new book: each order is filled exactly, every order
      stands under an id of its own, and a quote is the inside. */
  lemma CommandsConserve(capacity: nat, cs: seq<Command>, id: nat)
    ensures
      var l, b := L.After(L.NewLedger(capacity), ActsOf(cs)), Fold(L.NewLedger(capacity).book, cs);
      && l.book == b && L.FilledExactly(l, id) && Holders(b, id) <= 1 && IsInside(Top(b), b)
  {
    var l := L.NewLedger(capacity);
    NewIdsOk(capacity);
    FoldIsRun(l, cs);
    hide Fold, L.After, L.AllConserving, L.FilledExactly, ActsOf, Top, IsInside, Priced, Holders;
    L.OrdersAreFilledExactly(capacity, ActsOf(cs), id);
    assert IdOk(Fold(l.book, cs), id);
    QuoteIsInside(Fold(l.book, cs));
  }
}
