// The matching policies of src/matching_engine.cpp: FIFOStack hands the order to the
// book, ProRataPolicy apportions it over the best level by calls of apply_fill.
module Policies {
  import opened LobTypes
  import opened Sums
  import opened BookSpec
  import opened Slab
  import opened PriceLadders
  import opened BookReps
  import opened OrderBooks
  import opened ProRata

  datatype Policy = Fifo | ProRataPolicy(minFill: nat)

  /** What a policy does to the abstract book. */
  function MatchSpec(p: Policy, b: Book, side: Side, qty: nat): Outcome<seq<Fill>> {
    match p
    case Fifo => Market(b, side, qty)
    case ProRataPolicy(minFill) => ProRataMatch(b, side, qty, minFill)
  }

  /** The first `n` orders of the best level of `opp` have been offered their allocations. */
  predicate ServedTo(b: Book, opp: Side, alloc: seq<nat>, n: nat, now: Book, fills: seq<Fill>) {
    var ls := b.SideOf(opp);
    && ls != [] && |ls[0].orders| == |alloc| && n <= |alloc|
    && var os := ls[0].orders;
    && |Served(os, alloc, n)| <= |os|
    && now == b.With(opp, SetQueue(ls, 0, Served(os, alloc, n))).(free := b.free + |os| - |Served(os, alloc, n)|)
    && fills == Each(os[..n], alloc[..n], Trade(ls[0].price))
  }

  lemma ServeStart(b: Book, opp: Side, alloc: seq<nat>)
    requires b.SideOf(opp) != [] && b.SideOf(opp)[0].orders != [] && |alloc| == |b.SideOf(opp)[0].orders|
    ensures ServedTo(b, opp, alloc, 0, b, [])
  {
    var ls := b.SideOf(opp);
    var os := ls[0].orders;
    assert Served(os, alloc, 0) == os;
    assert SetQueue(ls, 0, os) == ls;
    assert b.With(opp, ls) == b;
  }

  /** The next order stands where Served says, unless nothing is left to serve. */
  lemma NextInLine(b: Book, opp: Side, alloc: seq<nat>, n: nat, now: Book, fills: seq<Fill>)
    requires ServedTo(b, opp, alloc, n, now, fills) && n < |alloc|
    ensures
      var os := b.SideOf(opp)[0].orders;
      var k := |Each(os[..n], alloc[..n], Stay)|;
      && now.SideOf(opp) != []
      && now.SideOf(opp)[0] == Level(b.SideOf(opp)[0].price, Served(os, alloc, n))
      && k < |Served(os, alloc, n)| && Served(os, alloc, n)[k] == os[n]
  {
    ServeOne(b.SideOf(opp)[0].orders, alloc, n);
    hide Served, Each;
  }

  lemma ServeNone(b: Book, opp: Side, alloc: seq<nat>, n: nat, now: Book, fills: seq<Fill>)
    requires ServedTo(b, opp, alloc, n, now, fills) && n < |alloc| && alloc[n] == 0
    ensures ServedTo(b, opp, alloc, n + 1, now, fills)
  {
    var ls := b.SideOf(opp);
    EachStep(ls[0].orders, alloc, n, Trade(ls[0].price));
    hide Served, Each;
    ServeOne(ls[0].orders, alloc, n);
    assert fills + [] == fills;
  }

  lemma ServeNext(b: Book, opp: Side, alloc: seq<nat>, n: nat, now: Book, fills: seq<Fill>,
      fills': seq<Fill>)
    requires ServedTo(b, opp, alloc, n, now, fills) && n < |alloc| && alloc[n] > 0
    requires
      var os := b.SideOf(opp)[0].orders;
      SitsAt(now, os[n].id, opp, 0, |Each(os[..n], alloc[..n], Stay)|)
    requires
      var o := b.SideOf(opp)[0].orders[n];
      var filled := ApplyFill(now, o.id, alloc[n]).value;
      fills' == if filled > 0 then fills + [Fill(o.id, b.SideOf(opp)[0].price, filled)] else fills
    ensures
      var o := b.SideOf(opp)[0].orders[n];
      ServedTo(b, opp, alloc, n + 1, ApplyFill(now, o.id, alloc[n]).book, fills')
  {
    var ls := b.SideOf(opp);
    var os := ls[0].orders;
    var k := |Each(os[..n], alloc[..n], Stay)|;
    EachStep(os, alloc, n, Trade(ls[0].price));
    NextInLine(b, opp, alloc, n, now, fills);
    hide Served, Each, StrikeAt, ApplyFill, SitsAt;
    ServeOne(os, alloc, n);
    FillAtItsSeat(now, os[n].id, opp, 0, k, alloc[n]);
    SetQueueTwice(ls, Served(os, alloc, n), Served(os, alloc, n + 1));
    assert fills + [] == fills;
  }

  lemma SetQueueTwice(ls: seq<Level>, q: seq<Ord>, q': seq<Ord>)
    requires ls != [] && q != []
    ensures SetQueue(SetQueue(ls, 0, q), 0, q') == SetQueue(ls, 0, q')
  {
    assert RemoveAt(ls[0 := Level(ls[0].price, q)], 0) == RemoveAt(ls, 0);
  }

  lemma ServeEnd(b: Book, side: Side, qty: nat, minFill: nat, now: Book, fills: seq<Fill>)
    requires b.SideOf(Opposite(side)) != [] && Shown(b.SideOf(Opposite(side))[0].orders) > 0
    requires
      var os := b.SideOf(Opposite(side))[0].orders;
      ServedTo(b, Opposite(side), Offers(os, qty, minFill, Shown(os)), |os|, now, fills)
    ensures ProRataMatch(b, side, qty, minFill) == Outcome(fills, now)
  {
    var ls := b.SideOf(Opposite(side));
    EachAll(ls[0].orders, Offers(ls[0].orders, qty, minFill, Shown(ls[0].orders)), Trade(ls[0].price));
    hide Served, Each, Offers, Shown;
  }

  lemma NothingToServe(b: Book, side: Side, qty: nat, minFill: nat)
    requires b.SideOf(Opposite(side)) == [] || Shown(b.SideOf(Opposite(side))[0].orders) == 0
    ensures ProRataMatch(b, side, qty, minFill) == Outcome([], b)
  {
  }

  lemma BestQueue(r: Rep, side: Side)
    requires RepOk(r) && r.View(side) != []
    ensures Queue(side, r.View(side), r.View(side)[0].price) == r.View(side)[0].orders
    ensures r.View(side)[0].orders != []
  {
    var s := r.Side(side);
    ViewSorted(side, r.mem, s.v, s.lists);
    LowerFinds(side, r.View(side), 0);
    assert r.View(side)[0].orders == Views(r.mem, s.lists[0]);
    assert s.lists[0] != [];
  }

  method MatchFifo(book: OrderBook, side: Side, qty: nat) returns (fills: seq<Fill>)
    requires book.Valid()
    modifies book`idSlots, book.pool`freelist, book.pool.buffer
    modifies book.Ladder(Opposite(side))`v, book.Ladder(Opposite(side))`lists
    ensures book.Valid()
    ensures Outcome(fills, book.Abs()) == MatchSpec(Fifo, old(book.Abs()), side, qty)
  {
    fills := book.MarketOrder(side, qty);
  }

  method MatchProRata(book: OrderBook, side: Side, qty: nat, minFill: nat) returns (fills: seq<Fill>)
    requires book.Valid()
    modifies book`idSlots, book.pool`freelist, book.pool.buffer
    modifies book.bids`v, book.bids`lists, book.asks`v, book.asks`lists
    ensures book.Valid()
    ensures Outcome(fills, book.Abs()) == MatchSpec(ProRataPolicy(minFill), old(book.Abs()), side, qty)
  {
    hide RepOk, ServedTo, ProRataMatch, SameKeys, SitsAt, Rep.View, BookSpec.ApplyFill, Each, Shown;
    fills := [];
    var opp := Opposite(side);
    ghost var b := book.Abs();
    ghost var mem := book.pool.buffer[..];
    ViewsOfAbs(book.State(), opp);
    var best := book.Best(opp);
    if best.None? {
      NothingToServe(b, side, qty, minFill);
      return;
    }
    BestQueue(book.State(), opp);
    LevelIdsUnique(book.State(), opp, 0);
    var orders := book.GetLevelOrders(opp, best.value);
    if orders == [] {
      assert false;
    }
    var os := Views(book.pool.buffer[..], orders);
    assert os == b.SideOf(opp)[0].orders;
    var total, alloc := Apportion(os, qty, minFill);
    if total == 0 {
      NothingToServe(b, side, qty, minFill);
      return;
    }
    ServeStart(b, opp, alloc);
    SameKeysRefl(mem);
    var i := 0;
    while i < |orders|
      invariant 0 <= i <= |orders| == |alloc|
      invariant book.Valid() && SameKeys(mem, book.pool.buffer[..])
      invariant ServedTo(b, opp, alloc, i, book.Abs(), fills)
    {
      if alloc[i] == 0 {
        ServeNone(b, opp, alloc, i, book.Abs(), fills);
      } else {
        ghost var now, was, before := book.Abs(), fills, book.pool.buffer[..];
        KeyKept(mem, before, orders[i]);
        var id := book.pool.buffer[orders[i]].orderId;
        NextInLine(b, opp, alloc, i, now, fills);
        ViewsOfAbs(book.State(), opp);
        SeatOfView(book.State(), opp, 0, |Each(os[..i], alloc[..i], Stay)|);
        var filled := book.ApplyFill(id, alloc[i]);
        SameKeysTrans(mem, before, book.pool.buffer[..]);
        if filled > 0 {
          fills := fills + [Fill(id, best.value, filled)];
        }
        ServeNext(b, opp, alloc, i, now, was, fills);
      }
      i := i + 1;
    }
    ServeEnd(b, side, qty, minFill, book.Abs(), fills);
  }

  lemma ViewsOfAbs(r: Rep, side: Side)
    ensures r.Abs().SideOf(side) == r.View(side)
    ensures r.Abs().stops == r.Stops()
  {
  }

  lemma KeyKept(mem: seq<Order>, mem': seq<Order>, x: nat)
    requires SameKeys(mem, mem') && x < |mem|
    ensures |mem'| == |mem| && mem'[x].orderId == mem[x].orderId
  {
  }
}
