// When the stops of the cascade fire, and what a stop that fires becomes: stated over trade
// prices and trigger prices, and over the two sides of the book.
module StopLaws {
  import opened LobTypes
  import opened Sums
  import opened BookSpec
  import opened BookLaws
  import opened MarketLaws
  import opened Policies
  import opened EngineSpec
  import opened EngineLaws
  import opened Ledgers
  import opened Ids

  // ----- which stop fires -----

  /** A draining loop in which every pending stop of the queue is on the safe side of the trade
      price executes nothing and requeues them all. */
  lemma {:induction false} SafeStopsWait(p: Policy, e: Engine, q: seq<nat>, last: int)
    requires forall id :: id in q && id in e.book.stops ==>
               var s := e.book.stops[id]; (s.side == Buy ==> last < s.trigger) && (s.side == Sell ==> s.trigger < last)
    ensures Drain(p, e, q, last) == e.(queued := e.queued + Live(e.book.stops, q))
    decreases |q|
  {
    if q == [] {
      assert e.queued + [] == e.queued;
    } else {
      var stops := e.book.stops;
      SafeStopsWait(p, if q[0] in stops then e.(queued := e.queued + [q[0]]) else e, q[1..], last);
      if q[0] in stops {
        assert e.queued + ([q[0]] + Live(stops, q[1..])) == (e.queued + [q[0]]) + Live(stops, q[1..]);
      } else {
        assert [] + Live(stops, q[1..]) == Live(stops, q[1..]);
      }
    }
  }

  /** The first pending stop of the queue that the trade price reaches, a buy stop from below or
      a sell stop from above, is the next one executed. */
  lemma {:induction false} FirstReachedFires(p: Policy, e: Engine, q: seq<nat>, last: int, k: nat)
    requires Sound(e) && k < |q| && q[k] in e.book.stops
    requires
      var s := e.book.stops[q[k]];
      (s.side == Buy && s.trigger <= last) || (s.side == Sell && last <= s.trigger)
    requires forall j :: 0 <= j < k && q[j] in e.book.stops ==>
               && (e.book.stops[q[j]].side == Buy ==> last < e.book.stops[q[j]].trigger)
               && (e.book.stops[q[j]].side == Sell ==> e.book.stops[q[j]].trigger < last)
    ensures
      var r := Drain(p, e, q, last);
      |e.executed| < |r.executed| && r.executed[|e.executed|] == q[k]
    decreases k
  {
    if k == 0 {
      hide Drain;
      FrontIsNext(p, e, q, last);
    } else {
      FirstReachedFires(p, if q[0] in e.book.stops then e.(queued := e.queued + [q[0]]) else e, q[1..], last, k - 1);
    }
  }

  /** The position of the first pending stop of `q` that `last` reaches, or the length of `q`. */
  lemma FirstReached(stops: map<nat, Stop>, q: seq<nat>, last: int) returns (k: nat)
    ensures k <= |q|
    ensures forall j :: 0 <= j < k && q[j] in stops ==>
              && (stops[q[j]].side == Buy ==> last < stops[q[j]].trigger)
              && (stops[q[j]].side == Sell ==> stops[q[j]].trigger < last)
    ensures k < |q| ==>
              && q[k] in stops
              && var s := stops[q[k]];
                 (s.side == Buy && s.trigger <= last) || (s.side == Sell && last <= s.trigger)
  {
    k := 0;
    while k < |q|
      invariant k <= |q|
      invariant forall j :: 0 <= j < k && q[j] in stops ==>
                  && (stops[q[j]].side == Buy ==> last < stops[q[j]].trigger)
                  && (stops[q[j]].side == Sell ==> stops[q[j]].trigger < last)
    {
      if q[k] in stops {
        var s := stops[q[k]];
        if (s.side == Buy && s.trigger <= last) || (s.side == Sell && last <= s.trigger) {
          return;
        }
      }
      k := k + 1;
    }
  }

  /** Processing a trade price executes a stop if and only if it reaches a pending one. */
  lemma ProcessFiresIff(p: Policy, e: Engine, last: int)
    requires Sound(e) && Covered(e)
    ensures
      var r := Process(p, e, last);
      && (r.executed != e.executed <==>
            exists id ::
              && id in e.book.stops
              && var s := e.book.stops[id];
                 (s.side == Buy && s.trigger <= last) || (s.side == Sell && last <= s.trigger))
      && (r.executed == e.executed ==> r.book == e.book)
  {
    var e1, q := e.(queued := [], stored := []), e.queued + e.stored;
    var k := FirstReached(e.book.stops, q, last);
    if k < |q| {
      hide Drain;
      FirstReachedFires(p, e1, q, last, k);
    } else {
      SafeStopsWait(p, e1, q, last);
      hide Drain;
      assert forall id :: id in e.book.stops ==> id in q;
    }
  }

  /** A market order executes a stop if and only if it trades and the price of its last fill
      reaches some pending stop; otherwise the stops wait and the book is what the order alone
      makes of it. */
  lemma MarketFiresIff(p: Policy, e: Engine, side: Side, qty: nat)
    requires Sound(e) && Covered(e)
    ensures
      var r := SubmitMarket(p, e, side, qty);
      && (r.engine.executed != e.executed <==>
            && r.fills != []
            && exists id ::
                 && id in e.book.stops
                 && var s, last := e.book.stops[id], r.fills[|r.fills| - 1].price;
                    (s.side == Buy && s.trigger <= last) || (s.side == Sell && last <= s.trigger))
      && (r.engine.executed == e.executed ==> r.engine.book == MatchSpec(p, e.book, side, qty).book)
  {
    MatchKeepsStops(p, e.book, side, qty);
    var m := MatchSpec(p, e.book, side, qty);
    hide MatchSpec;
    if m.value != [] {
      BookStepSound(e, m.book);
      hide Process, Sound;
      ProcessFiresIff(p, e.(book := m.book), m.value[|m.value| - 1].price);
    }
  }

  // ----- what a fired stop becomes -----

  /** A stop-limit that fires always finds a slot: its order joins the tail of the queue at the
      limit price, on the stop's own side, showing at most the display size. */
  lemma FiredStopLimitRests(p: Policy, e: Engine, id: nat)
    requires IdsOk(e.book) && id in e.book.stops && e.book.stops[id].kind == StopLimit
    ensures
      var s, b := e.book.stops[id], e.book;
      var r := Execute(p, e, id);
      var o := Iceberg(b.nextId, s.qty, s.display);
      && r.executed == e.executed + [id] && r.book.stops == b.stops - {id}
      && r.book.nextId == b.nextId + 1 && r.book.free == b.free
      && (s.side == Buy ==> r.book.asks == b.asks && r.book.bids == AddOrder(Buy, b.bids, s.price, o))
      && (s.side == Sell ==> r.book.bids == b.bids && r.book.asks == AddOrder(Sell, b.asks, s.price, o))
      && o.rem + o.hidden == s.qty && (s.display > 0 ==> o.rem <= s.display) && (s.display == 0 ==> o.hidden == 0)
  {
    var s, b := e.book.stops[id], DropStop(e.book, id);
    NextIdAbsent(e.book);
    hide AddOrder, LimitSpec, Absent, IdsOk;
    SubmittedSide(b, s.side, s.price, s.qty, s.display);
  }

  /** A stop-market that fires as the last pending stop is a market order for its quantity: it
      takes from the other side what that can fill, and leaves the stop's own side alone. */
  lemma FiredStopMarketTrades(e: Engine, id: nat)
    requires Sound(e) && Covered(e) && e.book.stops.Keys == {id} && e.book.stops[id].kind == StopMarket
    requires forall side :: Sorted(side, e.book.SideOf(side)) && NoEmpty(e.book.SideOf(side))
                            && Sane(e.book.SideOf(side))
    ensures
      var s, b := e.book.stops[id], e.book;
      var r := Execute(Fifo, e, id);
      && r.executed == e.executed + [id] && r.book.stops == map[]
      && (s.side == Buy ==>
            && r.book.bids == b.bids && Schedule(r.book.asks) == Rest(Schedule(b.asks), s.qty)
            && Liquidity(r.book.asks) == Liquidity(b.asks) - Min(s.qty, Liquidity(b.asks)))
      && (s.side == Sell ==>
            && r.book.asks == b.asks && Schedule(r.book.bids) == Rest(Schedule(b.bids), s.qty)
            && Liquidity(r.book.bids) == Liquidity(b.bids) - Min(s.qty, Liquidity(b.bids)))
  {
    var s, e1 := e.book.stops[id], Detach(e, id);
    var ls := e.book.SideOf(Opposite(s.side));
    DetachProgress(e, id);
    assert e1.book.stops == map[];
    MarketFiresIff(Fifo, e1, s.side, s.qty);
    MatchKeepsStops(Fifo, e1.book, s.side, s.qty);
    MarketConserves(Opposite(s.side), ls, s.qty);
    SweepFollowsSchedule(ls, s.qty);
    ExecutesNow(e, id);
    hide Sweep, Schedule, Sorted, NoEmpty, Sane, Sum, Sound, Covered, Live, Execute, SubmitMarket;
  }

  lemma ExecutesNow(e: Engine, id: nat)
    requires id in e.book.stops && e.book.stops[id].kind == StopMarket
    ensures
      var s := e.book.stops[id];
      Execute(Fifo, e, id) == SubmitMarket(Fifo, Detach(e, id), s.side, s.qty).engine
  {
    hide SubmitMarket, Detach;
  }
}
