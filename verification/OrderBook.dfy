// The order book of src/order_book.cpp: methods that relink the slab, the ladders and
// the id table in place, each proved to do on the abstract book what BookSpec says.
module OrderBooks {
  import opened LobTypes
  import opened Sums
  import opened BookSpec
  import opened Slab
  import opened PriceLadders
  import opened OrderPools
  import opened BookReps

  class OrderBook {
    const bids: PriceLadder
    const asks: PriceLadder
    const pool: OrderPool
    var idSlots: seq<Option<nat>>
    var nextOrderId: nat
    var pendingStopStorage: seq<nat>

    ghost function State(): Rep
      reads this, bids, asks, pool, pool.buffer
    {
      Rep(pool.buffer[..], Shelf(bids.v, bids.lists), Shelf(asks.v, asks.lists),
              idSlots, pool.freelist, nextOrderId, pendingStopStorage)
    }

    ghost predicate Valid()
      reads this, bids, asks, pool, pool.buffer
    {
      bids.side == Buy && asks.side == Sell && RepOk(State())
    }

    /** The abstract book. */
    ghost function Abs(): Book
      reads this, bids, asks, pool, pool.buffer
    {
      State().Abs()
    }

    constructor (expectedOrders: nat)
      ensures Valid() && State() == NewRep(expectedOrders)
      ensures Abs() == Book([], [], 1, expectedOrders, map[])
      ensures fresh(bids) && fresh(asks) && fresh(pool) && fresh(pool.buffer)
    {
      bids := new PriceLadder(Buy);
      asks := new PriceLadder(Sell);
      pool := new OrderPool(expectedOrders);
      idSlots := seq(expectedOrders * 2 + 8, _ => None);
      nextOrderId := 1;
      pendingStopStorage := [];
      new;
      NewBookOk(State());
    }

    function Ladder(side: Side): PriceLadder {
      if side.Buy? then bids else asks
    }

    // ----- PriceLevel::push_back and PriceLevel::remove -----

    static method PushBack(pool: OrderPool, l: PriceLadder, i: nat, o: nat)
      requires i < |l.v| && i < |l.lists| && o < pool.buffer.Length && o !in l.lists[i]
      requires Linked(pool.buffer[..], l.v[i].level, l.lists[i])
      modifies pool.buffer, l`v, l`lists
      ensures PushedBack(old(pool.buffer[..]), pool.buffer[..], old(l.lists[i]), o)
      ensures l.v == old(l.v)[i := Node(old(l.v)[i].price,
          Grown(old(l.v)[i].level, o, old(pool.buffer[o].remainingQty)))]
      ensures l.lists == old(l.lists)[i := old(l.lists)[i] + [o]]
    {
      var lvl := l.v[i].level;
      pool.buffer[o] := pool.buffer[o].(next := None);
      pool.buffer[o] := pool.buffer[o].(prev := lvl.tail);
      if lvl.tail.Some? {
        pool.buffer[lvl.tail.value] := pool.buffer[lvl.tail.value].(next := Some(o));
      }
      lvl := lvl.(tail := Some(o));
      if lvl.head.None? {
        lvl := lvl.(head := Some(o));
      }
      lvl := lvl.(cnt := lvl.cnt + 1);
      lvl := lvl.(aggQty := lvl.aggQty + pool.buffer[o].remainingQty);
      l.v := l.v[i := Node(l.v[i].price, lvl)];
      l.lists := l.lists[i := l.lists[i] + [o]];
    }

    static method Remove(pool: OrderPool, l: PriceLadder, i: nat, o: nat, ghost k: nat)
      requires i < |l.v| && i < |l.lists| && k < |l.lists[i]| && l.lists[i][k] == o && o < pool.buffer.Length
      requires Linked(pool.buffer[..], l.v[i].level, l.lists[i])
      requires pool.buffer[o].remainingQty <= l.v[i].level.aggQty && l.v[i].level.cnt > 0
      modifies pool.buffer, l`v, l`lists
      ensures Unlinked(old(pool.buffer[..]), pool.buffer[..], old(l.lists[i]), k)
      ensures l.v == old(l.v)[i := Node(old(l.v)[i].price,
          Shrunk(old(l.v)[i].level, old(l.lists[i]), k, old(pool.buffer[o].remainingQty)))]
      ensures l.lists == old(l.lists)[i := RemoveAt(old(l.lists)[i], k)]
      ensures pool.buffer[o] == old(pool.buffer[o]).(prev := None, next := None)
    {
      var lvl := l.v[i].level;
      var prev, next := pool.buffer[o].prev, pool.buffer[o].next;
      assert pool.buffer[..][l.lists[i][k]] == pool.buffer[o];
      assert prev == At(l.lists[i], k - 1) && next == At(l.lists[i], k + 1);
      if prev.Some? {
        pool.buffer[prev.value] := pool.buffer[prev.value].(next := next);
      } else {
        lvl := lvl.(head := next);
      }
      if next.Some? {
        pool.buffer[next.value] := pool.buffer[next.value].(prev := prev);
      } else {
        lvl := lvl.(tail := prev);
      }
      lvl := lvl.(cnt := lvl.cnt - 1);
      lvl := lvl.(aggQty := lvl.aggQty - pool.buffer[o].remainingQty);
      pool.buffer[o] := pool.buffer[o].(next := None, prev := None);
      l.v := l.v[i := Node(l.v[i].price, lvl)];
      l.lists := l.lists[i := RemoveAt(l.lists[i], k)];
    }
 
    // ----- one resting order -----

    /** Slot `x` is linked at position (i, k) of `side`. */
    ghost predicate LinkedAt(side: Side, i: nat, k: nat, x: nat)
      reads this, bids, asks
    {
      var l := Ladder(side);
      i < |l.v| && i < |l.lists| && k < |l.lists[i]| && l.lists[i][k] == x
    }

    /** Write back the order in slot `x` and its level, whose aggregate already followed. */
    method Update(side: Side, i: nat, x: nat, o: Order, level: PriceLevel, ghost k: nat)
      requires Valid() && LinkedAt(side, i, k, x) && x < pool.buffer.Length
      requires SameKey(pool.buffer[x], o) && o.prev == pool.buffer[x].prev && o.next == pool.buffer[x].next
      requires o.hiddenQty > 0 ==> o.displayQty > 0
      requires Ladder(side).v[i].level.aggQty + o.remainingQty >= pool.buffer[x].remainingQty
      requires level == Ladder(side).v[i].level
          .(aggQty := Ladder(side).v[i].level.aggQty + o.remainingQty - pool.buffer[x].remainingQty)
      modifies pool.buffer, Ladder(side)`v
      ensures Valid() && LinkedAt(side, i, k, x) && pool.buffer[x] == o
      ensures SameKeys(old(pool.buffer[..]), pool.buffer[..])
      ensures
        var ls := old(Abs()).SideOf(side);
        && i < |ls| && k < |ls[i].orders|
        && Abs() == old(Abs()).With(side, ls[i := Level(ls[i].price, ls[i].orders[k := o.View()])])
    {
      hide RepOk, NodeOk, LadderView, SameKeys;
      ghost var r := State();
      LinkedOrder(r, side, i, k);
      var l := Ladder(side);
      pool.buffer[x] := o;
      l.v := l.v[i := Node(l.v[i].price, level)];
      RewriteOk(r, State(), side, i, k, o);
    }
 
    /** Peel the next slice of an exhausted iceberg and move it to the tail of its level. */
    method TryReplenishIceberg(side: Side, i: nat, x: nat, ghost k: nat) returns (replenished: bool)
      requires Valid() && LinkedAt(side, i, k, x) && x < pool.buffer.Length && pool.buffer[x].remainingQty == 0
      modifies pool.buffer, Ladder(side)`v, Ladder(side)`lists
      ensures Valid()
      ensures
        var ls := old(Abs()).SideOf(side);
        && i < |ls| && k < |ls[i].orders|
        && replenished == Refills(ls[i].orders[k])
        && Abs() == (if !replenished then old(Abs()) else
             old(Abs()).With(side, ls[i :=
               Level(ls[i].price, RemoveAt(ls[i].orders, k) + [Replenish(ls[i].orders[k])])]))
      ensures !replenished ==> LinkedAt(side, i, k, x)
      ensures SameKeys(old(pool.buffer[..]), pool.buffer[..])
    {
      hide RepOk, NodeOk, LadderView, Grown, Shrunk, Linked, Unlinked, PushedBack, Visible, SameKeys;
      ghost var r := State();
      LinkedOrder(r, side, i, k);
      var l := Ladder(side);
      if pool.buffer[x].displayQty == 0 || pool.buffer[x].hiddenQty == 0 {
        SameKeysRefl(r.mem);
        return false;
      }
      NodeLinked(side, r.mem, l.v[i], l.lists[i]);
      Remove(pool, l, i, x, k);
      ghost var mem1 := pool.buffer[..];
      var slice := Min(pool.buffer[x].displayQty, pool.buffer[x].hiddenQty);
      pool.buffer[x] := pool.buffer[x].(hiddenQty := pool.buffer[x].hiddenQty - slice);
      pool.buffer[x] := pool.buffer[x].(remainingQty := slice);
      ghost var mem2 := pool.buffer[..];
      RelinkReady(side, r.mem, mem1, mem2, Node(l.v[i].price, r.Side(side).v[i].level), r.Side(side).lists[i], k);
      PushBack(pool, l, i, x);
      assert l.lists == r.Side(side).lists[i := RemoveAt(r.Side(side).lists[i], k) + [x]];
      assert l.v == r.Side(side).v[i := l.v[i]];
      RequeueOk(r, mem1, mem2, State(), side, i, k);
      replenished := true;
    }
 
    // ----- the id table -----

    method PutId(o: nat)
      requires o < pool.buffer.Length
      modifies this`idSlots
      ensures |idSlots| >= |old(idSlots)| && |idSlots| > pool.buffer[o].orderId
      ensures forall id :: 0 <= id < |idSlots| ==>
                idSlots[id] == if id == pool.buffer[o].orderId then Some(o)
                               else if id < |old(idSlots)| then old(idSlots)[id] else None
    {
      var id := pool.buffer[o].orderId;
      if id >= |idSlots| {
        var need := id + 1;
        var size := if need >= |idSlots| * 2 then need else |idSlots| * 2;
        idSlots := idSlots + seq(size - |idSlots|, _ => None);
      }
      idSlots := idSlots[id := Some(o)];
    }

    method DropId(id: nat)
      modifies this`idSlots
      ensures idSlots == if id < |old(idSlots)| then old(idSlots)[id := None] else old(idSlots)
    {
      if id < |idSlots| {
        idSlots := idSlots[id := None];
      }
    }

    /** Take the order in slot `x` out of its level and erase the level if that empties it. */
    method Unlink(side: Side, i: nat, x: nat, ghost k: nat)
      requires Valid() && LinkedAt(side, i, k, x) && x < pool.buffer.Length
      modifies pool.buffer, Ladder(side)`v, Ladder(side)`lists
      ensures InRange(old(pool.buffer[..]), old(Ladder(side).lists[i]))
      ensures Unlinked(old(pool.buffer[..]), pool.buffer[..], old(Ladder(side).lists[i]), k)
      ensures Shelf(Ladder(side).v, Ladder(side).lists)
           == ShelfWithout(old(State()).Side(side), i, k, old(pool.buffer[x].remainingQty))
      ensures old(State()).Live(x) && pool.buffer[x].orderId == old(pool.buffer[x].orderId)
    {
      hide SameKeys, RepOk, NodeOk, LadderView, Shrunk, Linked, Unlinked, Visible;
      ghost var r := State();
      LinkedOrder(r, side, i, k);
      var l := Ladder(side);
      NodeLinked(side, r.mem, l.v[i], l.lists[i]);
      CountOfLinks(side, r.mem, l.v[i], l.lists[i]);
      Remove(pool, l, i, x, k);
      ShrunkCount(r.Side(side).v[i].level, r.Side(side).lists[i], k, r.mem[x].remainingQty);
      if l.v[i].level.cnt == 0 {
        l.Erase(i);
        assert l.v == RemoveAt(r.Side(side).v, i) && l.lists == RemoveAt(r.Side(side).lists, i);
      }
    }

    /** Take the order in slot `x` out of its level, erase an emptied level, forget its id
        and give the slot back. */
    method DropOrder(side: Side, i: nat, x: nat, ghost k: nat)
      requires Valid() && LinkedAt(side, i, k, x) && x < pool.buffer.Length
      modifies this`idSlots, pool`freelist, pool.buffer, Ladder(side)`v, Ladder(side)`lists
      ensures Valid()
      ensures
        var ls := old(Abs()).SideOf(side);
        && i < |ls| && k < |ls[i].orders|
        && Abs() == old(Abs()).With(side, SetQueue(ls, i, RemoveAt(ls[i].orders, k))).(free := old(Abs()).free + 1)
      ensures SameKeys(old(pool.buffer[..]), pool.buffer[..])
    {
      hide RepOk, NodeOk, LadderView, Unlinked, ShelfWithout, SetQueue, SameKeys, Rep.Stops, Rep.View;
      ghost var r := State();
      var id := pool.buffer[x].orderId;
      Unlink(side, i, x, k);
      DropId(id);
      pool.Deallocate(x);
      RemoveOk(r, State(), side, i, k);
    }

    /** Fill `take` of the order in slot `x`, whose level already became `level`: replenish
        or drop it when its visible slice is exhausted. */
    method Strike(side: Side, i: nat, x: nat, take: nat, level: PriceLevel, ghost k: nat)
      requires Valid() && LinkedAt(side, i, k, x) && x < pool.buffer.Length
      requires take <= pool.buffer[x].remainingQty && take <= Ladder(side).v[i].level.aggQty
      requires level == Ladder(side).v[i].level.(aggQty := Ladder(side).v[i].level.aggQty - take)
      modifies this`idSlots, pool`freelist, pool.buffer, Ladder(side)`v, Ladder(side)`lists
      ensures Valid()
      ensures
        var ls := old(Abs()).SideOf(side);
        && i < |ls| && k < |ls[i].orders| && take <= ls[i].orders[k].rem
        && Abs() == old(Abs()).With(side, SetQueue(ls, i, StrikeAt(ls[i].orders, k, take)))
                      .(free := old(Abs()).free + Gone(ls[i].orders[k], take))
      ensures SameKeys(old(pool.buffer[..]), pool.buffer[..])
    {
      hide RepOk, NodeOk, LadderView, SetQueue, StrikeAt, SameKeys;
      ghost var mem := pool.buffer[..];
      ghost var b := Abs();
      LinkedOrder(State(), side, i, k);
      StrikeInSteps(b.SideOf(side), i, k, take);
      var cur := pool.buffer[x];
      Update(side, i, x, cur.(remainingQty := cur.remainingQty - take), level, k);
      if pool.buffer[x].remainingQty == 0 {
        ghost var mem1 := pool.buffer[..];
        var replenished := TryReplenishIceberg(side, i, x, k);
        SameKeysTrans(mem, mem1, pool.buffer[..]);
        if !replenished {
          ghost var mem2 := pool.buffer[..];
          DropOrder(side, i, x, k);
          SameKeysTrans(mem, mem2, pool.buffer[..]);
        }
      }
    }
 
    // ----- market orders -----

    /** One turn of the market loop: trade against the head of the best level. */
    method StrikeHead(side: Side, toFill: nat) returns (fill: Fill)
      requires Valid() && Ladder(side).v != []
      modifies this`idSlots, pool`freelist, pool.buffer, Ladder(side)`v, Ladder(side)`lists
      ensures Valid()
      ensures
        var ls := old(Abs()).SideOf(side);
        && ls != [] && ls[0].orders != []
        && fill == StrikeFill(ls, toFill)
        && Abs() == old(Abs()).With(side, BookSpec.Strike(ls, toFill))
                      .(free := old(Abs()).free + Gone(ls[0].orders[0], Min(toFill, ls[0].orders[0].rem)))
    {
      hide RepOk, NodeOk, LadderView, SetQueue, StrikeAt;
      ghost var r := State();
      HeadOfBest(r, side);
      LinkedOrder(r, side, 0, 0);
      var lvl := Ladder(side).v[0].level;
      if lvl.head.None? {
        assert false;
      }
      var x := lvl.head.value;
      var cur := pool.buffer[x];
      var take := Min(toFill, cur.remainingQty);
      fill := Fill(cur.orderId, cur.price, take);
      Strike(side, 0, x, take, DecreaseAggregate(lvl, take), 0);
    }

    method MarketOrder(side: Side, qty: nat) returns (fills: seq<Fill>)
      requires Valid()
      modifies this`idSlots, pool`freelist, pool.buffer, Ladder(Opposite(side))`v, Ladder(Opposite(side))`lists
      ensures Valid()
      ensures fills == Market(old(Abs()), side, qty).value
      ensures Abs() == Market(old(Abs()), side, qty).book
    {
      hide RepOk, BookSpec.Strike, Market, Midway, LadderView;
      var opp := Opposite(side);
      ghost var b := Abs();
      var toFill: nat := qty;
      fills := [];
      MidwayStart(b, opp, qty);
      while toFill > 0 && Ladder(opp).v != []
        invariant Valid()
        invariant Midway(b, opp, qty, Abs(), fills, toFill)
        decreases toFill, Sum(Abs().SideOf(opp), LevelHidden), Sum(Abs().SideOf(opp), LevelCount)
      {
        ghost var now := Abs();
        var fill := StrikeHead(opp, toFill);
        StrikeDecreases(now.SideOf(opp), toFill);
        MidwayTurn(b, opp, qty, now, fills, toFill, Abs());
        toFill := toFill - fill.qty;
        fills := fills + [fill];
      }
      EmptyView(State(), opp);
      MidwayEnd(b, opp, qty, Abs(), fills, toFill);
    }

    // ----- operations by id -----

    /** find_id: the slot registered under `id`. */
    function FindId(id: nat): Option<nat>
      reads this
    {
      if id < |idSlots| then idSlots[id] else None
    }

    /** The level where the live limit order in slot `x` is linked, found by its price. */
    method Locate(x: nat) returns (i: nat, ghost k: nat)
      requires Valid() && State().Live(x) && pool.buffer[x].stopType == NoStop
      ensures LinkedAt(pool.buffer[x].side, i, k, x)
    {
      hide RepOk, NodeOk, LadderView;
      ghost var r := State();
      var side := pool.buffer[x].side;
      SideSorted(r, side);
      i := Ladder(side).Find(pool.buffer[x].price);
      LevelAtPrice(r, x, i);
      k :| 0 <= k < |Ladder(side).lists[i]| && Ladder(side).lists[i][k] == x;
    }

    method CancelOrder(id: nat) returns (ok: bool)
      requires Valid() && id !in Abs().stops
      modifies this`idSlots, pool`freelist, pool.buffer, bids`v, bids`lists, asks`v, asks`lists
      ensures Valid()
      ensures ok == Cancel(old(Abs()), id).value
      ensures Abs() == Cancel(old(Abs()), id).book
    {
      hide RepOk, NodeOk, LadderView, SetQueue, SitsAt, Take, Resting;
      ghost var r := State();
      RestsIffInTable(r, id);
      var f := FindId(id);
      if f.None? {
        return false;
      }
      var x := f.value;
      TableEntry(r, id);
      var side := pool.buffer[x].side;
      ghost var k: nat;
      var i: nat;
      i, k := Locate(x);
      FoundWhereLinked(r, side, i, k);
      AtItsSeat(r.Abs(), id, side, i, k, pool.buffer[x].View());
      DropOrder(side, i, x, k);
      ok := true;
    }

    method ConfigureIceberg(id: nat, display: nat) returns (ok: bool)
      requires Valid() && id !in Abs().stops
      modifies pool.buffer, bids`v, asks`v
      ensures Valid()
      ensures ok == Configure(old(Abs()), id, display).value
      ensures Abs() == Configure(old(Abs()), id, display).book
    {
      hide RepOk, NodeOk, LadderView, SitsAt, Resting, Configure;
      ghost var r := State();
      RestsIffInTable(r, id);
      var f := FindId(id);
      if f.None? || display == 0 {
        NoConfigure(r.Abs(), id, display);
        return false;
      }
      var x := f.value;
      TableEntry(r, id);
      var o := pool.buffer[x];
      ghost var k: nat;
      var i: nat;
      i, k := Locate(x);
      FoundWhereLinked(r, o.side, i, k);
      LinkedOrder(r, o.side, i, k);
      var oldRem := o.remainingQty;
      o := o.(displayQty := display);
      o := o.(hiddenQty := if o.qty > display then o.qty - display else 0);
      o := o.(remainingQty := Min(display, o.qty));
      var level := Ladder(o.side).v[i].level;
      ConfigureAtItsSeat(r.Abs(), id, o.side, i, k, display);
      Update(o.side, i, x, o, AdjustAggregate(level, o.remainingQty - oldRem), k);
      ok := true;
    }

    method ApplyFill(id: nat, qty: nat) returns (filled: nat)
      requires Valid() && id !in Abs().stops
      modifies this`idSlots, pool`freelist, pool.buffer, bids`v, bids`lists, asks`v, asks`lists
      ensures Valid()
      ensures filled == BookSpec.ApplyFill(old(Abs()), id, qty).value
      ensures Abs() == BookSpec.ApplyFill(old(Abs()), id, qty).book
      ensures SameKeys(old(pool.buffer[..]), pool.buffer[..])
    {
      hide SameKeys, RepOk, NodeOk, LadderView, SetQueue, StrikeAt, SitsAt, Resting;
      ghost var r := State();
      RestsIffInTable(r, id);
      var f := FindId(id);
      if f.None? {
        SameKeysRefl(r.mem);
        return 0;
      }
      var x := f.value;
      TableEntry(r, id);
      var o := pool.buffer[x];
      filled := Min(qty, o.remainingQty);
      ghost var k: nat;
      var i: nat;
      i, k := Locate(x);
      FoundWhereLinked(r, o.side, i, k);
      LinkedOrder(r, o.side, i, k);
      FillAtItsSeat(r.Abs(), id, o.side, i, k, qty);
      var taken: int := filled;
      Strike(o.side, i, x, filled, AdjustAggregate(Ladder(o.side).v[i].level, -taken), k);
    }
 
    // ----- adding and modifying -----

    /** find_or_emplace the level for `price` and push_back the order in slot `o` there. */
    method Enqueue(side: Side, price: int, o: nat) returns (i: nat)
      requires PricesSorted(side, Ladder(side).v) && |Ladder(side).lists| == |Ladder(side).v|
          && Ladder(side).side == side
      requires forall j: nat :: LowerAt(side, Ladder(side).v, price, j) ==>
                 Pushable(pool.buffer[..], Shelf(Ladder(side).v, Ladder(side).lists), j, price, o)
      modifies pool.buffer, Ladder(side)`v, Ladder(side)`lists
      ensures
        var l := Ladder(side);
        var s := old(Shelf(l.v, l.lists));
        var e := Emplaced(s, i, price);
        && LowerAt(side, s.v, price, i)
        && Pushable(old(pool.buffer[..]), s, i, price, o)
        && PushedBack(old(pool.buffer[..]), pool.buffer[..], e.lists[i], o)
        && Shelf(l.v, l.lists)
           == Shelf(e.v[i := Node(price, Grown(e.v[i].level, o, old(pool.buffer[..])[o].remainingQty))],
             e.lists[i := e.lists[i] + [o]])
    {
      var l := Ladder(side);
      ghost var s := Shelf(l.v, l.lists);
      i := l.FindOrEmplace(price);
      assert Shelf(l.v, l.lists) == Emplaced(s, i, price);
      hide Emplaced, LowerAt, Linked, Grown, PushedBack;
      PushBack(pool, l, i, o);
    }

    method AddLimitOrder(side: Side, price: int, qty: nat) returns (id: nat)
      requires Valid()
      modifies this`idSlots, this`nextOrderId, pool`freelist, pool.buffer, Ladder(side)`v, Ladder(side)`lists
      ensures Valid()
      ensures id == AddLimit(old(Abs()), side, price, qty).value
      ensures Abs() == AddLimit(old(Abs()), side, price, qty).book
    {
      hide RepOk, NodeOk, LadderView, Grown, AddOrder, Linked, Emplaced, PushedBack, LowerAt, Rep.View, Rep.Stops;
      ghost var r := State();
      PoolInRange(r);
      var slot := pool.Allocate();
      if slot.None? {
        assert State() == r;
        return 0;
      }
      var o := slot.value;
      pool.buffer[o] := pool.buffer[o].(orderId := nextOrderId);
      nextOrderId := nextOrderId + 1;
      pool.buffer[o] := pool.buffer[o].(price := price);
      pool.buffer[o] := pool.buffer[o].(qty := qty);
      pool.buffer[o] := pool.buffer[o].(remainingQty := qty);
      pool.buffer[o] := pool.buffer[o].(side := side);
      ghost var mem1 := pool.buffer[..];
      assert mem1 == r.mem[o := LimitOrder(r.nextId, side, price, qty)];
      SideSorted(r, side);
      forall j: nat | LowerAt(side, Ladder(side).v, price, j)
        ensures Pushable(mem1, r.Side(side), j, price, o)
      {
        PushReady(r, side, j, price, o, mem1);
      }
      var i := Enqueue(side, price, o);
      PutId(o);
      NewSlotKeys(r, State(), side, i, price, qty, o);
      assert Registered(r, State(), o);
      hide Registered, SameKeysBut;
      AddOk(r, State(), side, i, price, qty, o);
      id := pool.buffer[o].orderId;
    }

    method ModifyOrder(id: nat, newPrice: int, newQty: nat) returns (ok: bool)
      requires Valid() && id !in Abs().stops
      modifies this`idSlots, this`nextOrderId, pool`freelist, pool.buffer, bids`v, bids`lists, asks`v, asks`lists
      ensures Valid()
      ensures ok == Modify(old(Abs()), id, newPrice, newQty).value
      ensures Abs() == Modify(old(Abs()), id, newPrice, newQty).book
    {
      hide RepOk, NodeOk, LadderView, SitsAt, Resting, AddLimit, Modify, Cancel;
      ghost var r := State();
      RestsIffInTable(r, id);
      var f := FindId(id);
      if f.None? {
        NoModify(r.Abs(), id, newPrice, newQty);
        return false;
      }
      var x := f.value;
      TableEntry(r, id);
      var o := pool.buffer[x];
      ghost var k: nat;
      var i: nat;
      i, k := Locate(x);
      FoundWhereLinked(r, o.side, i, k);
      LinkedOrder(r, o.side, i, k);
      ModifyAtItsSeat(r.Abs(), id, o.side, i, k, newPrice, newQty);
      if newPrice == o.price {
        var oldTotal, oldRem := o.qty, o.remainingQty;
        var deltaTotal := newQty - oldTotal;
        var newRem := if deltaTotal >= 0 then oldRem + deltaTotal else Min(oldRem, newQty);
        var deltaRem := newRem - oldRem;
        o := o.(qty := newQty);
        o := o.(remainingQty := newRem);
        Update(o.side, i, x, o, AdjustAggregate(Ladder(o.side).v[i].level, deltaRem), k);
        return true;
      } else {
        var cancelled := CancelOrder(id);
        var newId := AddLimitOrder(o.side, newPrice, newQty);
        return true;
      }
    }

    // ----- pending stops -----

    /** get_order. */
    function GetOrder(id: nat): Option<nat>
      reads this
    {
      FindId(id)
    }

    method AddPendingStop(side: Side, stopPrice: int, qty: nat, kind: StopType, limitPrice: int, display: nat)
      returns (id: nat, ghost slot: nat)
      requires Valid() && kind != NoStop
      modifies this`idSlots, this`nextOrderId, this`pendingStopStorage, pool`freelist, pool.buffer
      ensures Valid()
      ensures
        var s := Stop(slot, side, kind, stopPrice, qty, limitPrice, display);
        && id == AddStop(old(Abs()), s).value
        && Abs() == AddStop(old(Abs()), s).book
      ensures id != 0 ==>
                && GetOrder(id) == Some(slot) && slot < pool.buffer.Length && State().LiveStop(slot)
                && pool.buffer[slot].orderId == id
                && pendingStopStorage == old(pendingStopStorage) + [slot]
                && !old(State().Live(slot))
      ensures id != 0 ==> old(pool.freelist) != [] && slot == old(pool.freelist[|pool.freelist| - 1])
      ensures id == 0 ==> State() == old(State())
    {
      hide RepOk, LadderView, TableOk, StopsOk, Rep.Stops, Rep.View, Rep.Live;
      ghost var r := State();
      PoolInRange(r);
      TablesOf(r);
      slot := 0;
      var got := pool.Allocate();
      if got.None? {
        assert State() == r;
        return 0, 0;
      }
      var o := got.value;
      slot := o;
      pool.buffer[o] := pool.buffer[o].(orderId := nextOrderId);
      nextOrderId := nextOrderId + 1;
      pool.buffer[o] := pool.buffer[o].(side := side, stopPrice := stopPrice, stopType := kind, price := limitPrice);
      pool.buffer[o] := pool.buffer[o].(qty := qty, remainingQty := qty, displayQty := display);
      pool.buffer[o] := pool.buffer[o].(hiddenQty := if display > 0 && qty > display then qty - display else 0);
      ghost var rec := pool.buffer[o];
      assert pool.buffer[..] == r.mem[o := rec];
      PutId(o);
      pendingStopStorage := pendingStopStorage + [o];
      ghost var r' := State();
      OneSlotWritten(r.mem, o, rec);
      assert rec.AsStop(o) == Stop(slot, side, kind, stopPrice, qty, limitPrice, display);
      hide SameKeysBut, Order.AsStop;
      assert Registered(r, r', o);
      hide Registered;
      StopAddOk(r, r', o);
      id := pool.buffer[o].orderId;
    }

    method TakePendingStops() returns (taken: seq<nat>)
      requires Valid()
      modifies this`pendingStopStorage
      ensures Valid() && Abs() == old(Abs())
      ensures taken == old(pendingStopStorage) && State() == old(State()).(storage := [])
    {
      hide RepOk;
      TakeStorageOk(State());
      taken := pendingStopStorage;
      pendingStopStorage := [];
    }

    /** Forget the pending stop `id`; its slot stays out of the freelist until free_order. */
    method DetachPending(id: nat) returns (found: Option<nat>)
      requires Valid() && !Resting(Abs(), id)
      modifies this`idSlots, this`pendingStopStorage
      ensures found.None? <==> id !in old(Abs()).stops
      ensures found.None? ==> State() == old(State())
      ensures found.Some? ==>
                && old(State()).LiveStop(found.value) && old(pool.buffer[..])[found.value].orderId == id
                && old(Abs()).stops[id] == old(pool.buffer[..])[found.value].AsStop(found.value)
                && Detached(old(State()), State(), found.value)
    {
      hide RepOk, LadderView, Resting;
      ghost var r := State();
      TablesOf(r);
      StopIffInTable(r, id);
      RestsIffInTable(r, id);
      hide TableOk, StopsOk, Rep.Stops;
      found := None;
      var it := 0;
      while it < |pendingStopStorage|
        invariant 0 <= it <= |pendingStopStorage| && pendingStopStorage == r.storage && State() == r
        invariant forall k :: 0 <= k < it ==> r.storage[k] < |r.mem| && r.mem[r.storage[k]].orderId != id
      {
        StoredUnder(r, it, id);
        if pool.buffer[pendingStopStorage[it]].orderId == id {
          found := Some(pendingStopStorage[it]);
          pendingStopStorage := RemoveAt(pendingStopStorage, it);
          break;
        }
        it := it + 1;
      }
      assert found.Some? ==>
          it < |r.storage| && found == Some(r.storage[it]) && pendingStopStorage == RemoveAt(r.storage, it);
      assert found.None? ==> pendingStopStorage == r.storage;
      var mapped := FindId(id);
      if mapped.Some? {
        if found.None? {
          found := mapped;
        }
        DropId(id);
      }
    }

    /** Give the slot of the stop that detach_pending took off the valid book `before` back to
        the pool; nothing happens when it found none. */
    method FreeOrder(o: Option<nat>, ghost before: Rep)
      requires bids.side == Buy && asks.side == Sell && RepOk(before)
      requires if o.Some? then Detached(before, State(), o.value) else State() == before
      modifies pool`freelist
      ensures Valid()
      ensures o.None? ==> State() == before
      ensures o.Some? ==>
                && State() == Freed(old(State()), o.value)
                && before.mem[o.value].orderId in before.Abs().stops
                && Abs() == DropStop(before.Abs(), before.mem[o.value].orderId)
    {
      hide RepOk, Rep.Stops, LadderView;
      if o.Some? {
        pool.Deallocate(o.value);
        FreedDrops(before, old(State()), o.value);
      }
    }

    // ----- queries -----

    /** get_level_orders: the slots linked at `price`, oldest first. */
    method GetLevelOrders(side: Side, price: int) returns (list: seq<nat>)
      requires Valid()
      ensures InRange(pool.buffer[..], list)
      ensures Views(pool.buffer[..], list) == Queue(side, Abs().SideOf(side), price)
    {
      hide RepOk, LadderView, Queue;
      ghost var r := State();
      SideSorted(r, side);
      list := [];
      var i := Ladder(side).Find(price);
      QueueOfLevel(r, side, i, price);
      if i == |Ladder(side).v| {
        assert Views(r.mem, []) == [];
        return;
      }
      ghost var s := Ladder(side).lists[i];
      var cur := Ladder(side).v[i].level.head;
      while cur.Some?
        invariant |list| <= |s| && list == s[..|list|] && cur == At(s, |list|)
        decreases |s| - |list|
      {
        assert r.mem[s[|list|]].next == At(s, |list| + 1);
        list := list + [cur.value];
        cur := pool.buffer[cur.value].next;
      }
      assert list == s;
    }

    /** best_bid and best_ask. */
    method Best(side: Side) returns (px: Option<int>)
      requires Valid()
      ensures px == BestPrice(Abs().SideOf(side))
    {
      px := if Ladder(side).v == [] then None else Some(Ladder(side).v[0].price);
    }

    /** best_bid_qty and best_ask_qty. */
    method BestQuantity(side: Side) returns (qty: nat)
      requires Valid()
      ensures qty == BestQty(Abs().SideOf(side))
    {
      qty := if Ladder(side).v == [] then 0 else Ladder(side).v[0].level.aggQty;
    }
  }
}
