// The whole state of an OrderBook as one value, and what holds between its parts:
// the slab, the two ladders, the id table, the freelist and the pending stops
// (include/lob/order_book.hpp, src/order_book.cpp, src/order_pool.cpp).
module BookReps {
  import opened LobTypes
  import opened Sums
  import opened BookSpec
  import opened Slab
  import opened PriceLadders

  datatype Shelf = Shelf(v: seq<Node>, lists: seq<seq<nat>>)

  datatype Rep = Rep(mem: seq<Order>, bids: Shelf, asks: Shelf, ids: seq<Option<nat>>,
                     free: seq<nat>, nextId: nat, storage: seq<nat>)
  {
    function Side(side: Side): Shelf {
      if side.Buy? then bids else asks
    }

    function View(side: Side): seq<Level> {
      LadderView(mem, Side(side).v, Side(side).lists)
    }

    /** The id table maps the id in slot `x` back to that slot. */
    predicate Live(x: nat) {
      x < |mem| && mem[x].orderId < |ids| && ids[mem[x].orderId] == Some(x)
    }

    predicate LiveStop(x: nat) {
      Live(x) && mem[x].stopType != NoStop
    }

    /** The slot that the next allocation pops. */
    function Top(): nat
      requires free != []
    {
      free[|free| - 1]
    }

    /** The abstract book. */
    ghost function Abs(): Book {
      Book(View(Buy), View(Sell), nextId, |free|, Stops())
    }

    function Stops(): map<nat, Stop> {
      map id: nat | id < |ids| && ids[id].Some? && LiveStop(ids[id].value) && mem[ids[id].value].orderId == id ::
        mem[ids[id].value].AsStop(ids[id].value)
    }
  }

  /** One side: lists and caches agree, no level is empty, icebergs can refill. */
  predicate ShelfOk(side: Side, mem: seq<Order>, s: Shelf) {
    && LadderOk(side, mem, s.v, s.lists)
    && (forall i :: 0 <= i < |s.lists| ==> s.lists[i] != [])
    && Sane(LadderView(mem, s.v, s.lists))
  }

  /** Ids are dense, never shared and never reused. */
  predicate TableOk(r: Rep) {
    && r.nextId > 0
    && (forall id :: 0 <= id < |r.ids| && r.ids[id].Some? ==>
          id > 0 && r.ids[id].value < |r.mem| && r.mem[r.ids[id].value].orderId == id)
    && (forall x :: 0 <= x < |r.mem| ==> r.mem[x].orderId < r.nextId)
    && (forall x, y :: 0 <= x < |r.mem| && 0 <= y < |r.mem| && x != y && r.mem[x].orderId == r.mem[y].orderId ==>
          r.mem[x].orderId == 0)
  }

  /** The freelist holds exactly the slots that are not live, each once. */
  predicate PoolOk(r: Rep) {
    && Distinct(r.free)
    && InRange(r.mem, r.free)
    && (forall x :: 0 <= x < |r.mem| ==> (x in r.free <==> !r.Live(x)))
  }

  /** Live limit orders are exactly the linked ones. */
  ghost predicate HomesOk(r: Rep) {
    && (forall x :: 0 <= x < |r.mem| && r.Live(x) && r.mem[x].stopType.NoStop? ==>
          Listed(r.Side(r.mem[x].side).lists, x))
    && (forall x :: Listed(r.bids.lists, x) ==> r.Live(x))
    && (forall x :: Listed(r.asks.lists, x) ==> r.Live(x))
  }

  /** The storage of the book holds pending stops only, each once. */
  predicate StopsOk(r: Rep) {
    && Distinct(r.storage)
    && (forall k :: 0 <= k < |r.storage| ==> r.LiveStop(r.storage[k]))
  }

  ghost predicate RepOk(r: Rep) {
    && ShelfOk(Buy, r.mem, r.bids)
    && ShelfOk(Sell, r.mem, r.asks)
    && TableOk(r)
    && PoolOk(r)
    && HomesOk(r)
    && StopsOk(r)
  }

  /** What the constructor leaves: empty ladders, an empty table, every slot free, the last
      one on top. */
  function NewRep(capacity: nat): Rep {
    Rep(seq(capacity, _ => ZERO_ORDER), Shelf([], []), Shelf([], []), seq(capacity * 2 + 8, _ => None),
        seq(capacity, k => k), 1, [])
  }

  /** A new book: empty ladders, an empty table, every slot free. */
  lemma NewBookOk(r: Rep)
    requires r.bids == r.asks == Shelf([], []) && r.nextId == 1 && r.storage == []
    requires forall id :: 0 <= id < |r.ids| ==> r.ids[id] == None
    requires forall x :: 0 <= x < |r.mem| ==> r.mem[x] == ZERO_ORDER
    requires Distinct(r.free) && forall x: nat :: x in r.free <==> x < |r.mem|
    ensures RepOk(r)
    ensures r.Abs() == Book([], [], 1, |r.free|, map[])
  {
    assert forall k :: 0 <= k < |r.free| ==> r.free[k] in r.free;
    assert r.View(Buy) == [] && r.View(Sell) == [];
    assert forall x: nat :: !r.Live(x);
  }

  // ----- pending stops in the table -----

  /** A pending stop is a live slot that is not a limit order. */
  lemma StopIffInTable(r: Rep, id: nat)
    requires TableOk(r)
    ensures id in r.Stops() <==>
              id < |r.ids| && r.ids[id].Some? && r.ids[id].value < |r.mem| && r.mem[r.ids[id].value].stopType != NoStop
    ensures id in r.Stops() ==>
              && r.LiveStop(r.ids[id].value) && r.mem[r.ids[id].value].orderId == id
              && r.Stops()[id] == r.mem[r.ids[id].value].AsStop(r.ids[id].value)
  {
    if id < |r.ids| && r.ids[id].Some? {
      assert r.Live(r.ids[id].value);
    }
  }

  /** Slots of pending stops stay as they are. */
  ghost predicate StopSlotsKept(r: Rep, mem': seq<Order>) {
    && |mem'| == |r.mem|
    && (forall x: nat :: r.LiveStop(x) ==> mem'[x] == r.mem[x])
  }

  lemma StopsKept(r: Rep, r': Rep)
    requires TableOk(r) && TableOk(r') && StopSlotsKept(r, r'.mem)
    requires forall x: nat :: r.LiveStop(x) <==> r'.LiveStop(x)
    ensures r'.Stops() == r.Stops()
  {
    hide Rep.Stops, TableOk;
    forall id: nat
      ensures id in r.Stops() <==> id in r'.Stops()
      ensures id in r.Stops() ==> r.Stops()[id] == r'.Stops()[id]
    {
      StopIffInTable(r, id);
      StopIffInTable(r', id);
      if id in r.Stops() {
        assert r'.LiveStop(r.ids[id].value);
      }
      if id in r'.Stops() {
        assert r.LiveStop(r'.ids[id].value);
      }
    }
    assert r'.Stops().Keys == r.Stops().Keys;
  }

  // ----- what the parts other than the lists depend on -----

  /** The fields of an order that its list, its fills and its rewrites never touch. */
  predicate SameKey(o: Order, o': Order) {
    o'.orderId == o.orderId && o'.side == o.side && o'.stopType == o.stopType && o'.price == o.price
      && o'.stopPrice == o.stopPrice
  }

  predicate SameKeys(mem: seq<Order>, mem': seq<Order>) {
    |mem'| == |mem| && forall x :: 0 <= x < |mem| ==> SameKey(mem[x], mem'[x])
  }

  lemma SameKeysRefl(a: seq<Order>)
    ensures SameKeys(a, a)
  {
  }

  lemma SameKeysTrans(a: seq<Order>, b: seq<Order>, c: seq<Order>)
    requires SameKeys(a, b) && SameKeys(b, c)
    ensures SameKeys(a, c)
  {
  }

  predicate SameKeysBut(mem: seq<Order>, mem': seq<Order>, o: nat) {
    |mem'| == |mem| && forall x :: 0 <= x < |mem| && x != o ==> SameKey(mem[x], mem'[x])
  }

  /** The other side does not see changes confined to slots of this side. */
  lemma OtherShelf(r: Rep, side: Side, mem': seq<Order>, i: nat)
    requires RepOk(r) && i < |r.Side(side).lists|
    requires |mem'| == |r.mem|
    requires forall x :: 0 <= x < |r.mem| && x !in r.Side(side).lists[i] && r.Live(x) ==> mem'[x] == r.mem[x]
    ensures ShelfOk(Opposite(side), mem', r.Side(Opposite(side)))
    ensures LadderView(mem', r.Side(Opposite(side)).v, r.Side(Opposite(side)).lists) == r.View(Opposite(side))
  {
    var other := r.Side(Opposite(side));
    forall x | 0 <= x < |r.mem| && Listed(other.lists, x)
      ensures mem'[x] == r.mem[x]
    {
      ListedSide(r, Opposite(side), x);
      if x in r.Side(side).lists[i] {
        assert Listed(r.Side(side).lists, x);
        ListedSide(r, side, x);
      }
    }
    LadderFrame(Opposite(side), r.mem, mem', other.v, other.lists);
  }

  /** Changes confined to slots of one level do not reach a pending stop. */
  lemma LevelChangesKeepStops(r: Rep, side: Side, mem': seq<Order>, i: nat)
    requires RepOk(r) && i < |r.Side(side).lists|
    requires |mem'| == |r.mem|
    requires forall x :: 0 <= x < |r.mem| && x !in r.Side(side).lists[i] && r.Live(x) ==> mem'[x] == r.mem[x]
    ensures StopSlotsKept(r, mem')
  {
    forall x: nat | r.LiveStop(x)
      ensures mem'[x] == r.mem[x]
    {
      if x in r.Side(side).lists[i] {
        assert Listed(r.Side(side).lists, x);
        ListedSide(r, side, x);
      }
    }
  }

  lemma ListedSide(r: Rep, side: Side, x: nat)
    requires RepOk(r) && Listed(r.Side(side).lists, x)
    ensures x < |r.mem| && r.mem[x].side == side && r.mem[x].stopType == NoStop && r.Live(x)
  {
    var s := r.Side(side);
    var i :| 0 <= i < |s.lists| && x in s.lists[i];
    var k :| 0 <= k < |s.lists[i]| && s.lists[i][k] == x;
    assert NodeOk(side, r.mem, s.v[i], s.lists[i]);
  }

  // ----- rewriting the quantities of a resting order -----

  /** `r'` is `r` after the order at position (i, k) of `side` became `o'`. */
  ghost predicate Rewritten(r: Rep, r': Rep, side: Side, i: nat, k: nat, o': Order) {
    var s := r.Side(side);
    && i < |s.lists| && k < |s.lists[i]| && s.lists[i][k] < |r.mem| && i < |s.v|
    && var x := s.lists[i][k];
    && SameKey(r.mem[x], o') && o'.prev == r.mem[x].prev && o'.next == r.mem[x].next
    && s.v[i].level.aggQty + o'.remainingQty >= r.mem[x].remainingQty
    && var level' := s.v[i].level.(aggQty := s.v[i].level.aggQty + o'.remainingQty - r.mem[x].remainingQty);
    && r'.mem == r.mem[x := o']
    && r'.Side(side) == Shelf(s.v[i := Node(s.v[i].price, level')], s.lists)
    && r'.Side(Opposite(side)) == r.Side(Opposite(side))
    && r'.ids == r.ids && r'.free == r.free && r'.nextId == r.nextId && r'.storage == r.storage
  }

  lemma RewriteNode(
    side: Side, mem: seq<Order>, n: Node, s: seq<nat>, k: nat, o': Order, agg: nat)
    requires NodeOk(side, mem, n, s) && k < |s|
    requires SameKey(mem[s[k]], o') && o'.prev == mem[s[k]].prev && o'.next == mem[s[k]].next
    requires agg + mem[s[k]].remainingQty == n.level.aggQty + o'.remainingQty
    ensures NodeOk(side, mem[s[k] := o'], Node(n.price, n.level.(aggQty := agg)), s)
    ensures Views(mem[s[k] := o'], s) == Views(mem, s)[k := o'.View()]
  {
    RewriteLinks(mem, n.level, s, k, o', n.level.(aggQty := agg));
    RewriteViews(mem, s, k, o');
  }

  lemma SaneUpdate(ls: seq<Level>, i: nat, l: Level)
    requires Sane(ls) && i < |ls| && SaneOrders(l.orders)
    ensures Sane(ls[i := l])
  {
  }

  lemma RewriteShelf(
    side: Side, mem: seq<Order>, s: Shelf, i: nat, k: nat, o': Order, agg: nat)
    requires ShelfOk(side, mem, s) && i < |s.v| && i < |s.lists| && k < |s.lists[i]| && s.lists[i][k] < |mem|
    requires SameKey(mem[s.lists[i][k]], o')
    requires o'.prev == mem[s.lists[i][k]].prev && o'.next == mem[s.lists[i][k]].next
    requires agg + mem[s.lists[i][k]].remainingQty == s.v[i].level.aggQty + o'.remainingQty
    requires o'.hiddenQty > 0 ==> o'.displayQty > 0
    ensures
      var v' := s.v[i := Node(s.v[i].price, s.v[i].level.(aggQty := agg))];
      var mem' := mem[s.lists[i][k] := o'];
      var ls := LadderView(mem, s.v, s.lists);
      && ShelfOk(side, mem', Shelf(v', s.lists))
      && LadderView(mem', v', s.lists) == ls[i := Level(ls[i].price, ls[i].orders[k := o'.View()])]
  {
    var x := s.lists[i][k];
    var mem' := mem[x := o'];
    var n' := Node(s.v[i].price, s.v[i].level.(aggQty := agg));
    assert NodeOk(side, mem, s.v[i], s.lists[i]);
    RewriteNode(side, mem, s.v[i], s.lists[i], k, o', agg);
    assert s.lists[i := s.lists[i]] == s.lists;
    LadderUpdate(side, mem, mem', s.v, s.lists, i, n', s.lists[i]);
    var ls := LadderView(mem, s.v, s.lists);
    SaneUpdate(ls, i, Level(ls[i].price, ls[i].orders[k := o'.View()]));
  }

  lemma RewriteOk(r: Rep, r': Rep, side: Side, i: nat, k: nat, o': Order)
    requires RepOk(r) && Rewritten(r, r', side, i, k, o')
    requires o'.hiddenQty > 0 ==> o'.displayQty > 0
    ensures RepOk(r') && SameKeys(r.mem, r'.mem)
    ensures r'.View(side) == r.View(side)[i := Level(r.View(side)[i].price, r.View(side)[i].orders[k := o'.View()])]
    ensures r'.Abs() == r.Abs().With(side, r'.View(side))
  {
    var s := r.Side(side);
    hide LadderOk, NodeOk, TableOk, PoolOk, StopsOk, Sane, Listed, LadderView, StopSlotsKept;
    RewriteShelf(side, r.mem, s, i, k, o', s.v[i].level.aggQty + o'.remainingQty - r.mem[s.lists[i][k]].remainingQty);
    OtherShelf(r, side, r'.mem, i);
    LevelChangesKeepStops(r, side, r'.mem, i);
    SameKeysKeepTables(r, r');
    Assembled(r, r', side);
  }

  /** The parts of a book make up the whole. */
  lemma Assembled(r: Rep, r': Rep, side: Side)
    requires ShelfOk(side, r'.mem, r'.Side(side))
    requires ShelfOk(Opposite(side), r'.mem, r'.Side(Opposite(side)))
    requires TableOk(r') && PoolOk(r') && HomesOk(r') && StopsOk(r')
    requires r'.View(Opposite(side)) == r.View(Opposite(side))
    requires r'.Stops() == r.Stops()
    ensures RepOk(r')
    ensures r'.Abs() == r.Abs().With(side, r'.View(side)).(nextId := r'.nextId, free := |r'.free|)
  {
    hide ShelfOk, TableOk, PoolOk, HomesOk, StopsOk, LadderView;
  }

  /** When keys and lists stay, so do the table, the pool, the homes and the stops. */
  lemma SameKeysKeepTables(r: Rep, r': Rep)
    requires TableOk(r) && PoolOk(r) && HomesOk(r) && StopsOk(r)
    requires SameKeys(r.mem, r'.mem) && StopSlotsKept(r, r'.mem)
    requires forall x :: Listed(r'.bids.lists, x) <==> Listed(r.bids.lists, x)
    requires forall x :: Listed(r'.asks.lists, x) <==> Listed(r.asks.lists, x)
    requires r'.ids == r.ids && r'.free == r.free && r'.nextId == r.nextId && r'.storage == r.storage
    ensures TableOk(r') && PoolOk(r') && HomesOk(r') && StopsOk(r')
    ensures r'.Stops() == r.Stops()
  {
    assert forall x :: 0 <= x < |r.mem| ==> (r'.Live(x) <==> r.Live(x));
    StopsKept(r, r');
  }

  // ----- lists of a single level -----

  /** The level after push_back of an order with visible slice `rem` in slot `o`. */
  function Grown(l: PriceLevel, o: nat, rem: nat): PriceLevel {
    PriceLevel(if l.head.None? then Some(o) else l.head, Some(o), l.aggQty + rem, l.cnt + 1)
  }

  /** The level `l` of the slots `s` after remove of the k-th, with visible slice `rem`. */
  function Shrunk(l: PriceLevel, s: seq<nat>, k: nat, rem: nat): PriceLevel {
    PriceLevel(if k == 0 then At(s, 1) else l.head, if k == |s| - 1 then At(s, k - 1) else l.tail,
               if rem <= l.aggQty then l.aggQty - rem else 0, if l.cnt > 0 then l.cnt - 1 else 0)
  }

  lemma NodePush(side: Side, mem: seq<Order>, mem': seq<Order>, n: Node, s: seq<nat>, o: nat)
    requires NodeOk(side, mem, n, s) && o < |mem| && o !in s && mem[o].RestsAt(side, n.price)
    requires PushedBack(mem, mem', s, o)
    ensures NodeOk(side, mem', Node(n.price, Grown(n.level, o, mem[o].remainingQty)), s + [o])
    ensures Views(mem', s + [o]) == Views(mem, s) + [mem[o].View()]
  {
    var l' := Grown(n.level, o, mem[o].remainingQty);
    PushBackLinks(mem, mem', n.level, s, o, l');
    PushBackViews(mem, mem', s, o);
    PushedResting(side, mem, mem', n.price, s, o);
  }

  lemma PushedResting(side: Side, mem: seq<Order>, mem': seq<Order>, px: int, s: seq<nat>, o: nat)
    requires InRange(mem, s) && o < |mem| && mem[o].RestsAt(side, px)
    requires forall k :: 0 <= k < |s| ==> mem[s[k]].RestsAt(side, px)
    requires PushedBack(mem, mem', s, o)
    ensures forall k :: 0 <= k < |s + [o]| ==> (s + [o])[k] < |mem'| && mem'[(s + [o])[k]].RestsAt(side, px)
    ensures SameKeys(mem, mem')
  {
  }

  lemma NodeRemove(side: Side, mem: seq<Order>, mem': seq<Order>, n: Node, s: seq<nat>, k: nat)
    requires NodeOk(side, mem, n, s) && k < |s|
    requires Unlinked(mem, mem', s, k)
    ensures mem[s[k]].remainingQty <= n.level.aggQty && n.level.cnt > 0
    ensures NodeOk(side, mem', Node(n.price, Shrunk(n.level, s, k, mem[s[k]].remainingQty)), RemoveAt(s, k))
    ensures Views(mem', RemoveAt(s, k)) == RemoveAt(Views(mem, s), k)
  {
    hide Unlinked, Views, LevelOk, Shrunk;
    LevelRemove(mem, mem', n.level, s, k);
    RemovedResting(side, mem, mem', n.price, s, k);
  }

  lemma LevelRemove(mem: seq<Order>, mem': seq<Order>, l: PriceLevel, s: seq<nat>, k: nat)
    requires LevelOk(mem, l, s) && k < |s|
    requires Unlinked(mem, mem', s, k)
    ensures mem[s[k]].remainingQty <= l.aggQty && l.cnt > 0 && InRange(mem, s)
    ensures LevelOk(mem', Shrunk(l, s, k, mem[s[k]].remainingQty), RemoveAt(s, k))
    ensures Views(mem', RemoveAt(s, k)) == RemoveAt(Views(mem, s), k)
  {
    assert |RemoveAt(s, k)| == |s| - 1;
    hide Unlinked, RemoveAt, Views, Linked, Distinct;
    RangeOfLinks(mem, l, s);
    RemoveViews(mem, mem', s, k);
    RemoveLinks(mem, mem', l, s, k, Shrunk(l, s, k, mem[s[k]].remainingQty));
  }

  lemma RangeOfLinks(mem: seq<Order>, l: PriceLevel, s: seq<nat>)
    requires Linked(mem, l, s)
    ensures InRange(mem, s) && Distinct(s)
  {
  }

  lemma RemovedResting(side: Side, mem: seq<Order>, mem': seq<Order>, px: int, s: seq<nat>, k: nat)
    requires InRange(mem, s) && k < |s|
    requires forall j :: 0 <= j < |s| ==> mem[s[j]].RestsAt(side, px)
    requires Unlinked(mem, mem', s, k)
    ensures SameKeys(mem, mem')
    ensures forall j :: 0 <= j < |RemoveAt(s, k)| ==>
              RemoveAt(s, k)[j] < |mem'| && mem'[RemoveAt(s, k)[j]].RestsAt(side, px)
  {
    forall x: nat | x < |mem|
      ensures SameKey(mem[x], mem'[x])
    {
    }
    hide Unlinked;
    forall j: nat | j < |RemoveAt(s, k)|
      ensures RemoveAt(s, k)[j] < |mem'| && mem'[RemoveAt(s, k)[j]].RestsAt(side, px)
    {
      RemoveAtIndex(s, k, j);
      assert SameKey(mem[RemoveAt(s, k)[j]], mem'[RemoveAt(s, k)[j]]);
    }
  }

  // ----- taking a resting order out of the book -----

  /** The shelf after the order at (i, k), with visible slice `rem`, left; an empty level is erased. */
  function ShelfWithout(s: Shelf, i: nat, k: nat, rem: nat): Shelf
    requires i < |s.v| && i < |s.lists| && k < |s.lists[i]|
  {
    var list' := RemoveAt(s.lists[i], k);
    if list' == [] then Shelf(RemoveAt(s.v, i), RemoveAt(s.lists, i))
    else Shelf(s.v[i := Node(s.v[i].price, Shrunk(s.v[i].level, s.lists[i], k, rem))], s.lists[i := list'])
  }

  /** `r'` is `r` without the order at position (i, k) of `side`. */
  ghost predicate Removed(r: Rep, r': Rep, side: Side, i: nat, k: nat) {
    var s := r.Side(side);
    && i < |s.v| && i < |s.lists| && k < |s.lists[i]| && InRange(r.mem, s.lists[i])
    && var x := s.lists[i][k];
    && Unlinked(r.mem, r'.mem, s.lists[i], k)
    && r'.Side(side) == ShelfWithout(s, i, k, r.mem[x].remainingQty)
    && r'.Side(Opposite(side)) == r.Side(Opposite(side))
    && r.mem[x].orderId < |r.ids| && r'.ids == r.ids[r.mem[x].orderId := None]
    && r'.free == r.free + [x]
    && r'.nextId == r.nextId && r'.storage == r.storage
  }

  lemma SaneRemove(ls: seq<Level>, i: nat)
    requires Sane(ls) && i < |ls|
    ensures Sane(RemoveAt(ls, i))
  {
  }

  lemma SaneTail(os: seq<Ord>, k: nat)
    requires SaneOrders(os) && k < |os|
    ensures SaneOrders(RemoveAt(os, k))
  {
  }

  lemma RemoveShelf(side: Side, mem: seq<Order>, mem': seq<Order>, s: Shelf, i: nat, k: nat)
    requires ShelfOk(side, mem, s) && i < |s.v| && i < |s.lists| && k < |s.lists[i]| && InRange(mem, s.lists[i])
    requires Unlinked(mem, mem', s.lists[i], k)
    ensures
      var s' := ShelfWithout(s, i, k, mem[s.lists[i][k]].remainingQty);
      var ls := LadderView(mem, s.v, s.lists);
      && ShelfOk(side, mem', s')
      && i < |ls| && k < |ls[i].orders|
      && LadderView(mem', s'.v, s'.lists) == SetQueue(ls, i, RemoveAt(ls[i].orders, k))
  {
    var list' := RemoveAt(s.lists[i], k);
    var n' := Node(s.v[i].price, Shrunk(s.v[i].level, s.lists[i], k, mem[s.lists[i][k]].remainingQty));
    var v', lists' := s.v[i := n'], s.lists[i := list'];
    var ls := LadderView(mem, s.v, s.lists);
    assert NodeOk(side, mem, s.v[i], s.lists[i]) && ls[i].orders == Views(mem, s.lists[i]);
    assert SaneOrders(ls[i].orders);
    assert forall j :: 0 <= j < |lists'| && j != i ==> lists'[j] != [];
    var os' := RemoveAt(ls[i].orders, k);
    assert list' == [] <==> os' == [];
    SaneTail(ls[i].orders, k);
    hide NodeOk, LadderOk, LadderView, SaneOrders, Sane, Unlinked, RemoveAt, Shrunk, Views;
    RemoveTouches(mem, mem', s.lists[i], k);
    NodeRemove(side, mem, mem', s.v[i], s.lists[i], k);
    LadderUpdate(side, mem, mem', s.v, s.lists, i, n', list');
    SaneUpdate(ls, i, Level(ls[i].price, os'));
    if list' == [] {
      EraseEmptied(side, mem', v', lists', i);
      ErasedAgain(s.v, i, n');
      ErasedAgain(s.lists, i, list');
      ErasedAgain(ls, i, Level(ls[i].price, os'));
    }
  }

  lemma ErasedAgain<T>(s: seq<T>, i: nat, x: T)
    requires i < |s|
    ensures RemoveAt(s[i := x], i) == RemoveAt(s, i)
  {
  }

  lemma EraseEmptied(side: Side, mem: seq<Order>, v: seq<Node>, lists: seq<seq<nat>>, i: nat)
    requires LadderOk(side, mem, v, lists) && i < |v| && i < |lists| && Sane(LadderView(mem, v, lists))
    requires forall j :: 0 <= j < |lists| && j != i ==> lists[j] != []
    ensures ShelfOk(side, mem, Shelf(RemoveAt(v, i), RemoveAt(lists, i)))
    ensures LadderView(mem, RemoveAt(v, i), RemoveAt(lists, i)) == RemoveAt(LadderView(mem, v, lists), i)
  {
    assert |v| == |lists| == |LadderView(mem, v, lists)|;
    OthersFilled(lists, i);
    hide LadderOk, LadderView, Sane, RemoveAt;
    LadderErase(side, mem, v, lists, i);
    ErasedView(mem, v, lists, i);
    SaneRemove(LadderView(mem, v, lists), i);
  }

  lemma OthersFilled(lists: seq<seq<nat>>, i: nat)
    requires i < |lists| && forall j :: 0 <= j < |lists| && j != i ==> lists[j] != []
    ensures forall j :: 0 <= j < |RemoveAt(lists, i)| ==> RemoveAt(lists, i)[j] != []
  {
    forall j: nat | j < |RemoveAt(lists, i)|
      ensures RemoveAt(lists, i)[j] != []
    {
      RemoveAtIndex(lists, i, j);
    }
  }

  lemma RemoveOk(r: Rep, r': Rep, side: Side, i: nat, k: nat)
    requires RepOk(r) && Removed(r, r', side, i, k)
    ensures RepOk(r') && SameKeys(r.mem, r'.mem)
    ensures i < |r.View(side)| && k < |r.View(side)[i].orders|
    ensures r'.View(side) == SetQueue(r.View(side), i, RemoveAt(r.View(side)[i].orders, k))
    ensures r'.Abs() == r.Abs().With(side, r'.View(side)).(free := |r.free| + 1)
  {
    assert |r'.free| == |r.free| + 1 && r'.nextId == r.nextId;
    hide RepOk, ShelfOk, TableOk, PoolOk, StopsOk, HomesOk, LadderView, Removed, SetQueue, RemoveAt, SameKeys, Dropped,
        StopSlotsKept;
    RemovedShelf(r, r', side, i, k);
    RemoveOther(r, r', side, i, k);
    RemoveKeys(r, r', side, i, k);
    RemoveTables(r, r', side, i, k);
    Assembled(r, r', side);
  }

  lemma RemovedShelf(r: Rep, r': Rep, side: Side, i: nat, k: nat)
    requires RepOk(r) && Removed(r, r', side, i, k)
    ensures ShelfOk(side, r'.mem, r'.Side(side))
    ensures i < |r.View(side)| && k < |r.View(side)[i].orders|
    ensures r'.View(side) == SetQueue(r.View(side), i, RemoveAt(r.View(side)[i].orders, k))
  {
    hide ShelfOk, TableOk, PoolOk, StopsOk, HomesOk, Unlinked, SetQueue, Shrunk;
    RemoveShelf(side, r.mem, r'.mem, r.Side(side), i, k);
  }

  lemma RemoveOther(r: Rep, r': Rep, side: Side, i: nat, k: nat)
    requires RepOk(r) && Removed(r, r', side, i, k)
    ensures ShelfOk(Opposite(side), r'.mem, r'.Side(Opposite(side)))
    ensures r'.View(Opposite(side)) == r.View(Opposite(side))
  {
    hide RepOk, ShelfOk, Unlinked, SetQueue, Shrunk, LadderView;
    RemoveTouches(r.mem, r'.mem, r.Side(side).lists[i], k);
    OtherShelf(r, side, r'.mem, i);
  }

  lemma RemoveTables(r: Rep, r': Rep, side: Side, i: nat, k: nat)
    requires RepOk(r) && Removed(r, r', side, i, k)
    ensures TableOk(r') && PoolOk(r') && HomesOk(r') && StopsOk(r')
    ensures r'.Stops() == r.Stops()
  {
    var x := r.Side(side).lists[i][k];
    assert r'.storage == r.storage && r'.free == r.free + [x];
    hide TableOk, PoolOk, StopsOk, HomesOk, ShelfOk, Listed, Unlinked, Dropped, StopSlotsKept, SameKeys, Removed;
    RemoveKeys(r, r', side, i, k);
    RemoveListed(r, r', side, i, k);
    DropLive(r, r', x);
    DropPool(r, r', x);
    DropHomes(r, r', x);
    DropLimitStops(r, r', x);
  }

  /** A removal drops the id of the removed order and touches no key and no pending stop. */
  lemma RemoveKeys(r: Rep, r': Rep, side: Side, i: nat, k: nat)
    requires RepOk(r) && Removed(r, r', side, i, k)
    ensures Dropped(r, r', r.Side(side).lists[i][k]) && StopSlotsKept(r, r'.mem)
    ensures SameKeys(r.mem, r'.mem) && r.Live(r.Side(side).lists[i][k])
        && r.mem[r.Side(side).lists[i][k]].stopType == NoStop
  {
    var s := r.Side(side);
    assert Listed(s.lists, s.lists[i][k]);
    ListedSide(r, side, s.lists[i][k]);
    assert NodeOk(side, r.mem, s.v[i], s.lists[i]);
    hide TableOk, PoolOk, StopsOk, HomesOk, Sane, Listed;
    RemovedResting(side, r.mem, r'.mem, s.v[i].price, s.lists[i], k);
    RemoveTouches(r.mem, r'.mem, s.lists[i], k);
    LevelChangesKeepStops(r, side, r'.mem, i);
  }

  lemma RemoveTouches(mem: seq<Order>, mem': seq<Order>, s: seq<nat>, k: nat)
    requires k < |s| && InRange(mem, s) && Unlinked(mem, mem', s, k)
    ensures |mem'| == |mem| && forall x :: 0 <= x < |mem| && x !in s ==> mem'[x] == mem[x]
  {
  }

  lemma RemoveListed(r: Rep, r': Rep, side: Side, i: nat, k: nat)
    requires RepOk(r) && Removed(r, r', side, i, k)
    ensures
      var x := r.Side(side).lists[i][k];
      && (forall y :: Listed(r'.bids.lists, y) <==> Listed(r.bids.lists, y) && y != x)
      && (forall y :: Listed(r'.asks.lists, y) <==> Listed(r.asks.lists, y) && y != x)
  {
    var s, other := r.Side(side), r.Side(Opposite(side));
    var x := s.lists[i][k];
    assert Listed(s.lists, x);
    ListedSide(r, side, x);
    assert r'.Side(side).lists == ListsWithout(s.lists, i, k) && r'.Side(Opposite(side)) == other;
    hide TableOk, PoolOk, StopsOk, HomesOk, Sane, Listed, Unlinked, ListsWithout, Removed, NodeOk, LadderView;
    forall y
      ensures Listed(r'.Side(side).lists, y) <==> (Listed(s.lists, y) && y != x)
      ensures Listed(other.lists, y) <==> (Listed(other.lists, y) && y != x)
    {
      ListedAfterRemove(side, r.mem, s, i, k, y);
      if Listed(other.lists, y) {
        ListedSide(r, Opposite(side), y);
      }
    }
    assert side == Buy || side == Sell;
  }

  lemma InRemoveAt(s: seq<nat>, k: nat, y: nat)
    requires Distinct(s) && k < |s|
    ensures y in RemoveAt(s, k) <==> (y in s && y != s[k])
  {
    if y in s && y != s[k] {
      var j :| 0 <= j < |s| && s[j] == y;
      RemoveAtIndex(s, k, if j < k then j else j - 1);
    }
  }

  /** The lists after the order at (i, k) was unlinked and an empty level erased. */
  function ListsWithout(lists: seq<seq<nat>>, i: nat, k: nat): seq<seq<nat>>
    requires i < |lists| && k < |lists[i]|
  {
    var list' := RemoveAt(lists[i], k);
    if list' == [] then RemoveAt(lists, i) else lists[i := list']
  }

  /** Removal unlists exactly the removed slot. */
  lemma ListedAfterRemove(side: Side, mem: seq<Order>, s: Shelf, i: nat, k: nat, y: nat)
    requires LadderOk(side, mem, s.v, s.lists) && i < |s.lists| && k < |s.lists[i]|
    ensures Listed(ListsWithout(s.lists, i, k), y) <==> (Listed(s.lists, y) && y != s.lists[i][k])
  {
    assert NodeOk(side, mem, s.v[i], s.lists[i]);
    assert Distinct(s.lists[i]);
    hide NodeOk, LadderOk, ListsWithout, Distinct;
    InRemoveAt(s.lists[i], k, y);
    StillListed(s.lists, i, k, y);
    if Listed(ListsWithout(s.lists, i, k), y) {
      WasListed(side, mem, s, i, k, y);
    }
  }

  lemma StillListed(lists: seq<seq<nat>>, i: nat, k: nat, y: nat)
    requires i < |lists| && k < |lists[i]|
    requires y in RemoveAt(lists[i], k) <==> (y in lists[i] && y != lists[i][k])
    ensures Listed(lists, y) && y != lists[i][k] ==> Listed(ListsWithout(lists, i, k), y)
  {
    if Listed(lists, y) && y != lists[i][k] {
      var lists' := ListsWithout(lists, i, k);
      var j :| 0 <= j < |lists| && y in lists[j];
      if RemoveAt(lists[i], k) == [] {
        RemoveAtIndex(lists, i, if j < i then j else j - 1);
        assert y in lists'[if j < i then j else j - 1];
      } else {
        assert y in lists'[j];
      }
    }
  }

  lemma WasListed(side: Side, mem: seq<Order>, s: Shelf, i: nat, k: nat, y: nat)
    requires LadderOk(side, mem, s.v, s.lists) && i < |s.lists| && k < |s.lists[i]|
    requires y in RemoveAt(s.lists[i], k) <==> (y in s.lists[i] && y != s.lists[i][k])
    requires Listed(ListsWithout(s.lists, i, k), y)
    ensures Listed(s.lists, y) && y != s.lists[i][k]
  {
    hide LadderOk;
    var lists' := ListsWithout(s.lists, i, k);
    var j :| 0 <= j < |lists'| && y in lists'[j];
    var n := if RemoveAt(s.lists[i], k) == [] && j >= i then j + 1 else j;
    if RemoveAt(s.lists[i], k) == [] {
      RemoveAtIndex(s.lists, i, j);
    }
    assert y in s.lists[n];
    if y == s.lists[i][k] && n != i {
      ListsDisjoint(side, mem, s.v, s.lists, i, n, y);
    }
  }

  /** The id `r.mem[x].orderId` was dropped and nothing else about identities changed. */
  ghost predicate Dropped(r: Rep, r': Rep, x: nat) {
    && SameKeys(r.mem, r'.mem)
    && r.Live(x)
    && r'.ids == r.ids[r.mem[x].orderId := None]
    && r'.nextId == r.nextId
  }

  lemma DropLive(r: Rep, r': Rep, x: nat)
    requires TableOk(r) && Dropped(r, r', x)
    ensures TableOk(r')
    ensures forall y :: r'.Live(y) <==> r.Live(y) && y != x
  {
  }

  lemma DropPool(r: Rep, r': Rep, x: nat)
    requires PoolOk(r) && |r'.mem| == |r.mem| && r.Live(x)
    requires forall y :: r'.Live(y) <==> r.Live(y) && y != x
    requires r'.free == r.free + [x]
    ensures PoolOk(r')
  {
    assert forall y :: y in r'.free <==> y in r.free || y == x;
  }

  lemma DropHomes(r: Rep, r': Rep, x: nat)
    requires HomesOk(r) && SameKeys(r.mem, r'.mem)
    requires forall y :: r'.Live(y) <==> r.Live(y) && y != x
    requires forall y :: Listed(r'.bids.lists, y) <==> Listed(r.bids.lists, y) && y != x
    requires forall y :: Listed(r'.asks.lists, y) <==> Listed(r.asks.lists, y) && y != x
    ensures HomesOk(r')
  {
  }

  lemma DropLimitStops(r: Rep, r': Rep, x: nat)
    requires TableOk(r) && TableOk(r') && StopsOk(r) && r'.storage == r.storage
    requires SameKeys(r.mem, r'.mem) && StopSlotsKept(r, r'.mem)
    requires r.Live(x) && r.mem[x].stopType.NoStop?
    requires forall y :: r'.Live(y) <==> r.Live(y) && y != x
    ensures StopsOk(r') && r'.Stops() == r.Stops()
  {
    StopsKept(r, r');
  }

  // ----- moving a replenished iceberg to the tail -----

  /** `mem2` is `mem` after the k-th order of `s` was unlinked and given its next slice. */
  ghost predicate Peeled(mem: seq<Order>, mem1: seq<Order>, mem2: seq<Order>, s: seq<nat>, k: nat) {
    && k < |s| && InRange(mem, s)
    && Unlinked(mem, mem1, s, k)
    && var slice := Min(mem[s[k]].displayQty, mem[s[k]].hiddenQty);
    && mem2 == mem1[s[k] := mem1[s[k]].(hiddenQty := mem1[s[k]].hiddenQty - slice, remainingQty := slice)]
  }

  /** `r'` is `r` after try_replenish_iceberg moved the exhausted order at (i, k) to the tail. */
  ghost predicate Requeued(r: Rep, mem1: seq<Order>, mem2: seq<Order>, r': Rep, side: Side, i: nat, k: nat) {
    var s := r.Side(side);
    && i < |s.v| && i < |s.lists| && k < |s.lists[i]|
    && Peeled(r.mem, mem1, mem2, s.lists[i], k)
    && var x := s.lists[i][k];
    && r.mem[x].remainingQty == 0 && Refills(r.mem[x].View())
    && PushedBack(mem2, r'.mem, RemoveAt(s.lists[i], k), x)
    && var level' := Grown(Shrunk(s.v[i].level, s.lists[i], k, 0), x, mem2[x].remainingQty);
    && r'.Side(side) == Shelf(s.v[i := Node(s.v[i].price, level')], s.lists[i := RemoveAt(s.lists[i], k) + [x]])
    && r'.Side(Opposite(side)) == r.Side(Opposite(side))
    && r'.ids == r.ids && r'.free == r.free && r'.nextId == r.nextId && r'.storage == r.storage
  }

  lemma NodeRequeue(
    side: Side, mem: seq<Order>, mem1: seq<Order>, mem2: seq<Order>, mem': seq<Order>, n: Node, s: seq<nat>, k: nat)
    requires NodeOk(side, mem, n, s) && Peeled(mem, mem1, mem2, s, k)
    requires mem[s[k]].remainingQty == 0 && Refills(mem[s[k]].View())
    requires PushedBack(mem2, mem', RemoveAt(s, k), s[k])
    ensures NodeOk(side, mem', Node(n.price, Grown(Shrunk(n.level, s, k, 0), s[k], mem2[s[k]].remainingQty)),
        RemoveAt(s, k) + [s[k]])
    ensures Views(mem', RemoveAt(s, k) + [s[k]]) == RemoveAt(Views(mem, s), k) + [Replenish(mem[s[k]].View())]
    ensures SameKeys(mem, mem')
  {
    var x, n1 := s[k], Node(n.price, Shrunk(n.level, s, k, 0));
    var s1 := RemoveAt(s, k);
    PeeledKeys(side, mem, mem1, mem2, n.price, s, k);
    PeeledRest(side, mem, mem1, mem2, n, s, k);
    hide Unlinked, PushedBack, NodeOk, RemoveAt, Distinct, Views, Shrunk, Grown;
    NodeRemove(side, mem, mem1, n, s, k);
    NodeAgrees(side, mem1, mem2, n1, s1);
    NodePush(side, mem2, mem', n1, s1, x);
    PushedKeys(mem2, mem', s1, x);
  }

  /** Giving the unlinked order its next slice leaves the rest of the list alone. */
  lemma PeeledRest(side: Side, mem: seq<Order>, mem1: seq<Order>, mem2: seq<Order>, n: Node, s: seq<nat>, k: nat)
    requires NodeOk(side, mem, n, s) && Peeled(mem, mem1, mem2, s, k)
    ensures
      var s1 := RemoveAt(s, k);
      && s[k] !in s1 && |mem2| == |mem1| && InRange(mem2, s1)
      && (forall j :: 0 <= j < |s1| && s1[j] < |mem1| ==> mem2[s1[j]] == mem1[s1[j]])
      && mem2[s[k]].View() == Replenish(mem[s[k]].View())
  {
    assert Distinct(s);
    InRemoveAt(s, k, s[k]);
    var s1 := RemoveAt(s, k);
    forall j: nat | j < |s1|
      ensures s1[j] < |mem2| && s1[j] != s[k]
    {
      RemoveAtIndex(s, k, j);
      assert s1[j] in s1;
    }
    hide RemoveAt;
  }

  lemma PushedKeys(mem: seq<Order>, mem': seq<Order>, s: seq<nat>, o: nat)
    requires InRange(mem, s) && o < |mem| && PushedBack(mem, mem', s, o)
    ensures SameKeys(mem, mem')
  {
  }

  lemma NodeAgrees(side: Side, mem: seq<Order>, mem': seq<Order>, n: Node, s: seq<nat>)
    requires NodeOk(side, mem, n, s) && |mem'| == |mem|
    requires forall j :: 0 <= j < |s| && s[j] < |mem| ==> mem'[s[j]] == mem[s[j]]
    ensures NodeOk(side, mem', n, s) && Views(mem', s) == Views(mem, s)
  {
    LevelFrame(mem, mem', n.level, s);
  }

  lemma PeeledKeys(
    side: Side, mem: seq<Order>, mem1: seq<Order>, mem2: seq<Order>, px: int, s: seq<nat>, k: nat)
    requires Peeled(mem, mem1, mem2, s, k)
    requires forall j :: 0 <= j < |s| ==> mem[s[j]].RestsAt(side, px)
    ensures SameKeys(mem, mem2) && mem2[s[k]].RestsAt(side, px)
    ensures mem2[s[k]].View() == Replenish(mem[s[k]].View())
    ensures |mem1| == |mem2| == |mem|
  {
  }

  lemma RequeueShelf(
    side: Side, mem: seq<Order>, mem1: seq<Order>, mem2: seq<Order>, mem': seq<Order>, s: Shelf, i: nat, k: nat)
    requires ShelfOk(side, mem, s) && i < |s.v| && i < |s.lists| && Peeled(mem, mem1, mem2, s.lists[i], k)
    requires mem[s.lists[i][k]].remainingQty == 0 && Refills(mem[s.lists[i][k]].View())
    requires PushedBack(mem2, mem', RemoveAt(s.lists[i], k), s.lists[i][k])
    ensures
      var x := s.lists[i][k];
      var n' := Node(s.v[i].price, Grown(Shrunk(s.v[i].level, s.lists[i], k, 0), x, mem2[x].remainingQty));
      var s' := Shelf(s.v[i := n'], s.lists[i := RemoveAt(s.lists[i], k) + [x]]);
      var ls := LadderView(mem, s.v, s.lists);
      && ShelfOk(side, mem', s')
      && SameKeys(mem, mem')
      && k < |ls[i].orders|
      && LadderView(mem', s'.v, s'.lists)
         == ls[i := Level(ls[i].price, RemoveAt(ls[i].orders, k) + [Replenish(ls[i].orders[k])])]
  {
    var x, list' := s.lists[i][k], RemoveAt(s.lists[i], k) + [s.lists[i][k]];
    var n' := Node(s.v[i].price, Grown(Shrunk(s.v[i].level, s.lists[i], k, 0), x, mem2[x].remainingQty));
    var ls := LadderView(mem, s.v, s.lists);
    assert NodeOk(side, mem, s.v[i], s.lists[i]) && ls[i].orders == Views(mem, s.lists[i]);
    assert SaneOrders(ls[i].orders);
    assert list' != [];
    RequeueTouches(mem, mem1, mem2, mem', s.lists[i], k);
    SaneRequeue(ls[i].orders, k);
    hide NodeOk, LadderOk, LadderView, SaneOrders, Sane, Peeled, PushedBack, Grown, Shrunk, Views, RemoveAt;
    NodeRequeue(side, mem, mem1, mem2, mem', s.v[i], s.lists[i], k);
    LadderUpdate(side, mem, mem', s.v, s.lists, i, n', list');
    SaneUpdate(ls, i, Level(ls[i].price, RemoveAt(ls[i].orders, k) + [Replenish(ls[i].orders[k])]));
  }

  lemma SaneRequeue(os: seq<Ord>, k: nat)
    requires SaneOrders(os) && k < |os|
    ensures SaneOrders(RemoveAt(os, k) + [Replenish(os[k])])
  {
    SaneTail(os, k);
  }

  lemma RequeueTouches(
    mem: seq<Order>, mem1: seq<Order>, mem2: seq<Order>, mem': seq<Order>, s: seq<nat>, k: nat)
    requires Peeled(mem, mem1, mem2, s, k)
    requires PushedBack(mem2, mem', RemoveAt(s, k), s[k])
    ensures |mem'| == |mem| && forall x :: 0 <= x < |mem| && x !in s ==> mem'[x] == mem[x]
  {
  }

  lemma RequeueOk(
    r: Rep, mem1: seq<Order>, mem2: seq<Order>, r': Rep, side: Side, i: nat, k: nat)
    requires RepOk(r) && Requeued(r, mem1, mem2, r', side, i, k)
    ensures RepOk(r') && SameKeys(r.mem, r'.mem)
    ensures k < |r.View(side)[i].orders|
    ensures r'.View(side) == r.View(side)[i := Level(r.View(side)[i].price,
              RemoveAt(r.View(side)[i].orders, k) + [Replenish(r.View(side)[i].orders[k])])]
    ensures r'.Abs() == r.Abs().With(side, r'.View(side))
  {
    var s := r.Side(side);
    RequeueShelf(side, r.mem, mem1, mem2, r'.mem, s, i, k);
    RequeueTouches(r.mem, mem1, mem2, r'.mem, s.lists[i], k);
    hide LadderOk, NodeOk, TableOk, PoolOk, StopsOk, HomesOk, Sane, LadderView, Peeled, PushedBack, Grown, Shrunk;
    OtherShelf(r, side, r'.mem, i);
    LevelChangesKeepStops(r, side, r'.mem, i);
    forall y
      ensures Listed(s.lists[i := RemoveAt(s.lists[i], k) + [s.lists[i][k]]], y) <==> Listed(s.lists, y)
    {
      ListedAfterRequeue(side, r.mem, s, i, k, y);
    }
    SameKeysKeepTables(r, r');
  }

  lemma ListedAfterRequeue(side: Side, mem: seq<Order>, s: Shelf, i: nat, k: nat, y: nat)
    requires LadderOk(side, mem, s.v, s.lists) && i < |s.lists| && k < |s.lists[i]|
    ensures Listed(s.lists[i := RemoveAt(s.lists[i], k) + [s.lists[i][k]]], y) <==> Listed(s.lists, y)
  {
    var lists' := s.lists[i := RemoveAt(s.lists[i], k) + [s.lists[i][k]]];
    assert NodeOk(side, mem, s.v[i], s.lists[i]);
    InRemoveAt(s.lists[i], k, y);
    assert y in lists'[i] <==> y in s.lists[i];
    assert forall j :: 0 <= j < |lists'| && j != i ==> lists'[j] == s.lists[j];
  }

  // ----- registering a new order -----

  /** The last free slot `o` was taken and given the next id; the id table grew as needed. */
  ghost predicate Registered(r: Rep, r': Rep, o: nat) {
    && r.free != [] && o == r.free[|r.free| - 1] && o < |r.mem|
    && r'.free == r.free[..|r.free| - 1]
    && SameKeysBut(r.mem, r'.mem, o) && r'.mem[o].orderId == r.nextId
    && r'.nextId == r.nextId + 1
    && |r'.ids| >= |r.ids| && |r'.ids| > r.nextId
    && (forall id :: 0 <= id < |r'.ids| ==>
          r'.ids[id] == if id == r.nextId then Some(o) else if id < |r.ids| then r.ids[id] else None)
  }

  /** Rewriting one slot keeps the keys of the others. */
  lemma OneSlotWritten(mem: seq<Order>, o: nat, rec: Order)
    requires o < |mem|
    ensures SameKeysBut(mem, mem[o := rec], o)
  {
  }

  lemma RegisterLive(r: Rep, r': Rep, o: nat)
    requires TableOk(r) && PoolOk(r) && Registered(r, r', o)
    ensures !r.Live(o)
    ensures TableOk(r')
    ensures forall y :: r'.Live(y) <==> r.Live(y) || y == o
  {
    assert o in r.free;
    forall y: nat | r.Live(y)
      ensures r'.Live(y)
    {
      assert r'.mem[y].orderId == r.mem[y].orderId;
    }
    forall y: nat | r'.Live(y) && y != o
      ensures r.Live(y)
    {
      assert r'.mem[y].orderId == r.mem[y].orderId;
    }
  }

  lemma RegisterPool(r: Rep, r': Rep, o: nat)
    requires PoolOk(r) && Registered(r, r', o)
    requires forall y :: r'.Live(y) <==> r.Live(y) || y == o
    ensures PoolOk(r')
  {
    var n := |r.free| - 1;
    assert RemoveAt(r.free, n) == r'.free;
    forall y: nat
      ensures y in r'.free <==> y in r.free && y != o
    {
      InRemoveAt(r.free, n, y);
    }
  }

  lemma RegisterHomes(r: Rep, r': Rep, o: nat)
    requires HomesOk(r) && SameKeysBut(r.mem, r'.mem, o) && o < |r.mem| && !r.Live(o)
    requires forall y :: r'.Live(y) <==> r.Live(y) || y == o
    requires r'.mem[o].stopType.NoStop? ==> Listed(r'.Side(r'.mem[o].side).lists, o)
    requires forall y :: Listed(r.bids.lists, y) ==> Listed(r'.bids.lists, y)
    requires forall y :: Listed(r.asks.lists, y) ==> Listed(r'.asks.lists, y)
    requires forall y :: Listed(r'.bids.lists, y) ==> Listed(r.bids.lists, y) || y == o
    requires forall y :: Listed(r'.asks.lists, y) ==> Listed(r.asks.lists, y) || y == o
    ensures HomesOk(r')
  {
  }

  lemma RegisterStorage(r: Rep, r': Rep, o: nat)
    requires StopsOk(r) && SameKeysBut(r.mem, r'.mem, o) && o < |r.mem| && !r.Live(o)
    requires forall y :: r'.Live(y) <==> r.Live(y) || y == o
    requires r'.storage == r.storage || (r'.storage == r.storage + [o] && r'.mem[o].stopType != NoStop)
    ensures StopsOk(r')
  {
    assert forall k :: 0 <= k < |r.storage| ==> r.Live(r.storage[k]);
  }

  /** A new limit order is no pending stop. */
  lemma RegisterNoStop(r: Rep, r': Rep, o: nat)
    requires TableOk(r) && TableOk(r') && Registered(r, r', o) && !r.Live(o) && StopSlotsKept(r, r'.mem)
    requires forall y :: r'.Live(y) <==> r.Live(y) || y == o
    requires r'.mem[o].stopType == NoStop
    ensures r'.Stops() == r.Stops()
  {
    StopsKept(r, r');
  }

  /** A new stop joins the pending ones. */
  lemma RegisterStop(r: Rep, r': Rep, o: nat)
    requires TableOk(r) && TableOk(r') && Registered(r, r', o) && StopSlotsKept(r, r'.mem)
    requires r'.mem[o].stopType != NoStop
    ensures r'.Stops() == r.Stops()[r.nextId := r'.mem[o].AsStop(o)]
  {
    var stops' := r.Stops()[r.nextId := r'.mem[o].AsStop(o)];
    hide Rep.Stops, TableOk;
    forall id: nat
      ensures id in r'.Stops() <==> id in stops'
      ensures id in stops' ==> r'.Stops()[id] == stops'[id]
    {
      StopIffInTable(r, id);
      StopIffInTable(r', id);
    }
    assert r'.Stops().Keys == stops'.Keys;
  }

  /** The record add_limit_order writes into its slot. */
  function LimitOrder(id: nat, side: Side, px: int, qty: nat): Order {
    ZERO_ORDER.(orderId := id, price := px, qty := qty, remainingQty := qty, side := side)
  }

  /** The ladder once a level for `px` exists at index `i`. */
  function Emplaced(s: Shelf, i: nat, px: int): Shelf {
    if i > |s.v| || i > |s.lists| || (i < |s.v| && s.v[i].price == px) then s
    else Shelf(InsertAt(s.v, i, Node(px, EMPTY_LEVEL)), InsertAt(s.lists, i, []))
  }

  lemma AddLadder(
    side: Side, mem: seq<Order>, mem': seq<Order>, e: Shelf, i: nat, o: nat, id: nat, px: int, qty: nat)
    requires LadderOk(side, mem, e.v, e.lists) && i < |e.v| && e.v[i].price == px
    requires o < |mem| && !Listed(e.lists, o) && InRange(mem, e.lists[i])
    requires PushedBack(mem[o := LimitOrder(id, side, px, qty)], mem', e.lists[i], o)
    ensures
      var v', lists' := e.v[i := Node(px, Grown(e.v[i].level, o, qty))], e.lists[i := e.lists[i] + [o]];
      var ls := LadderView(mem, e.v, e.lists);
      && LadderOk(side, mem', v', lists')
      && LadderView(mem', v', lists') == ls[i := Level(px, ls[i].orders + [Ord(id, qty, qty, 0, 0)])]
  {
    var mem1 := mem[o := LimitOrder(id, side, px, qty)];
    var n' := Node(px, Grown(e.v[i].level, o, qty));
    LadderFrame(side, mem, mem1, e.v, e.lists);
    assert NodeOk(side, mem1, e.v[i], e.lists[i]);
    assert LadderView(mem1, e.v, e.lists)[i].orders == Views(mem1, e.lists[i]);
    assert o !in e.lists[i];
    hide NodeOk, LadderOk, PushedBack, LadderView, Grown;
    NodePush(side, mem1, mem', e.v[i], e.lists[i], o);
    PushTouches(mem1, mem', e.lists[i], o);
    PushLadder(side, mem1, mem', e.v, e.lists, i, n', o);
  }

  lemma AddShelf(
    side: Side, mem: seq<Order>, mem': seq<Order>, s: Shelf, i: nat, o: nat, id: nat, px: int, qty: nat)
    requires ShelfOk(side, mem, s) && LowerAt(side, s.v, px, i)
    requires o < |mem| && !Listed(s.lists, o)
    requires i < |Emplaced(s, i, px).lists| && InRange(mem, Emplaced(s, i, px).lists[i])
    requires PushedBack(mem[o := LimitOrder(id, side, px, qty)], mem', Emplaced(s, i, px).lists[i], o)
    ensures
      var e := Emplaced(s, i, px);
      && i < |e.v|
      && var s' := Shelf(e.v[i := Node(px, Grown(e.v[i].level, o, qty))], e.lists[i := e.lists[i] + [o]]);
      && ShelfOk(side, mem', s')
      && LadderView(mem', s'.v, s'.lists) == AddOrder(side, LadderView(mem, s.v, s.lists), px, Ord(id, qty, qty, 0, 0))
  {
    var e := Emplaced(s, i, px);
    var ls := LadderView(mem, s.v, s.lists);
    EmplacedOk(side, mem, s, i, px);
    EmplacedLists(s.lists, e.lists, i, o, s.v, px);
    hide NodeOk, PushedBack, LadderView, Grown, Emplaced, Sane;
    AddLadder(side, mem, mem', e, i, o, id, px, qty);
    AddIsEmplaceThenPush(side, ls, px, Ord(id, qty, qty, 0, 0));
    AddKeepsSane(side, ls, px, Ord(id, qty, qty, 0, 0));
  }

  lemma PushTouches(mem: seq<Order>, mem': seq<Order>, s: seq<nat>, o: nat)
    requires InRange(mem, s) && o < |mem| && PushedBack(mem, mem', s, o)
    ensures |mem'| == |mem| && forall x :: 0 <= x < |mem| && x !in s && x != o ==> mem'[x] == mem[x]
  {
  }

  lemma EmplacedOk(side: Side, mem: seq<Order>, s: Shelf, i: nat, px: int)
    requires ShelfOk(side, mem, s) && LowerAt(side, s.v, px, i)
    ensures
      var e := Emplaced(s, i, px);
      && LadderOk(side, mem, e.v, e.lists) && i < |e.v| && e.v[i].price == px
      && LadderView(mem, e.v, e.lists) == Emplace(side, LadderView(mem, s.v, s.lists), px)
      && i == Lower(side, LadderView(mem, s.v, s.lists), px)
  {
    LowerOfView(side, mem, s.v, s.lists, px, i);
    if !(i < |s.v| && s.v[i].price == px) {
      LadderInsert(side, mem, s.v, s.lists, i, px);
      InsertedView(mem, s.v, s.lists, i, px);
    }
  }

  lemma EmplacedLists(lists: seq<seq<nat>>, lists': seq<seq<nat>>, i: nat, o: nat, v: seq<Node>,
      px: int)
    requires i <= |lists| == |v|
    requires lists' == Emplaced(Shelf(v, lists), i, px).lists
    ensures forall y :: Listed(lists', y) <==> Listed(lists, y)
    ensures forall j :: 0 <= j < |lists'| && j != i ==> lists'[j] in lists
  {
    if lists' != lists {
      forall y | Listed(lists, y)
        ensures Listed(lists', y)
      {
        var j :| 0 <= j < |lists| && y in lists[j];
        assert lists'[if j < i then j else j + 1] == lists[j];
      }
      forall y | Listed(lists', y)
        ensures Listed(lists, y)
      {
        var j :| 0 <= j < |lists'| && y in lists'[j];
        assert j != i && lists'[j] == lists[if j < i then j else j - 1];
      }
    }
  }

  lemma PushLadder(
    side: Side, mem: seq<Order>, mem': seq<Order>, v: seq<Node>, lists: seq<seq<nat>>, i: nat, n: Node, o: nat)
    requires LadderOk(side, mem, v, lists) && i < |v| && o < |mem| && !Listed(lists, o)
    requires |mem'| == |mem| && forall x :: 0 <= x < |mem| && x !in lists[i] && x != o ==> mem'[x] == mem[x]
    requires n.price == v[i].price && NodeOk(side, mem', n, lists[i] + [o])
    ensures LadderOk(side, mem', v[i := n], lists[i := lists[i] + [o]])
    ensures LadderView(mem', v[i := n], lists[i := lists[i] + [o]])
         == LadderView(mem, v, lists)[i := Level(n.price, Views(mem', lists[i] + [o]))]
  {
    LadderUpdate(side, mem, mem', v, lists, i, n, lists[i] + [o]);
  }

  /** `r'` is `r` after add_limit_order put a new order in slot `o`. */
  ghost predicate Added(r: Rep, r': Rep, side: Side, i: nat, px: int, qty: nat, o: nat) {
    var e := Emplaced(r.Side(side), i, px);
    && Registered(r, r', o)
    && LowerAt(side, r.Side(side).v, px, i) && i < |e.v| && i < |e.lists| && InRange(r.mem, e.lists[i])
    && PushedBack(r.mem[o := LimitOrder(r.nextId, side, px, qty)], r'.mem, e.lists[i], o)
    && r'.Side(side) == Shelf(e.v[i := Node(px, Grown(e.v[i].level, o, qty))], e.lists[i := e.lists[i] + [o]])
    && r'.Side(Opposite(side)) == r.Side(Opposite(side))
    && r'.storage == r.storage
  }

  lemma AddOk(r: Rep, r': Rep, side: Side, i: nat, px: int, qty: nat, o: nat)
    requires RepOk(r) && Added(r, r', side, i, px, qty, o)
    ensures RepOk(r')
    ensures r'.Abs() == AddLimit(r.Abs(), side, px, qty).book
  {
    var s := r.Side(side);
    var e := Emplaced(s, i, px);
    RegisterLive(r, r', o);
    FreshSlot(r, o);
    AddShelf(side, r.mem, r'.mem, s, i, o, r.nextId, px, qty);
    EmplacedLists(s.lists, e.lists, i, o, s.v, px);
    PushTouches(r.mem[o := LimitOrder(r.nextId, side, px, qty)], r'.mem, e.lists[i], o);
    NewSlotKey(r, r', side, i, px, qty, o);
    ListsGrow(s.lists, e.lists, i, o);
    AddOther(r, r', side, i, px, o, e.lists[i]);
    NewSlotKeepsStops(r, r', side, o, e.lists[i]);
    hide LadderOk, NodeOk, TableOk, PoolOk, StopsOk, HomesOk, Sane, LadderView, PushedBack, Grown, Registered,
        Emplaced, Listed;
    AddTables(r, r', side, o);
  }

  lemma FreshSlot(r: Rep, o: nat)
    requires RepOk(r) && !r.Live(o)
    ensures !Listed(r.bids.lists, o) && !Listed(r.asks.lists, o)
  {
  }

  lemma NewSlotKey(r: Rep, r': Rep, side: Side, i: nat, px: int, qty: nat, o: nat)
    requires Added(r, r', side, i, px, qty, o)
    ensures r'.mem[o].stopType == NoStop && r'.mem[o].side == side
  {
  }

  lemma ListsGrow(lists: seq<seq<nat>>, e: seq<seq<nat>>, i: nat, o: nat)
    requires i < |e| && forall y :: Listed(e, y) <==> Listed(lists, y)
    ensures forall y :: Listed(e[i := e[i] + [o]], y) <==> Listed(lists, y) || y == o
  {
    var lists' := e[i := e[i] + [o]];
    assert o in lists'[i];
    forall y | Listed(e, y)
      ensures Listed(lists', y)
    {
      var j :| 0 <= j < |e| && y in e[j];
      assert y in lists'[j];
    }
    forall y | Listed(lists', y) && y != o
      ensures Listed(e, y)
    {
      var j :| 0 <= j < |lists'| && y in lists'[j];
      assert y in e[j];
    }
  }

  /** The other side does not see the new order. */
  lemma AddOther(r: Rep, r': Rep, side: Side, i: nat, px: int, o: nat, list: seq<nat>)
    requires RepOk(r) && !r.Live(o) && |r'.mem| == |r.mem|
    requires r'.Side(Opposite(side)) == r.Side(Opposite(side))
    requires forall y :: y in list ==> Listed(r.Side(side).lists, y)
    requires forall x :: 0 <= x < |r.mem| && x !in list && x != o ==> r'.mem[x] == r.mem[x]
    ensures ShelfOk(Opposite(side), r'.mem, r'.Side(Opposite(side)))
    ensures r'.View(Opposite(side)) == r.View(Opposite(side))
  {
    var other := r.Side(Opposite(side));
    forall x | 0 <= x < |r.mem| && Listed(other.lists, x)
      ensures r'.mem[x] == r.mem[x]
    {
      ListedSide(r, Opposite(side), x);
      if x in list {
        ListedSide(r, side, x);
      }
    }
    LadderFrame(Opposite(side), r.mem, r'.mem, other.v, other.lists);
  }

  lemma NewSlotKeepsStops(r: Rep, r': Rep, side: Side, o: nat, list: seq<nat>)
    requires RepOk(r) && !r.Live(o) && |r'.mem| == |r.mem|
    requires forall y :: y in list ==> Listed(r.Side(side).lists, y)
    requires forall x :: 0 <= x < |r.mem| && x !in list && x != o ==> r'.mem[x] == r.mem[x]
    ensures StopSlotsKept(r, r'.mem)
  {
    forall x: nat | r.LiveStop(x)
      ensures r'.mem[x] == r.mem[x]
    {
      if x in list {
        ListedSide(r, side, x);
      }
    }
  }

  lemma AddTables(r: Rep, r': Rep, side: Side, o: nat)
    requires TableOk(r) && PoolOk(r) && HomesOk(r) && StopsOk(r)
    requires Registered(r, r', o) && !r.Live(o) && r'.storage == r.storage
    requires r'.mem[o].stopType == NoStop && r'.mem[o].side == side && StopSlotsKept(r, r'.mem)
    requires forall y :: Listed(r'.Side(side).lists, y) <==> Listed(r.Side(side).lists, y) || y == o
    requires r'.Side(Opposite(side)) == r.Side(Opposite(side))
    ensures TableOk(r') && PoolOk(r') && HomesOk(r') && StopsOk(r')
    ensures r'.Stops() == r.Stops()
  {
    RegisterLive(r, r', o);
    RegisterPool(r, r', o);
    RegisterHomes(r, r', o);
    RegisterStorage(r, r', o);
    RegisterNoStop(r, r', o);
  }

  // ----- pending stops -----

  /** `r'` is `r` after a pending stop was stored in slot `o`. */
  ghost predicate StopAdded(r: Rep, r': Rep, o: nat) {
    && Registered(r, r', o)
    && r'.mem == r.mem[o := r'.mem[o]]
    && r'.mem[o].stopType != NoStop
    && r'.bids == r.bids && r'.asks == r.asks
    && r'.storage == r.storage + [o]
  }

  lemma UnlistedChange(r: Rep, side: Side, mem': seq<Order>, o: nat)
    requires RepOk(r) && !Listed(r.Side(side).lists, o)
    requires |mem'| == |r.mem| && forall x :: 0 <= x < |r.mem| && x != o ==> mem'[x] == r.mem[x]
    ensures ShelfOk(side, mem', r.Side(side))
    ensures LadderView(mem', r.Side(side).v, r.Side(side).lists) == r.View(side)
  {
    LadderFrame(side, r.mem, mem', r.Side(side).v, r.Side(side).lists);
  }

  lemma StopAddOk(r: Rep, r': Rep, o: nat)
    requires RepOk(r) && StopAdded(r, r', o)
    ensures RepOk(r') && r'.LiveStop(o)
    ensures r'.Abs() == AddStop(r.Abs(), r'.mem[o].AsStop(o)).book
  {
    RegisterLive(r, r', o);
    FreshSlot(r, o);
    UnlistedChange(r, Buy, r'.mem, o);
    UnlistedChange(r, Sell, r'.mem, o);
    hide LadderOk, LadderView, TableOk, PoolOk, StopsOk, HomesOk, Sane;
    RegisterPool(r, r', o);
    RegisterHomes(r, r', o);
    RegisterStorage(r, r', o);
    RegisterStop(r, r', o);
  }

  lemma TakeStorageOk(r: Rep)
    requires RepOk(r)
    ensures RepOk(r.(storage := [])) && r.(storage := []).Abs() == r.Abs()
  {
    assert r.(storage := []).Stops() == r.Stops();
  }

  /** `r'` is `r` after detach_pending took the stop in slot `x` off the books; the slot
      is not free yet. */
  ghost predicate Detached(r: Rep, r': Rep, x: nat) {
    && r.LiveStop(x)
    && r'.mem == r.mem && r'.bids == r.bids && r'.asks == r.asks
    && r'.ids == r.ids[r.mem[x].orderId := None]
    && r'.free == r.free && r'.nextId == r.nextId
    && (if x in r.storage
        then exists k :: 0 <= k < |r.storage| && r.storage[k] == x && r'.storage == RemoveAt(r.storage, k)
        else r'.storage == r.storage)
  }

  /** `r` once the detached slot `x` is given back. */
  function Freed(r: Rep, x: nat): Rep {
    r.(free := r.free + [x])
  }

  lemma DetachStorage(r: Rep, r': Rep, x: nat)
    requires StopsOk(r) && Detached(r, r', x)
    requires forall y :: r'.Live(y) <==> r.Live(y) && y != x
    ensures StopsOk(r')
  {
    if x in r.storage {
      var k :| 0 <= k < |r.storage| && r.storage[k] == x && r'.storage == RemoveAt(r.storage, k);
      forall j: nat | j < |r'.storage|
        ensures r'.LiveStop(r'.storage[j]) && r'.storage[j] in r.storage && r'.storage[j] != x
      {
        RemoveAtIndex(r.storage, k, j);
      }
      DistinctRemoveAt(r.storage, k);
    } else {
      assert forall k :: 0 <= k < |r.storage| ==> r.storage[k] in r.storage;
    }
  }

  lemma DistinctRemoveAt(s: seq<nat>, k: nat)
    requires Distinct(s) && k < |s|
    ensures Distinct(RemoveAt(s, k))
  {
  }

  lemma DetachStops(r: Rep, r': Rep, x: nat)
    requires TableOk(r) && TableOk(r') && Detached(r, r', x)
    ensures r'.Stops() == r.Stops() - {r.mem[x].orderId}
  {
    var stops' := r.Stops() - {r.mem[x].orderId};
    hide Rep.Stops, TableOk;
    forall id: nat
      ensures id in r'.Stops() <==> id in stops'
      ensures id in stops' ==> r'.Stops()[id] == stops'[id]
    {
      StopIffInTable(r, id);
      StopIffInTable(r', id);
    }
    assert r'.Stops().Keys == stops'.Keys;
  }

  lemma DetachOk(r: Rep, r': Rep, x: nat)
    requires RepOk(r) && Detached(r, r', x)
    ensures RepOk(Freed(r', x))
    ensures Freed(r', x).Abs() == r.Abs().(free := |r.free| + 1, stops := r.Stops() - {r.mem[x].orderId})
  {
    var r'' := Freed(r', x);
    NotListed(r, x);
    hide ShelfOk, LadderView, TableOk, PoolOk, HomesOk, StopsOk, Listed;
    DropLive(r, r'', x);
    DropLive(r, r', x);
    DropPool(r, r'', x);
    DropHomes(r, r'', x);
    DetachStorage(r, r', x);
    DetachStops(r, r', x);
    StopsIgnoreFreelist(r', x);
  }

  /** Detaching a pending stop and freeing its slot take that stop out of the abstract book. */
  lemma FreedDrops(r: Rep, r': Rep, x: nat)
    requires RepOk(r) && Detached(r, r', x)
    ensures RepOk(Freed(r', x)) && r.mem[x].orderId in r.Abs().stops
    ensures Freed(r', x).Abs() == DropStop(r.Abs(), r.mem[x].orderId)
  {
    hide LadderView, ShelfOk, PoolOk, HomesOk;
    DetachOk(r, r', x);
    StopIffInTable(r, r.mem[x].orderId);
  }

  /** A pending stop is not linked at any level. */
  lemma NotListed(r: Rep, x: nat)
    requires RepOk(r) && r.LiveStop(x)
    ensures !Listed(r.bids.lists, x) && !Listed(r.asks.lists, x)
  {
    if Listed(r.bids.lists, x) {
      ListedSide(r, Buy, x);
    }
    if Listed(r.asks.lists, x) {
      ListedSide(r, Sell, x);
    }
  }

  lemma StopsIgnoreFreelist(r: Rep, x: nat)
    ensures StopsOk(r) ==> StopsOk(Freed(r, x))
    ensures Freed(r, x).Stops() == r.Stops()
  {
  }

  /** A slot that holds no live stop has an id the table no longer knows, unless it is a limit order. */
  lemma StaleStop(r: Rep, x: nat)
    requires TableOk(r) && x < |r.mem| && r.mem[x].stopType != NoStop && !r.LiveStop(x)
    ensures r.mem[x].orderId < |r.ids| ==> r.ids[r.mem[x].orderId] == None
    ensures r.mem[x].orderId !in r.Stops()
  {
    StopIffInTable(r, r.mem[x].orderId);
  }

  /** The storage holds a stop under its id only in the slot the table names. */
  lemma StoredUnder(r: Rep, k: nat, id: nat)
    requires TableOk(r) && StopsOk(r) && k < |r.storage|
    ensures r.storage[k] < |r.mem| && r.LiveStop(r.storage[k])
    ensures r.mem[r.storage[k]].orderId == id ==> id < |r.ids| && r.ids[id] == Some(r.storage[k])
  {
  }

  // ----- ids -----

  /** Two linked positions with the same id are the same position. */
  lemma PositionsByIds(r: Rep, side: Side, i: nat, k: nat, side': Side, j: nat, n: nat)
    requires RepOk(r)
    requires i < |r.Side(side).lists| && k < |r.Side(side).lists[i]|
    requires j < |r.Side(side').lists| && n < |r.Side(side').lists[j]|
    requires r.Side(side).lists[i][k] < |r.mem| && r.Side(side').lists[j][n] < |r.mem|
    requires r.mem[r.Side(side).lists[i][k]].orderId == r.mem[r.Side(side').lists[j][n]].orderId
    ensures side == side' && i == j && k == n
  {
    var s, s' := r.Side(side), r.Side(side');
    var x, y := s.lists[i][k], s'.lists[j][n];
    assert Listed(s.lists, x) && Listed(s'.lists, y);
    ListedSide(r, side, x);
    ListedSide(r, side', y);
    assert x == y;
    assert side == side';
    ListsDisjoint(side, r.mem, s.v, s.lists, i, j, x);
    assert NodeOk(side, r.mem, s.v[i], s.lists[i]);
    assert Distinct(s.lists[i]);
  }

  lemma ViewPosition(r: Rep, side: Side, i: nat, k: nat)
    requires RepOk(r)
    requires i < |r.View(side)| && k < |r.View(side)[i].orders|
    ensures i < |r.Side(side).lists| && k < |r.Side(side).lists[i]| && r.Side(side).lists[i][k] < |r.mem|
    ensures r.View(side)[i].orders[k] == r.mem[r.Side(side).lists[i][k]].View()
  {
    var s := r.Side(side);
    assert NodeOk(side, r.mem, s.v[i], s.lists[i]);
  }

  /** No other position of the view of a side shows the id of a linked slot. */
  lemma OnlyPosition(r: Rep, side: Side, i: nat, k: nat, side': Side, j: nat, n: nat)
    requires RepOk(r)
    requires i < |r.Side(side).lists| && k < |r.Side(side).lists[i]| && r.Side(side).lists[i][k] < |r.mem|
    requires j < |r.View(side')| && n < |r.View(side')[j].orders|
    requires r.View(side')[j].orders[n].id == r.mem[r.Side(side).lists[i][k]].orderId
    ensures side == side' && i == j && k == n
  {
    hide RepOk, LadderView;
    ViewPosition(r, side', j, n);
    PositionsByIds(r, side, i, k, side', j, n);
  }

  /** The abstract book finds the order of a linked slot where the slot is linked. */
  lemma FoundWhereLinked(r: Rep, side: Side, i: nat, k: nat)
    requires RepOk(r)
    requires i < |r.Side(side).lists| && k < |r.Side(side).lists[i]|
    ensures r.Side(side).lists[i][k] < |r.mem| && i < |r.View(side)| && k < |r.View(side)[i].orders|
    ensures r.View(side)[i].orders[k] == r.mem[r.Side(side).lists[i][k]].View()
    ensures r.Abs().SideOf(side) == r.View(side)
    ensures SitsAt(r.Abs(), r.mem[r.Side(side).lists[i][k]].orderId, side, i, k)
  {
    hide RepOk, NodeOk, LadderView;
    LinkedOrder(r, side, i, k);
    var ls, other := r.View(side), r.View(Opposite(side));
    var id := r.mem[r.Side(side).lists[i][k]].orderId;
    forall j: nat, n: nat | j < |ls| && n < |ls[j].orders| && ls[j].orders[n].id == id
      ensures j == i && n == k
    {
      OnlyPosition(r, side, i, k, side, j, n);
    }
    FoundAt(ls, i, k);
    if Rests(other, id) {
      OnlyPosition(r, side, i, k, Opposite(side), LevelOf(other, id), IndexOf(other[LevelOf(other, id)].orders, id));
    }
  }

  /** Every order the abstract book shows is found where it is shown. */
  lemma SeatOfView(r: Rep, side: Side, i: nat, k: nat)
    requires RepOk(r)
    requires i < |r.View(side)| && k < |r.View(side)[i].orders|
    ensures SitsAt(r.Abs(), r.View(side)[i].orders[k].id, side, i, k)
    ensures r.View(side)[i].orders[k].id !in r.Stops()
  {
    hide RepOk, LadderView, SitsAt, Rep.Stops;
    ViewPosition(r, side, i, k);
    FoundWhereLinked(r, side, i, k);
    SeatRests(r.Abs(), r.View(side)[i].orders[k].id, side, i, k);
    RestsIffInTable(r, r.View(side)[i].orders[k].id);
    TablesOf(r);
    StopIffInTable(r, r.View(side)[i].orders[k].id);
  }

  lemma LevelIdsUnique(r: Rep, side: Side, i: nat)
    requires RepOk(r) && i < |r.View(side)|
    ensures UniqueIds(r.View(side)[i].orders)
  {
    hide RepOk, LadderView;
    forall j: nat, k: nat | j < k < |r.View(side)[i].orders|
      ensures r.View(side)[i].orders[j].id != r.View(side)[i].orders[k].id
    {
      ViewPosition(r, side, i, j);
      ViewPosition(r, side, i, k);
      if r.View(side)[i].orders[j].id == r.View(side)[i].orders[k].id {
        PositionsByIds(r, side, i, j, side, i, k);
      }
    }
  }

  /** The level found at `px` holds the queue the abstract side has there. */
  lemma QueueOfLevel(r: Rep, side: Side, i: nat, px: int)
    requires RepOk(r) && i <= |r.Side(side).v|
    requires i < |r.Side(side).v| ==> r.Side(side).v[i].price == px
    requires i == |r.Side(side).v| ==> forall k :: 0 <= k < i ==> r.Side(side).v[k].price != px
    ensures i < |r.Side(side).v| ==>
              && i < |r.Side(side).lists|
              && Linked(r.mem, r.Side(side).v[i].level, r.Side(side).lists[i])
              && Views(r.mem, r.Side(side).lists[i]) == Queue(side, r.View(side), px)
    ensures i == |r.Side(side).v| ==> Queue(side, r.View(side), px) == []
  {
    var s := r.Side(side);
    var ls := r.View(side);
    ViewSorted(side, r.mem, s.v, s.lists);
    if i < |s.v| {
      assert NodeOk(side, r.mem, s.v[i], s.lists[i]);
      LowerFinds(side, ls, i);
    } else {
      var j := Lower(side, ls, px);
      assert j < |ls| ==> ls[j].price == s.v[j].price;
    }
  }

  /** An id rests exactly when the table maps it to a limit order. */
  lemma RestsIffInTable(r: Rep, id: nat)
    requires RepOk(r)
    ensures Resting(r.Abs(), id) <==>
              id < |r.ids| && r.ids[id].Some? && r.ids[id].value < |r.mem| && r.mem[r.ids[id].value].stopType == NoStop
  {
    if id < |r.ids| && r.ids[id].Some? && r.ids[id].value < |r.mem| && r.mem[r.ids[id].value].stopType == NoStop {
      var x := r.ids[id].value;
      assert r.Live(x);
      var side := r.mem[x].side;
      var i :| 0 <= i < |r.Side(side).lists| && x in r.Side(side).lists[i];
      var k :| 0 <= k < |r.Side(side).lists[i]| && r.Side(side).lists[i][k] == x;
      FoundWhereLinked(r, side, i, k);
    }
    if Resting(r.Abs(), id) {
      var side := SideHolding(r.Abs(), id);
      var ls := r.View(side);
      var i := LevelOf(ls, id);
      var k := IndexOf(ls[i].orders, id);
      ViewPosition(r, side, i, k);
      var x := r.Side(side).lists[i][k];
      assert Listed(r.Side(side).lists, x);
      ListedSide(r, side, x);
    }
  }

  lemma EmptyView(r: Rep, side: Side)
    ensures r.Side(side).v == [] <==> r.Abs().SideOf(side) == []
  {
  }

  lemma LevelCovers(mem: seq<Order>, l: PriceLevel, s: seq<nat>, k: nat)
    requires LevelOk(mem, l, s) && k < |s|
    ensures mem[s[k]].remainingQty <= l.aggQty && l.cnt > 0
  {
    AggregateChange(Views(mem, s), k, Views(mem, s)[k]);
  }

  /** What RepOk says about the order linked at position (i, k) of a side. */
  lemma LinkedOrder(r: Rep, side: Side, i: nat, k: nat)
    requires RepOk(r)
    requires i < |r.Side(side).lists| && k < |r.Side(side).lists[i]|
    ensures r.Side(side).lists[i][k] < |r.mem| && i < |r.Side(side).v|
    ensures
      var s := r.Side(side);
      var o := r.mem[s.lists[i][k]];
      && NodeOk(side, r.mem, s.v[i], s.lists[i])
      && o.remainingQty <= s.v[i].level.aggQty && s.v[i].level.cnt > 0
      && o.RestsAt(side, s.v[i].price)
      && r.Live(s.lists[i][k])
      && (o.hiddenQty > 0 ==> o.displayQty > 0)
    ensures i < |r.View(side)| && k < |r.View(side)[i].orders|
    ensures r.View(side)[i].price == r.Side(side).v[i].price
    ensures r.View(side)[i].orders[k] == r.mem[r.Side(side).lists[i][k]].View()
  {
    var s := r.Side(side);
    var x := s.lists[i][k];
    assert ShelfOk(side, r.mem, s);
    assert Listed(s.lists, x);
    hide RepOk, ShelfOk, NodeOk, LadderView;
    NodeOfList(side, r.mem, s, i, k);
    ListedSide(r, side, x);
  }

  lemma NodeOfList(side: Side, mem: seq<Order>, s: Shelf, i: nat, k: nat)
    requires ShelfOk(side, mem, s) && i < |s.lists| && k < |s.lists[i]|
    ensures s.lists[i][k] < |mem| && i < |s.v|
    ensures
      var o := mem[s.lists[i][k]];
      var ls := LadderView(mem, s.v, s.lists);
      && NodeOk(side, mem, s.v[i], s.lists[i])
      && o.remainingQty <= s.v[i].level.aggQty && s.v[i].level.cnt > 0
      && o.RestsAt(side, s.v[i].price)
      && (o.hiddenQty > 0 ==> o.displayQty > 0)
      && i < |ls| && k < |ls[i].orders|
      && ls[i].price == s.v[i].price && ls[i].orders[k] == o.View()
  {
    assert NodeOk(side, mem, s.v[i], s.lists[i]);
    assert SaneOrders(LadderView(mem, s.v, s.lists)[i].orders);
    assert LadderView(mem, s.v, s.lists)[i].orders[k] == mem[s.lists[i][k]].View();
    hide Sane, LadderOk, Linked;
    LevelCovers(mem, s.v[i].level, s.lists[i], k);
  }

  lemma NodeLinked(side: Side, mem: seq<Order>, n: Node, s: seq<nat>)
    requires NodeOk(side, mem, n, s)
    ensures Linked(mem, n.level, s)
  {
  }

  /** After the k-th order was unlinked and given its next slice, it can be pushed back. */
  lemma RelinkReady(
    side: Side, mem: seq<Order>, mem1: seq<Order>, mem2: seq<Order>, n: Node, s: seq<nat>, k: nat)
    requires NodeOk(side, mem, n, s) && Peeled(mem, mem1, mem2, s, k) && mem[s[k]].remainingQty == 0
    ensures s[k] !in RemoveAt(s, k)
    ensures Linked(mem2, Shrunk(n.level, s, k, 0), RemoveAt(s, k))
  {
    var x, n1 := s[k], Node(n.price, Shrunk(n.level, s, k, 0));
    assert Distinct(s);
    InRemoveAt(s, k, x);
    assert forall j :: 0 <= j < |RemoveAt(s, k)| ==> RemoveAt(s, k)[j] in RemoveAt(s, k);
    hide Unlinked, LevelOk, RemoveAt, Distinct, Linked, Shrunk;
    NodeRemove(side, mem, mem1, n, s, k);
    NodeLinked(side, mem1, n1, RemoveAt(s, k));
    LinksFrame(mem1, mem2, n1.level, RemoveAt(s, k));
  }

  lemma LinksFrame(mem: seq<Order>, mem': seq<Order>, l: PriceLevel, s: seq<nat>)
    requires Linked(mem, l, s) && |mem'| == |mem|
    requires forall x :: 0 <= x < |mem| && x in s ==> mem'[x] == mem[x]
    ensures Linked(mem', l, s)
  {
    assert forall j :: 0 <= j < |s| ==> s[j] in s;
  }

  lemma CountOfLinks(side: Side, mem: seq<Order>, n: Node, s: seq<nat>)
    requires NodeOk(side, mem, n, s)
    ensures n.level.cnt == |s|
  {
  }

  /** The count says when the last order left. */
  lemma ShrunkCount(l: PriceLevel, s: seq<nat>, k: nat, rem: nat)
    requires k < |s| && l.cnt == |s|
    ensures Shrunk(l, s, k, rem).cnt == |s| - 1 == |RemoveAt(s, k)|
  {
  }

  /** The best level has a head, its oldest order. */
  lemma HeadOfBest(r: Rep, side: Side)
    requires RepOk(r) && r.Side(side).v != []
    ensures r.Side(side).lists != [] && r.Side(side).lists[0] != []
    ensures r.Side(side).v[0].level.head == Some(r.Side(side).lists[0][0])
  {
    var s := r.Side(side);
    assert NodeOk(side, r.mem, s.v[0], s.lists[0]);
  }

  /** The level found at an order's price is the one that links it. */
  lemma LevelAtPrice(r: Rep, x: nat, i: nat)
    requires RepOk(r) && r.Live(x) && r.mem[x].stopType == NoStop
    requires i <= |r.Side(r.mem[x].side).v|
    requires i < |r.Side(r.mem[x].side).v| ==> r.Side(r.mem[x].side).v[i].price == r.mem[x].price
    requires i == |r.Side(r.mem[x].side).v| ==>
               forall k :: 0 <= k < i ==> r.Side(r.mem[x].side).v[k].price != r.mem[x].price
    ensures i < |r.Side(r.mem[x].side).v| && i < |r.Side(r.mem[x].side).lists|
    ensures x in r.Side(r.mem[x].side).lists[i]
  {
    var side := r.mem[x].side;
    var s := r.Side(side);
    var j :| 0 <= j < |s.lists| && x in s.lists[j];
    var k :| 0 <= k < |s.lists[j]| && s.lists[j][k] == x;
    assert NodeOk(side, r.mem, s.v[j], s.lists[j]);
    assert s.v[j].price == r.mem[x].price;
    assert i == j;
  }

  lemma TablesOf(r: Rep)
    requires RepOk(r)
    ensures TableOk(r) && StopsOk(r) && r.nextId > 0
  {
  }

  lemma SideSorted(r: Rep, side: Side)
    requires RepOk(r)
    ensures PricesSorted(side, r.Side(side).v) && |r.Side(side).v| == |r.Side(side).lists|
  {
  }

  /** The slot the table gives for an id, when there is one, is live under that id. */
  lemma TableEntry(r: Rep, id: nat)
    requires RepOk(r) && id < |r.ids| && r.ids[id].Some?
    ensures r.ids[id].value < |r.mem| && r.mem[r.ids[id].value].orderId == id && r.Live(r.ids[id].value)
    ensures r.mem[r.ids[id].value].stopType != NoStop <==> id in r.Stops()
    ensures r.mem[r.ids[id].value].stopType == NoStop <==> Resting(r.Abs(), id)
  {
    RestsIffInTable(r, id);
    StopIffInTable(r, id);
  }

  lemma PoolInRange(r: Rep)
    requires RepOk(r)
    ensures InRange(r.mem, r.free)
    ensures r.free != [] ==> !r.Live(r.free[|r.free| - 1]) && r.free[|r.free| - 1] < |r.mem|
  {
    if r.free != [] {
      assert r.free[|r.free| - 1] in r.free;
    }
  }

  /** Slot `o` can be pushed at the back of the level for `px`, at index `i`. */
  ghost predicate Pushable(mem: seq<Order>, s: Shelf, i: nat, px: int, o: nat) {
    var e := Emplaced(s, i, px);
    && i < |e.v| && i < |e.lists| && e.v[i].price == px
    && InRange(mem, e.lists[i]) && o < |mem| && o !in e.lists[i]
    && Linked(mem, e.v[i].level, e.lists[i])
  }

  lemma PushReady(r: Rep, side: Side, i: nat, px: int, o: nat, mem1: seq<Order>)
    requires RepOk(r) && r.free != [] && o == r.free[|r.free| - 1]
    requires LowerAt(side, r.Side(side).v, px, i)
    requires |mem1| == |r.mem| && forall x :: 0 <= x < |r.mem| && x != o ==> mem1[x] == r.mem[x]
    ensures Pushable(mem1, r.Side(side), i, px, o)
  {
    var s := r.Side(side);
    var e := Emplaced(s, i, px);
    assert ShelfOk(side, r.mem, s);
    assert o !in e.lists[i] && |r.mem| > o by {
      PoolInRange(r);
      FreshSlot(r, o);
      hide RepOk, ShelfOk, Linked, NodeOk;
      EmplacedNode(side, r.mem, s, i, px, o);
    }
    hide RepOk, ShelfOk, Emplaced;
    EmplacedNode(side, r.mem, s, i, px, o);
    NodeLinked(side, r.mem, e.v[i], e.lists[i]);
    hide NodeOk;
    LinksFrame(r.mem, mem1, e.v[i].level, e.lists[i]);
  }

  lemma EmplacedNode(side: Side, mem: seq<Order>, s: Shelf, i: nat, px: int, o: nat)
    requires ShelfOk(side, mem, s) && LowerAt(side, s.v, px, i)
    ensures
      var e := Emplaced(s, i, px);
      && i < |e.v| && i < |e.lists| && e.v[i].price == px
      && NodeOk(side, mem, e.v[i], e.lists[i]) && InRange(mem, e.lists[i])
      && (o in e.lists[i] ==> Listed(s.lists, o))
  {
    var e := Emplaced(s, i, px);
    EmplacedOk(side, mem, s, i, px);
    EmplacedLists(s.lists, e.lists, i, o, s.v, px);
    assert NodeOk(side, mem, e.v[i], e.lists[i]);
    assert Listed(e.lists, o) <== o in e.lists[i];
  }

  lemma NewSlotKeys(r: Rep, r': Rep, side: Side, i: nat, px: int, qty: nat, o: nat)
    requires o < |r.mem|
    requires
      var e := Emplaced(r.Side(side), i, px);
      && i < |e.lists| && InRange(r.mem, e.lists[i])
      && PushedBack(r.mem[o := LimitOrder(r.nextId, side, px, qty)], r'.mem, e.lists[i], o)
    ensures SameKeysBut(r.mem, r'.mem, o) && r'.mem[o].orderId == r.nextId
  {
  }
}
