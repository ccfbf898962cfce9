// How a stop comes to overtake an older one: a run of the engine at the level of slots, from a
// new book through a cascade that leaves an entry for a freed slot in the engine's list. The
// run has sell orders and buy stop-markets of one unit only.
module StopOrder {
  import opened LobTypes
  import opened Sums
  import opened BookSpec
  import opened Slab
  import opened PriceLadders
  import opened BookReps
  import opened Policies
  import opened EngineSpec
  import opened EngineLaws
  import opened MatchingEngines

  // ----- the operations of the book in this run -----

  /** A slot is free and the id table need not grow. */
  predicate CanTake(r: Rep) {
    r.free != [] && r.Top() < |r.mem| && r.nextId < |r.ids|
  }

  /** The next id goes to the order `o` in the slot on top of the freelist. */
  function Register(r: Rep, o: Order): Rep
    requires CanTake(r)
  {
    r.(mem := r.mem[r.Top() := o], ids := r.ids[r.nextId := Some(r.Top())], free := r.free[..|r.free| - 1],
       nextId := r.nextId + 1)
  }

  /** The record of a buy stop-market. */
  function StopRecord(id: nat, trigger: int): Order {
    ZERO_ORDER.(orderId := id, qty := 1, remainingQty := 1, stopType := StopMarket, stopPrice := trigger)
  }

  function One(x: nat): PriceLevel {
    PriceLevel(Some(x), Some(x), 1, 1)
  }

  /** add_limit_order at a price behind all others. */
  function Ask(r: Rep, px: int): Rep
    requires CanTake(r)
  {
    var x := r.Top();
    Register(r, LimitOrder(r.nextId, Sell, px, 1))
      .(asks := Shelf(r.asks.v + [Node(px, One(x))], r.asks.lists + [[x]]))
  }

  /** add_pending_stop. */
  function Pend(r: Rep, trigger: int): Rep
    requires CanTake(r)
  {
    Register(r, StopRecord(r.nextId, trigger)).(storage := r.storage + [r.Top()])
  }

  /** The best level of the asks holds a single order. */
  predicate SingleBest(r: Rep) {
    && r.asks.v != [] && r.asks.lists != [] && |r.asks.lists[0]| == 1
    && r.asks.lists[0][0] < |r.mem| && r.mem[r.asks.lists[0][0]].orderId < |r.ids|
  }

  /** market_order for the whole of that order. */
  function Bought(r: Rep): Rep
    requires SingleBest(r)
  {
    var x := r.asks.lists[0][0];
    r.(mem := r.mem[x := r.mem[x].(remainingQty := 0, prev := None, next := None)],
       asks := Shelf(r.asks.v[1..], r.asks.lists[1..]), ids := r.ids[r.mem[x].orderId := None], free := r.free + [x])
  }

  /** detach_pending and free_order of a stop that is no longer in the storage. */
  function Dropped(r: Rep, x: nat): Rep
    requires r.LiveStop(x)
  {
    Freed(r.(ids := r.ids[r.mem[x].orderId := None]), x)
  }

  lemma RegisterIs(r: Rep, o: Order)
    requires CanTake(r) && o.orderId == r.nextId
    ensures Registered(r, Register(r, o), r.Top())
  {
  }

  lemma PendOk(r: Rep, trigger: int)
    requires RepOk(r) && CanTake(r)
    ensures StopAdded(r, Pend(r, trigger), r.Top()) && RepOk(Pend(r, trigger))
  {
    RegisterIs(r, StopRecord(r.nextId, trigger));
    hide RepOk, Rep.View, Rep.Stops;
    var r' := Pend(r, trigger);
    assert Registered(r, r', r.Top());
    StopAddOk(r, r', r.Top());
  }

  lemma AskOk(r: Rep, px: int)
    requires RepOk(r) && CanTake(r) && forall i :: 0 <= i < |r.asks.v| ==> r.asks.v[i].price < px
    ensures Added(r, Ask(r, px), Sell, |r.asks.v|, px, 1, r.Top()) && RepOk(Ask(r, px))
  {
    RegisterIs(r, LimitOrder(r.nextId, Sell, px, 1));
    var r', n, x := Ask(r, px), |r.asks.v|, r.Top();
    var e := Shelf(r.asks.v + [Node(px, EMPTY_LEVEL)], r.asks.lists + [[]]);
    assert |r.asks.lists| == n;
    hide RepOk, Rep.View, Rep.Stops;
    assert Registered(r, r', x);
    assert Emplaced(r.asks, n, px) == e && Grown(EMPTY_LEVEL, x, 1) == One(x) && [] + [x] == [x];
    assert e.v[n := Node(px, One(x))] == r'.asks.v && e.lists[n := [x]] == r'.asks.lists;
    AddOk(r, r', Sell, |r.asks.v|, px, 1, r.Top());
  }

  lemma DroppedOk(r: Rep, x: nat)
    requires RepOk(r) && r.LiveStop(x) && x !in r.storage
    ensures Detached(r, r.(ids := r.ids[r.mem[x].orderId := None]), x) && RepOk(Dropped(r, x))
  {
    hide RepOk, Rep.View, Rep.Stops;
    DetachOk(r, r.(ids := r.ids[r.mem[x].orderId := None]), x);
  }

  /** A market order that takes exactly the one order of the best level. */
  lemma MarketOne(b: Book, o: Ord)
    requires b.asks != [] && b.asks[0].orders == [o] && o.rem == 1 && o.hidden == 0
    ensures Market(b, Buy, 1) == Outcome([Fill(o.id, b.asks[0].price, 1)], b.(asks := b.asks[1..], free := b.free + 1))
  {
    var ls := b.asks;
    assert RemoveAt([o], 0) == [];
    assert Strike(ls, 1) == RemoveAt(ls, 0) == ls[1..];
    SweepTurn(ls, 1);
    SweepDone(ls[1..], 0);
    assert Sweep(ls, 1) == Swept(ls[1..], [StrikeFill(ls, 1)], 0);
    assert Sum(ls, Count) == 1 + Sum(ls[1..], Count);
  }

  /** The order in the best level once its quantity is gone, still linked. */
  function Emptied(r: Rep): Rep
    requires SingleBest(r)
  {
    var x := r.asks.lists[0][0];
    r.(mem := r.mem[x := r.mem[x].(remainingQty := 0)],
       asks := Shelf(r.asks.v[0 := Node(r.asks.v[0].price, r.asks.v[0].level.(aggQty := 0))], r.asks.lists))
  }

  lemma BoughtSteps(r: Rep)
    requires SingleBest(r) && r.asks.v[0].level == One(r.asks.lists[0][0])
    requires r.mem[r.asks.lists[0][0]].remainingQty == 1
    ensures
      var x := r.asks.lists[0][0];
      && Rewritten(r, Emptied(r), Sell, 0, 0, r.mem[x].(remainingQty := 0))
      && Removed(Emptied(r), Bought(r), Sell, 0, 0)
  {
    var x, r1, r' := r.asks.lists[0][0], Emptied(r), Bought(r);
    assert RemoveAt(r1.asks.lists[0], 0) == [];
    assert RemoveAt(r1.asks.v, 0) == r.asks.v[1..] && RemoveAt(r1.asks.lists, 0) == r.asks.lists[1..];
    assert Unlinked(r1.mem, r'.mem, r1.asks.lists[0], 0);
  }

  /** The best level holds a single unit, with nothing hidden behind it. */
  predicate UnitBest(r: Rep) {
    && SingleBest(r) && r.asks.v[0].level == One(r.asks.lists[0][0])
    && r.mem[r.asks.lists[0][0]].remainingQty == 1 && r.mem[r.asks.lists[0][0]].hiddenQty == 0
  }

  lemma BoughtKeeps(r: Rep)
    requires RepOk(r) && UnitBest(r)
    ensures RepOk(Bought(r)) && r.Abs().asks != []
    ensures Bought(r).Abs() == r.Abs().(asks := r.Abs().asks[1..], free := r.Abs().free + 1)
  {
    var x, r1, r' := r.asks.lists[0][0], Emptied(r), Bought(r);
    var o, o' := r.mem[x], r.mem[x].(remainingQty := 0);
    BoughtSteps(r);
    SingleView(r);
    hide RepOk, Rep.View, Rep.Stops, Rewritten, Removed, SetQueue, RemoveAt;
    RewriteOk(r, r1, Sell, 0, 0, o');
    RemoveOk(r1, r', Sell, 0, 0);
    SingleGone(r.View(Sell), o.View(), o'.View());
  }

  /** The fill and the book of that market order. */
  lemma BoughtOk(r: Rep)
    requires RepOk(r) && UnitBest(r)
    ensures RepOk(Bought(r))
    ensures
      var o := r.mem[r.asks.lists[0][0]];
      Market(r.Abs(), Buy, 1) == Outcome([Fill(o.orderId, r.asks.v[0].price, 1)], Bought(r).Abs())
  {
    var o := r.mem[r.asks.lists[0][0]];
    BoughtKeeps(r);
    SingleView(r);
    hide RepOk, Rep.View, Rep.Stops, Market, Bought;
    MarketOne(r.Abs(), o.View());
  }

  lemma SingleGone(ls: seq<Level>, o: Ord, o': Ord)
    requires ls != [] && ls[0].orders == [o]
    ensures
      var mid := ls[0 := Level(ls[0].price, ls[0].orders[0 := o'])];
      SetQueue(mid, 0, RemoveAt(mid[0].orders, 0)) == ls[1..]
  {
    assert [o][0 := o'] == [o'] && RemoveAt([o'], 0) == [];
  }

  lemma SingleView(r: Rep)
    requires RepOk(r) && SingleBest(r)
    ensures
      var ls := r.View(Sell);
      ls != [] && ls[0].price == r.asks.v[0].price && ls[0].orders == [r.mem[r.asks.lists[0][0]].View()]
  {
    hide RepOk;
  }

  // ----- the engine at the level of slots -----

  /** A call of process_triggers under way: the entries still queued and its trade price. */
  datatype Frame = Frame(q: seq<nat>, last: int)

  /** `frames` are the nested calls of process_triggers, innermost last. */
  datatype Slots = Slots(r: Rep, pending: seq<nat>, frames: seq<Frame>, executed: seq<nat>)

  /** What a client does, and the turns of the loops this sets off. */
  datatype Act = AskAt(price: int) | StopAt(trigger: int) | BuyOne | Turn

  /** submit_market for one unit, up to the loop of process_triggers. */
  function BuyUnit(s: Slots): Slots
    requires s.r.asks.v != [] ==> SingleBest(s.r)
  {
    if s.r.asks.v == [] then s
    else
      var queue := Frame(s.pending + s.r.storage, s.r.asks.v[0].price);
      Slots(Bought(s.r).(storage := []), [], s.frames + [queue], s.executed)
  }

  predicate CanBuy(r: Rep) {
    r.asks.v != [] ==> UnitBest(r)
  }

  predicate CanDo(s: Slots, act: Act) {
    match act
    case AskAt(price) =>
      s.frames == [] && CanTake(s.r) && forall i :: 0 <= i < |s.r.asks.v| ==> s.r.asks.v[i].price < price
    case StopAt(trigger) => s.frames == [] && CanTake(s.r)
    case BuyOne => s.frames == [] && CanBuy(s.r)
    case Turn =>
      && s.frames != [] && CanBuy(s.r)
      && var q := s.frames[|s.frames| - 1].q;
      q != [] ==> q[0] < |s.r.mem| && s.r.mem[q[0]].stopType == StopMarket && q[0] !in s.r.storage
  }

  /** One entry of the innermost queue, or the end of its loop. */
  function TakeTurn(s: Slots): Slots
    requires CanDo(s, Turn)
  {
    var n := |s.frames| - 1;
    var Frame(q, last) := s.frames[n];
    if q == [] then s.(frames := s.frames[..n])
    else
      var o, after := q[0], s.(frames := s.frames[..n] + [Frame(q[1..], last)]);
      if !Triggers(s.r.mem[o].AsStop(o), last) then after.(pending := s.pending + [o])
      else if !s.r.LiveStop(o) then after
      else BuyUnit(after.(r := Dropped(s.r, o), executed := s.executed + [s.r.mem[o].orderId]))
  }

  function Perform(s: Slots, act: Act): Slots
    requires CanDo(s, act)
  {
    match act
    case AskAt(price) => s.(r := Ask(s.r, price))
    case StopAt(trigger) => s.(r := Pend(s.r, trigger), pending := s.pending + [s.r.Top()])
    case BuyOne => BuyUnit(s)
    case Turn => TakeTurn(s)
  }

  predicate Leads(s: Slots, acts: seq<Act>, s': Slots)
    decreases |acts|
  {
    if acts == [] then s' == s
    else CanDo(s, acts[0]) && Leads(Perform(s, acts[0]), acts[1..], s')
  }

  /** A live stop is no order of the asks, so detaching one leaves the best level alone. */
  lemma DropKeepsBest(r: Rep, x: nat)
    requires r.LiveStop(x) && CanBuy(r)
    ensures CanBuy(Dropped(r, x))
  {
  }

  lemma BuyOk(s: Slots)
    requires RepOk(s.r) && CanBuy(s.r)
    ensures RepOk(BuyUnit(s).r)
  {
    if s.r.asks.v != [] {
      hide RepOk, Rep.View, Rep.Stops;
      BoughtOk(s.r);
      TakeStorageOk(Bought(s.r));
    }
  }

  /** Every step keeps the representation of the book intact. */
  lemma PerformOk(s: Slots, act: Act)
    requires RepOk(s.r) && CanDo(s, act)
    ensures RepOk(Perform(s, act).r)
  {
    hide RepOk, Rep.View, Rep.Stops, Ask, Pend, Dropped, Bought;
    match act {
      case AskAt(price) => AskOk(s.r, price);
      case StopAt(trigger) => PendOk(s.r, trigger);
      case BuyOne => BuyOk(s);
      case Turn =>
        var n := |s.frames| - 1;
        var Frame(q, last) := s.frames[n];
        if q != [] && Triggers(s.r.mem[q[0]].AsStop(q[0]), last) && s.r.LiveStop(q[0]) {
          DroppedOk(s.r, q[0]);
          DropKeepsBest(s.r, q[0]);
          BuyOk(Slots(Dropped(s.r, q[0]), s.pending, s.frames[..n] + [Frame(q[1..], last)],
                      s.executed + [s.r.mem[q[0]].orderId]));
        }
    }
  }

  lemma {:induction false} LeadsOk(s: Slots, acts: seq<Act>, s': Slots)
    requires RepOk(s.r) && Leads(s, acts, s')
    ensures RepOk(s'.r)
    decreases |acts|
  {
    hide RepOk, Perform, CanDo;
    if acts != [] {
      PerformOk(s, acts[0]);
      LeadsOk(Perform(s, acts[0]), acts[1..], s');
    }
  }

  // ----- the run -----

  /** The id table of the run: five slots make eighteen entries. */
  function Table(at: map<nat, nat>): seq<Option<nat>> {
    seq(18, i requires 0 <= i < 18 => if i in at then Some(at[i]) else None)
  }

  lemma TableSet(at: map<nat, nat>, id: nat, x: nat)
    requires id < 18
    ensures Table(at)[id := Some(x)] == Table(at[id := x])
    ensures Table(at)[id := None] == Table(at - {id})
  {
  }

  const A1: Order := LimitOrder(1, Sell, 100, 1)
  const A2: Order := LimitOrder(2, Sell, 101, 1)
  const A3: Order := LimitOrder(3, Sell, 102, 1)
  const S4: Order := StopRecord(4, 101)
  const S5: Order := StopRecord(5, 100)

  function Gone(o: Order): Order {
    o.(remainingQty := 0)
  }

  const ASKS: Shelf := Shelf([Node(100, One(4)), Node(101, One(3)), Node(102, One(2))], [[4], [3], [2]])

  const NEW: Slots := Slots(NewRep(5), [], [], [])
  const SUBMISSIONS: seq<Act> := [AskAt(100), AskAt(101), AskAt(102), StopAt(101), StopAt(100)]

  /** Three sell orders rest in slots 4, 3 and 2; stop 4 (slot 1, at 101) and stop 5 (slot 0, at
      100) are pending, each in both lists. */
  const READY: Slots := Slots(
    Rep([S5, S4, A3, A2, A1], Shelf([], []), ASKS, Table(map[1 := 4, 2 := 3, 3 := 2, 4 := 1, 5 := 0]), [], 6, [1, 0]),
    [1, 0], [], [])

  /** The state after `act` in `s`, given as `s'`. */
  predicate Becomes(s: Slots, act: Act, s': Slots) {
    CanDo(s, act) && Perform(s, act) == s'
  }

  /** The first `n` sell orders of the run, in a book with this slab, table and freelist. */
  function OnSale(mem: seq<Order>, n: nat, at: map<nat, nat>, free: seq<nat>, nextId: nat, storage: seq<nat>): Rep
    requires n <= 3
  {
    Rep(mem, Shelf([], []), Shelf(ASKS.v[..n], ASKS.lists[..n]), Table(at), free, nextId, storage)
  }

  const Z: Order := ZERO_ORDER

  const ASKED1: Slots := Slots(OnSale([Z, Z, Z, Z, A1], 1, map[1 := 4], [0, 1, 2, 3], 2, []), [], [], [])
  const ASKED2: Slots := Slots(OnSale([Z, Z, Z, A2, A1], 2, map[1 := 4, 2 := 3], [0, 1, 2], 3, []), [], [], [])
  const ASKED3: Slots := Slots(OnSale([Z, Z, A3, A2, A1], 3, map[1 := 4, 2 := 3, 3 := 2], [0, 1], 4, []), [], [], [])
  const PENDED: Slots := Slots(
    OnSale([Z, S4, A3, A2, A1], 3, map[1 := 4, 2 := 3, 3 := 2, 4 := 1], [0], 5, [1]), [1], [], [])

  lemma FirstAsk()
    ensures Becomes(NEW, AskAt(100), ASKED1)
  {
    TableSet(map[], 1, 4);
    assert NEW.r.ids == Table(map[]);
  }

  lemma SecondAsk()
    ensures Becomes(ASKED1, AskAt(101), ASKED2)
  {
    TableSet(map[1 := 4], 2, 3);
  }

  lemma ThirdAsk()
    ensures Becomes(ASKED2, AskAt(102), ASKED3)
  {
    TableSet(map[1 := 4, 2 := 3], 3, 2);
  }

  lemma FirstStop()
    ensures Becomes(ASKED3, StopAt(101), PENDED)
  {
    TableSet(map[1 := 4, 2 := 3, 3 := 2], 4, 1);
  }

  lemma SecondStop()
    ensures Becomes(PENDED, StopAt(100), READY)
  {
    TableSet(map[1 := 4, 2 := 3, 3 := 2, 4 := 1], 5, 0);
  }

  // ----- the cascade -----

  /** The book once `n` of the three sell orders are gone. */
  function Sold(mem: seq<Order>, n: nat, at: map<nat, nat>, free: seq<nat>): Rep
    requires n <= 3
  {
    Rep(mem, Shelf([], []), Shelf(ASKS.v[n..], ASKS.lists[n..]), Table(at), free, 6, [])
  }

  /** A market order for one unit takes order 1 at 100. Both lists become the queue. */
  const BOUGHT: Slots := Slots(
    Sold([S5, S4, A3, A2, Gone(A1)], 1, map[2 := 3, 3 := 2, 4 := 1, 5 := 0], [4]), [], [Frame([1, 0, 1, 0], 100)], [])

  /** Stop 4 does not trigger at 100 and goes back to the engine's list. */
  const WAITING: Slots := Slots(BOUGHT.r, [1], [Frame([0, 1, 0], 100)], [])

  /** Stop 5 does: its slot is freed, and it buys order 2 at 101, which opens an inner call over
      the engine's list. */
  const INNER: Slots := Slots(
    Sold([S5, S4, A3, Gone(A2), Gone(A1)], 2, map[3 := 2, 4 := 1], [4, 0, 3]), [],
    [Frame([1, 0], 100), Frame([1], 101)], [5])

  /** There stop 4 triggers: its slot is freed, and it buys order 3 at 102. */
  const INNERMOST: Slots := Slots(
    Sold([S5, S4, Gone(A3), Gone(A2), Gone(A1)], 3, map[], [4, 0, 3, 1, 2]), [],
    [Frame([1, 0], 100), Frame([], 101), Frame([], 102)], [5, 4])

  /** Back in the outer call the record of stop 4, now in a free slot, still does not trigger at
      100, so its slot goes to the engine's list; that of stop 5 triggers and is not found. */
  const LEFT_BEHIND: Slots := Slots(INNERMOST.r, [1], [], [5, 4])

  /** Buying the next of the three orders. */
  lemma SoldNext(mem: seq<Order>, n: nat, at: map<nat, nat>, free: seq<nat>, storage: seq<nat>)
    requires n < 3 && |mem| == 5 && mem[4 - n] == LimitOrder(n + 1, Sell, 100 + n, 1)
    ensures
      var r := Sold(mem, n, at, free).(storage := storage);
      && CanBuy(r) && r.asks.v != [] && r.asks.v[0].price == 100 + n
      && Bought(r) == Sold(mem[4 - n := Gone(mem[4 - n])], n + 1, at - {n + 1}, free + [4 - n]).(storage := storage)
  {
    TableSet(at, n + 1, 0);
  }

  lemma BuyNext(s: Slots, mem: seq<Order>, n: nat, at: map<nat, nat>, free: seq<nat>)
    requires n < 3 && |mem| == 5 && mem[4 - n] == LimitOrder(n + 1, Sell, 100 + n, 1)
    requires s.r == Sold(mem, n, at, free).(storage := s.r.storage)
    ensures CanBuy(s.r)
    ensures BuyUnit(s)
         == Slots(Sold(mem[4 - n := Gone(mem[4 - n])], n + 1, at - {n + 1}, free + [4 - n]), [],
                  s.frames + [Frame(s.pending + s.r.storage, 100 + n)], s.executed)
  {
    SoldNext(mem, n, at, free, s.r.storage);
    hide Bought, UnitBest;
  }

  lemma BuyHundred()
    ensures Becomes(READY, BuyOne, BOUGHT)
  {
    var mem, at := [S5, S4, A3, A2, A1], map[1 := 4, 2 := 3, 3 := 2, 4 := 1, 5 := 0];
    assert READY.r == Sold(mem, 0, at, []).(storage := [1, 0]);
    BuyNext(READY, mem, 0, at, []);
    hide BuyUnit, CanBuy, Sold;
    assert at - {1} == map[2 := 3, 3 := 2, 4 := 1, 5 := 0];
    assert mem[4 := Gone(A1)] == [S5, S4, A3, A2, Gone(A1)];
    assert [1, 0] + [1, 0] == [1, 0, 1, 0] && [] + [4] == [4];
    assert [] + [Frame([1, 0, 1, 0], 100)] == [Frame([1, 0, 1, 0], 100)];
  }

  lemma FourWaits()
    ensures Becomes(BOUGHT, Turn, WAITING)
  {
  }

  /** The turn in which the stop in slot `o` fires. */
  lemma Fires(s: Slots, outer: seq<Frame>, o: nat, q: seq<nat>, last: int)
    requires CanDo(s, Turn) && s.frames == outer + [Frame([o] + q, last)]
    requires o < |s.r.mem| && s.r.LiveStop(o) && Triggers(s.r.mem[o].AsStop(o), last)
    requires CanBuy(Dropped(s.r, o))
    ensures TakeTurn(s)
         == BuyUnit(Slots(Dropped(s.r, o), s.pending, outer + [Frame(q, last)], s.executed + [s.r.mem[o].orderId]))
  {
    assert ([o] + q)[1..] == q && s.frames[..|s.frames| - 1] == outer;
    hide BuyUnit, Dropped, CanBuy;
  }

  lemma FiveFires()
    ensures Becomes(WAITING, Turn, INNER)
  {
    var mem, at := [S5, S4, A3, A2, Gone(A1)], map[2 := 3, 3 := 2, 4 := 1];
    TableSet(map[2 := 3, 3 := 2, 4 := 1, 5 := 0], 5, 0);
    assert map[2 := 3, 3 := 2, 4 := 1, 5 := 0] - {5} == at;
    assert [4] + [0] == [4, 0] && [4, 0] + [3] == [4, 0, 3];
    assert Dropped(WAITING.r, 0) == Sold(mem, 1, at, [4, 0]);
    var fired := Slots(Dropped(WAITING.r, 0), [1], [Frame([1, 0], 100)], [5]);
    assert [0] + [1, 0] == [0, 1, 0] && [] + [Frame([0, 1, 0], 100)] == WAITING.frames;
    assert CanDo(WAITING, Turn);
    BuyNext(fired, mem, 1, at, [4, 0]);
    Fires(WAITING, [], 0, [1, 0], 100);
    hide BuyUnit, CanBuy, Sold, TakeTurn, Dropped;
    assert [] + [Frame([1, 0], 100)] == [Frame([1, 0], 100)] && [] + [5] == [5] && [1] + [] == [1];
    assert at - {2} == map[3 := 2, 4 := 1];
    assert mem[3 := Gone(A2)] == [S5, S4, A3, Gone(A2), Gone(A1)];
    assert [Frame([1, 0], 100)] + [Frame([1], 101)] == INNER.frames;
  }

  lemma FourFires()
    ensures Becomes(INNER, Turn, INNERMOST)
  {
    var mem, at := [S5, S4, A3, Gone(A2), Gone(A1)], map[3 := 2];
    TableSet(map[3 := 2, 4 := 1], 4, 0);
    assert map[3 := 2, 4 := 1] - {4} == at;
    assert [4, 0, 3] + [1] == [4, 0, 3, 1] && [4, 0, 3, 1] + [2] == [4, 0, 3, 1, 2];
    assert Dropped(INNER.r, 1) == Sold(mem, 2, at, [4, 0, 3, 1]);
    var outer := [Frame([1, 0], 100)];
    var fired := Slots(Dropped(INNER.r, 1), [], outer + [Frame([], 101)], [5, 4]);
    assert [1] + [] == [1] && outer + [Frame([1], 101)] == INNER.frames;
    assert CanDo(INNER, Turn);
    BuyNext(fired, mem, 2, at, [4, 0, 3, 1]);
    Fires(INNER, outer, 1, [], 101);
    hide BuyUnit, CanBuy, Sold, TakeTurn, Dropped;
    assert [5] + [4] == [5, 4] && fired.pending + fired.r.storage == [];
    assert at - {3} == map[];
    assert mem[2 := Gone(A3)] == [S5, S4, Gone(A3), Gone(A2), Gone(A1)];
    assert outer + [Frame([], 101)] + [Frame([], 102)] == INNERMOST.frames;
  }

  /** The turn of an entry that goes back to the engine's list, or of one that is dropped. */
  lemma Passes(s: Slots, outer: seq<Frame>, o: nat, q: seq<nat>, last: int)
    requires CanDo(s, Turn) && s.frames == outer + [Frame([o] + q, last)]
    requires o < |s.r.mem| && (Triggers(s.r.mem[o].AsStop(o), last) ==> !s.r.LiveStop(o))
    ensures
      var again := if Triggers(s.r.mem[o].AsStop(o), last) then [] else [o];
      Perform(s, Turn) == Slots(s.r, s.pending + again, outer + [Frame(q, last)], s.executed)
  {
    assert ([o] + q)[1..] == q && s.frames[..|s.frames| - 1] == outer;
    assert s.pending + [] == s.pending;
    hide BuyUnit, CanBuy;
  }

  /** The end of a call. */
  lemma Returns(s: Slots, outer: seq<Frame>, last: int)
    requires CanBuy(s.r) && s.frames == outer + [Frame([], last)]
    ensures Becomes(s, Turn, Slots(s.r, s.pending, outer, s.executed))
  {
    assert s.frames[..|s.frames| - 1] == outer;
    hide BuyUnit, CanBuy;
  }

  lemma FourAgain()
    ensures Becomes(Slots(INNERMOST.r, [], [Frame([1, 0], 100)], [5, 4]), Turn,
                    Slots(INNERMOST.r, [1], [Frame([0], 100)], [5, 4]))
  {
    var s := Slots(INNERMOST.r, [], [Frame([1, 0], 100)], [5, 4]);
    assert [1] + [0] == [1, 0] && [] + [Frame([1, 0], 100)] == s.frames && [] + [1] == [1];
    Passes(s, [], 1, [0], 100);
    assert [] + [Frame([0], 100)] == [Frame([0], 100)];
  }

  lemma FiveAgain()
    ensures Becomes(Slots(INNERMOST.r, [1], [Frame([0], 100)], [5, 4]), Turn,
                    Slots(INNERMOST.r, [1], [Frame([], 100)], [5, 4]))
  {
    var s := Slots(INNERMOST.r, [1], [Frame([0], 100)], [5, 4]);
    assert [0] + [] == [0] && [] + [Frame([0], 100)] == s.frames && [1] + [] == [1];
    assert INNERMOST.r.ids[5] == None;
    Passes(s, [], 0, [], 100);
    assert [] + [Frame([], 100)] == [Frame([], 100)];
  }

  /** The nested calls end, and the outer one comes to its stale entries. */
  lemma CallsReturn()
    ensures Leads(INNERMOST, [Turn, Turn, Turn, Turn, Turn], LEFT_BEHIND)
  {
    var outer := [Frame([1, 0], 100)];
    var s1, s2 := INNERMOST.(frames := outer + [Frame([], 101)]), INNERMOST.(frames := outer);
    var s3 := Slots(INNERMOST.r, [1], [Frame([0], 100)], [5, 4]);
    var s4 := Slots(INNERMOST.r, [1], [Frame([], 100)], [5, 4]);
    assert INNERMOST.frames == s1.frames + [Frame([], 102)] && [] + [Frame([], 100)] == s4.frames;
    assert INNERMOST.r.asks.v == [];
    Returns(INNERMOST, s1.frames, 102);
    Returns(s1, outer, 101);
    FourAgain();
    FiveAgain();
    Returns(s4, [], 100);
    FiveMoves(INNERMOST, s1, s2, s3, s4, LEFT_BEHIND, [Turn, Turn, Turn, Turn, Turn]);
  }

  lemma FiveMoves(s: Slots, s1: Slots, s2: Slots, s3: Slots, s4: Slots, s5: Slots, acts: seq<Act>)
    requires |acts| == 5 && Becomes(s, acts[0], s1) && Becomes(s1, acts[1], s2) && Becomes(s2, acts[2], s3)
    requires Becomes(s3, acts[3], s4) && Becomes(s4, acts[4], s5)
    ensures Leads(s, acts, s5)
  {
    hide Becomes;
    assert Leads(s5, [], s5);
    LeadsFirst(s4, acts[4..], s5, s5);
    LeadsFirst(s3, acts[3..], s4, s5);
    LeadsFirst(s2, acts[2..], s3, s5);
    LeadsFirst(s1, acts[1..], s2, s5);
    LeadsFirst(s, acts, s1, s5);
  }

  lemma LeadsFirst(s: Slots, acts: seq<Act>, s1: Slots, s': Slots)
    requires acts != [] && Becomes(s, acts[0], s1) && Leads(s1, acts[1..], s')
    ensures Leads(s, acts, s')
  {
    hide CanDo, Perform;
  }

  lemma {:induction false} LeadsBoth(s: Slots, a: seq<Act>, m: Slots, b: seq<Act>, s': Slots)
    requires Leads(s, a, m) && Leads(m, b, s')
    ensures Leads(s, a + b, s')
    decreases |a|
  {
    hide CanDo, Perform;
    if a == [] {
      assert a + b == b;
    } else {
      LeadsBoth(Perform(s, a[0]), a[1..], m, b, s');
      assert (a + b)[1..] == a[1..] + b;
    }
  }

  lemma SubmissionsRun()
    ensures Leads(NEW, SUBMISSIONS, READY)
  {
    FirstAsk();
    SecondAsk();
    ThirdAsk();
    FirstStop();
    SecondStop();
    hide Becomes, Leads;
    FiveMoves(NEW, ASKED1, ASKED2, ASKED3, PENDED, READY, SUBMISSIONS);
  }

  const CASCADE: seq<Act> := [BuyOne, Turn, Turn, Turn, Turn, Turn, Turn, Turn, Turn]

  lemma CascadeRun()
    ensures Leads(READY, CASCADE, LEFT_BEHIND)
  {
    BuyHundred();
    FourWaits();
    FiveFires();
    FourFires();
    CallsReturn();
    hide Becomes, Leads;
    assert CASCADE[4..] == [Turn, Turn, Turn, Turn, Turn];
    LeadsFirst(INNER, CASCADE[3..], INNERMOST, LEFT_BEHIND);
    LeadsFirst(WAITING, CASCADE[2..], INNER, LEFT_BEHIND);
    LeadsFirst(BOUGHT, CASCADE[1..], WAITING, LEFT_BEHIND);
    LeadsFirst(READY, CASCADE, BOUGHT, LEFT_BEHIND);
  }

  /** From a new book with five slots, the engine reaches a state in which no stop is pending and
      every slot is free, and yet its list holds the slot of the executed stop 4. */
  lemma CascadeLeavesEntry()
    ensures Leads(NEW, SUBMISSIONS + CASCADE, LEFT_BEHIND) && RepOk(LEFT_BEHIND.r)
  {
    SubmissionsRun();
    CascadeRun();
    NewOk();
    hide Leads, RepOk;
    LeadsBoth(NEW, SUBMISSIONS, READY, CASCADE, LEFT_BEHIND);
    LeadsOk(NEW, SUBMISSIONS + CASCADE, LEFT_BEHIND);
  }

  lemma NewOk()
    ensures RepOk(NEW.r)
  {
    hide RepOk;
    assert NEW.r.free == [0, 1, 2, 3, 4];
    NewBookOk(NEW.r);
  }

  // ----- the next two stops -----

  const S6: Order := StopRecord(6, 103)
  const S7: Order := StopRecord(7, 103)

  const SIXTH: Slots := Slots(
    Rep([S5, S4, S6, Gone(A2), Gone(A1)], Shelf([], []), Shelf([], []), Table(map[6 := 2]), [4, 0, 3, 1], 7, [2]),
    [1, 2], [], [5, 4])

  /** Stop 7 is given slot 1, whose entry stands in front of that of stop 6. */
  const SEVENTH: Slots := Slots(
    Rep([S5, S7, S6, Gone(A2), Gone(A1)], Shelf([], []), Shelf([], []), Table(map[6 := 2, 7 := 1]), [4, 0, 3], 8,
        [2, 1]),
    [1, 2, 1], [], [5, 4])

  lemma SixthStop()
    ensures Becomes(LEFT_BEHIND, StopAt(103), SIXTH)
  {
    TableSet(map[], 6, 2);
  }

  lemma SeventhStop()
    ensures Becomes(SIXTH, StopAt(103), SEVENTH)
  {
    TableSet(map[6 := 2], 7, 1);
  }

  /** The queue of ids before and after. */
  lemma OvertakingQueue()
    ensures LiveIds(LEFT_BEHIND.r, [1]) == []
    ensures LiveIds(SIXTH.r, SIXTH.pending) == [6]
    ensures LiveIds(SEVENTH.r, SEVENTH.pending) == [7, 6, 7]
  {
    LiveIdsAppend(LEFT_BEHIND.r, [], 1);
    LiveIdsAppend(SIXTH.r, [1], 2);
    LiveIdsAppend(SIXTH.r, [], 1);
    LiveIdsAppend(SEVENTH.r, [1, 2], 1);
    LiveIdsAppend(SEVENTH.r, [1], 2);
    LiveIdsAppend(SEVENTH.r, [], 1);
    hide LiveIds;
  }

  // ----- the stops are served -----

  const A8: Order := LimitOrder(8, Sell, 103, 1)

  const OFFERED: Slots := Slots(
    Rep([S5, S7, S6, A8, Gone(A1)], Shelf([], []), Shelf([Node(103, One(3))], [[3]]),
        Table(map[6 := 2, 7 := 1, 8 := 3]), [4, 0], 9, [2, 1]),
    [1, 2, 1], [], [5, 4])

  const TAKEN: Slots := Slots(
    Rep([S5, S7, S6, Gone(A8), Gone(A1)], Shelf([], []), Shelf([], []), Table(map[6 := 2, 7 := 1]), [4, 0, 3], 9, []),
    [], [Frame([1, 2, 1, 2, 1], 103)], [5, 4])

  const SERVED: Slots := Slots(
    TAKEN.r.(ids := Table(map[6 := 2]), free := [4, 0, 3, 1]), [], [Frame([2, 1, 2, 1], 103)], [5, 4, 7])

  lemma OfferEight()
    ensures Becomes(SEVENTH, AskAt(103), OFFERED)
  {
    TableSet(map[6 := 2, 7 := 1], 8, 3);
  }

  lemma TakeEight()
    ensures Becomes(OFFERED, BuyOne, TAKEN)
  {
    TableSet(map[6 := 2, 7 := 1, 8 := 3], 8, 0);
    assert map[6 := 2, 7 := 1, 8 := 3] - {8} == map[6 := 2, 7 := 1];
    assert [4, 0] + [3] == [4, 0, 3] && [1, 2, 1] + [2, 1] == [1, 2, 1, 2, 1];
    assert Bought(OFFERED.r).(storage := []) == TAKEN.r;
    assert BuyUnit(OFFERED).frames == TAKEN.frames;
  }

  lemma SevenFires()
    ensures Becomes(TAKEN, Turn, SERVED)
  {
    TableSet(map[6 := 2, 7 := 1], 7, 0);
    assert map[6 := 2, 7 := 1] - {7} == map[6 := 2];
    assert [1] + [2, 1, 2, 1] == [1, 2, 1, 2, 1] && [] + [Frame([1, 2, 1, 2, 1], 103)] == TAKEN.frames;
    assert Dropped(TAKEN.r, 1) == SERVED.r;
    Fires(TAKEN, [], 1, [2, 1, 2, 1], 103);
    assert [] + [Frame([2, 1, 2, 1], 103)] == SERVED.frames && [5, 4] + [7] == [5, 4, 7];
  }

  lemma OvertakingRun()
    ensures Leads(LEFT_BEHIND, [StopAt(103), StopAt(103)], SEVENTH)
    ensures Leads(SEVENTH, [AskAt(103), BuyOne, Turn], SERVED)
  {
    SixthStop();
    SeventhStop();
    OfferEight();
    TakeEight();
    SevenFires();
    hide Becomes;
    assert Leads(SEVENTH, [], SEVENTH) && Leads(SERVED, [], SERVED);
    hide Leads;
    var stops, later := [StopAt(103), StopAt(103)], [AskAt(103), BuyOne, Turn];
    assert stops[1..] == [StopAt(103)] && stops[1..][1..] == [] && later[1..][1..][1..] == [];
    LeadsFirst(SIXTH, stops[1..], SEVENTH, SEVENTH);
    LeadsFirst(LEFT_BEHIND, stops, SIXTH, SEVENTH);
    LeadsFirst(TAKEN, later[1..][1..], SERVED, SERVED);
    LeadsFirst(OFFERED, later[1..], TAKEN, SERVED);
    LeadsFirst(SEVENTH, later, OFFERED, SERVED);
  }

  /** Stops do overtake each other. From a new book, three sell orders and two stops, one market
      order sets off a cascade that leaves slot 1 in the engine's list while no stop is pending.
      The next stop, 6, is given slot 2, and the one after it, 7, slot 1, and with it the entry
      in front: at the next trade stop 7 is executed while stop 6 still waits. */
  lemma StaleEntryOvertakes()
    ensures
      && Leads(NEW, SUBMISSIONS + CASCADE, LEFT_BEHIND)
      && LEFT_BEHIND.frames == [] && LEFT_BEHIND.pending == [1] && LiveIds(LEFT_BEHIND.r, [1]) == []
      && Leads(LEFT_BEHIND, [StopAt(103), StopAt(103)], SEVENTH) && RepOk(SEVENTH.r)
      && LiveIds(SIXTH.r, SIXTH.pending) == [6] && SIXTH.r.Top() in SIXTH.pending
      && LiveIds(SEVENTH.r, SEVENTH.pending) == [7, 6, 7]
    ensures
      && Leads(SEVENTH, [AskAt(103), BuyOne, Turn], SERVED)
      && SERVED.executed == SEVENTH.executed + [7]
      && SERVED.r.LiveStop(2) && SERVED.r.mem[2].orderId == 6 && Triggers(SERVED.r.mem[2].AsStop(2), 103)
  {
    CascadeLeavesEntry();
    OvertakingRun();
    OvertakingQueue();
    SixStillWaits();
    hide *;
    LeadsOk(LEFT_BEHIND, [StopAt(103), StopAt(103)], SEVENTH);
  }

  lemma SixStillWaits()
    ensures LEFT_BEHIND.frames == [] && LEFT_BEHIND.pending == [1]
    ensures SIXTH.r.free != [] && SIXTH.r.Top() in SIXTH.pending && SERVED.executed == SEVENTH.executed + [7]
    ensures SERVED.r.LiveStop(2) && SERVED.r.mem[2].orderId == 6 && Triggers(SERVED.r.mem[2].AsStop(2), 103)
  {
  }

  /** A log of ids that the table does not hold is sound. */
  lemma EmptyQueuesSound(r: Rep, pending: seq<nat>, executed: seq<nat>)
    requires RepOk(r) && Distinct(executed)
    requires forall id :: id in executed ==> id < r.nextId && id < |r.ids| && r.ids[id] == None
    ensures Sound(EngineOf(r, pending, executed).(queued := [], stored := []))
  {
    TablesOf(r);
    AbsStops(r);
    hide RepOk, LiveIds, Rep.Stops, Rep.View;
    forall id: nat
      ensures id in r.Stops() ==> 0 < id < r.nextId && id !in executed
    {
      StopIffInTable(r, id);
    }
  }

  /** The stop in the first slot of the engine's list is the next one executed if it triggers. */
  lemma FirstSlotFires(p: Policy, r: Rep, pending: seq<nat>, executed: seq<nat>, last: int)
    requires RepOk(r) && Distinct(executed)
    requires forall id :: id in executed ==> id < r.nextId && id < |r.ids| && r.ids[id] == None
    requires pending != [] && r.LiveStop(pending[0]) && Triggers(r.mem[pending[0]].AsStop(pending[0]), last)
    ensures
      var after := Process(p, EngineOf(r, pending, executed), last);
      |after.executed| > |executed| && after.executed[|executed|] == r.mem[pending[0]].orderId
  {
    var e := EngineOf(r, pending, executed);
    EmptyQueuesSound(r, pending, executed);
    TablesOf(r);
    StopOfSlot(r, pending[0]);
    AbsStops(r);
    assert LiveIds(r, pending)[0] == r.mem[pending[0]].orderId;
    hide RepOk, LiveIds, Drain, Sound, Rep.Stops, Rep.LiveStop, Rep.View;
    FrontIsNext(p, e.(queued := [], stored := []), e.queued + e.stored, last);
  }

  /** Stop 7 stands in front of stop 6 in the engine's list, and both trigger at `last`. */
  predicate SevenFirst(s: Slots, last: int) {
    var r := s.r;
    && s.pending == [1, 2, 1] && s.executed == [5, 4] && r.nextId == 8
    && |r.ids| == 18 && r.ids[4] == None && r.ids[5] == None
    && r.LiveStop(1) && r.mem[1].orderId == 7 && Triggers(r.mem[1].AsStop(1), last)
    && r.LiveStop(2) && r.mem[2].orderId == 6 && Triggers(r.mem[2].AsStop(2), last)
  }

  lemma SeventhStops(last: int)
    requires last >= 103
    ensures SevenFirst(SEVENTH, last)
  {
  }

  lemma SevenIsNext(p: Policy, s: Slots, last: int)
    requires RepOk(s.r) && SevenFirst(s, last)
    ensures
      var e := EngineOf(s.r, s.pending, s.executed);
      var r := Process(p, e, last);
      && 6 in e.book.stops && Triggers(e.book.stops[6], last)
      && |r.executed| > 2 && r.executed[2] == 7
  {
    TablesOf(s.r);
    AbsStops(s.r);
    hide RepOk, Process, LiveIds, Rep.Stops, Rep.View;
    StopOfSlot(s.r, 2);
    FirstSlotFires(p, s.r, s.pending, s.executed, last);
  }

  /** The specified cascade says the same: from that state stop 7 is the next one executed, by
      either policy and at every price at which it triggers, while stop 6 triggers too. */
  lemma SpecOvertakes(p: Policy, last: int)
    requires last >= 103
    ensures
      var e := EngineOf(SEVENTH.r, SEVENTH.pending, SEVENTH.executed);
      var r := Process(p, e, last);
      && 6 in e.book.stops && Triggers(e.book.stops[6], last)
      && |r.executed| > 2 && r.executed[2] == 7
  {
    StaleEntryOvertakes();
    SeventhStops(last);
    hide *;
    SevenIsNext(p, SEVENTH, last);
  }
}
