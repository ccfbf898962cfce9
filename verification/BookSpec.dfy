// The abstract order book: each side is the list of its price levels, best price
// first, and each level is the queue of its resting orders, oldest first. The
// classes of OrderBook.dfy refine the operations defined here.
module BookSpec {
  import opened LobTypes
  import opened Sums

  /** A resting order: `rem` is the visible slice, `hidden` what an iceberg still conceals. */
  datatype Ord = Ord(id: nat, qty: nat, rem: nat, hidden: nat, display: nat)

  datatype Level = Level(price: int, orders: seq<Ord>)

  datatype Fill = Fill(id: nat, price: int, qty: nat)

  /** A pending stop; `slot` is the handle under which the matching engine queues it. */
  datatype Stop = Stop(slot: nat, side: Side, kind: StopType, trigger: int, qty: nat, price: int, display: nat)

  /** `free` counts the unused slots of the order pool. */
  datatype Book = Book(bids: seq<Level>, asks: seq<Level>, nextId: nat, free: nat, stops: map<nat, Stop>)
  {
    function SideOf(side: Side): seq<Level> {
      if side.Buy? then bids else asks
    }

    function With(side: Side, ls: seq<Level>): Book {
      if side.Buy? then this.(bids := ls) else this.(asks := ls)
    }
  }

  // ----- measures -----

  function Rem(o: Ord): nat { o.rem }
  function Hidden(o: Ord): nat { o.hidden }
  function Total(o: Ord): nat { o.rem + o.hidden }
  function FillQty(f: Fill): nat { f.qty }

  function Visible(os: seq<Ord>): nat { Sum(os, Rem) }

  function LevelHidden(l: Level): nat { Sum(l.orders, Hidden) }
  function LevelTotal(l: Level): nat { Sum(l.orders, Total) }
  function LevelCount(l: Level): nat { 1 + |l.orders| }

  /** Everything a side can trade: visible plus hidden. */
  function Liquidity(ls: seq<Level>): nat { Sum(ls, LevelTotal) }

  // ----- well-formedness -----

  /** `p` is strictly closer to the inside than `q`: BidCmp for bids, std::less for asks. */
  predicate Before(side: Side, p: int, q: int) {
    if side.Buy? then p > q else p < q
  }

  predicate Sorted(side: Side, ls: seq<Level>) {
    forall i, j :: 0 <= i < j < |ls| ==> Before(side, ls[i].price, ls[j].price)
  }

  predicate NoEmpty(ls: seq<Level>) {
    forall i :: 0 <= i < |ls| ==> ls[i].orders != []
  }

  /** An order conceals quantity only if it has a display size to refill with. */
  predicate SaneOrders(os: seq<Ord>) {
    forall k :: 0 <= k < |os| ==> (os[k].hidden > 0 ==> os[k].display > 0)
  }

  predicate Sane(ls: seq<Level>) {
    forall i :: 0 <= i < |ls| ==> SaneOrders(ls[i].orders)
  }

  predicate UniqueIds(os: seq<Ord>) {
    forall i, j :: 0 <= i < j < |os| ==> os[i].id != os[j].id
  }

  // ----- finding a level -----

  /** Number of levels strictly better than `px`: what std::lower_bound returns. */
  function Lower(side: Side, ls: seq<Level>, px: int): (n: nat)
    ensures n <= |ls|
    ensures forall i :: 0 <= i < n ==> Before(side, ls[i].price, px)
    ensures n < |ls| ==> !Before(side, ls[n].price, px)
  {
    if ls == [] || !Before(side, ls[0].price, px) then 0
    else 1 + Lower(side, ls[1..], px)
  }

  /** The queue resting at `px`; empty when the price is absent. */
  function Queue(side: Side, ls: seq<Level>, px: int): seq<Ord> {
    var i := Lower(side, ls, px);
    if i < |ls| && ls[i].price == px then ls[i].orders else []
  }

  lemma LowerUnique(side: Side, ls: seq<Level>, px: int, n: nat)
    requires n <= |ls|
    requires forall i :: 0 <= i < n ==> Before(side, ls[i].price, px)
    requires n < |ls| ==> !Before(side, ls[n].price, px)
    ensures n == Lower(side, ls, px)
  {
    var m := Lower(side, ls, px);
  }

  lemma LowerFinds(side: Side, ls: seq<Level>, i: nat)
    requires Sorted(side, ls) && i < |ls|
    ensures Lower(side, ls, ls[i].price) == i
    ensures Queue(side, ls, ls[i].price) == ls[i].orders
  {
    LowerUnique(side, ls, ls[i].price, i);
  }

  // ----- operations on one side -----

  /** Make sure a level for `px` exists. */
  function Emplace(side: Side, ls: seq<Level>, px: int): seq<Level> {
    var i := Lower(side, ls, px);
    if i < |ls| && ls[i].price == px then ls else InsertAt(ls, i, Level(px, []))
  }

  lemma InsertSorted(side: Side, ls: seq<Level>, n: nat, l: Level)
    requires Sorted(side, ls) && n <= |ls|
    requires forall i :: 0 <= i < n ==> Before(side, ls[i].price, l.price)
    requires n < |ls| ==> Before(side, l.price, ls[n].price)
    ensures Sorted(side, InsertAt(ls, n, l))
  {
    assert forall i :: n <= i < |ls| ==> Before(side, l.price, ls[i].price);
  }

  /** Append `o` to the queue at `px`, creating the level if needed. */
  function AddOrder(side: Side, ls: seq<Level>, px: int, o: Ord): seq<Level> {
    var i := Lower(side, ls, px);
    if i < |ls| && ls[i].price == px then ls[i := Level(px, ls[i].orders + [o])]
    else InsertAt(ls, i, Level(px, [o]))
  }

  lemma {:induction false} AddIsEmplaceThenPush(side: Side, ls: seq<Level>, px: int, o: Ord)
    ensures
      var i := Lower(side, ls, px);
      var e := Emplace(side, ls, px);
      && i < |e| && e[i].price == px
      && AddOrder(side, ls, px, o) == e[i := Level(px, e[i].orders + [o])]
  {
    var i := Lower(side, ls, px);
    var e := Emplace(side, ls, px);
    if i == |ls| || ls[i].price != px {
      assert e[i].orders + [o] == [o];
      assert e[i := Level(px, [o])] == InsertAt(ls, i, Level(px, [o]));
    }
  }

  lemma AddKeepsSane(side: Side, ls: seq<Level>, px: int, o: Ord)
    requires Sane(ls) && o.hidden == 0
    ensures Sane(AddOrder(side, ls, px, o))
  {
  }

  /** Replace the queue of level `i`; a level left empty disappears. */
  function SetQueue(ls: seq<Level>, i: nat, os: seq<Ord>): seq<Level>
    requires i < |ls|
  {
    if os == [] then RemoveAt(ls, i) else ls[i := Level(ls[i].price, os)]
  }

  /** Peel the next visible slice of an iceberg. */
  function Replenish(o: Ord): Ord {
    var slice := Min(o.display, o.hidden);
    o.(rem := slice, hidden := o.hidden - slice)
  }

  predicate Refills(o: Ord) {
    o.display > 0 && o.hidden > 0
  }

  /** The queue after its k-th order traded `take` of its visible slice. */
  function StrikeAt(os: seq<Ord>, k: nat, take: nat): seq<Ord>
    requires k < |os| && take <= os[k].rem
  {
    if take < os[k].rem then os[k := os[k].(rem := os[k].rem - take)]
    else if Refills(os[k]) then RemoveAt(os, k) + [Replenish(os[k])]
    else RemoveAt(os, k)
  }

  /** 1 when a strike of `take` finishes the order, 0 when it stays in the book. */
  function Gone(o: Ord, take: nat): nat {
    if take == o.rem && !Refills(o) then 1 else 0
  }

  /** A strike is a change in place, followed by a requeue or a removal when exhausted. */
  lemma StrikeInSteps(ls: seq<Level>, i: nat, k: nat, take: nat)
    requires i < |ls| && k < |ls[i].orders| && take <= ls[i].orders[k].rem
    ensures
      var o := ls[i].orders[k];
      var mid := ls[i := Level(ls[i].price, ls[i].orders[k := o.(rem := o.rem - take)])];
      var after := SetQueue(ls, i, StrikeAt(ls[i].orders, k, take));
      && (take < o.rem ==> mid == after)
      && (take == o.rem && Refills(o) ==>
            mid[i := Level(mid[i].price, RemoveAt(mid[i].orders, k) + [Replenish(mid[i].orders[k])])] == after)
      && (take == o.rem && !Refills(o) ==> SetQueue(mid, i, RemoveAt(mid[i].orders, k)) == after)
  {
    var os := ls[i].orders;
    var os' := os[k := os[k].(rem := os[k].rem - take)];
    assert RemoveAt(os', k) == RemoveAt(os, k);
    var mid := ls[i := Level(ls[i].price, os')];
    assert RemoveAt(mid, i) == RemoveAt(ls, i);
  }

  lemma StrikeHidden(os: seq<Ord>, k: nat, take: nat)
    requires k < |os| && take <= os[k].rem
    ensures take < os[k].rem
        ==> Sum(StrikeAt(os, k, take), Hidden) == Sum(os, Hidden) && |StrikeAt(os, k, take)| == |os|
    ensures take == os[k].rem && Refills(os[k]) ==>
              Sum(StrikeAt(os, k, take), Hidden) < Sum(os, Hidden) && |StrikeAt(os, k, take)| == |os|
    ensures take == os[k].rem && !Refills(os[k]) ==>
              Sum(StrikeAt(os, k, take), Hidden) <= Sum(os, Hidden) && |StrikeAt(os, k, take)| == |os| - 1
  {
    SumRemoveAt(os, k, Hidden);
    SumAppend(RemoveAt(os, k), Replenish(os[k]), Hidden);
    SumUpdate(os, k, os[k].(rem := os[k].rem - take), Hidden);
  }

  lemma SetQueueSums(ls: seq<Level>, i: nat, os: seq<Ord>, f: Level -> nat)
    requires i < |ls|
    ensures Sum(SetQueue(ls, i, os), f) + f(ls[i]) == Sum(ls, f) + if os == [] then 0 else f(Level(ls[i].price, os))
  {
    if os == [] {
      SumRemoveAt(ls, i, f);
    } else {
      SumUpdate(ls, i, Level(ls[i].price, os), f);
    }
  }

  // ----- finding an order -----

  /** Position of `id` in a queue, or its length. */
  function IndexOf(os: seq<Ord>, id: nat): (k: nat)
    ensures k <= |os|
    ensures k < |os| ==> os[k].id == id
    ensures forall j :: 0 <= j < k ==> os[j].id != id
  {
    if os == [] || os[0].id == id then 0 else 1 + IndexOf(os[1..], id)
  }

  predicate HasId(os: seq<Ord>, id: nat) {
    IndexOf(os, id) < |os|
  }

  /** Index of the level where `id` rests, or the number of levels. */
  function LevelOf(ls: seq<Level>, id: nat): (i: nat)
    ensures i <= |ls|
    ensures i < |ls| ==> HasId(ls[i].orders, id)
    ensures forall j :: 0 <= j < i ==> !HasId(ls[j].orders, id)
  {
    if ls == [] || HasId(ls[0].orders, id) then 0 else 1 + LevelOf(ls[1..], id)
  }

  predicate Rests(ls: seq<Level>, id: nat) {
    LevelOf(ls, id) < |ls|
  }

  function Find(ls: seq<Level>, id: nat): Ord
    requires Rests(ls, id)
  {
    var os := ls[LevelOf(ls, id)].orders;
    os[IndexOf(os, id)]
  }

  /** Where an id is found when it occurs only there. */
  lemma FoundAt(ls: seq<Level>, i: nat, k: nat)
    requires i < |ls| && k < |ls[i].orders|
    requires forall j, n :: 0 <= j < |ls| && 0 <= n < |ls[j].orders| && ls[j].orders[n].id == ls[i].orders[k].id ==>
               j == i && n == k
    ensures LevelOf(ls, ls[i].orders[k].id) == i && IndexOf(ls[i].orders, ls[i].orders[k].id) == k
  {
    var id := ls[i].orders[k].id;
    assert IndexOf(ls[i].orders, id) <= k;
    var j := LevelOf(ls, id);
    assert j <= i;
    assert ls[j].orders[IndexOf(ls[j].orders, id)].id == id;
  }

  // ----- operations of the book -----

  /** The outcome of an operation that may refuse. */
  datatype Outcome<+T> = Outcome(value: T, book: Book)

  /** OrderBook::add_limit_order; id 0 when the pool is exhausted. */
  function AddLimit(b: Book, side: Side, px: int, qty: nat): Outcome<nat> {
    if b.free == 0 then Outcome(0, b)
    else
      var o := Ord(b.nextId, qty, qty, 0, 0);
      Outcome(b.nextId, b.With(side, AddOrder(side, b.SideOf(side), px, o))
        .(nextId := b.nextId + 1, free := b.free - 1))
  }

  /** The side on which `id` rests. */
  function SideHolding(b: Book, id: nat): Side {
    if Rests(b.bids, id) then Buy else Sell
  }

  predicate Resting(b: Book, id: nat) {
    Rests(b.bids, id) || Rests(b.asks, id)
  }

  /** Take the resting order `id` out of its queue. */
  function Take(b: Book, id: nat): Book
    requires Resting(b, id)
  {
    var side := SideHolding(b, id);
    var ls := b.SideOf(side);
    var i := LevelOf(ls, id);
    var k := IndexOf(ls[i].orders, id);
    b.With(side, SetQueue(ls, i, RemoveAt(ls[i].orders, k))).(free := b.free + 1)
  }

  /** Rewrite the resting order `id` without moving it. */
  function Rewrite(b: Book, id: nat, o: Ord): Book
    requires Resting(b, id)
  {
    var side := SideHolding(b, id);
    var ls := b.SideOf(side);
    var i := LevelOf(ls, id);
    var k := IndexOf(ls[i].orders, id);
    b.With(side, ls[i := Level(ls[i].price, ls[i].orders[k := o])])
  }

  function FindIn(b: Book, id: nat): Ord
    requires Resting(b, id)
  {
    Find(b.SideOf(SideHolding(b, id)), id)
  }

  function PriceOf(b: Book, id: nat): int
    requires Resting(b, id)
  {
    var ls := b.SideOf(SideHolding(b, id));
    ls[LevelOf(ls, id)].price
  }

  /** `id` rests on `side` as the k-th order of the i-th level, and is found there. */
  predicate SitsAt(b: Book, id: nat, side: Side, i: nat, k: nat) {
    var ls := b.SideOf(side);
    && Resting(b, id) && SideHolding(b, id) == side
    && LevelOf(ls, id) == i < |ls| && IndexOf(ls[i].orders, id) == k < |ls[i].orders|
  }

  lemma SeatRests(b: Book, id: nat, side: Side, i: nat, k: nat)
    requires SitsAt(b, id, side, i, k)
    ensures Resting(b, id)
  {
  }

  lemma AtItsSeat(b: Book, id: nat, side: Side, i: nat, k: nat, o: Ord)
    requires SitsAt(b, id, side, i, k)
    ensures
      var ls := b.SideOf(side);
      && i < |ls| && k < |ls[i].orders|
      && PriceOf(b, id) == ls[i].price && FindIn(b, id) == ls[i].orders[k]
      && Take(b, id) == b.With(side, SetQueue(ls, i, RemoveAt(ls[i].orders, k))).(free := b.free + 1)
      && Rewrite(b, id, o) == b.With(side, ls[i := Level(ls[i].price, ls[i].orders[k := o])])
  {
  }

  /** OrderBook::cancel_order. */
  function Cancel(b: Book, id: nat): Outcome<bool> {
    if Resting(b, id) then Outcome(true, Take(b, id)) else Outcome(false, b)
  }

  /** The visible slice after the total changes from o.qty to `qty`. */
  function ResizedRem(o: Ord, qty: nat): nat {
    if qty >= o.qty then o.rem + (qty - o.qty) else Min(o.rem, qty)
  }

  /** OrderBook::modify_order. */
  function Modify(b: Book, id: nat, px: int, qty: nat): Outcome<bool> {
    if !Resting(b, id) then Outcome(false, b)
    else if px == PriceOf(b, id) then
      var o := FindIn(b, id);
      Outcome(true, Rewrite(b, id, o.(qty := qty, rem := ResizedRem(o, qty))))
    else
      Outcome(true, AddLimit(Take(b, id), SideHolding(b, id), px, qty).book)
  }

  /** OrderBook::configure_iceberg. */
  function Configure(b: Book, id: nat, display: nat): Outcome<bool> {
    if !Resting(b, id) || display == 0 then Outcome(false, b)
    else
      var o := FindIn(b, id);
      var hidden := if o.qty > display then o.qty - display else 0;
      Outcome(true, Rewrite(b, id, o.(display := display, hidden := hidden, rem := Min(display, o.qty))))
  }

  /** OrderBook::apply_fill. */
  function ApplyFill(b: Book, id: nat, qty: nat): Outcome<nat> {
    if !Resting(b, id) then Outcome(0, b)
    else
      var side := SideHolding(b, id);
      var ls := b.SideOf(side);
      var i := LevelOf(ls, id);
      var k := IndexOf(ls[i].orders, id);
      var o := ls[i].orders[k];
      var filled := Min(qty, o.rem);
      Outcome(filled, b.With(side, SetQueue(ls, i, StrikeAt(ls[i].orders, k, filled)))
        .(free := b.free + Gone(o, filled)))
  }

  lemma ConfigureAtItsSeat(b: Book, id: nat, side: Side, i: nat, k: nat, display: nat)
    requires SitsAt(b, id, side, i, k) && display > 0
    ensures
      var ls := b.SideOf(side);
      && i < |ls| && k < |ls[i].orders|
      && var o := ls[i].orders[k];
      && var o' := o.(display := display, hidden := if o.qty > display then o.qty - display else 0,
          rem := Min(display, o.qty));
      && Configure(b, id, display) == Outcome(true, b.With(side, ls[i := Level(ls[i].price, ls[i].orders[k := o'])]))
  {
  }

  lemma NoConfigure(b: Book, id: nat, display: nat)
    requires !Resting(b, id) || display == 0
    ensures Configure(b, id, display) == Outcome(false, b)
  {
  }

  lemma NoModify(b: Book, id: nat, px: int, qty: nat)
    requires !Resting(b, id)
    ensures Modify(b, id, px, qty) == Outcome(false, b)
  {
  }

  lemma ModifyAtItsSeat(b: Book, id: nat, side: Side, i: nat, k: nat, px: int, qty: nat)
    requires SitsAt(b, id, side, i, k)
    ensures
      var ls := b.SideOf(side);
      && i < |ls| && k < |ls[i].orders|
      && var o := ls[i].orders[k];
      && var o' := o.(qty := qty, rem := ResizedRem(o, qty));
      && Modify(b, id, px, qty) == Outcome(true,
           if px == ls[i].price then b.With(side, ls[i := Level(ls[i].price, ls[i].orders[k := o'])])
           else AddLimit(Cancel(b, id).book, side, px, qty).book)
  {
  }

  lemma FillAtItsSeat(b: Book, id: nat, side: Side, i: nat, k: nat, qty: nat)
    requires SitsAt(b, id, side, i, k)
    ensures
      var ls := b.SideOf(side);
      && i < |ls| && k < |ls[i].orders|
      && var o := ls[i].orders[k];
      && var filled := Min(qty, o.rem);
      && ApplyFill(b, id, qty)
         == Outcome(filled, b.With(side, SetQueue(ls, i, StrikeAt(ls[i].orders, k, filled)))
           .(free := b.free + Gone(o, filled)))
  {
  }

  // ----- pending stops -----

  /** OrderBook::add_pending_stop for the stop that slot `s.slot` will hold; id 0 when the
      pool is exhausted. */
  function AddStop(b: Book, s: Stop): Outcome<nat> {
    if b.free == 0 then Outcome(0, b)
    else Outcome(b.nextId, b.(nextId := b.nextId + 1, free := b.free - 1, stops := b.stops[b.nextId := s]))
  }

  /** detach_pending followed by free_order for the pending stop `id`. */
  function DropStop(b: Book, id: nat): Book {
    b.(free := b.free + 1, stops := b.stops - {id})
  }

  // ----- the inside of a side -----

  function BestPrice(ls: seq<Level>): Option<int> {
    if ls == [] then None else Some(ls[0].price)
  }

  function BestQty(ls: seq<Level>): nat {
    if ls == [] then 0 else Visible(ls[0].orders)
  }

  // ----- the market sweep -----

  datatype SweepResult = Swept(levels: seq<Level>, fills: seq<Fill>, left: nat)

  /** One trade against the head of the best level. */
  function Strike(ls: seq<Level>, q: nat): seq<Level>
    requires ls != [] && ls[0].orders != []
  {
    var os := ls[0].orders;
    SetQueue(ls, 0, StrikeAt(os, 0, Min(q, os[0].rem)))
  }

  /** The fill of that trade. */
  function StrikeFill(ls: seq<Level>, q: nat): Fill
    requires ls != [] && ls[0].orders != []
  {
    var o := ls[0].orders[0];
    Fill(o.id, ls[0].price, Min(q, o.rem))
  }

  lemma {:induction false} StrikeDecreases(ls: seq<Level>, q: nat)
    requires ls != [] && ls[0].orders != []
    requires q > 0
    ensures StrikeFill(ls, q).qty == 0 ==>
              || Sum(Strike(ls, q), LevelHidden) < Sum(ls, LevelHidden)
              || (Sum(Strike(ls, q), LevelHidden) == Sum(ls, LevelHidden)
                  && Sum(Strike(ls, q), LevelCount) < Sum(ls, LevelCount))
  {
    var os := ls[0].orders;
    var take := Min(q, os[0].rem);
    var os' := StrikeAt(os, 0, take);
    StrikeHidden(os, 0, take);
    SetQueueSums(ls, 0, os', LevelHidden);
    SetQueueSums(ls, 0, os', LevelCount);
    if take == 0 {
      if Refills(os[0]) {
        assert Sum(Strike(ls, q), LevelHidden) < Sum(ls, LevelHidden);
      } else {
        assert Sum(Strike(ls, q), LevelCount) < Sum(ls, LevelCount);
      }
    }
  }

  /** A market order for `q` against the side `ls`: strike the head until filled or dry. */
  function Sweep(ls: seq<Level>, q: nat): SweepResult
    decreases q, Sum(ls, LevelHidden), Sum(ls, LevelCount)
  {
    if q == 0 || ls == [] then Swept(ls, [], q)
    else if ls[0].orders == [] then
      SetQueueSums(ls, 0, [], LevelHidden);
      SetQueueSums(ls, 0, [], LevelCount);
      Sweep(ls[1..], q)
    else
      StrikeDecreases(ls, q);
      var fill := StrikeFill(ls, q);
      var r := Sweep(Strike(ls, q), q - fill.qty);
      Swept(r.levels, [fill] + r.fills, r.left)
  }

  /** Number of orders resting on a side. */
  function Count(l: Level): nat { |l.orders| }

  /** OrderBook::market_order: `side` is the side of the incoming order. */
  function Market(b: Book, side: Side, qty: nat): Outcome<seq<Fill>> {
    var ls := b.SideOf(Opposite(side));
    var r := Sweep(ls, qty);
    var freed := Sum(ls, Count) - Sum(r.levels, Count);
    Outcome(r.fills, b.With(Opposite(side), r.levels).(free := if freed >= 0 then b.free + freed else b.free))
  }

  /** A market order for `qty` against side `opp` of `b` has traded `fills`, wants `left`
      more, and has brought the book to `now`. */
  predicate Midway(b: Book, opp: Side, qty: nat, now: Book, fills: seq<Fill>, left: nat) {
    var r := Sweep(now.SideOf(opp), left);
    && Sweep(b.SideOf(opp), qty) == Swept(r.levels, fills + r.fills, r.left)
    && now == b.With(opp, now.SideOf(opp)).(free := now.free)
    && now.free + Sum(now.SideOf(opp), Count) == b.free + Sum(b.SideOf(opp), Count)
  }

  lemma MidwayStart(b: Book, opp: Side, qty: nat)
    ensures Midway(b, opp, qty, b, [], qty)
  {
    var r := Sweep(b.SideOf(opp), qty);
    assert [] + r.fills == r.fills;
    assert b == b.With(opp, b.SideOf(opp));
  }

  lemma MidwayTurn(b: Book, opp: Side, qty: nat, now: Book, fills: seq<Fill>, left: nat, now': Book)
    requires Midway(b, opp, qty, now, fills, left) && left > 0
    requires now.SideOf(opp) != [] && now.SideOf(opp)[0].orders != []
    requires
      var o := now.SideOf(opp)[0].orders[0];
      now' == now.With(opp, Strike(now.SideOf(opp), left)).(free := now.free + Gone(o, Min(left, o.rem)))
    ensures
      var fill := StrikeFill(now.SideOf(opp), left);
      Midway(b, opp, qty, now', fills + [fill], left - fill.qty)
  {
    hide Sweep, Strike;
    var ls := now.SideOf(opp);
    StrikeCount(ls, left);
    SweepTurn(ls, left);
    var fill := StrikeFill(ls, left);
    var r := Sweep(Strike(ls, left), left - fill.qty);
    assert fills + ([fill] + r.fills) == (fills + [fill]) + r.fills;
  }

  lemma MidwayEnd(b: Book, opp: Side, qty: nat, now: Book, fills: seq<Fill>, left: nat)
    requires Midway(b, opp, qty, now, fills, left)
    requires left == 0 || now.SideOf(opp) == []
    ensures Market(b, Opposite(opp), qty) == Outcome(fills, now)
  {
    hide Sweep;
    SweepDone(now.SideOf(opp), left);
    SweepCount(b.SideOf(opp), qty);
    assert fills + [] == fills && Opposite(Opposite(opp)) == opp;
  }

  lemma StrikeCount(ls: seq<Level>, q: nat)
    requires ls != [] && ls[0].orders != []
    ensures Sum(Strike(ls, q), Count) + Gone(ls[0].orders[0], Min(q, ls[0].orders[0].rem)) == Sum(ls, Count)
  {
    var os := ls[0].orders;
    var take := Min(q, os[0].rem);
    StrikeHidden(os, 0, take);
    SetQueueSums(ls, 0, StrikeAt(os, 0, take), Count);
  }

  lemma {:induction false} SweepCount(ls: seq<Level>, q: nat)
    ensures Sum(Sweep(ls, q).levels, Count) <= Sum(ls, Count)
    decreases q, Sum(ls, LevelHidden), Sum(ls, LevelCount)
  {
    if q == 0 || ls == [] {
    } else if ls[0].orders == [] {
      SetQueueSums(ls, 0, [], LevelHidden);
      SetQueueSums(ls, 0, [], LevelCount);
      SweepCount(ls[1..], q);
    } else {
      StrikeDecreases(ls, q);
      StrikeCount(ls, q);
      SweepCount(Strike(ls, q), q - StrikeFill(ls, q).qty);
    }
  }

  /** One turn of the market loop. */
  lemma SweepTurn(ls: seq<Level>, q: nat)
    requires ls != [] && ls[0].orders != [] && q > 0
    ensures
      var r := Sweep(Strike(ls, q), q - StrikeFill(ls, q).qty);
      Sweep(ls, q) == Swept(r.levels, [StrikeFill(ls, q)] + r.fills, r.left)
  {
  }

  lemma SweepDone(ls: seq<Level>, q: nat)
    requires q == 0 || ls == []
    ensures Sweep(ls, q) == Swept(ls, [], q)
  {
  }
}
