// Laws of the abstract book as a map from prices to queues, of the inside, of ids, and
// of the operations by id.
module BookLaws {
  import opened LobTypes
  import opened Sums
  import opened BookSpec
  import opened Slab
  import opened PriceLadders
  import opened BookReps

  // ----- a side as a map from prices to queues -----

  lemma LowerInSorted(side: Side, ls: seq<Level>, px: int)
    requires Sorted(side, ls)
    ensures forall i :: 0 <= i < |ls| && ls[i].price == px ==> i == Lower(side, ls, px)
  {
    forall i: nat | i < |ls| && ls[i].price == px
      ensures i == Lower(side, ls, px)
    {
      LowerFinds(side, ls, i);
    }
  }

  /** A price rests exactly when its queue is not empty, and its queue is that level's. */
  lemma QueueOfPrice(side: Side, ls: seq<Level>, px: int)
    requires Sorted(side, ls) && NoEmpty(ls)
    ensures Queue(side, ls, px) != [] <==> exists i :: 0 <= i < |ls| && ls[i].price == px
    ensures forall i :: 0 <= i < |ls| && ls[i].price == px ==> Queue(side, ls, px) == ls[i].orders
  {
    LowerInSorted(side, ls, px);
  }

  /** Adding an order appends it to the queue at its price and touches no other price. */
  lemma AddAppends(side: Side, ls: seq<Level>, px: int, o: Ord, p: int)
    requires Sorted(side, ls)
    ensures Sorted(side, AddOrder(side, ls, px, o))
    ensures Queue(side, AddOrder(side, ls, px, o), p)
         == if p == px then Queue(side, ls, p) + [o] else Queue(side, ls, p)
  {
    var n := Lower(side, ls, px);
    var ls' := AddOrder(side, ls, px, o);
    if n < |ls| && ls[n].price == px {
      LowerUnique(side, ls', p, Lower(side, ls, p));
    } else {
      assert n < |ls| ==> Before(side, px, ls[n].price);
      InsertSorted(side, ls, n, Level(px, [o]));
      QueueOfInsert(side, ls, n, Level(px, [o]), p);
    }
  }

  lemma QueueOfInsert(side: Side, ls: seq<Level>, n: nat, l: Level, p: int)
    requires Sorted(side, ls) && n == Lower(side, ls, l.price) && (n < |ls| ==> ls[n].price != l.price)
    ensures Queue(side, InsertAt(ls, n, l), p) == if p == l.price then l.orders else Queue(side, ls, p)
  {
    hide Sorted, InsertAt, Lower, Queue;
    var m := Lower(side, ls, p);
    var m' := if Before(side, l.price, p) then m + 1 else m;
    LowerAround(side, ls, l.price, p);
    LowerOfInsert(side, ls, n, l, p, m');
    if m' <= |ls| {
      InsertAtIndex(ls, n, l, m');
    }
    QueueIs(side, ls, p, m);
    QueueIs(side, InsertAt(ls, n, l), p, m');
  }

  lemma LowerOfInsert(side: Side, ls: seq<Level>, n: nat, l: Level, p: int, m': nat)
    requires n <= |ls|
    requires
      var m := Lower(side, ls, p);
      m' == if Before(side, l.price, p) then m + 1 else m
    requires if Before(side, l.price, p) then n <= Lower(side, ls, p) else Lower(side, ls, p) <= n
    ensures Lower(side, InsertAt(ls, n, l), p) == m' <= |ls| + 1 == |InsertAt(ls, n, l)|
  {
    var ls', m := InsertAt(ls, n, l), Lower(side, ls, p);
    assert |ls'| == |ls| + 1;
    hide InsertAt, Lower;
    forall i: nat | i < m'
      ensures Before(side, ls'[i].price, p)
    {
      InsertAtIndex(ls, n, l, i);
    }
    if m' < |ls'| {
      InsertAtIndex(ls, n, l, m');
    }
    LowerUnique(side, ls', p, m');
  }

  /** How the places of two prices compare. */
  lemma LowerAround(side: Side, ls: seq<Level>, a: int, b: int)
    ensures Before(side, a, b) ==> Lower(side, ls, a) <= Lower(side, ls, b)
    ensures a != b && !Before(side, a, b) ==> Lower(side, ls, b) <= Lower(side, ls, a)
  {
  }

  /** Rewriting the queue of one level touches no other price; an emptied level is gone. */
  lemma SetQueueSets(side: Side, ls: seq<Level>, i: nat, os: seq<Ord>, p: int)
    requires Sorted(side, ls) && i < |ls|
    ensures Sorted(side, SetQueue(ls, i, os))
    ensures Queue(side, SetQueue(ls, i, os), p) == if p == ls[i].price then os else Queue(side, ls, p)
  {
    var m := Lower(side, ls, p);
    LowerFinds(side, ls, i);
    if os == [] {
      RemoveSorted(side, ls, i);
      QueueOfRemove(side, ls, i, p);
    } else {
      LowerUnique(side, ls[i := Level(ls[i].price, os)], p, m);
    }
  }

  lemma RemoveSorted(side: Side, ls: seq<Level>, i: nat)
    requires Sorted(side, ls) && i < |ls|
    ensures Sorted(side, RemoveAt(ls, i))
  {
    var ls' := RemoveAt(ls, i);
    forall j: nat, k: nat | j < k < |ls'|
      ensures Before(side, ls'[j].price, ls'[k].price)
    {
      RemoveAtIndex(ls, i, j);
      RemoveAtIndex(ls, i, k);
    }
  }

  lemma QueueOfRemove(side: Side, ls: seq<Level>, i: nat, p: int)
    requires Sorted(side, ls) && i < |ls|
    ensures Queue(side, RemoveAt(ls, i), p) == if p == ls[i].price then [] else Queue(side, ls, p)
  {
    var m := Lower(side, ls, p);
    var m' := if m > i then m - 1 else m;
    LowerFinds(side, ls, i);
    LowerAround(side, ls, ls[i].price, p);
    LowerOfRemove(side, ls, i, p, m');
    var next := if i + 1 < |ls| then Some(ls[i + 1].price) else None;
    assert next.Some? ==> Before(side, ls[i].price, next.value);
    if m' < |ls| - 1 {
      RemoveAtIndex(ls, i, m');
    }
    QueueIs(side, ls, p, m);
    QueueIs(side, RemoveAt(ls, i), p, m');
    hide Sorted, RemoveAt, Lower, Queue;
  }

  lemma QueueIs(side: Side, ls: seq<Level>, px: int, n: nat)
    requires n == Lower(side, ls, px)
    ensures Queue(side, ls, px) == if n < |ls| && ls[n].price == px then ls[n].orders else []
  {
  }

  lemma LowerOfRemove(side: Side, ls: seq<Level>, i: nat, p: int, m': nat)
    requires Sorted(side, ls) && i < |ls|
    requires m' == if Lower(side, ls, p) > i then Lower(side, ls, p) - 1 else Lower(side, ls, p)
    ensures Lower(side, RemoveAt(ls, i), p) == m' <= |ls| - 1 == |RemoveAt(ls, i)|
  {
    var ls', m := RemoveAt(ls, i), Lower(side, ls, p);
    assert |ls'| == |ls| - 1;
    hide RemoveAt, Lower;
    forall j: nat | j < m'
      ensures Before(side, ls'[j].price, p)
    {
      RemoveAtIndex(ls, i, j);
    }
    if m' < |ls'| {
      RemoveAtIndex(ls, i, m');
    }
    LowerUnique(side, ls', p, m');
  }

  // ----- the inside -----

  /** The best price is the extremum over all resting orders: none is closer to the inside. */
  lemma BestIsExtremum(side: Side, ls: seq<Level>)
    requires Sorted(side, ls) && NoEmpty(ls)
    ensures BestPrice(ls).None? <==> forall px :: Queue(side, ls, px) == []
    ensures BestPrice(ls).Some? ==>
              && Queue(side, ls, BestPrice(ls).value) != []
              && BestQty(ls) == Visible(Queue(side, ls, BestPrice(ls).value))
              && forall px :: Queue(side, ls, px) != []
                  ==> px == BestPrice(ls).value || Before(side, BestPrice(ls).value, px)
  {
    if ls != [] {
      LowerFinds(side, ls, 0);
      assert Queue(side, ls, ls[0].price) == ls[0].orders;
    }
  }

  // ----- what a valid OrderBook says about its abstract book -----

  /** Price ladders strictly sorted and without empty levels, icebergs able to refill, ids
      below the next one to be issued, none of them both resting and pending. */
  ghost predicate BookOk(b: Book) {
    && (forall side :: Sorted(side, b.SideOf(side)) && NoEmpty(b.SideOf(side)) && Sane(b.SideOf(side)))
    && (forall side, i: nat, k: nat :: i < |b.SideOf(side)| && k < |b.SideOf(side)[i].orders| ==>
          && 0 < b.SideOf(side)[i].orders[k].id < b.nextId
          && SitsAt(b, b.SideOf(side)[i].orders[k].id, side, i, k))
    && (forall id :: id in b.stops ==> 0 < id < b.nextId && !Resting(b, id))
  }

  lemma NoEmptyView(r: Rep, side: Side)
    requires RepOk(r)
    ensures Sorted(side, r.View(side)) && NoEmpty(r.View(side)) && Sane(r.View(side))
  {
    var s := r.Side(side);
    ViewSorted(side, r.mem, s.v, s.lists);
    forall i: nat | i < |r.View(side)|
      ensures r.View(side)[i].orders != []
    {
      assert s.lists[i] != [];
    }
  }

  lemma IdsBelowNext(r: Rep, side: Side, i: nat, k: nat)
    requires RepOk(r) && i < |r.View(side)| && k < |r.View(side)[i].orders|
    ensures 0 < r.View(side)[i].orders[k].id < r.nextId
  {
    TablesOf(r);
    hide RepOk, NodeOk, LadderView;
    ViewPosition(r, side, i, k);
    LinkedOrder(r, side, i, k);
  }

  lemma StopsApart(r: Rep, id: nat)
    requires RepOk(r) && id in r.Stops()
    ensures 0 < id < r.nextId && !Resting(r.Abs(), id)
  {
    TablesOf(r);
    StopIffInTable(r, id);
    RestsIffInTable(r, id);
  }

  /** Every state of the OrderBook class shows a well-formed book. */
  lemma ValidBookIsOk(r: Rep)
    requires RepOk(r)
    ensures BookOk(r.Abs())
  {
    hide RepOk, LadderView, SitsAt, Resting, Rep.Stops;
    forall side
      ensures r.Abs().SideOf(side) == r.View(side)
      ensures Sorted(side, r.View(side)) && NoEmpty(r.View(side)) && Sane(r.View(side))
    {
      NoEmptyView(r, side);
    }
    hide Sorted, NoEmpty, Sane;
    forall side, i: nat, k: nat | i < |r.View(side)| && k < |r.View(side)[i].orders|
      ensures 0 < r.View(side)[i].orders[k].id < r.nextId
      ensures SitsAt(r.Abs(), r.View(side)[i].orders[k].id, side, i, k)
    {
      IdsBelowNext(r, side, i, k);
      SeatOfView(r, side, i, k);
    }
    forall id | id in r.Stops()
      ensures 0 < id < r.nextId && !Resting(r.Abs(), id)
    {
      StopsApart(r, id);
    }
  }

  /** The slab is partitioned into the freelist and the live slots, and every live slot is
      either linked at exactly its side and price or a pending stop. */
  lemma SlabIsPartitioned(r: Rep, x: nat)
    requires RepOk(r) && x < |r.mem|
    ensures x in r.free <==> !r.Live(x)
    ensures r.Live(x) ==> (r.LiveStop(x) <==> !Listed(r.bids.lists, x) && !Listed(r.asks.lists, x))
    ensures r.Live(x) && !r.LiveStop(x) ==>
              exists i :: 0 <= i < |r.Side(r.mem[x].side).lists| && x in r.Side(r.mem[x].side).lists[i]
                          && r.Side(r.mem[x].side).v[i].price == r.mem[x].price
  {
    if r.LiveStop(x) {
      NotListed(r, x);
    } else if r.Live(x) {
      var s := r.Side(r.mem[x].side);
      var i :| 0 <= i < |s.lists| && x in s.lists[i];
      var k :| 0 <= k < |s.lists[i]| && s.lists[i][k] == x;
      LinkedOrder(r, r.mem[x].side, i, k);
    }
  }

  // ----- add and cancel -----

  /** An id that rests nowhere. */
  ghost predicate Absent(ls: seq<Level>, id: nat) {
    forall i: nat, k: nat :: i < |ls| && k < |ls[i].orders| ==> ls[i].orders[k].id != id
  }

  lemma AbsentRestsNot(ls: seq<Level>, id: nat)
    requires Absent(ls, id)
    ensures !Rests(ls, id)
  {
  }

  lemma FreshAbsent(b: Book, side: Side)
    requires BookOk(b)
    ensures Absent(b.SideOf(side), b.nextId)
  {
  }

  /** The new order is found at the tail of its level. */
  lemma {:induction false} AddedSits(side: Side, ls: seq<Level>, px: int, o: Ord)
    requires Absent(ls, o.id)
    ensures
      var i := Lower(side, ls, px);
      var ls' := AddOrder(side, ls, px, o);
      && i < |ls'| && LevelOf(ls', o.id) == i && IndexOf(ls'[i].orders, o.id) == |ls'[i].orders| - 1
      && ls'[i].orders != [] && ls'[i].orders[|ls'[i].orders| - 1] == o && ls'[i].price == px
  {
    var i := Lower(side, ls, px);
    var ls' := AddOrder(side, ls, px, o);
    AddIsEmplaceThenPush(side, ls, px, o);
    if !(i < |ls| && ls[i].price == px) {
      forall j: nat | j < |ls'|
        ensures ls'[j] == if j < i then ls[j] else if j == i then Level(px, [o]) else ls[j - 1]
      {
        InsertAtIndex(ls, i, Level(px, [o]), j);
      }
    }
    FoundAt(ls', i, |ls'[i].orders| - 1);
  }

  /** Cancelling the order just added gives back the book, but for the id that is spent. */
  lemma CancelUndoesAdd(b: Book, side: Side, px: int, qty: nat)
    requires BookOk(b) && b.free > 0
    ensures
      var added := AddLimit(b, side, px, qty);
      && added.value == b.nextId
      && BookSpec.Cancel(added.book, added.value) == Outcome(true, b.(nextId := b.nextId + 1))
  {
    var ls, o := b.SideOf(side), Ord(b.nextId, qty, qty, 0, 0);
    var ls' := AddOrder(side, ls, px, o);
    FreshAbsent(b, side);
    FreshAbsent(b, Opposite(side));
    AbsentRestsNot(b.SideOf(Opposite(side)), o.id);
    AddedSits(side, ls, px, o);
    var i := Lower(side, ls, px);
    RemoveAdded(side, ls, px, o);
    var added := AddLimit(b, side, px, qty).book;
    assert added.SideOf(side) == ls' && added.SideOf(Opposite(side)) == b.SideOf(Opposite(side));
    assert Rests(ls', o.id);
    assert added.With(side, ls).(free := b.free) == b.(nextId := b.nextId + 1);
  }

  lemma {:induction false} RemoveAdded(side: Side, ls: seq<Level>, px: int, o: Ord)
    requires NoEmpty(ls)
    ensures
      var i := Lower(side, ls, px);
      var ls' := AddOrder(side, ls, px, o);
      && i < |ls'| && ls'[i].orders != []
      && SetQueue(ls', i, RemoveAt(ls'[i].orders, |ls'[i].orders| - 1)) == ls
  {
    var i := Lower(side, ls, px);
    if i < |ls| && ls[i].price == px {
      RemoveLast(ls[i].orders, o);
      assert ls[i := Level(px, ls[i].orders + [o])][i := Level(px, ls[i].orders)] == ls;
    } else {
      RemoveLast([], o);
      RemoveInserted(ls, i, Level(px, [o]));
    }
  }

  lemma RemoveLast<T>(s: seq<T>, x: T)
    ensures RemoveAt(s + [x], |s|) == s
  {
  }

  lemma RemoveInserted<T>(s: seq<T>, i: nat, x: T)
    requires i <= |s|
    ensures RemoveAt(InsertAt(s, i, x), i) == s && InsertAt(s, i, x)[i] == x
  {
  }

  // ----- modify -----

  /** From `b` to `r` nothing changed but the k-th order of the i-th level of `side`. */
  ghost predicate OthersKept(b: Book, r: Book, side: Side, i: nat, k: nat) {
    && r.SideOf(Opposite(side)) == b.SideOf(Opposite(side))
    && r.free == b.free && r.nextId == b.nextId && r.stops == b.stops
    && |r.SideOf(side)| == |b.SideOf(side)|
    && forall j: nat :: j < |b.SideOf(side)| ==>
         && r.SideOf(side)[j].price == b.SideOf(side)[j].price
         && |r.SideOf(side)[j].orders| == |b.SideOf(side)[j].orders|
         && forall n: nat :: n < |b.SideOf(side)[j].orders| && (j, n) != (i, k) ==>
              r.SideOf(side)[j].orders[n] == b.SideOf(side)[j].orders[n]
  }

  lemma RewrittenSeats(b: Book, id: nat, o': Ord, side: Side, i: nat, k: nat)
    requires SitsAt(b, id, side, i, k)
    ensures
      var r := Rewrite(b, id, o');
      OthersKept(b, r, side, i, k) && k < |r.SideOf(side)[i].orders| && r.SideOf(side)[i].orders[k] == o'
  {
    SeatRests(b, id, side, i, k);
    AtItsSeat(b, id, side, i, k, o');
    hide Rewrite, SitsAt, Resting;
  }

  /** Rewriting an order without moving it keeps its seat, and every other order as it is. */
  lemma RewriteKeepsPlace(b: Book, id: nat, o': Ord, side: Side, i: nat, k: nat)
    requires SitsAt(b, id, side, i, k) && BookOk(b) && o'.id == id
    ensures
      var r := Rewrite(b, id, o');
      && SitsAt(r, id, side, i, k) && r.SideOf(side)[i].orders[k] == o'
      && OthersKept(b, r, side, i, k)
  {
    var r := Rewrite(b, id, o');
    var ls, ls' := b.SideOf(side), r.SideOf(side);
    RewrittenSeats(b, id, o', side, i, k);
    hide Rewrite;
    forall j: nat, n: nat | j < |ls'| && n < |ls'[j].orders| && ls'[j].orders[n].id == id
      ensures j == i && n == k
    {
      assert SitsAt(b, ls[j].orders[n].id, side, j, n);
    }
    FoundAt(ls', i, k);
    if side == Sell {
      assert SideHolding(b, id) == Sell && !Rests(b.bids, id);
    }
  }

  /** Changing the quantity at the same price keeps the order where it stands: time priority is
      not lost, and no other order is touched. The visible slice grows with the total; when the
      total shrinks the slice is cut down to it, or left when it is smaller. */
  lemma ModifyKeepsPlace(b: Book, id: nat, qty: nat, side: Side, i: nat, k: nat)
    requires SitsAt(b, id, side, i, k) && BookOk(b)
    ensures
      var r := Modify(b, id, b.SideOf(side)[i].price, qty);
      && r.value && SitsAt(r.book, id, side, i, k) && OthersKept(b, r.book, side, i, k)
      && var o, o' := b.SideOf(side)[i].orders[k], r.book.SideOf(side)[i].orders[k];
      && o'.id == id && o'.qty == qty && o'.hidden == o.hidden && o'.display == o.display
      && (qty >= o.qty ==> o'.rem + o.qty == o.rem + qty)
      && (qty < o.qty ==> o'.rem <= qty && o'.rem <= o.rem && (o'.rem == qty || o'.rem == o.rem))
  {
    var o := b.SideOf(side)[i].orders[k];
    ModifyAtItsSeat(b, id, side, i, k, b.SideOf(side)[i].price, qty);
    AtItsSeat(b, id, side, i, k, o.(qty := qty, rem := ResizedRem(o, qty)));
    hide BookOk, SitsAt, OthersKept, Rewrite, Modify;
    RewriteKeepsPlace(b, id, o.(qty := qty, rem := ResizedRem(o, qty)), side, i, k);
  }

  /** configure_iceberg keeps the order where it stands, makes it show its total or the display
      size, whichever is smaller, and hides the rest; no other order is touched. */
  lemma ConfigureKeepsPlace(b: Book, id: nat, display: nat, side: Side, i: nat, k: nat)
    requires SitsAt(b, id, side, i, k) && BookOk(b) && display > 0
    ensures
      var r := Configure(b, id, display);
      && r.value && SitsAt(r.book, id, side, i, k) && OthersKept(b, r.book, side, i, k)
      && var o, o' := b.SideOf(side)[i].orders[k], r.book.SideOf(side)[i].orders[k];
      && o'.id == id && o'.qty == o.qty && o'.display == display
      && o'.rem + o'.hidden == o.qty && o'.rem <= display && (o'.hidden > 0 ==> o'.rem == display)
  {
    var o := b.SideOf(side)[i].orders[k];
    var o' := o.(display := display, hidden := if o.qty > display then o.qty - display else 0,
        rem := Min(display, o.qty));
    ConfigureAtItsSeat(b, id, side, i, k, display);
    SeatRests(b, id, side, i, k);
    AtItsSeat(b, id, side, i, k, o');
    assert o.id == id;
    hide BookOk, SitsAt, OthersKept, Rewrite, Configure, Resting, SideHolding, LevelOf, IndexOf;
    assert Configure(b, id, display) == Outcome(true, Rewrite(b, id, o'));
    RewriteKeepsPlace(b, id, o', side, i, k);
  }

  lemma StruckAt(os: seq<Ord>, k: nat, take: nat)
    requires k < |os| && take <= os[k].rem && SaneOrders(os)
    ensures
      var o, rest := os[k], RemoveAt(os, k);
      && StrikeAt(os, k, take)
         == (if take < o.rem then os[k := o.(rem := o.rem - take)]
             else if o.hidden == 0 then rest
             else if o.hidden <= o.display then rest + [o.(rem := o.hidden, hidden := 0)]
             else rest + [o.(rem := o.display, hidden := o.hidden - o.display)])
      && Gone(o, take) == if take == o.rem && o.hidden == 0 then 1 else 0
  {
  }

  /** A single fill takes as much of the visible slice as it can. An order that still shows
      something stays where it is, an exhausted iceberg shows its next slice at the tail of its
      queue, any other exhausted order leaves; no other queue is touched. */
  lemma FillTakes(b: Book, id: nat, qty: nat, side: Side, i: nat, k: nat)
    requires SitsAt(b, id, side, i, k) && BookOk(b)
    ensures
      var ls, r := b.SideOf(side), ApplyFill(b, id, qty);
      var os, o, filled := ls[i].orders, ls[i].orders[k], r.value;
      var rest := RemoveAt(os, k);
      && filled <= qty && filled <= o.rem && (filled == qty || filled == o.rem)
      && r.book.SideOf(Opposite(side)) == b.SideOf(Opposite(side))
      && r.book.nextId == b.nextId && r.book.stops == b.stops
      && r.book.free == b.free + (if filled == o.rem && o.hidden == 0 then 1 else 0)
      && Queue(side, r.book.SideOf(side), ls[i].price)
         == (if filled < o.rem then os[k := o.(rem := o.rem - filled)]
             else if o.hidden == 0 then rest
             else if o.hidden <= o.display then rest + [o.(rem := o.hidden, hidden := 0)]
             else rest + [o.(rem := o.display, hidden := o.hidden - o.display)])
      && forall p :: p != ls[i].price ==> Queue(side, r.book.SideOf(side), p) == Queue(side, ls, p)
  {
    var ls := b.SideOf(side);
    var os := StrikeAt(ls[i].orders, k, Min(qty, ls[i].orders[k].rem));
    FillAtItsSeat(b, id, side, i, k, qty);
    assert Sane(b.SideOf(side)) && Sorted(side, ls) && SaneOrders(ls[i].orders);
    StruckAt(ls[i].orders, k, Min(qty, ls[i].orders[k].rem));
    hide StrikeAt, Gone, Refills, RemoveAt;
    forall p
      ensures Queue(side, SetQueue(ls, i, os), p) == if p == ls[i].price then os else Queue(side, ls, p)
    {
      SetQueueSets(side, ls, i, os, p);
    }
    hide BookOk, SitsAt, ApplyFill, Queue, SetQueue, Sorted;
  }

  lemma TakenGone(b: Book, id: nat, side: Side, i: nat, k: nat)
    requires BookOk(b) && SitsAt(b, id, side, i, k)
    ensures Absent(Take(b, id).SideOf(side), id)
  {
    AtItsSeat(b, id, side, i, k, b.SideOf(side)[i].orders[k]);
    var ls := b.SideOf(side);
    var os' := RemoveAt(ls[i].orders, k);
    var ls' := SetQueue(ls, i, os');
    forall j: nat, n: nat | j < |ls'| && n < |ls'[j].orders|
      ensures ls'[j].orders[n].id != id
    {
      var j0 := if os' == [] && j >= i then j + 1 else j;
      if os' == [] {
        RemoveAtIndex(ls, i, j);
      }
      var n0 := if j0 == i && n >= k then n + 1 else n;
      if j0 == i {
        RemoveAtIndex(ls[i].orders, k, n);
      }
      assert ls'[j].orders[n] == ls[j0].orders[n0];
      assert SitsAt(b, ls[j0].orders[n0].id, side, j0, n0);
    }
  }

  /** Changing the price replaces the order by one with a new id at the tail of the new
      price. It never fails, even when the pool was full: the slot given back is reused. */
  lemma RepriceAlwaysSucceeds(b: Book, id: nat, px: int, qty: nat, side: Side, i: nat, k: nat)
    requires BookOk(b) && SitsAt(b, id, side, i, k) && px != b.SideOf(side)[i].price
    ensures
      var r := Modify(b, id, px, qty);
      var gone := Take(b, id);
      && r.value
      && r.book.SideOf(side) == AddOrder(side, gone.SideOf(side), px, Ord(b.nextId, qty, qty, 0, 0))
      && r.book.SideOf(Opposite(side)) == b.SideOf(Opposite(side))
      && r.book.free == b.free && r.book.nextId == b.nextId + 1
      && Absent(gone.SideOf(side), id)
  {
    ModifyAtItsSeat(b, id, side, i, k, px, qty);
    TakenGone(b, id, side, i, k);
    AtItsSeat(b, id, side, i, k, b.SideOf(side)[i].orders[k]);
  }
}
