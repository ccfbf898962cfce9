// Lifetime accounting per order: over every run of the operations of the book, what an order
// was filled for and what it still shows or hides add up to its quantity, as long as modify
// and configure_iceberg are called within the exact conditions proved here.
module Ledgers {
  import opened LobTypes
  import opened Sums
  import opened BookSpec
  import opened BookLaws
  import opened EngineSpec
  import opened ProRata
  import opened Policies

  // ----- what a side holds for one id -----

  function Counts(id: nat): Ord -> nat {
    (o: Ord) => if o.id == id then 1 else 0
  }

  function Owes(id: nat): Ord -> nat {
    (o: Ord) => if o.id == id then o.rem + o.hidden else 0
  }

  function Asks(id: nat): Ord -> nat {
    (o: Ord) => if o.id == id then o.qty else 0
  }

  function OnLevel(f: Ord -> nat): Level -> nat {
    (l: Level) => Sum(l.orders, f)
  }

  function OnSide(ls: seq<Level>, f: Ord -> nat): nat {
    Sum(ls, OnLevel(f))
  }

  /** Number of orders with the id, what they can still trade, and their total quantity. */
  datatype Account = Account(count: nat, owed: nat, ordered: nat)
  {
    function Plus(a: Account): Account {
      Account(count + a.count, owed + a.owed, ordered + a.ordered)
    }
  }

  function SideAccount(ls: seq<Level>, id: nat): Account {
    Account(OnSide(ls, Counts(id)), OnSide(ls, Owes(id)), OnSide(ls, Asks(id)))
  }

  function QueueAccount(os: seq<Ord>, id: nat): Account {
    Account(Sum(os, Counts(id)), Sum(os, Owes(id)), Sum(os, Asks(id)))
  }

  function BookAccount(b: Book, id: nat): Account {
    SideAccount(b.bids, id).Plus(SideAccount(b.asks, id))
  }

  function ForId(id: nat): Fill -> nat {
    (f: Fill) => if f.id == id then f.qty else 0
  }

  function FilledFor(log: seq<Fill>, id: nat): nat {
    Sum(log, ForId(id))
  }

  // ----- how the operations of a side change the account -----

  /** From `a` to `a'` the id traded `filled`: it owes that much less, and it is either
      still there with its quantity or gone. */
  predicate TradedBy(a: Account, a': Account, filled: nat) {
    && a'.count <= a.count && a'.ordered <= a.ordered && a'.owed + filled == a.owed
    && (a'.count == a.count ==> a'.ordered == a.ordered)
  }

  lemma QueueSet(ls: seq<Level>, i: nat, os: seq<Ord>, f: Ord -> nat)
    requires i < |ls|
    ensures OnSide(SetQueue(ls, i, os), f) + Sum(ls[i].orders, f) == OnSide(ls, f) + Sum(os, f)
  {
    SetQueueSums(ls, i, os, OnLevel(f));
  }

  lemma StruckQueue(os: seq<Ord>, k: nat, take: nat, id: nat)
    requires SaneOrders(os) && k < |os| && take <= os[k].rem
    ensures TradedBy(QueueAccount(os, id), QueueAccount(StrikeAt(os, k, take), id), if os[k].id == id then take else 0)
  {
    StruckMeasure(os, k, take, Counts(id));
    StruckMeasure(os, k, take, Owes(id));
    StruckMeasure(os, k, take, Asks(id));
  }

  lemma StruckMeasure(os: seq<Ord>, k: nat, take: nat, f: Ord -> nat)
    requires k < |os| && take <= os[k].rem
    ensures
      var left := if take < os[k].rem then f(os[k].(rem := os[k].rem - take))
          else if Refills(os[k]) then f(Replenish(os[k])) else 0;
      Sum(StrikeAt(os, k, take), f) + f(os[k]) == Sum(os, f) + left
  {
    SumRemoveAt(os, k, f);
    SumAppend(RemoveAt(os, k), Replenish(os[k]), f);
    SumUpdate(os, k, os[k].(rem := os[k].rem - take), f);
  }

  lemma StruckSide(ls: seq<Level>, i: nat, k: nat, take: nat, id: nat)
    requires Sane(ls) && i < |ls| && k < |ls[i].orders| && take <= ls[i].orders[k].rem
    ensures
      var ls' := SetQueue(ls, i, StrikeAt(ls[i].orders, k, take));
      && Sane(ls')
      && TradedBy(SideAccount(ls, id), SideAccount(ls', id), if ls[i].orders[k].id == id then take else 0)
  {
    var os := ls[i].orders;
    var os' := StrikeAt(os, k, take);
    StruckQueue(os, k, take, id);
    StruckSane(ls, i, k, take);
    hide StrikeAt, SetQueue, Sane, SaneOrders, SideAccount, QueueAccount, TradedBy;
    SideFollowsQueue(ls, i, os', id, if os[k].id == id then take else 0);
  }

  lemma StruckSane(ls: seq<Level>, i: nat, k: nat, take: nat)
    requires Sane(ls) && i < |ls| && k < |ls[i].orders| && take <= ls[i].orders[k].rem
    ensures Sane(SetQueue(ls, i, StrikeAt(ls[i].orders, k, take)))
  {
    StruckSaneQueue(ls[i].orders, k, take);
    hide StrikeAt;
    SaneSet(ls, i, StrikeAt(ls[i].orders, k, take));
  }

  lemma TradedTwice(a: Account, b: Account, c: Account, x: nat, y: nat)
    requires TradedBy(a, b, x) && TradedBy(b, c, y)
    ensures TradedBy(a, c, x + y)
  {
  }

  /** A market order takes from the account of an id exactly what its fills say. */
  lemma {:induction false} SweptSide(ls: seq<Level>, q: nat, id: nat)
    requires Sane(ls)
    ensures Sane(Sweep(ls, q).levels)
    ensures TradedBy(SideAccount(ls, id), SideAccount(Sweep(ls, q).levels, id), FilledFor(Sweep(ls, q).fills, id))
    decreases q, Sum(ls, LevelHidden), Sum(ls, LevelCount)
  {
    if q == 0 || ls == [] {
      SweepDone(ls, q);
    } else if ls[0].orders == [] {
      SetQueueSums(ls, 0, [], LevelHidden);
      SetQueueSums(ls, 0, [], LevelCount);
      assert Sane(ls[1..]);
      SweptSide(ls[1..], q, id);
      EmptyHeadAccount(ls, id);
    } else {
      var fill, ls' := StrikeFill(ls, q), Strike(ls, q);
      var r := Sweep(ls', q - fill.qty);
      StruckHead(ls, q, id);
      StrikeDecreases(ls, q);
      SweepTurn(ls, q);
      hide Sweep, Strike, Sane, SideAccount, StrikeFill;
      SweptSide(ls', q - fill.qty, id);
      TradedTwice(SideAccount(ls, id), SideAccount(ls', id), SideAccount(r.levels, id),
                  ForId(id)(fill), FilledFor(r.fills, id));
      FilledFirst(fill, r.fills, id);
    }
  }

  lemma StruckHead(ls: seq<Level>, q: nat, id: nat)
    requires Sane(ls) && ls != [] && ls[0].orders != []
    ensures Sane(Strike(ls, q)) && StrikeFill(ls, q).qty <= q
    ensures TradedBy(SideAccount(ls, id), SideAccount(Strike(ls, q), id), ForId(id)(StrikeFill(ls, q)))
  {
    StruckSide(ls, 0, 0, StrikeFill(ls, q).qty, id);
  }

  lemma EmptyHeadAccount(ls: seq<Level>, id: nat)
    requires ls != [] && ls[0].orders == []
    ensures SideAccount(ls, id) == SideAccount(ls[1..], id)
  {
  }

  lemma FilledFirst(fill: Fill, rest: seq<Fill>, id: nat)
    ensures FilledFor([fill] + rest, id) == ForId(id)(fill) + FilledFor(rest, id)
  {
    assert ([fill] + rest)[1..] == rest;
  }

  lemma AddedSide(side: Side, ls: seq<Level>, px: int, o: Ord, f: Ord -> nat)
    ensures OnSide(AddOrder(side, ls, px, o), f) == OnSide(ls, f) + f(o)
  {
    var i := Lower(side, ls, px);
    if i < |ls| && ls[i].price == px {
      SumUpdate(ls, i, Level(px, ls[i].orders + [o]), OnLevel(f));
      SumAppend(ls[i].orders, o, f);
    } else {
      SumConcat(ls[..i] + [Level(px, [o])], ls[i..], OnLevel(f));
      SumAppend(ls[..i], Level(px, [o]), OnLevel(f));
      SumConcat(ls[..i], ls[i..], OnLevel(f));
      assert ls == ls[..i] + ls[i..];
      SumOne(o, f);
    }
  }

  lemma TakenSide(ls: seq<Level>, i: nat, k: nat, f: Ord -> nat)
    requires i < |ls| && k < |ls[i].orders|
    ensures OnSide(SetQueue(ls, i, RemoveAt(ls[i].orders, k)), f) + f(ls[i].orders[k]) == OnSide(ls, f)
  {
    QueueSet(ls, i, RemoveAt(ls[i].orders, k), f);
    SumRemoveAt(ls[i].orders, k, f);
  }

  /** An order that is there counts. */
  lemma CountsIn(ls: seq<Level>, i: nat, k: nat)
    requires i < |ls| && k < |ls[i].orders|
    ensures OnSide(ls, Counts(ls[i].orders[k].id)) > 0
  {
    var f := Counts(ls[i].orders[k].id);
    SumSplit(ls, i, OnLevel(f));
    SumSplit(ls[i].orders, k, f);
  }

  /** Nothing is owed or ordered under an id that nobody has. */
  lemma {:induction false} NobodyOwes(ls: seq<Level>, id: nat)
    requires OnSide(ls, Counts(id)) == 0
    ensures OnSide(ls, Owes(id)) == 0 && OnSide(ls, Asks(id)) == 0
  {
    if ls != [] {
      QueueNobody(ls[0].orders, id);
      NobodyOwes(ls[1..], id);
    }
  }

  lemma {:induction false} QueueNobody(os: seq<Ord>, id: nat)
    requires Sum(os, Counts(id)) == 0
    ensures Sum(os, Owes(id)) == 0 && Sum(os, Asks(id)) == 0
  {
    if os != [] {
      QueueNobody(os[1..], id);
    }
  }

  // ----- ledgers -----

  /** A book with its history: the quantity each id was submitted with, the ids cancelled,
      and all fills. */
  datatype Ledger = Ledger(book: Book, adds: map<nat, nat>, cancelled: set<nat>, log: seq<Fill>)

  datatype Act =
    | SubmitLimit(side: Side, price: int, qty: nat, display: nat)
    | MarketOrder(policy: Policy, side: Side, qty: nat)
    | FillOne(id: nat, qty: nat)
    | CancelOne(id: nat)
    | ModifyOne(id: nat, price: int, qty: nat)
    | ConfigureOne(id: nat, display: nat)
    | PendStop(stop: Stop)
    | DropOne(id: nat)

  function Do(l: Ledger, act: Act): Ledger {
    match act
    case SubmitLimit(side, price, qty, display) =>
      var r := LimitSpec(l.book, side, price, qty, display);
      if r.value == 0 then l.(book := r.book) else l.(book := r.book, adds := l.adds[r.value := qty])
    case MarketOrder(policy, side, qty) =>
      var r := MatchSpec(policy, l.book, side, qty);
      l.(book := r.book, log := l.log + r.value)
    case FillOne(id, qty) =>
      if !Resting(l.book, id) then l
      else
        var r := ApplyFill(l.book, id, qty);
        l.(book := r.book, log := l.log + [Fill(id, PriceOf(l.book, id), r.value)])
    case CancelOne(id) =>
      if !Resting(l.book, id) then l else l.(book := Cancel(l.book, id).book, cancelled := l.cancelled + {id})
    case ModifyOne(id, price, qty) =>
      var b := Modify(l.book, id, price, qty).book;
      if !Resting(l.book, id) then l.(book := b)
      else if price == PriceOf(l.book, id) then l.(book := b, adds := l.adds[id := qty])
      else
        var r := AddLimit(Take(l.book, id), SideHolding(l.book, id), price, qty);
        l.(book := b, cancelled := l.cancelled + {id}, adds := if r.value == 0 then l.adds else l.adds[r.value := qty])
    case ConfigureOne(id, display) => l.(book := Configure(l.book, id, display).book)
    case PendStop(stop) => l.(book := AddStop(l.book, stop).book)
    case DropOne(id) => if id in l.book.stops then l.(book := DropStop(l.book, id)) else l
  }

  function After(l: Ledger, acts: seq<Act>): Ledger {
    if acts == [] then l else Do(After(l, acts[..|acts| - 1]), acts[|acts| - 1])
  }

  /** An account balances against what was filled: never more than was ordered, and exactly
      that much together with what is still owed, unless the order was cancelled. */
  predicate Fair(a: Account, filled: nat, added: Option<nat>, cancelled: bool) {
    && a.count <= 1
    && match added
       case None => a.count == 0 && filled == 0
       case Some(qty) =>
         && (a.count == 1 ==> a.ordered == qty && !cancelled)
         && (!cancelled ==> filled + a.owed == qty)
         && filled <= qty
  }

  function Added(l: Ledger, id: nat): Option<nat> {
    if id in l.adds then Some(l.adds[id]) else None
  }

  predicate Balanced(l: Ledger, id: nat) {
    && (id in l.adds ==> 0 < id < l.book.nextId)
    && (id in l.cancelled ==> id in l.adds)
    && Fair(BookAccount(l.book, id), FilledFor(l.log, id), Added(l, id), id in l.cancelled)
  }

  ghost predicate AllBalanced(l: Ledger) {
    forall id: nat :: Balanced(l, id)
  }

  ghost predicate LedgerOk(l: Ledger) {
    Sane(l.book.bids) && Sane(l.book.asks) && l.book.nextId > 0 && AllBalanced(l)
  }

  lemma WithAccount(b: Book, side: Side, ls: seq<Level>, id: nat)
    ensures BookAccount(b.With(side, ls), id) == SideAccount(ls, id).Plus(SideAccount(b.SideOf(Opposite(side)), id))
    ensures BookAccount(b, id) == SideAccount(b.SideOf(side), id).Plus(SideAccount(b.SideOf(Opposite(side)), id))
  {
    hide SideAccount;
  }

  lemma SameLadders(b: Book, b': Book, id: nat)
    requires b'.bids == b.bids && b'.asks == b.asks
    ensures BookAccount(b', id) == BookAccount(b, id)
  {
  }

  /** The share of one order in the account of an id. */
  function Part(o: Ord, id: nat): Account {
    if o.id == id then Account(1, o.rem + o.hidden, o.qty) else Account(0, 0, 0)
  }

  /** The account after an order was rewritten in place. */
  lemma RewrittenAccount(b: Book, side: Side, i: nat, k: nat, o': Ord, id: nat)
    requires i < |b.SideOf(side)| && k < |b.SideOf(side)[i].orders|
    ensures
      var ls := b.SideOf(side);
      var o := ls[i].orders[k];
      BookAccount(b.With(side, ls[i := Level(ls[i].price, ls[i].orders[k := o'])]), id).Plus(Part(o, id))
      == BookAccount(b, id).Plus(Part(o', id))
  {
    var ls := b.SideOf(side);
    RewrittenSide(ls, i, k, o', Counts(id));
    RewrittenSide(ls, i, k, o', Owes(id));
    RewrittenSide(ls, i, k, o', Asks(id));
    WithAccount(b, side, ls[i := Level(ls[i].price, ls[i].orders[k := o'])], id);
    hide OnSide, BookAccount;
  }

  lemma RewrittenSide(ls: seq<Level>, i: nat, k: nat, o': Ord, f: Ord -> nat)
    requires i < |ls| && k < |ls[i].orders|
    ensures OnSide(ls[i := Level(ls[i].price, ls[i].orders[k := o'])], f) + f(ls[i].orders[k]) == OnSide(ls, f) + f(o')
  {
    SumUpdate(ls, i, Level(ls[i].price, ls[i].orders[k := o']), OnLevel(f));
    SumUpdate(ls[i].orders, k, o', f);
  }

  // ----- every act keeps the balance -----

  lemma FairTrade(a: Account, a': Account, filled: nat, more: nat, added: Option<nat>,
      cancelled: bool)
    requires Fair(a, filled, added, cancelled) && TradedBy(a, a', more) && (a.count == 0 ==> a.owed == 0)
    ensures Fair(a', filled + more, added, cancelled)
  {
  }

  /** Trading: the account changed as the new fills say. */
  lemma TradeBalances(l: Ledger, l': Ledger, fills: seq<Fill>, id: nat)
    requires Balanced(l, id) && l'.adds == l.adds && l'.cancelled == l.cancelled && l'.log == l.log + fills
    requires l'.book.nextId == l.book.nextId
    requires TradedBy(BookAccount(l.book, id), BookAccount(l'.book, id), FilledFor(fills, id))
    ensures Balanced(l', id)
  {
    hide BookAccount, TradedBy, Fair;
    NobodyInBook(l.book, id);
    FairTrade(BookAccount(l.book, id), BookAccount(l'.book, id), FilledFor(l.log, id), FilledFor(fills, id),
              Added(l, id), id in l.cancelled);
    SumConcat(l.log, fills, ForId(id));
  }

  /** Nobody with the id, nothing owed. */
  lemma NobodyInBook(b: Book, id: nat)
    ensures NothingOwed(BookAccount(b, id))
  {
    hide SideAccount, NothingOwed;
    SideNobody(b.bids, id);
    SideNobody(b.asks, id);
    NothingPlusNothing(SideAccount(b.bids, id), SideAccount(b.asks, id), BookAccount(b, id));
  }

  lemma NothingPlusNothing(a: Account, b: Account, sum: Account)
    requires NothingOwed(a) && NothingOwed(b)
    requires sum.count == a.count + b.count && sum.owed == a.owed + b.owed && sum.ordered == a.ordered + b.ordered
    ensures NothingOwed(sum)
  {
  }

  predicate NothingOwed(a: Account) {
    a.count == 0 ==> a.owed == 0 && a.ordered == 0
  }

  lemma SideNobody(ls: seq<Level>, id: nat)
    ensures NothingOwed(SideAccount(ls, id))
  {
    if SideAccount(ls, id).count == 0 {
      NobodyOwes(ls, id);
    }
  }

  /** Either policy trades with the opposite side only, as its fills say. */
  lemma MatchTrades(p: Policy, b: Book, side: Side, qty: nat, id: nat)
    requires Sane(b.bids) && Sane(b.asks)
    ensures
      var m, opp := MatchSpec(p, b, side, qty), Opposite(side);
      && Sane(m.book.bids) && Sane(m.book.asks) && m.book.nextId == b.nextId
      && m.book.SideOf(side) == b.SideOf(side)
      && TradedBy(SideAccount(b.SideOf(opp), id), SideAccount(m.book.SideOf(opp), id), FilledFor(m.value, id))
  {
    var opp := Opposite(side);
    match p {
      case Fifo =>
        SweptSide(b.SideOf(opp), qty, id);
        hide Sweep, Sane, SideAccount, TradedBy;
      case ProRataPolicy(minFill) =>
        ProRataTrades(b, side, qty, minFill, id);
        hide Sane, SideAccount, TradedBy;
    }
  }

  lemma ProRataTrades(b: Book, side: Side, qty: nat, minFill: nat, id: nat)
    requires Sane(b.bids) && Sane(b.asks)
    ensures
      var m, opp := ProRataMatch(b, side, qty, minFill), Opposite(side);
      && Sane(m.book.SideOf(opp)) && m.book.nextId == b.nextId && m.book.SideOf(side) == b.SideOf(side)
      && TradedBy(SideAccount(b.SideOf(opp), id), SideAccount(m.book.SideOf(opp), id), FilledFor(m.value, id))
  {
    var opp := Opposite(side);
    var ls := b.SideOf(opp);
    if ls == [] || Shown(ls[0].orders) == 0 {
      NothingToServe(b, side, qty, minFill);
    } else {
      var os := ls[0].orders;
      var alloc := Offers(os, qty, minFill, Shown(os));
      var os' := Served(os, alloc, |os|);
      ServedAccount(ls[0].price, os, alloc, |os|, id);
      EachAll(os, alloc, Trade(ls[0].price));
      SaneSet(ls, 0, os');
      ProRataOutcome(b, side, qty, minFill);
      hide ProRataMatch, Served, Each, Offers, SetQueue, Sane, SaneOrders, TradedBy, QueueAccount, SideAccount;
      SideFollowsQueue(ls, 0, os', id, FilledFor(ProRataMatch(b, side, qty, minFill).value, id));
    }
  }

  lemma ProRataOutcome(b: Book, side: Side, qty: nat, minFill: nat)
    requires b.SideOf(Opposite(side)) != [] && Shown(b.SideOf(Opposite(side))[0].orders) > 0
    ensures
      var m, opp := ProRataMatch(b, side, qty, minFill), Opposite(side);
      var ls := b.SideOf(opp);
      var os := ls[0].orders;
      var alloc := Offers(os, qty, minFill, Shown(os));
      && m.book.SideOf(opp) == SetQueue(ls, 0, Served(os, alloc, |os|)) && m.book.SideOf(side) == b.SideOf(side)
      && m.book.nextId == b.nextId && m.value == Each(os, alloc, Trade(ls[0].price))
  {
    hide Served, Each, Offers, SetQueue, Shown;
  }

  /** When one queue trades, its side trades as much. */
  lemma SideFollowsQueue(ls: seq<Level>, i: nat, os: seq<Ord>, id: nat, filled: nat)
    requires i < |ls| && TradedBy(QueueAccount(ls[i].orders, id), QueueAccount(os, id), filled)
    ensures TradedBy(SideAccount(ls, id), SideAccount(SetQueue(ls, i, os), id), filled)
  {
    QueueSet(ls, i, os, Counts(id));
    QueueSet(ls, i, os, Owes(id));
    QueueSet(ls, i, os, Asks(id));
    hide OnSide, SetQueue;
  }

  lemma SaneSet(ls: seq<Level>, i: nat, os: seq<Ord>)
    requires Sane(ls) && i < |ls| && SaneOrders(os)
    ensures Sane(SetQueue(ls, i, os))
  {
  }

  lemma {:induction false} ServedAccount(px: int, os: seq<Ord>, alloc: seq<nat>, n: nat, id: nat)
    requires SaneOrders(os) && |os| == |alloc| && n <= |os|
    ensures SaneOrders(Served(os, alloc, n))
    ensures TradedBy(QueueAccount(os, id), QueueAccount(Served(os, alloc, n), id),
        FilledFor(Each(os[..n], alloc[..n], Trade(px)), id))
  {
    if n == 0 {
      assert Served(os, alloc, 0) == os;
    } else {
      ServedAccount(px, os, alloc, n - 1, id);
      ServedOneAccount(px, os, alloc, n - 1, id);
      EachStep(os, alloc, n - 1, Trade(px));
      hide Served, Each, QueueAccount, SaneOrders, Trade;
      var before, more := Each(os[..n - 1], alloc[..n - 1], Trade(px)), Trade(px)(os[n - 1], alloc[n - 1]);
      SumConcat(before, more, ForId(id));
      TradedTwice(QueueAccount(os, id), QueueAccount(Served(os, alloc, n - 1), id),
                  QueueAccount(Served(os, alloc, n), id), FilledFor(before, id), FilledFor(more, id));
    }
  }

  lemma ServedOneAccount(px: int, os: seq<Ord>, alloc: seq<nat>, n: nat, id: nat)
    requires |os| == |alloc| && n < |os| && SaneOrders(Served(os, alloc, n))
    ensures SaneOrders(Served(os, alloc, n + 1))
    ensures TradedBy(QueueAccount(Served(os, alloc, n), id), QueueAccount(Served(os, alloc, n + 1), id),
                     FilledFor(Trade(px)(os[n], alloc[n]), id))
  {
    var take := Min(alloc[n], os[n].rem);
    SumOne(Fill(os[n].id, px, take), ForId(id));
    ServeOne(os, alloc, n);
    if alloc[n] > 0 {
      var k := |Each(os[..n], alloc[..n], Stay)|;
      hide Served, Each;
      StruckQueue(Served(os, alloc, n), k, take, id);
      StruckSaneQueue(Served(os, alloc, n), k, take);
    }
  }

  lemma StruckSaneQueue(os: seq<Ord>, k: nat, take: nat)
    requires SaneOrders(os) && k < |os| && take <= os[k].rem
    ensures SaneOrders(StrikeAt(os, k, take))
  {
    forall j: nat | j < |os| - 1
      ensures RemoveAt(os, k)[j] == os[if j < k then j else j + 1]
    {
      RemoveAtIndex(os, k, j);
    }
  }

  lemma MarketBalances(l: Ledger, p: Policy, side: Side, qty: nat)
    requires LedgerOk(l)
    ensures LedgerOk(Do(l, MarketOrder(p, side, qty)))
  {
    var opp := Opposite(side);
    var m := MatchSpec(p, l.book, side, qty);
    var l' := Do(l, MarketOrder(p, side, qty));
    MatchTrades(p, l.book, side, qty, 0);
    forall id: nat
      ensures Balanced(l', id)
    {
      assert Balanced(l, id);
      MatchTrades(p, l.book, side, qty, id);
      BothSides(l.book, opp, id);
      BothSides(m.book, opp, id);
      hide MatchSpec, SideAccount, BookAccount, Balanced;
      TradeBalances(l, l', m.value, id);
    }
  }

  lemma BothSides(b: Book, side: Side, id: nat)
    ensures BookAccount(b, id) == SideAccount(b.SideOf(side), id).Plus(SideAccount(b.SideOf(Opposite(side)), id))
  {
    hide SideAccount;
  }

  lemma FillBalances(l: Ledger, id: nat, qty: nat)
    requires LedgerOk(l)
    ensures LedgerOk(Do(l, FillOne(id, qty)))
  {
    if Resting(l.book, id) {
      var l' := Do(l, FillOne(id, qty));
      var fill := Fill(id, PriceOf(l.book, id), ApplyFill(l.book, id, qty).value);
      FillTrades(l.book, id, qty, 0);
      forall x: nat
        ensures Balanced(l', x)
      {
        assert Balanced(l, x);
        FillTrades(l.book, id, qty, x);
        SumOne(fill, ForId(x));
        hide BookAccount, Balanced, ApplyFill;
        TradeBalances(l, l', [fill], x);
      }
    }
  }

  lemma FillTrades(b: Book, id: nat, qty: nat, x: nat)
    requires Resting(b, id) && Sane(b.bids) && Sane(b.asks)
    ensures
      var r := ApplyFill(b, id, qty);
      && Sane(r.book.bids) && Sane(r.book.asks) && r.book.nextId == b.nextId
      && TradedBy(BookAccount(b, x), BookAccount(r.book, x), if x == id then r.value else 0)
  {
    var side := SideHolding(b, id);
    var ls := b.SideOf(side);
    var i := LevelOf(ls, id);
    var k := IndexOf(ls[i].orders, id);
    var filled := Min(qty, ls[i].orders[k].rem);
    var r := ApplyFill(b, id, qty);
    StruckSide(ls, i, k, filled, x);
    assert r.book.SideOf(Opposite(side)) == b.SideOf(Opposite(side));
    assert r.book.SideOf(side) == SetQueue(ls, i, StrikeAt(ls[i].orders, k, filled));
    hide SideAccount, SetQueue, StrikeAt, Sane, BookAccount;
    BothSides(b, side, x);
    BothSides(r.book, side, x);
  }

  lemma CancelBalances(l: Ledger, id: nat)
    requires LedgerOk(l)
    ensures LedgerOk(Do(l, CancelOne(id)))
  {
    if Resting(l.book, id) {
      var b := l.book;
      var side := SideHolding(b, id);
      var ls := b.SideOf(side);
      var i := LevelOf(ls, id);
      var k := IndexOf(ls[i].orders, id);
      var ls' := SetQueue(ls, i, RemoveAt(ls[i].orders, k));
      var l' := Do(l, CancelOne(id));
      TakenSane(ls, i, k);
      forall x: nat
        ensures Balanced(l', x)
      {
        assert Balanced(l, x);
        TakenAccount(b, side, i, k, x);
        SameLadders(b.With(side, ls'), l'.book, x);
        hide SideAccount, BookAccount, SetQueue;
        FairCancel(BookAccount(b, x), BookAccount(l'.book, x), FilledFor(l.log, x), Added(l, x), x in l.cancelled,
                   ls[i].orders[k], x);
      }
    }
  }

  lemma TakenAccount(b: Book, side: Side, i: nat, k: nat, id: nat)
    requires i < |b.SideOf(side)| && k < |b.SideOf(side)[i].orders|
    ensures
      var ls := b.SideOf(side);
      BookAccount(b.With(side, SetQueue(ls, i, RemoveAt(ls[i].orders, k))), id).Plus(Part(ls[i].orders[k], id))
        == BookAccount(b, id)
  {
    var ls := b.SideOf(side);
    TakenSide(ls, i, k, Counts(id));
    TakenSide(ls, i, k, Owes(id));
    TakenSide(ls, i, k, Asks(id));
    WithAccount(b, side, SetQueue(ls, i, RemoveAt(ls[i].orders, k)), id);
    hide OnSide, SetQueue, BookAccount;
  }

  lemma FairCancel(a: Account, a': Account, filled: nat, added: Option<nat>, cancelled: bool,
      o: Ord, id: nat)
    requires Fair(a, filled, added, cancelled) && a'.Plus(Part(o, id)) == a
    ensures Fair(a', filled, added, cancelled || id == o.id) && (id == o.id ==> added.Some?)
  {
  }

  lemma TakenSane(ls: seq<Level>, i: nat, k: nat)
    requires Sane(ls) && i < |ls| && k < |ls[i].orders|
    ensures Sane(SetQueue(ls, i, RemoveAt(ls[i].orders, k)))
  {
    var os := ls[i].orders;
    forall j: nat | j < |os| - 1
      ensures RemoveAt(os, k)[j] == os[if j < k then j else j + 1]
    {
      RemoveAtIndex(os, k, j);
    }
    assert SaneOrders(RemoveAt(os, k));
  }

  lemma NoCountAbsent(ls: seq<Level>, id: nat)
    requires OnSide(ls, Counts(id)) == 0
    ensures Absent(ls, id)
  {
    forall i: nat, k: nat | i < |ls| && k < |ls[i].orders|
      ensures ls[i].orders[k].id != id
    {
      if ls[i].orders[k].id == id {
        CountsIn(ls, i, k);
      }
    }
  }

  /** The order submit_limit places: with a display size it shows at most that much. */
  function Iceberg(id: nat, qty: nat, display: nat): Ord {
    var hidden := if display > 0 && qty > display then qty - display else 0;
    Ord(id, qty, qty - hidden, hidden, display)
  }

  /** The side after submit_limit placed an order, iceberg or not. */
  lemma SubmittedSide(b: Book, side: Side, px: int, qty: nat, display: nat)
    requires b.free > 0 && Absent(b.bids, b.nextId) && Absent(b.asks, b.nextId) && b.nextId > 0
    ensures LimitSpec(b, side, px, qty, display)
         == Outcome(b.nextId, b.With(side, AddOrder(side, b.SideOf(side), px, Iceberg(b.nextId, qty, display)))
                               .(nextId := b.nextId + 1, free := b.free - 1))
  {
    var ls := b.SideOf(side);
    var o0, o := Iceberg(b.nextId, qty, 0), Iceberg(b.nextId, qty, display);
    PlainLimit(b, side, px, qty);
    if display > 0 {
      SeatOfAdded(b, side, px, qty);
      ReplaceAdded(side, ls, px, o0, o);
      hide AddOrder, Configure, SitsAt, AddLimit, Absent;
      ConfigureAdded(AddLimit(b, side, px, qty).book, side, Lower(side, ls, px), b.nextId, qty, display);
      WithTwice(b, side, AddOrder(side, ls, px, o0), AddOrder(side, ls, px, o), b.nextId + 1, b.free - 1);
    }
  }

  lemma PlainLimit(b: Book, side: Side, px: int, qty: nat)
    requires b.free > 0
    ensures AddLimit(b, side, px, qty)
         == Outcome(b.nextId, b.With(side, AddOrder(side, b.SideOf(side), px, Iceberg(b.nextId, qty, 0)))
                               .(nextId := b.nextId + 1, free := b.free - 1))
  {
  }

  lemma WithTwice(b: Book, side: Side, x: seq<Level>, y: seq<Level>, n: nat, free: nat)
    ensures b.With(side, x).(nextId := n, free := free).With(side, y) == b.With(side, y).(nextId := n, free := free)
    ensures b.With(side, x).(nextId := n, free := free).SideOf(side) == x
  {
  }

  lemma ConfigureAdded(b: Book, side: Side, i: nat, id: nat, qty: nat, display: nat)
    requires i < |b.SideOf(side)| && b.SideOf(side)[i].orders != [] && display > 0
    requires var os := b.SideOf(side)[i].orders; os[|os| - 1] == Iceberg(id, qty, 0) && SitsAt(b, id, side, i, |os| - 1)
    ensures
      var ls := b.SideOf(side);
      var os := ls[i].orders;
      Configure(b, id, display)
        == Outcome(true, b.With(side, ls[i := Level(ls[i].price, os[|os| - 1 := Iceberg(id, qty, display)])]))
  {
    hide Configure, SitsAt;
    ConfigureAtItsSeat(b, id, side, i, |b.SideOf(side)[i].orders| - 1, display);
  }

  lemma SeatOfAdded(b: Book, side: Side, px: int, qty: nat)
    requires b.free > 0 && Absent(b.bids, b.nextId) && Absent(b.asks, b.nextId)
    ensures
      var o := Iceberg(b.nextId, qty, 0);
      var ls', i := AddOrder(side, b.SideOf(side), px, o), Lower(side, b.SideOf(side), px);
      && i < |ls'| && ls'[i].orders != [] && ls'[i].orders[|ls'[i].orders| - 1] == o && ls'[i].price == px
      && SitsAt(AddLimit(b, side, px, qty).book, b.nextId, side, i, |ls'[i].orders| - 1)
  {
    var o := Iceberg(b.nextId, qty, 0);
    var added := AddLimit(b, side, px, qty).book;
    hide AddOrder;
    AddedSits(side, b.SideOf(side), px, o);
    AbsentRestsNot(b.SideOf(Opposite(side)), b.nextId);
    assert added.SideOf(Opposite(side)) == b.SideOf(Opposite(side));
    assert added.SideOf(side) == AddOrder(side, b.SideOf(side), px, o);
  }

  lemma ReplaceAdded(side: Side, ls: seq<Level>, px: int, o: Ord, o': Ord)
    ensures
      var i := Lower(side, ls, px);
      var ls' := AddOrder(side, ls, px, o);
      && i < |ls'| && ls'[i].orders != [] && ls'[i].price == px
      && ls'[i := Level(px, ls'[i].orders[|ls'[i].orders| - 1 := o'])] == AddOrder(side, ls, px, o')
  {
    AddIsEmplaceThenPush(side, ls, px, o);
    AddIsEmplaceThenPush(side, ls, px, o');
    var i, e := Lower(side, ls, px), Emplace(side, ls, px);
    assert (e[i].orders + [o])[|e[i].orders| := o'] == e[i].orders + [o'];
  }

  lemma SubmitBalances(l: Ledger, side: Side, px: int, qty: nat, display: nat)
    requires LedgerOk(l)
    ensures LedgerOk(Do(l, SubmitLimit(side, px, qty, display)))
  {
    var b := l.book;
    FreshIdAbsent(l);
    if b.free == 0 {
      AbsentId0(l);
      RefusedLimit(b, side, px, qty, display);
      hide LimitSpec;
    } else {
      var o := Iceberg(b.nextId, qty, display);
      SubmittedSide(b, side, px, qty, display);
      AddedSane(side, b.SideOf(side), px, o);
      var b' := LimitSpec(b, side, px, qty, display).book;
      hide AddOrder, LimitSpec, Sane, Balanced, AllBalanced, Absent;
      EnteredBalances(l, b', side, px, o);
      assert Do(l, SubmitLimit(side, px, qty, display)) == Ledger(b', l.adds[o.id := o.qty], l.cancelled, l.log);
    }
  }

  lemma FreshIdAbsent(l: Ledger)
    requires LedgerOk(l)
    ensures Absent(l.book.bids, l.book.nextId) && Absent(l.book.asks, l.book.nextId)
  {
    assert Balanced(l, l.book.nextId);
    hide OnSide, Absent;
    NoCountAbsent(l.book.bids, l.book.nextId);
    NoCountAbsent(l.book.asks, l.book.nextId);
  }

  /** A new order entered under the next id. */
  lemma EnteredBalances(l: Ledger, b': Book, side: Side, px: int, o: Ord)
    requires AllBalanced(l) && o.id == l.book.nextId > 0 && o.rem + o.hidden == o.qty
    requires
      var b1 := l.book.With(side, AddOrder(side, l.book.SideOf(side), px, o));
      b'.bids == b1.bids && b'.asks == b1.asks && b'.nextId == o.id + 1
    ensures AllBalanced(Ledger(b', l.adds[o.id := o.qty], l.cancelled, l.log))
  {
    var l' := Ledger(b', l.adds[o.id := o.qty], l.cancelled, l.log);
    forall id: nat
      ensures Balanced(l', id)
    {
      AddedAccount(l.book, side, px, o, id);
      SameLadders(l.book.With(side, AddOrder(side, l.book.SideOf(side), px, o)), b', id);
      EnteredOne(l, l', o, id);
    }
  }

  lemma EnteredOne(l: Ledger, l': Ledger, o: Ord, id: nat)
    requires Balanced(l, id) && o.id == l.book.nextId > 0 && o.rem + o.hidden == o.qty
    requires l'.adds == l.adds[o.id := o.qty] && l'.cancelled == l.cancelled && l'.log == l.log
        && l'.book.nextId == o.id + 1
    requires BookAccount(l'.book, id) == BookAccount(l.book, id).Plus(Part(o, id))
    ensures Balanced(l', id)
  {
    NobodyInBook(l.book, id);
    hide BookAccount, Fair, Part, NothingOwed;
    FairNew(BookAccount(l.book, id), FilledFor(l.log, id), Added(l, id), id in l.cancelled, o, id);
  }

  lemma AddedAccount(b: Book, side: Side, px: int, o: Ord, id: nat)
    ensures BookAccount(b.With(side, AddOrder(side, b.SideOf(side), px, o)), id) == BookAccount(b, id).Plus(Part(o, id))
  {
    var ls := b.SideOf(side);
    AddedSide(side, ls, px, o, Counts(id));
    AddedSide(side, ls, px, o, Owes(id));
    AddedSide(side, ls, px, o, Asks(id));
    WithAccount(b, side, AddOrder(side, ls, px, o), id);
    hide OnSide, AddOrder, BookAccount;
  }

  lemma FairNew(a: Account, filled: nat, added: Option<nat>, cancelled: bool, o: Ord, id: nat)
    requires Fair(a, filled, added, cancelled) && NothingOwed(a) && o.rem + o.hidden == o.qty
    requires id == o.id ==> added.None? && !cancelled
    ensures Fair(a.Plus(Part(o, id)), filled, if id == o.id then Some(o.qty) else added, cancelled)
  {
  }

  lemma AddedSane(side: Side, ls: seq<Level>, px: int, o: Ord)
    requires Sane(ls) && (o.hidden > 0 ==> o.display > 0)
    ensures Sane(AddOrder(side, ls, px, o))
  {
  }

  /** Id 0 is never issued, so nothing rests under it. */
  lemma AbsentId0(l: Ledger)
    requires LedgerOk(l)
    ensures !Resting(l.book, 0)
  {
    assert Balanced(l, 0);
    NoCountAbsent(l.book.bids, 0);
    NoCountAbsent(l.book.asks, 0);
    AbsentRestsNot(l.book.bids, 0);
    AbsentRestsNot(l.book.asks, 0);
  }

  /** An exhausted pool refuses and leaves the book alone. */
  lemma RefusedLimit(b: Book, side: Side, px: int, qty: nat, display: nat)
    requires b.free == 0 && !Resting(b, 0)
    ensures LimitSpec(b, side, px, qty, display) == Outcome(0, b)
  {
    NoConfigure(b, 0, display);
  }

  // ----- changes of a resting order -----

  /** When an act leaves an account in balance: a quantity change at the same price must not
      shrink an order that has traded or conceals quantity, and configure_iceberg must find
      an order that has not traded. */
  predicate Conserving(b: Book, act: Act) {
    match act
    case ModifyOne(id, price, qty) =>
      Resting(b, id) && price == PriceOf(b, id) ==> var o := FindIn(b, id); qty >= o.qty || o.rem == o.qty
    case ConfigureOne(id, display) =>
      Resting(b, id) && display > 0 ==> var o := FindIn(b, id); o.rem + o.hidden == o.qty
    case _ => true
  }

  /** `l'` is `l` after the resting order `id` became `o'`, with `qty` recorded for it. */
  predicate Rewrote(l: Ledger, l': Ledger, id: nat, o': Ord, qty: nat) {
    && Resting(l.book, id) && l'.book == BookSpec.Rewrite(l.book, id, o') && o'.id == id && o'.qty == qty
    && l'.adds == l.adds[id := qty] && l'.cancelled == l.cancelled && l'.log == l.log
  }

  lemma RewriteAccounts(b: Book, id: nat, o': Ord, x: nat)
    requires Resting(b, id) && o'.id == id && BookAccount(b, id).count <= 1
    ensures BookAccount(BookSpec.Rewrite(b, id, o'), x) == if x == id then Part(o', id) else BookAccount(b, x)
  {
    var side := SideHolding(b, id);
    var i := LevelOf(b.SideOf(side), id);
    var k := IndexOf(b.SideOf(side)[i].orders, id);
    RewrittenAccount(b, side, i, k, o', x);
    RestingAccount(b, id);
    hide BookAccount;
  }

  lemma RewriteSane(b: Book, id: nat, o': Ord)
    requires Resting(b, id) && Sane(b.bids) && Sane(b.asks) && (o'.hidden > 0 ==> o'.display > 0)
    ensures Sane(BookSpec.Rewrite(b, id, o').bids) && Sane(BookSpec.Rewrite(b, id, o').asks)
  {
    var side := SideHolding(b, id);
    var i := LevelOf(b.SideOf(side), id);
    var k := IndexOf(b.SideOf(side)[i].orders, id);
    var os := b.SideOf(side)[i].orders[k := o'];
    assert SaneOrders(os);
  }

  lemma FoundSane(b: Book, id: nat)
    requires Resting(b, id) && Sane(b.bids) && Sane(b.asks)
    ensures FindIn(b, id).hidden > 0 ==> FindIn(b, id).display > 0
    ensures FindIn(b, id).id == id
  {
  }

  /** A rewritten order keeps the accounts in balance exactly when its own new quantities do. */
  lemma RewriteBalancesIff(l: Ledger, l': Ledger, id: nat, o': Ord, qty: nat)
    requires LedgerOk(l) && Rewrote(l, l', id, o', qty) && (o'.hidden > 0 ==> o'.display > 0)
    ensures FilledFor(l.log, id) + FindIn(l.book, id).rem + FindIn(l.book, id).hidden == FindIn(l.book, id).qty
    ensures LedgerOk(l') <==> FilledFor(l.log, id) + o'.rem + o'.hidden == qty
    ensures id in l.adds && FindIn(l.book, id).qty == l.adds[id]
  {
    RewriteSane(l.book, id, o');
    assert Balanced(l, id);
    RestingAccount(l.book, id);
    hide BookAccount, BookSpec.Rewrite, Resting, FindIn, Sane;
    forall x: nat
      ensures Balanced(l', x) <==> x != id || FilledFor(l.log, id) + o'.rem + o'.hidden == qty
    {
      assert Balanced(l, x);
      RewriteAccounts(l.book, id, o', x);
    }
    assert l'.book.nextId == l.book.nextId by {
      RewriteKeeps(l.book, id, o');
    }
    if LedgerOk(l') {
      assert Balanced(l', id);
    }
  }

  lemma RewriteKeeps(b: Book, id: nat, o': Ord)
    requires Resting(b, id)
    ensures
      var r := BookSpec.Rewrite(b, id, o');
      r.nextId == b.nextId && r.stops == b.stops && r.free == b.free
  {
    hide Resting;
  }

  lemma ModifyBalancesIff(l: Ledger, id: nat, price: int, qty: nat)
    requires LedgerOk(l)
    ensures LedgerOk(Do(l, ModifyOne(id, price, qty))) <==> Conserving(l.book, ModifyOne(id, price, qty))
  {
    var l' := Do(l, ModifyOne(id, price, qty));
    if !Resting(l.book, id) {
      NoModify(l.book, id, price, qty);
    } else if price == PriceOf(l.book, id) {
      var o := FindIn(l.book, id);
      var o' := o.(qty := qty, rem := ResizedRem(o, qty));
      FoundSane(l.book, id);
      hide Resting, FindIn, PriceOf, BookSpec.Rewrite, LedgerOk, FilledFor;
      RewriteBalancesIff(l, l', id, o', qty);
      ResizeConserves(o, qty, FilledFor(l.log, id));
    } else {
      RepriceInSteps(l, id, price, qty);
      CancelBalances(l, id);
      hide Do;
      SubmitBalances(Do(l, CancelOne(id)), SideHolding(l.book, id), price, qty, 0);
    }
  }

  lemma ResizeConserves(o: Ord, qty: nat, filled: nat)
    requires filled + o.rem + o.hidden == o.qty
    ensures filled + ResizedRem(o, qty) + o.hidden == qty <==> qty >= o.qty || o.rem == o.qty
  {
  }

  /** A change of price is a cancellation followed by a submission. */
  lemma RepriceInSteps(l: Ledger, id: nat, price: int, qty: nat)
    requires Resting(l.book, id) && price != PriceOf(l.book, id)
    ensures Do(l, ModifyOne(id, price, qty))
         == Do(Do(l, CancelOne(id)), SubmitLimit(SideHolding(l.book, id), price, qty, 0))
  {
    hide Take, Resting, PriceOf, SideHolding, AddLimit;
  }

  lemma ConfigureBalancesIff(l: Ledger, id: nat, display: nat)
    requires LedgerOk(l)
    ensures LedgerOk(Do(l, ConfigureOne(id, display))) <==> Conserving(l.book, ConfigureOne(id, display))
  {
    var l' := Do(l, ConfigureOne(id, display));
    if !Resting(l.book, id) || display == 0 {
      NoConfigure(l.book, id, display);
    } else {
      var o := FindIn(l.book, id);
      var o' := o.(display := display, hidden := if o.qty > display then o.qty - display else 0,
          rem := Min(display, o.qty));
      FoundSane(l.book, id);
      hide Resting, FindIn, BookSpec.Rewrite, LedgerOk, FilledFor;
      RecordedQuantity(l, id);
      RewriteBalancesIff(l, l', id, o', o.qty);
    }
  }

  lemma RecordedQuantity(l: Ledger, id: nat)
    requires LedgerOk(l) && Resting(l.book, id)
    ensures id in l.adds && FindIn(l.book, id).qty == l.adds[id] && l.adds == l.adds[id := l.adds[id]]
  {
    assert Balanced(l, id);
    RestingAccount(l.book, id);
    hide BookAccount;
  }

  /** Pending stops are no concern of the accounts. */
  lemma StopsBalance(l: Ledger, b': Book)
    requires LedgerOk(l) && b'.bids == l.book.bids && b'.asks == l.book.asks && b'.nextId >= l.book.nextId
    ensures LedgerOk(l.(book := b'))
  {
    forall id: nat
      ensures Balanced(l.(book := b'), id)
    {
      assert Balanced(l, id);
      SameLadders(l.book, b', id);
    }
  }

  // ----- runs -----

  /** An act keeps every account in balance if and only if it is within its condition. */
  lemma DoKeepsBalanceIff(l: Ledger, act: Act)
    requires LedgerOk(l)
    ensures LedgerOk(Do(l, act)) <==> Conserving(l.book, act)
  {
    match act {
      case SubmitLimit(side, price, qty, display) => SubmitBalances(l, side, price, qty, display);
      case MarketOrder(policy, side, qty) => MarketBalances(l, policy, side, qty);
      case FillOne(id, qty) => FillBalances(l, id, qty);
      case CancelOne(id) => CancelBalances(l, id);
      case ModifyOne(id, price, qty) => ModifyBalancesIff(l, id, price, qty);
      case ConfigureOne(id, display) => ConfigureBalancesIff(l, id, display);
      case PendStop(stop) =>
        hide LedgerOk;
        StopsBalance(l, Do(l, act).book);
      case DropOne(id) =>
        hide LedgerOk;
        StopsBalance(l, Do(l, act).book);
    }
  }

  /** Every act of a run is within its condition. */
  predicate AllConserving(l: Ledger, acts: seq<Act>) {
    acts != [] ==>
      && AllConserving(l, acts[..|acts| - 1])
      && Conserving(After(l, acts[..|acts| - 1]).book, acts[|acts| - 1])
  }

  lemma {:induction false} RunsBalance(l: Ledger, acts: seq<Act>)
    requires LedgerOk(l) && AllConserving(l, acts)
    ensures LedgerOk(After(l, acts))
  {
    if acts != [] {
      RunsBalance(l, acts[..|acts| - 1]);
      DoKeepsBalanceIff(After(l, acts[..|acts| - 1]), acts[|acts| - 1]);
    }
  }

  function NewLedger(capacity: nat): Ledger {
    Ledger(Book([], [], 1, capacity, map[]), map[], {}, [])
  }

  lemma NewLedgerOk(capacity: nat)
    ensures LedgerOk(NewLedger(capacity))
  {
    forall id: nat
      ensures Balanced(NewLedger(capacity), id)
    {
    }
  }

  lemma {:induction false} CountRests(ls: seq<Level>, id: nat)
    ensures OnSide(ls, Counts(id)) > 0 ==> Rests(ls, id)
  {
    if ls != [] {
      CountRests(ls[1..], id);
      QueueCountRests(ls[0].orders, id);
    }
  }

  lemma {:induction false} QueueCountRests(os: seq<Ord>, id: nat)
    ensures Sum(os, Counts(id)) > 0 ==> HasId(os, id)
  {
    if os != [] {
      QueueCountRests(os[1..], id);
    }
  }

  /** The account of a resting id is that of the one order found under it. */
  lemma RestingAccount(b: Book, id: nat)
    requires BookAccount(b, id).count <= 1
    ensures if Resting(b, id) then BookAccount(b, id) == Part(FindIn(b, id), id) && FindIn(b, id).id == id
            else BookAccount(b, id).count == 0
  {
    if Resting(b, id) {
      var side := SideHolding(b, id);
      var ls := b.SideOf(side);
      var i := LevelOf(ls, id);
      var k := IndexOf(ls[i].orders, id);
      TakenAccount(b, side, i, k, id);
      NobodyInBook(b.With(side, SetQueue(ls, i, RemoveAt(ls[i].orders, k))), id);
      hide BookAccount, SetQueue;
    } else {
      CountRests(b.bids, id);
      CountRests(b.asks, id);
    }
  }

  /** The whole life of an order: fills never exceed what was ordered; fills, visible and hidden
      quantity add up to it while the order rests; an order that left without being cancelled
      was filled completely; and nothing trades or rests under an id nobody was given. */
  predicate FilledExactly(l: Ledger, id: nat) {
    var filled := FilledFor(l.log, id);
    && (id !in l.adds ==> filled == 0 && !Resting(l.book, id))
    && (id in l.adds ==> filled <= l.adds[id])
    && (Resting(l.book, id) ==>
          var o := FindIn(l.book, id);
          id in l.adds && id !in l.cancelled && o.qty == l.adds[id] && filled + o.rem + o.hidden == o.qty)
    && (id in l.adds && !Resting(l.book, id) && id !in l.cancelled ==> filled == l.adds[id])
  }

  lemma BalancedIsExact(l: Ledger, id: nat)
    requires Balanced(l, id)
    ensures FilledExactly(l, id)
  {
    hide BookAccount;
    RestingAccount(l.book, id);
    NobodyInBook(l.book, id);
  }

  /** Conservation for every run of submissions, market orders of either policy, single fills,
      cancellations, stops, and modifications within their conditions. */
  lemma OrdersAreFilledExactly(capacity: nat, acts: seq<Act>, id: nat)
    requires AllConserving(NewLedger(capacity), acts)
    ensures FilledExactly(After(NewLedger(capacity), acts), id)
  {
    hide After, Balanced, FilledExactly;
    NewLedgerOk(capacity);
    RunsBalance(NewLedger(capacity), acts);
    assert Balanced(After(NewLedger(capacity), acts), id);
    BalancedIsExact(After(NewLedger(capacity), acts), id);
  }

  // ----- where the balance is lost -----

  /** An order for 10 of which 4 were filled: shrunk to 8 it still trades 6 more, and made
      an iceberg showing 5 it shows and hides 10 again. */
  lemma PartlyFilledOrderOvertrades()
    ensures
      var o := Ord(1, 10, 6, 0, 0);
      var b := Book([Level(100, [o])], [], 2, 0, map[]);
      var shrunk := Modify(b, 1, 100, 8).book;
      && SitsAt(b, 1, Buy, 0, 0)
      && shrunk.bids == [Level(100, [Ord(1, 8, 6, 0, 0)])]
      && Market(shrunk, Sell, 6).value == [Fill(1, 100, 6)]
      && Configure(b, 1, 5).book.bids == [Level(100, [Ord(1, 10, 5, 5, 5)])]
  {
    var o := Ord(1, 10, 6, 0, 0);
    var b := Book([Level(100, [o])], [], 2, 0, map[]);
    assert b.bids[0].orders == [o] && IndexOf([o], 1) == 0 && HasId([o], 1);
    assert LevelOf(b.bids, 1) == 0 && Rests(b.bids, 1);
    assert SitsAt(b, 1, Buy, 0, 0);
    ModifyAtItsSeat(b, 1, Buy, 0, 0, 100, 8);
    ConfigureAtItsSeat(b, 1, Buy, 0, 0, 5);
    var ls := [Level(100, [Ord(1, 8, 6, 0, 0)])];
    assert forall x: Ord :: [o][0 := x] == [x];
    assert forall x: Level :: b.bids[0 := x] == [x];
    assert b.bids[0 := Level(100, [o][0 := Ord(1, 8, 6, 0, 0)])] == ls;
    assert b.bids[0 := Level(100, [o][0 := Ord(1, 10, 5, 5, 5)])] == [Level(100, [Ord(1, 10, 5, 5, 5)])];
    assert ResizedRem(o, 8) == 6;
    assert StrikeFill(ls, 6) == Fill(1, 100, 6);
    SweepTurn(ls, 6);
    SweepDone(Strike(ls, 6), 0);
    assert Sweep(ls, 6).fills == [Fill(1, 100, 6)];
  }
}
