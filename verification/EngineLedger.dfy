// The accounts over runs of the matching engine: a cascade of stops is a sequence of the
// operations of the book, so what the ledger says of those holds of every order that a stop
// places or trades with, however deep in a cascade.
module EngineLedgers {
  import opened LobTypes
  import opened BookSpec
  import opened Policies
  import opened EngineSpec
  import opened EngineLaws
  import opened Ledgers
  import opened Ids

  // ----- the operations of the book that a cascade performs -----

  function MarketActs(p: Policy, e: Engine, side: Side, qty: nat): seq<Act>
    decreases |e.book.stops|, 1, 0
  {
    MatchKeepsStops(p, e.book, side, qty);
    var m := MatchSpec(p, e.book, side, qty);
    [MarketOrder(p, side, qty)]
    + if m.value == [] then [] else ProcessActs(p, e.(book := m.book), m.value[|m.value| - 1].price)
  }

  function ProcessActs(p: Policy, e: Engine, last: int): seq<Act>
    decreases |e.book.stops|, 0, |e.queued| + |e.stored| + 1
  {
    DrainActs(p, e.(queued := [], stored := []), e.queued + e.stored, last)
  }

  function DrainActs(p: Policy, e: Engine, q: seq<nat>, last: int): seq<Act>
    decreases |e.book.stops|, 0, |q|
  {
    if q == [] then []
    else if q[0] !in e.book.stops then DrainActs(p, e, q[1..], last)
    else if !Triggers(e.book.stops[q[0]], last) then
      DrainActs(p, e.(queued := e.queued + [q[0]]), q[1..], last)
    else
      var e' := Execute(p, e, q[0]);
      ExecuteActs(p, e, q[0]) + DrainActs(p, e', Live(e'.book.stops, q[1..]), last)
  }

  function ExecuteActs(p: Policy, e: Engine, id: nat): seq<Act>
    requires id in e.book.stops
    decreases |e.book.stops|, 0, 0
  {
    var s := e.book.stops[id];
    var e' := Detach(e, id);
    assert e'.book.stops.Keys == e.book.stops.Keys - {id};
    [DropOne(id)]
    + if s.kind == StopMarket then MarketActs(p, e', s.side, s.qty)
      else [SubmitLimit(s.side, s.price, s.qty, s.display)]
  }

  // ----- runs of acts -----

  lemma AfterOne(l: Ledger, act: Act)
    ensures After(l, [act]) == Do(l, act)
  {
    assert [act][..0] == [];
    assert After(l, []) == l;
    hide Do;
  }

  lemma {:induction false} AfterBoth(l: Ledger, a: seq<Act>, b: seq<Act>)
    ensures After(l, a + b) == After(After(l, a), b)
  {
    hide Do;
    if b == [] {
      assert a + b == a;
    } else {
      var n := |b| - 1;
      AfterBoth(l, a, b[..n]);
      assert (a + b)[..|a + b| - 1] == a + b[..n];
    }
  }

  lemma {:induction false} ConservingBoth(l: Ledger, a: seq<Act>, b: seq<Act>)
    requires AllConserving(l, a) && AllConserving(After(l, a), b)
    ensures AllConserving(l, a + b)
  {
    hide Do, Conserving, After;
    if b == [] {
      assert a + b == a;
    } else {
      var n := |b| - 1;
      ConservingBoth(l, a, b[..n]);
      AfterBoth(l, a, b[..n]);
      assert (a + b)[..|a + b| - 1] == a + b[..n];
    }
  }

  /** No act of a cascade changes a resting order other than by trading. */
  predicate Plain(acts: seq<Act>) {
    forall k :: 0 <= k < |acts| ==> !acts[k].ModifyOne? && !acts[k].ConfigureOne?
  }

  lemma {:induction false} PlainConserves(l: Ledger, acts: seq<Act>)
    requires Plain(acts)
    ensures AllConserving(l, acts)
  {
    if acts != [] {
      hide After;
      PlainConserves(l, acts[..|acts| - 1]);
    }
  }

  // ----- the acts do to the ledger what the cascade does to the engine -----

  lemma {:induction false} MarketFollows(p: Policy, e: Engine, side: Side, qty: nat, l: Ledger)
    requires l.book == e.book
    ensures
      var acts, r := MarketActs(p, e, side, qty), SubmitMarket(p, e, side, qty);
      && Plain(acts) && After(l, acts).book == r.engine.book
      && l.log + r.fills <= After(l, acts).log
    decreases |e.book.stops|, 1, 0
  {
    MatchKeepsStops(p, e.book, side, qty);
    var m := MatchSpec(p, e.book, side, qty);
    var act := MarketOrder(p, side, qty);
    var l1 := Do(l, act);
    assert l1.book == m.book && l1.log == l.log + m.value;
    AfterOne(l, act);
    PlainFirst(act);
    hide MatchSpec, Do, After, Plain;
    if m.value == [] {
      assert [act] + [] == [act];
    } else {
      var e1, last := e.(book := m.book), m.value[|m.value| - 1].price;
      ProcessFollows(p, e1, last, l1);
      AfterBoth(l, [act], ProcessActs(p, e1, last));
      PlainBoth([act], ProcessActs(p, e1, last));
    }
  }

  lemma {:induction false} ProcessFollows(p: Policy, e: Engine, last: int, l: Ledger)
    requires l.book == e.book
    ensures
      var acts := ProcessActs(p, e, last);
      Plain(acts) && After(l, acts).book == Process(p, e, last).book && l.log <= After(l, acts).log
    decreases |e.book.stops|, 0, |e.queued| + |e.stored| + 1
  {
    DrainFollows(p, e.(queued := [], stored := []), e.queued + e.stored, last, l);
  }

  lemma {:induction false} DrainFollows(p: Policy, e: Engine, q: seq<nat>, last: int, l: Ledger)
    requires l.book == e.book
    ensures
      var acts := DrainActs(p, e, q, last);
      Plain(acts) && After(l, acts).book == Drain(p, e, q, last).book && l.log <= After(l, acts).log
    decreases |e.book.stops|, 0, |q|
  {
    if q == [] {
      assert After(l, []) == l;
    } else if q[0] !in e.book.stops {
      DrainFollows(p, e, q[1..], last, l);
    } else if !Triggers(e.book.stops[q[0]], last) {
      DrainFollows(p, e.(queued := e.queued + [q[0]]), q[1..], last, l);
    } else {
      hide Execute, ExecuteActs, After, Plain;
      var e1 := Execute(p, e, q[0]);
      var first, rest := ExecuteActs(p, e, q[0]), Live(e1.book.stops, q[1..]);
      ExecuteFollows(p, e, q[0], l);
      DrainFollows(p, e1, rest, last, After(l, first));
      AfterBoth(l, first, DrainActs(p, e1, rest, last));
      PlainBoth(first, DrainActs(p, e1, rest, last));
    }
  }

  lemma {:induction false} ExecuteFollows(p: Policy, e: Engine, id: nat, l: Ledger)
    requires l.book == e.book && id in e.book.stops
    ensures
      var acts := ExecuteActs(p, e, id);
      Plain(acts) && After(l, acts).book == Execute(p, e, id).book && l.log <= After(l, acts).log
    decreases |e.book.stops|, 0, 0
  {
    var s := e.book.stops[id];
    var e1 := Detach(e, id);
    assert e1.book.stops.Keys == e.book.stops.Keys - {id};
    var drop, l1 := DropOne(id), Do(l, DropOne(id));
    DropFollows(e, id, l);
    hide After, Do, LimitSpec, Plain, Detach;
    AfterOne(l, drop);
    PlainFirst(drop);
    if s.kind == StopMarket {
      MarketFollows(p, e1, s.side, s.qty, l1);
      AfterBoth(l, [drop], MarketActs(p, e1, s.side, s.qty));
      PlainBoth([drop], MarketActs(p, e1, s.side, s.qty));
    } else {
      var place := SubmitLimit(s.side, s.price, s.qty, s.display);
      PlaceFollows(l1, s.side, s.price, s.qty, s.display);
      AfterOne(l1, place);
      AfterBoth(l, [drop], [place]);
      PlainFirst(place);
      PlainBoth([drop], [place]);
    }
  }

  lemma PlainFirst(act: Act)
    requires !act.ModifyOne? && !act.ConfigureOne?
    ensures Plain([act])
  {
  }

  lemma PlainBoth(a: seq<Act>, b: seq<Act>)
    requires Plain(a) && Plain(b)
    ensures Plain(a + b)
  {
  }

  lemma DropFollows(e: Engine, id: nat, l: Ledger)
    requires l.book == e.book && id in e.book.stops
    ensures Do(l, DropOne(id)).book == Detach(e, id).book && Do(l, DropOne(id)).log == l.log
  {
  }

  lemma PlaceFollows(l: Ledger, side: Side, price: int, qty: nat, display: nat)
    ensures
      var l' := Do(l, SubmitLimit(side, price, qty, display));
      l'.book == LimitSpec(l.book, side, price, qty, display).book && l'.log == l.log
  {
    hide LimitSpec;
  }

  // ----- runs of the engine -----

  datatype Command = MarketCommand(side: Side, qty: nat) | StopCommand(stop: Stop) | BookCommand(act: Act)

  /** What `act` does to a book. */
  function BookAfter(b: Book, act: Act): Book {
    Do(Ledger(b, map[], {}, []), act).book
  }

  /** `e'` follows from `e` by a market order, a stop submission, or an operation of the book
      alone: a limit submission, a cancellation, a modification or a single fill. */
  predicate Takes(p: Policy, e: Engine, c: Command, e': Engine) {
    match c
    case MarketCommand(side, qty) => e' == SubmitMarket(p, e, side, qty).engine
    case StopCommand(stop) => StopJoined(e, e', stop)
    case BookCommand(act) =>
      !act.MarketOrder? && !act.PendStop? && !act.DropOne? && e' == e.(book := BookAfter(e.book, act))
  }

  function ActsOf(p: Policy, e: Engine, c: Command): seq<Act> {
    match c
    case MarketCommand(side, qty) => MarketActs(p, e, side, qty)
    case StopCommand(stop) => [PendStop(stop)]
    case BookCommand(act) => [act]
  }

  predicate RunOf(p: Policy, es: seq<Engine>, cs: seq<Command>) {
    && |es| == |cs| + 1
    && forall k :: 0 <= k < |cs| ==> Takes(p, es[k], cs[k], es[k + 1])
  }

  /** Every modification in the run is within its condition. */
  predicate Within(es: seq<Engine>, cs: seq<Command>)
    requires |es| == |cs| + 1
  {
    forall k :: 0 <= k < |cs| && cs[k].BookCommand? ==> Conserving(es[k].book, cs[k].act)
  }

  function RunActs(p: Policy, es: seq<Engine>, cs: seq<Command>): seq<Act>
    requires |es| == |cs| + 1
  {
    if cs == [] then []
    else
      var n := |cs| - 1;
      RunActs(p, es[..n + 1], cs[..n]) + ActsOf(p, es[n], cs[n])
  }

  lemma BookAfterOf(l: Ledger, act: Act)
    ensures Do(l, act).book == BookAfter(l.book, act)
  {
    hide AddLimit, Take, Resting, PriceOf, SideHolding, Modify, Configure, LimitSpec, MatchSpec, ApplyFill;
  }

  lemma TakesFollows(p: Policy, e: Engine, c: Command, e': Engine, l: Ledger)
    requires Takes(p, e, c, e') && l.book == e.book
    requires c.BookCommand? ==> Conserving(e.book, c.act)
    ensures After(l, ActsOf(p, e, c)).book == e'.book && AllConserving(l, ActsOf(p, e, c))
  {
    match c {
      case MarketCommand(side, qty) =>
        MarketFollows(p, e, side, qty, l);
        PlainConserves(l, MarketActs(p, e, side, qty));
      case StopCommand(stop) =>
        AfterOne(l, PendStop(stop));
        PlainConserves(l, [PendStop(stop)]);
      case BookCommand(act) =>
        AfterOne(l, act);
        BookAfterOf(l, act);
        hide Do, Conserving, BookAfter;
        assert [act][..0] == [] && After(l, []) == l;
    }
  }

  lemma {:induction false} RunFollows(p: Policy, es: seq<Engine>, cs: seq<Command>, l: Ledger)
    requires RunOf(p, es, cs) && Within(es, cs) && l.book == es[0].book
    ensures
      var acts := RunActs(p, es, cs);
      After(l, acts).book == es[|cs|].book && AllConserving(l, acts)
  {
    if cs == [] {
      assert After(l, []) == l;
    } else {
      var n := |cs| - 1;
      hide Takes, ActsOf, After, AllConserving;
      RunFollows(p, es[..n + 1], cs[..n], l);
      var before, last := RunActs(p, es[..n + 1], cs[..n]), ActsOf(p, es[n], cs[n]);
      assert Takes(p, es[n], cs[n], es[n + 1]);
      TakesFollows(p, es[n], cs[n], es[n + 1], After(l, before));
      AfterBoth(l, before, last);
      ConservingBoth(l, before, last);
    }
  }

  /** Conservation over every run of the engine, cascades of stops included. The run is also a
      run of the operations of the book, with every order a stop places and every fill a stop
      makes in the ledger; in it each order is filled exactly, and every order and stop has an
      id of its own that was issued. */
  lemma CascadesConserve(p: Policy, capacity: nat, es: seq<Engine>, cs: seq<Command>, id: nat)
    requires RunOf(p, es, cs) && Within(es, cs) && es[0].book == NewLedger(capacity).book
    ensures
      var acts := RunActs(p, es, cs);
      var l, ids := After(NewLedger(capacity), acts), Issued(NewLedger(capacity), acts);
      && l.book == es[|cs|].book
      && FilledExactly(l, id)
      && Holders(l.book, id) <= 1 && (Holders(l.book, id) > 0 ==> id in ids)
  {
    RunFollows(p, es, cs, NewLedger(capacity));
    hide After, Issued, AllConserving, RunActs, FilledExactly, Holders, RunOf, Within;
    OrdersAreFilledExactly(capacity, RunActs(p, es, cs), id);
    IdsAreNeverReused(capacity, RunActs(p, es, cs), id);
  }
}
