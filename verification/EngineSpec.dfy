// The matching engine on the abstract book: market orders trigger pending stops, and a
// triggered stop may trade and trigger further ones before the queue is drained.
module EngineSpec {
  import opened LobTypes
  import opened Sums
  import opened BookSpec
  import opened Policies

  /** `queued` and `stored` are the two lists a pending stop stands in: the engine's own
      and the book's. `executed` records the stops that were executed, oldest first. */
  datatype Engine = Engine(book: Book, queued: seq<nat>, stored: seq<nat>, executed: seq<nat>)

  datatype Traded = Traded(engine: Engine, fills: seq<Fill>)

  /** The trigger test of process_triggers. */
  predicate Triggers(s: Stop, last: int) {
    if s.side.Buy? then last >= s.trigger else last <= s.trigger
  }

  /** The entries of a queue whose stop is still pending. */
  function Live(stops: map<nat, Stop>, q: seq<nat>): seq<nat> {
    if q == [] then []
    else (if q[0] in stops then [q[0]] else []) + Live(stops, q[1..])
  }

  /** submit_limit. */
  function LimitSpec(b: Book, side: Side, px: int, qty: nat, display: nat): Outcome<nat> {
    var r := AddLimit(b, side, px, qty);
    if display > 0 then Outcome(r.value, Configure(r.book, r.value, display).book) else r
  }

  lemma LimitKeepsStops(b: Book, side: Side, px: int, qty: nat, display: nat)
    ensures LimitSpec(b, side, px, qty, display).book.stops == b.stops
    ensures LimitSpec(b, side, px, qty, display).book.nextId >= b.nextId
  {
    var r := AddLimit(b, side, px, qty);
    AddKeepsStops(b, side, px, qty);
    hide AddLimit;
    ConfigureKeepsStops(r.book, r.value, display);
    hide Configure;
  }

  lemma AddKeepsStops(b: Book, side: Side, px: int, qty: nat)
    ensures AddLimit(b, side, px, qty).book.stops == b.stops
    ensures AddLimit(b, side, px, qty).book.nextId >= b.nextId
  {
    hide AddOrder;
  }

  lemma ConfigureKeepsStops(b: Book, id: nat, display: nat)
    ensures Configure(b, id, display).book.stops == b.stops
    ensures Configure(b, id, display).book.nextId == b.nextId
  {
    hide Resting, FindIn, SideHolding, LevelOf, IndexOf;
  }

  lemma MatchKeepsStops(p: Policy, b: Book, side: Side, qty: nat)
    ensures MatchSpec(p, b, side, qty).book.stops == b.stops
    ensures MatchSpec(p, b, side, qty).book.nextId == b.nextId
  {
    hide Sweep;
  }

  /** submit_market. */
  function SubmitMarket(p: Policy, e: Engine, side: Side, qty: nat): (r: Traded)
    ensures |r.engine.book.stops| <= |e.book.stops|
    decreases |e.book.stops|, 1, 0
  {
    MatchKeepsStops(p, e.book, side, qty);
    var m := MatchSpec(p, e.book, side, qty);
    if m.value == [] then Traded(e.(book := m.book), [])
    else Traded(Process(p, e.(book := m.book), m.value[|m.value| - 1].price), m.value)
  }

  /** process_triggers: both lists become the queue to drain. */
  function Process(p: Policy, e: Engine, last: int): (r: Engine)
    ensures |r.book.stops| <= |e.book.stops|
    decreases |e.book.stops|, 0, |e.queued| + |e.stored| + 1
  {
    Drain(p, e.(queued := [], stored := []), e.queued + e.stored, last)
  }

  function Drain(p: Policy, e: Engine, q: seq<nat>, last: int): (r: Engine)
    ensures |r.book.stops| <= |e.book.stops|
    decreases |e.book.stops|, 0, |q|
  {
    if q == [] then e
    else if q[0] !in e.book.stops then Drain(p, e, q[1..], last)
    else if !Triggers(e.book.stops[q[0]], last) then
      Drain(p, e.(queued := e.queued + [q[0]]), q[1..], last)
    else
      var e' := Execute(p, e, q[0]);
      Drain(p, e', Live(e'.book.stops, q[1..]), last)
  }

  /** The stop leaves the book before its order is submitted. */
  function Detach(e: Engine, id: nat): Engine
    requires id in e.book.stops
  {
    var b := DropStop(e.book, id);
    Engine(b, Live(b.stops, e.queued), Live(b.stops, e.stored), e.executed + [id])
  }

  function Execute(p: Policy, e: Engine, id: nat): (r: Engine)
    requires id in e.book.stops
    ensures |r.book.stops| < |e.book.stops|
    decreases |e.book.stops|, 0, 0
  {
    var s := e.book.stops[id];
    var e' := Detach(e, id);
    assert e'.book.stops.Keys == e.book.stops.Keys - {id};
    if s.kind == StopMarket then SubmitMarket(p, e', s.side, s.qty).engine
    else
      LimitKeepsStops(e'.book, s.side, s.price, s.qty, s.display);
      e'.(book := LimitSpec(e'.book, s.side, s.price, s.qty, s.display).book)
  }
}
