// MatchingEngine of src/matching_engine.cpp over the OrderBook class. The engine queues
// slots of the slab (Order*), and a queued slot may have been freed or reused since; the
// queue of the abstract engine holds the ids of those slots that are still pending stops.
module MatchingEngines {
  import opened LobTypes
  import opened BookSpec
  import opened Slab
  import opened BookReps
  import opened OrderBooks
  import opened Policies
  import opened EngineSpec
  import opened EngineLaws

  /** The pending stops among the slots `s`. */
  function LiveIds(r: Rep, s: seq<nat>): seq<nat> {
    if s == [] then []
    else (if r.LiveStop(s[0]) then [r.mem[s[0]].orderId] else []) + LiveIds(r, s[1..])
  }

  lemma {:induction false} LiveIdsConcat(r: Rep, a: seq<nat>, b: seq<nat>)
    ensures LiveIds(r, a + b) == LiveIds(r, a) + LiveIds(r, b)
  {
    if a == [] {
      assert a + b == b;
    } else {
      assert (a + b)[1..] == a[1..] + b;
      LiveIdsConcat(r, a[1..], b);
    }
  }

  lemma LiveIdsAppend(r: Rep, a: seq<nat>, x: nat)
    ensures LiveIds(r, a + [x]) == LiveIds(r, a) + if r.LiveStop(x) then [r.mem[x].orderId] else []
  {
    LiveIdsConcat(r, a, [x]);
    assert [x][1..] == [];
  }

  /** A live stop is registered under its id, with its slot. */
  lemma StopOfSlot(r: Rep, x: nat)
    requires TableOk(r) && r.LiveStop(x)
    ensures r.mem[x].orderId in r.Stops() && r.Stops()[r.mem[x].orderId] == r.mem[x].AsStop(x)
  {
    StopIffInTable(r, r.mem[x].orderId);
  }

  lemma SlotOfStop(r: Rep, id: nat, x: nat)
    requires TableOk(r) && id in r.Stops() && r.Stops()[id].slot == x
    ensures r.LiveStop(x) && r.mem[x].orderId == id
  {
    StopIffInTable(r, id);
  }

  /** When stops only leave, the queue of slots keeps exactly those that stay. */
  lemma {:induction false} LiveIdsFollow(r: Rep, r': Rep, s: seq<nat>)
    requires TableOk(r) && TableOk(r') && SubStops(r'.Stops(), r.Stops())
    ensures LiveIds(r', s) == Live(r'.Stops(), LiveIds(r, s))
  {
    if s != [] {
      hide TableOk, Rep.Stops;
      LiveIdsFollow(r, r', s[1..]);
      var x := s[0];
      if r'.LiveStop(x) {
        StopOfSlot(r', x);
        SlotOfStop(r, r'.mem[x].orderId, x);
      }
      if r.LiveStop(x) {
        StopOfSlot(r, x);
        if r.mem[x].orderId in r'.Stops() {
          SlotOfStop(r', r.mem[x].orderId, x);
        }
        var rest := LiveIds(r, s[1..]);
        assert LiveIds(r, s)[1..] == rest;
      } else {
        assert [] + LiveIds(r, s[1..]) == LiveIds(r, s[1..]);
      }
    }
  }

  /** Slots of pending stops stay in a queue when stops are only added. */
  lemma {:induction false} LiveIdsStay(r: Rep, r': Rep, s: seq<nat>)
    requires TableOk(r) && TableOk(r') && SubStops(r.Stops(), r'.Stops())
    requires forall k :: 0 <= k < |s| ==> r.LiveStop(s[k])
    ensures LiveIds(r', s) == LiveIds(r, s)
  {
    if s != [] {
      LiveIdsStay(r, r', s[1..]);
      StopOfSlot(r, s[0]);
      SlotOfStop(r', r.mem[s[0]].orderId, s[0]);
    }
  }

  lemma {:induction false} LiveIdsPending(r: Rep, s: seq<nat>)
    requires TableOk(r)
    ensures forall id :: id in LiveIds(r, s) ==> id in r.Stops()
  {
    if s != [] {
      LiveIdsPending(r, s[1..]);
      if r.LiveStop(s[0]) {
        StopOfSlot(r, s[0]);
      }
    }
  }

  lemma {:induction false} LiveIdsHas(r: Rep, s: seq<nat>, k: nat)
    requires k < |s| && r.LiveStop(s[k])
    ensures r.mem[s[k]].orderId in LiveIds(r, s)
  {
    if k > 0 {
      LiveIdsHas(r, s[1..], k - 1);
    }
  }

  /** The abstract engine for a book state, the engine's queue and its log. */
  ghost function EngineOf(r: Rep, pending: seq<nat>, executed: seq<nat>): Engine {
    Engine(r.Abs(), LiveIds(r, pending), LiveIds(r, r.storage), executed)
  }

  lemma BookOf(r: Rep, pending: seq<nat>, executed: seq<nat>)
    ensures EngineOf(r, pending, executed).book == r.Abs()
  {
  }

  /** Equal stops give equal queues. */
  lemma SameStopsSameQueues(r: Rep, r': Rep, s: seq<nat>)
    requires TableOk(r) && TableOk(r') && r'.Stops() == r.Stops()
    ensures LiveIds(r', s) == LiveIds(r, s)
  {
    LiveIdsFollow(r, r', s);
    LiveIdsPending(r, s);
    LiveAll(r.Stops(), LiveIds(r, s));
  }

  lemma {:induction false} LiveAll(stops: map<nat, Stop>, q: seq<nat>)
    requires forall id :: id in q ==> id in stops
    ensures Live(stops, q) == q
  {
    if q != [] {
      LiveAll(stops, q[1..]);
      assert q == [q[0]] + q[1..];
    }
  }

  /** An operation of the book that leaves the stops alone leaves the queues alone. */
  lemma BookStep(r: Rep, r': Rep, pending: seq<nat>, executed: seq<nat>)
    requires RepOk(r) && RepOk(r') && r'.storage == r.storage && r'.Abs().stops == r.Abs().stops
    ensures EngineOf(r', pending, executed) == EngineOf(r, pending, executed).(book := r'.Abs())
  {
    TablesOf(r);
    TablesOf(r');
    hide RepOk, TableOk, LiveIds, Rep.Stops;
    AbsStops(r);
    AbsStops(r');
    SameStopsSameQueues(r, r', pending);
    SameStopsSameQueues(r, r', r.storage);
  }

  lemma AbsStops(r: Rep)
    ensures r.Abs().stops == r.Stops()
  {
  }

  /** A slot that is no pending stop any more does not count in a queue. */
  lemma {:induction false} DeadEntry(r: Rep, s: seq<nat>, k: nat)
    requires k < |s| && !r.LiveStop(s[k])
    ensures LiveIds(r, RemoveAt(s, k)) == LiveIds(r, s)
  {
    assert s == s[..k] + s[k..];
    LiveIdsConcat(r, s[..k], s[k..]);
    LiveIdsConcat(r, s[..k], s[k + 1..]);
    assert s[k..][1..] == s[k + 1..];
  }

  /** detach_pending and free_order take exactly this stop out of the abstract engine. */
  lemma DetachStep(r: Rep, r1: Rep, x: nat, pending: seq<nat>, executed: seq<nat>)
    requires RepOk(r) && Detached(r, r1, x)
    ensures RepOk(Freed(r1, x)) && r.mem[x].orderId in r.Abs().stops
    ensures
      var id := r.mem[x].orderId;
      EngineOf(Freed(r1, x), pending, executed + [id]) == Detach(EngineOf(r, pending, executed), id)
  {
    var id, r2 := r.mem[x].orderId, Freed(r1, x);
    FreedDrops(r, r1, x);
    TablesOf(r);
    TablesOf(r2);
    AbsStops(r);
    AbsStops(r2);
    LiveIdsFollow(r, r2, pending);
    LiveIdsFollow(r, r2, r.storage);
    if x in r.storage {
      var k :| 0 <= k < |r.storage| && r.storage[k] == x && r1.storage == RemoveAt(r.storage, k);
      if r2.LiveStop(x) {
        StopOfSlot(r2, x);
      }
      DeadEntry(r2, r.storage, k);
    }
  }

  lemma LiveStopIff(r: Rep, x: nat)
    requires TableOk(r) && x < |r.mem| && r.mem[x].stopType != NoStop
    ensures r.LiveStop(x) <==> r.mem[x].orderId in r.Stops()
  {
    if r.LiveStop(x) {
      StopOfSlot(r, x);
    } else {
      StaleStop(r, x);
    }
  }

  class MatchingEngine {
    const book: OrderBook
    const policy: Policy
    var pendingStops: seq<nat>
    /** The ids of the stops executed so far. */
    ghost var executed: seq<nat>

    ghost function Abs(): Engine
      reads this, book, book.bids, book.asks, book.pool, book.pool.buffer
    {
      EngineOf(book.State(), pendingStops, executed)
    }

    ghost predicate Intact()
      reads this, book, book.bids, book.asks, book.pool, book.pool.buffer
    {
      && book.Valid()
      && InRange(book.pool.buffer[..], pendingStops)
      && Sound(Abs())
    }

    /** Intact, and no pending stop is missing from the lists. */
    ghost predicate Valid()
      reads this, book, book.bids, book.asks, book.pool, book.pool.buffer
    {
      Intact() && Covered(Abs())
    }

    constructor (book: OrderBook, policy: Policy)
      requires book.Valid() && book.Abs().stops == map[] && book.pendingStopStorage == []
      ensures Valid() && this.book == book && this.policy == policy
      ensures Abs() == Engine(book.Abs(), [], [], [])
    {
      this.book, this.policy := book, policy;
      pendingStops, executed := [], [];
    }

    method SubmitLimit(side: Side, price: int, qty: nat, display: nat) returns (id: nat)
      requires Valid()
      modifies this, book, book.bids, book.asks, book.pool, book.pool.buffer
      ensures Valid()
      ensures
        var r := LimitSpec(old(Abs()).book, side, price, qty, display);
        id == r.value && Abs() == old(Abs()).(book := r.book)
    {
      hide LimitSpec, Sound, LiveIds, AddLimit, Configure;
      id := SubmitLimitIntact(side, price, qty, display);
      CoverStays(old(Abs()), Abs().book, side, price, qty, display);
    }

    method SubmitLimitIntact(side: Side, price: int, qty: nat, display: nat) returns (id: nat)
      requires Intact()
      modifies this, book, book.bids, book.asks, book.pool, book.pool.buffer
      ensures Intact() && pendingStops == old(pendingStops)
      ensures
        var r := LimitSpec(old(Abs()).book, side, price, qty, display);
        id == r.value && Abs() == old(Abs()).(book := r.book)
    {
      hide RepOk, AddLimit, Configure, Sound, LiveIds;
      ghost var e, r0 := Abs(), book.State();
      LimitId(e, side, price, qty);
      LimitKeepsStops(e.book, side, price, qty, display);
      id := book.AddLimitOrder(side, price, qty);
      if display > 0 {
        var ok := book.ConfigureIceberg(id, display);
      }
      BookStep(r0, book.State(), pendingStops, executed);
      BookStepSound(e, book.Abs());
    }

    /** Take the stop in slot `o` off the books, unless it is gone already, and give its slot back. */
    method DetachStop(o: nat) returns (detached: Option<Order>)
      requires Intact() && o < book.pool.buffer.Length && book.pool.buffer[o].stopType != NoStop
      modifies this`executed, book`idSlots, book`pendingStopStorage, book.pool`freelist
      ensures Intact()
      ensures detached.Some? <==> old(book.pool.buffer[o].orderId in Abs().book.stops)
      ensures detached.None? ==> book.State() == old(book.State()) && Abs() == old(Abs())
      ensures detached.Some? ==>
                && detached.value == old(book.pool.buffer[o])
                && Abs() == Detach(old(Abs()), detached.value.orderId)
                && |book.Abs().stops| < |old(book.Abs()).stops|
    {
      hide RepOk, Sound, LiveIds, Resting, Rep.Stops, Detach, Freed, Progress;
      ghost var r, e := book.State(), Abs();
      var id := book.pool.buffer[o].orderId;
      TablesOf(r);
      LiveStopIff(r, o);
      NotResting(r, o);
      var found := book.DetachPending(id);
      detached := None;
      if found.Some? {
        ghost var r1 := book.State();
        StopOfSlot(r, o);
        assert found.value == o;
        DetachStep(r, r1, o, pendingStops, executed);
        DetachProgress(e, id);
        detached := Some(book.pool.buffer[found.value]);
        book.FreeOrder(found, r);
        executed := executed + [id];
        FewerStops(e, id);
      }
    }

    /** policy_->match. */
    method RunPolicy(side: Side, qty: nat) returns (fills: seq<Fill>)
      requires Intact()
      modifies this, book, book.bids, book.asks, book.pool, book.pool.buffer
      ensures Intact()
      ensures
        var m := MatchSpec(policy, old(Abs()).book, side, qty);
        fills == m.value && Abs() == old(Abs()).(book := m.book)
    {
      hide RepOk, MatchSpec, Sound, LiveIds;
      ghost var e, r0 := Abs(), book.State();
      match policy {
        case Fifo => fills := MatchFifo(book, side, qty);
        case ProRataPolicy(minFill) => fills := MatchProRata(book, side, qty, minFill);
      }
      MatchKeepsStops(policy, e.book, side, qty);
      BookStep(r0, book.State(), pendingStops, executed);
      BookStepSound(e, book.Abs());
    }

    method SubmitMarket(side: Side, qty: nat) returns (fills: seq<Fill>)
      requires Intact()
      modifies this, book, book.bids, book.asks, book.pool, book.pool.buffer
      ensures Intact()
      ensures Traded(Abs(), fills) == EngineSpec.SubmitMarket(policy, old(Abs()), side, qty)
      ensures Covered(old(Abs())) ==> Covered(Abs())
      decreases |book.Abs().stops|, 1, 0
    {
      hide Intact, MatchSpec, Sound, EngineOf, Process, Covered;
      ghost var e := Abs();
      SoundOf();
      MatchKeepsStops(policy, e.book, side, qty);
      fills := RunPolicy(side, qty);
      BookOf(book.State(), pendingStops, executed);
      if fills != [] {
        ProcessTriggers(fills[|fills| - 1].price);
      }
      if Covered(e) {
        MarketQuiesces(policy, e, side, qty);
      }
    }

    lemma SoundOf()
      requires Intact()
      ensures Sound(Abs()) && Abs().book == book.Abs()
    {
    }

    method ProcessTriggers(last: int)
      requires Intact()
      modifies this, book, book.bids, book.asks, book.pool, book.pool.buffer
      ensures Intact()
      ensures Abs() == Process(policy, old(Abs()), last)
      decreases |book.Abs().stops|, 0, 2
    {
      hide RepOk, Sound, LiveIds, Drain, Live, InRange;
      ghost var target, n := Process(policy, Abs(), last), |book.Abs().stops|;
      var q := TakeQueue();
      while q != []
        invariant Intact() && InRange(book.pool.buffer[..], q)
        invariant Drain(policy, Abs(), LiveIds(book.State(), q), last) == target
        invariant |book.Abs().stops| <= n
        decreases |book.Abs().stops|, |q|
      {
        ghost var mem := book.pool.buffer[..];
        FrontInRange(mem, q);
        Visit(q[0], q, last, target);
        RestInRange(mem, book.pool.buffer[..], q);
        q := q[1..];
      }
      Drained(policy, Abs(), book.State(), last);
    }

    /** Move both lists into the queue of process_triggers. */
    method TakeQueue() returns (q: seq<nat>)
      requires Intact()
      modifies this`pendingStops, book`pendingStopStorage
      ensures Intact() && InRange(book.pool.buffer[..], q)
      ensures Abs() == old(Abs()).(queued := [], stored := [])
      ensures LiveIds(book.State(), q) == old(Abs()).queued + old(Abs()).stored
    {
      hide RepOk, Sound, LiveIds;
      ghost var r := book.State();
      q := pendingStops;
      pendingStops := [];
      var fromBook := book.TakePendingStops();
      TakeOver(r, q, executed);
      q := q + fromBook;
    }

    /** The queue entry `o`: a triggered stop is detached, freed and executed, a stop that
        does not trigger goes back to the engine's list, anything else is dropped. */
    method Visit(o: nat, ghost q: seq<nat>, last: int, ghost target: Engine)
      requires Intact() && o < book.pool.buffer.Length && q != [] && q[0] == o
      requires Drain(policy, Abs(), LiveIds(book.State(), q), last) == target
      modifies this, book, book.bids, book.asks, book.pool, book.pool.buffer
      ensures Intact()
      ensures Drain(policy, Abs(), LiveIds(book.State(), q[1..]), last) == target
      ensures |book.Abs().stops| <= |old(book.Abs()).stops|
      decreases |book.Abs().stops|, 0, 1
    {
      hide RepOk, Sound, LiveIds, Drain, Live, Detach, LimitSpec, EngineSpec.SubmitMarket, Rep.Stops;
      ghost var e, r := Abs(), book.State();
      var rec := book.pool.buffer[o];
      var side := rec.side;
      Head(policy, e, r, o, q, last);
      if rec.stopType.StopMarket? {
        var trigger := if side.Buy? then last >= rec.stopPrice else last <= rec.stopPrice;
        if trigger {
          var detached := DetachStop(o);
          if detached.Some? {
            var qty := detached.value.qty;
            var fills := SubmitMarket(side, qty);
            Fired(policy, e, r, book.State(), rec.orderId, q[1..], last);
          }
        } else {
          Requeue(o, q, last);
        }
      } else if rec.stopType.StopLimit? {
        var trigger := if side.Buy? then last >= rec.stopPrice else last <= rec.stopPrice;
        if trigger {
          var detached := DetachStop(o);
          if detached.Some? {
            var price, qty, display := detached.value.price, detached.value.qty, detached.value.displayQty;
            var id := SubmitLimitIntact(side, price, qty, display);
            Fired(policy, e, r, book.State(), rec.orderId, q[1..], last);
          }
        } else {
          Requeue(o, q, last);
        }
      }
    }

    method Requeue(o: nat, ghost q: seq<nat>, last: int)
      requires Intact() && o < book.pool.buffer.Length && q != [] && q[0] == o
      requires book.State().LiveStop(o) ==> !Triggers(book.pool.buffer[o].AsStop(o), last)
      modifies this`pendingStops
      ensures Intact()
      ensures Drain(policy, Abs(), LiveIds(book.State(), q[1..]), last)
           == Drain(policy, old(Abs()), LiveIds(book.State(), q), last)
    {
      hide RepOk, LiveIds, Drain, Live, Rep.Stops;
      ghost var e, r := Abs(), book.State();
      Waits(policy, e, r, pendingStops, o, q, last);
      pendingStops := pendingStops + [o];
    }

    method SubmitStop(side: Side, stopPrice: int, qty: nat, kind: StopType, limitPrice: int, display: nat)
      returns (id: nat, ghost slot: nat)
      requires Valid() && kind != NoStop
      modifies this, book, book.bids, book.asks, book.pool, book.pool.buffer
      ensures Valid()
      ensures
        var s := Stop(slot, side, kind, stopPrice, qty, limitPrice, display);
        id == AddStop(old(Abs()).book, s).value && StopJoined(old(Abs()), Abs(), s)
      ensures id != 0 ==>
                && old(book.pool.freelist) != [] && slot == old(book.State().Top())
                && (Abs().queued == old(Abs()).queued + [id] <==> old(book.State().Top()) !in old(pendingStops))
    {
      hide RepOk, LiveIds, Live, Rep.Stops, Sound;
      ghost var e, r, was := Abs(), book.State(), pendingStops;
      TablesOf(r);
      id, slot := book.AddPendingStop(side, stopPrice, qty, kind, limitPrice, display);
      ghost var s := Stop(slot, side, kind, stopPrice, qty, limitPrice, display);
      if id == 0 {
        return;
      }
      var o := book.GetOrder(id);
      if o.Some? {
        pendingStops := pendingStops + [o.value];
      }
      Joined(r, book.State(), was, executed, s);
      StopJoinedSound(e, Abs(), s);
    }
  }

  /** Both lists move into the queue of process_triggers. */
  lemma TakeOver(r: Rep, pending: seq<nat>, executed: seq<nat>)
    requires RepOk(r) && InRange(r.mem, pending) && Sound(EngineOf(r, pending, executed))
    ensures
      var r' := r.(storage := []);
      var e := EngineOf(r, pending, executed);
      && EngineOf(r', [], executed) == e.(queued := [], stored := [])
      && Sound(EngineOf(r', [], executed))
      && LiveIds(r', pending + r.storage) == e.queued + e.stored
      && InRange(r.mem, pending + r.storage)
  {
    var r' := r.(storage := []);
    TakeStorageOk(r);
    TablesOf(r);
    TablesOf(r');
    assert r'.Stops() == r.Stops();
    SameStopsSameQueues(r, r', pending + r.storage);
    LiveIdsConcat(r, pending, r.storage);
  }

  lemma FrontInRange(mem: seq<Order>, q: seq<nat>)
    requires InRange(mem, q) && q != []
    ensures q[0] < |mem|
  {
  }

  lemma RestInRange(mem: seq<Order>, mem': seq<Order>, q: seq<nat>)
    requires InRange(mem, q) && |mem'| == |mem| && q != []
    ensures InRange(mem', q[1..])
  {
  }

  lemma Drained(p: Policy, e: Engine, r: Rep, last: int)
    ensures Drain(p, e, LiveIds(r, []), last) == e
  {
  }

  /** How the front entry `o` of the queue shows in the queue of ids. */
  lemma Head(p: Policy, e: Engine, r: Rep, o: nat, q: seq<nat>, last: int)
    requires RepOk(r) && o < |r.mem| && q != [] && q[0] == o
    ensures r.LiveStop(o) <==> r.mem[o].stopType != NoStop && r.mem[o].orderId in r.Stops()
    ensures r.LiveStop(o) ==>
              && r.Stops()[r.mem[o].orderId] == r.mem[o].AsStop(o)
              && LiveIds(r, q) == [r.mem[o].orderId] + LiveIds(r, q[1..])
    ensures !r.LiveStop(o) ==> LiveIds(r, q) == LiveIds(r, q[1..])
    ensures r.Abs().stops == r.Stops()
  {
    TablesOf(r);
    if r.LiveStop(o) {
      StopOfSlot(r, o);
    } else if r.mem[o].stopType != NoStop {
      StaleStop(r, o);
    }
  }

  /** The queue after the stop in front was executed. */
  lemma Fired(p: Policy, e: Engine, r: Rep, r': Rep, id: nat, q: seq<nat>, last: int)
    requires RepOk(r) && RepOk(r') && Sound(e) && e.book == r.Abs()
    requires id in e.book.stops && Triggers(e.book.stops[id], last)
    requires r'.Abs() == Execute(p, e, id).book
    ensures Drain(p, Execute(p, e, id), LiveIds(r', q), last) == Drain(p, e, [id] + LiveIds(r, q), last)
    ensures |r'.Abs().stops| <= |r.Abs().stops|
  {
    TablesOf(r);
    TablesOf(r');
    AbsStops(r);
    AbsStops(r');
    ExecuteSound(p, e, id);
    LiveIdsFollow(r, r', q);
    assert ([id] + LiveIds(r, q))[1..] == LiveIds(r, q);
    hide Execute, RepOk, TableOk, Sound;
  }

  /** The queue after the entry in front went back to the engine's list. */
  lemma Waits(p: Policy, e: Engine, r: Rep, pending: seq<nat>, o: nat, q: seq<nat>, last: int)
    requires RepOk(r) && InRange(r.mem, pending) && e == EngineOf(r, pending, e.executed) && Sound(e)
    requires o < |r.mem| && q != [] && q[0] == o
    requires r.LiveStop(o) ==> !Triggers(r.mem[o].AsStop(o), last)
    ensures
      var e1 := EngineOf(r, pending + [o], e.executed);
      && Sound(e1) && InRange(r.mem, pending + [o])
      && Drain(p, e1, LiveIds(r, q[1..]), last) == Drain(p, e, LiveIds(r, q), last)
  {
    Head(p, e, r, o, q, last);
    LiveIdsAppend(r, pending, o);
    var e1 := EngineOf(r, pending + [o], e.executed);
    if r.LiveStop(o) {
      var id := r.mem[o].orderId;
      assert e1 == e.(queued := e.queued + [id]);
      assert ([id] + LiveIds(r, q[1..]))[1..] == LiveIds(r, q[1..]);
    } else {
      assert e1.queued == e.queued + [] == e.queued;
    }
  }

  lemma NextIdFree(r: Rep, pending: seq<nat>, executed: seq<nat>)
    requires Sound(EngineOf(r, pending, executed))
    ensures r.nextId !in r.Stops()
  {
    AbsStops(r);
    hide LiveIds, Rep.Stops, Rep.View;
  }

  /** The queue of ids after a new stop joined the engine's list. */
  lemma QueueJoined(r: Rep, r': Rep, pending: seq<nat>, s: Stop)
    requires TableOk(r) && TableOk(r') && r.nextId !in r.Stops() && r'.Stops() == r.Stops()[r.nextId := s]
    requires r'.LiveStop(s.slot) && r'.mem[s.slot].orderId == r.nextId
    ensures
      var q := LiveIds(r', pending + [s.slot]);
      && Live(r.Stops(), q) == LiveIds(r, pending)
      && r.nextId in q && forall id :: id in q ==> id in r'.Stops()
  {
    var queue := pending + [s.slot];
    hide TableOk, LiveIds, Live, Rep.Stops;
    LiveIdsFollow(r', r, queue);
    LiveIdsAppend(r', pending, s.slot);
    LiveIdsFollow(r', r, pending);
    LiveAppend(r.Stops(), LiveIds(r', pending), r.nextId);
    LiveIdsPending(r', queue);
  }

  lemma StorageJoined(r: Rep, r': Rep, s: Stop)
    requires TableOk(r) && TableOk(r') && StopsOk(r) && SubStops(r.Stops(), r'.Stops())
    requires r'.LiveStop(s.slot) && r'.storage == r.storage + [s.slot]
    ensures LiveIds(r', r'.storage) == LiveIds(r, r.storage) + [r'.mem[s.slot].orderId]
  {
    assert forall k :: 0 <= k < |r.storage| ==> r.LiveStop(r.storage[k]);
    hide TableOk, LiveIds, Rep.Stops;
    LiveIdsStay(r, r', r.storage);
    LiveIdsAppend(r', r.storage, s.slot);
  }

  /** A new stop queues behind all others if and only if the slot on top of the freelist does
      not occur in the engine's list: an entry left behind for a freed slot denotes the next
      stop that is given the slot. */
  lemma JoinsLastIff(r: Rep, r': Rep, pending: seq<nat>, s: Stop)
    requires RepOk(r) && RepOk(r') && s.kind != NoStop
    requires AddStop(r.Abs(), s).value != 0 && r'.Abs() == AddStop(r.Abs(), s).book
    requires r'.LiveStop(s.slot) && r'.mem[s.slot].orderId == r.nextId
    requires r.nextId !in r.Stops() && r.free != [] && s.slot == r.Top()
    ensures LiveIds(r', pending + [s.slot]) == LiveIds(r, pending) + [r.nextId] <==> r.Top() !in pending
  {
    hide RepOk, Rep.View, LiveIds, Live;
    TablesOf(r);
    TablesOf(r');
    AbsStops(r);
    AbsStops(r');
    hide TableOk, Rep.Stops;
    assert r'.Stops() == r.Stops()[r.nextId := s];
    LiveIdsAppend(r', pending, s.slot);
    SameEnd(LiveIds(r', pending), LiveIds(r, pending), r.nextId);
    LiveIdsFollow(r', r, pending);
    LiveIdsPending(r, pending);
    if s.slot in pending {
      var k :| 0 <= k < |pending| && pending[k] == s.slot;
      LiveIdsHas(r', pending, k);
    } else {
      LiveIdsFrom(r', pending, r.nextId, s.slot);
      LiveIdsPending(r', pending);
      LiveAll(r.Stops(), LiveIds(r', pending));
    }
  }

  /** A new stop in slot `s.slot` joined both lists. */
  lemma Joined(r: Rep, r': Rep, pending: seq<nat>, executed: seq<nat>, s: Stop)
    requires RepOk(r) && RepOk(r') && s.kind != NoStop
    requires Sound(EngineOf(r, pending, executed))
    requires AddStop(r.Abs(), s).value != 0 && r'.Abs() == AddStop(r.Abs(), s).book
    requires r'.LiveStop(s.slot) && r'.mem[s.slot].orderId == AddStop(r.Abs(), s).value
    requires r'.storage == r.storage + [s.slot] && r.free != [] && s.slot == r.Top()
    ensures StopJoined(EngineOf(r, pending, executed), EngineOf(r', pending + [s.slot], executed), s)
    ensures LiveIds(r', pending + [s.slot]) == LiveIds(r, pending) + [r.nextId] <==> r.Top() !in pending
  {
    hide RepOk, TableOk, StopsOk, Rep.View, Rep.Stops, LiveIds, Live, Rep.LiveStop;
    NextIdFree(r, pending, executed);
    TablesOf(r);
    TablesOf(r');
    AbsStops(r);
    AbsStops(r');
    JoinsLastIff(r, r', pending, s);
    QueueJoined(r, r', pending, s);
    StorageJoined(r, r', s);
    hide Sound;
  }

  lemma SameEnd(a: seq<nat>, b: seq<nat>, x: nat)
    ensures a + [x] == b + [x] <==> a == b
  {
    assert (a + [x])[..|a|] == a && (b + [x])[..|b|] == b;
    if a + [x] == b + [x] {
      assert |a + [x]| == |b + [x]|;
    }
  }

  /** An id is in the queue of ids only through the slot it lives in. */
  lemma {:induction false} LiveIdsFrom(r: Rep, s: seq<nat>, id: nat, x: nat)
    requires TableOk(r) && x < |r.mem| && r.mem[x].orderId == id > 0 && x !in s
    ensures id !in LiveIds(r, s)
  {
    if s != [] {
      LiveIdsFrom(r, s[1..], id, x);
      assert s[0] in s;
    }
  }

  lemma {:induction false} LiveAppend(stops: map<nat, Stop>, q: seq<nat>, id: nat)
    requires id !in stops
    ensures Live(stops, q + [id]) == Live(stops, q)
  {
    if q == [] {
      assert ([] + [id])[1..] == [];
    } else {
      assert (q + [id])[1..] == q[1..] + [id];
      LiveAppend(stops, q[1..], id);
    }
  }

  lemma NotResting(r: Rep, x: nat)
    requires RepOk(r) && x < |r.mem| && r.mem[x].stopType != NoStop
    ensures !Resting(r.Abs(), r.mem[x].orderId)
  {
    RestsIffInTable(r, r.mem[x].orderId);
    TablesOf(r);
    if r.LiveStop(x) {
      assert r.ids[r.mem[x].orderId] == Some(x);
    } else {
      StaleStop(r, x);
    }
  }

  lemma FewerStops(e: Engine, id: nat)
    requires id in e.book.stops
    ensures |Detach(e, id).book.stops| < |e.book.stops|
  {
    assert Detach(e, id).book.stops.Keys == e.book.stops.Keys - {id};
  }

  lemma LimitId(e: Engine, side: Side, price: int, qty: nat)
    requires Sound(e)
    ensures
      var r := AddLimit(e.book, side, price, qty);
      r.value !in r.book.stops
  {
    hide AddOrder;
  }

  lemma CoverStays(e: Engine, b: Book, side: Side, price: int, qty: nat, display: nat)
    requires Covered(e) && b == LimitSpec(e.book, side, price, qty, display).book
    ensures Covered(e.(book := b))
  {
    LimitKeepsStops(e.book, side, price, qty, display);
  }
}
