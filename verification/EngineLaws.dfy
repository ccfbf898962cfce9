// Laws of the stop cascade: over every run each stop is executed at most once, a stop
// leaves the book exactly when it is executed, and once a trade price has been processed
// every remaining stop is queued and fails its trigger test.
module EngineLaws {
  import opened LobTypes
  import opened BookSpec
  import opened Policies
  import opened EngineSpec

  // ----- queues of live stops -----

  lemma {:induction false} LiveMembers(stops: map<nat, Stop>, q: seq<nat>)
    ensures forall id :: id in Live(stops, q) <==> id in q && id in stops
  {
    if q != [] {
      LiveMembers(stops, q[1..]);
    }
  }

  // ----- soundness of a state -----

  /** No stop that is still pending was executed, and none was executed twice. */
  predicate Sound(e: Engine) {
    && (forall id :: id in e.book.stops ==> 0 < id < e.book.nextId)
    && Distinct(e.executed)
    && (forall id :: id in e.executed ==> id < e.book.nextId && id !in e.book.stops)
    && (forall id :: id in e.queued ==> id in e.book.stops)
    && (forall id :: id in e.stored ==> id in e.book.stops)
  }

  predicate SubStops(stops': map<nat, Stop>, stops: map<nat, Stop>) {
    forall id :: id in stops' ==> id in stops && stops'[id] == stops[id]
  }

  /** From `e` to `r` stops only left, each by being executed, and the log only grew. */
  predicate Progress(e: Engine, r: Engine) {
    && SubStops(r.book.stops, e.book.stops)
    && r.book.nextId >= e.book.nextId
    && e.executed <= r.executed
    && (forall id :: id in e.book.stops ==> (id in r.book.stops <==> id !in r.executed[|e.executed|..]))
    && (forall k :: |e.executed| <= k < |r.executed| ==> r.executed[k] in e.book.stops)
  }

  lemma ProgressRefl(e: Engine, r: Engine)
    requires r.book.stops == e.book.stops && r.executed == e.executed && r.book.nextId >= e.book.nextId
    ensures Progress(e, r)
  {
  }

  lemma ProgressTrans(a: Engine, b: Engine, c: Engine)
    requires Progress(a, b) && Progress(b, c)
    ensures Progress(a, c)
  {
    var n, m := |a.executed|, |b.executed|;
    assert c.executed[n..] == b.executed[n..] + c.executed[m..];
    forall k | n <= k < |c.executed|
      ensures c.executed[k] in a.book.stops
    {
      if k < m {
        assert c.executed[k] == b.executed[k];
      }
    }
  }

  lemma DetachProgress(e: Engine, id: nat)
    requires Sound(e) && id in e.book.stops
    ensures Sound(Detach(e, id)) && Progress(e, Detach(e, id))
  {
    var r := Detach(e, id);
    LiveMembers(r.book.stops, e.queued);
    LiveMembers(r.book.stops, e.stored);
    assert r.executed[|e.executed|..] == [id];
  }

  /** Changing the ladders only keeps soundness. */
  lemma BookStepSound(e: Engine, b: Book)
    requires Sound(e) && b.stops == e.book.stops && b.nextId >= e.book.nextId
    ensures Sound(e.(book := b)) && Progress(e, e.(book := b))
  {
    ProgressRefl(e, e.(book := b));
  }

  // ----- the cascade keeps soundness -----

  lemma {:induction false} SubmitSound(p: Policy, e: Engine, side: Side, qty: nat)
    requires Sound(e)
    ensures var r := SubmitMarket(p, e, side, qty).engine; Sound(r) && Progress(e, r)
    decreases |e.book.stops|, 1, 0
  {
    MatchKeepsStops(p, e.book, side, qty);
    var m := MatchSpec(p, e.book, side, qty);
    var e1 := e.(book := m.book);
    hide MatchSpec, Sound, Progress;
    BookStepSound(e, m.book);
    if m.value != [] {
      var last := m.value[|m.value| - 1].price;
      ProcessSound(p, e1, last);
      ProgressTrans(e, e1, Process(p, e1, last));
    }
  }

  lemma {:induction false} ProcessSound(p: Policy, e: Engine, last: int)
    requires Sound(e)
    ensures var r := Process(p, e, last); Sound(r) && Progress(e, r)
    decreases |e.book.stops|, 0, |e.queued| + |e.stored| + 1
  {
    var e1 := e.(queued := [], stored := []);
    ProgressRefl(e, e1);
    DrainSound(p, e1, e.queued + e.stored, last);
    hide Drain;
    ProgressTrans(e, e1, Process(p, e, last));
  }

  lemma {:induction false} DrainSound(p: Policy, e: Engine, q: seq<nat>, last: int)
    requires Sound(e)
    ensures var r := Drain(p, e, q, last); Sound(r) && Progress(e, r)
    decreases |e.book.stops|, 0, |q|
  {
    if q == [] {
      ProgressRefl(e, e);
    } else if q[0] !in e.book.stops {
      DrainSound(p, e, q[1..], last);
    } else if !Triggers(e.book.stops[q[0]], last) {
      var e1 := e.(queued := e.queued + [q[0]]);
      ProgressRefl(e, e1);
      DrainSound(p, e1, q[1..], last);
      hide Sound, Progress;
      ProgressTrans(e, e1, Drain(p, e, q, last));
    } else {
      hide Sound, Progress, Execute;
      var e1 := Execute(p, e, q[0]);
      ExecuteSound(p, e, q[0]);
      DrainSound(p, e1, Live(e1.book.stops, q[1..]), last);
      ProgressTrans(e, e1, Drain(p, e, q, last));
    }
  }

  lemma {:induction false} ExecuteSound(p: Policy, e: Engine, id: nat)
    requires Sound(e) && id in e.book.stops
    ensures var r := Execute(p, e, id); Sound(r) && Progress(e, r)
    decreases |e.book.stops|, 0, 0
  {
    var s := e.book.stops[id];
    var e1 := Detach(e, id);
    assert e1.book.stops.Keys == e.book.stops.Keys - {id};
    DetachProgress(e, id);
    hide Sound, Progress, Detach, LimitSpec;
    if s.kind == StopMarket {
      SubmitSound(p, e1, s.side, s.qty);
    } else {
      LimitKeepsStops(e1.book, s.side, s.price, s.qty, s.display);
      BookStepSound(e1, LimitSpec(e1.book, s.side, s.price, s.qty, s.display).book);
    }
    ProgressTrans(e, e1, Execute(p, e, id));
  }

  /** A triggered stop at the front of the queue is the next one executed. */
  lemma FrontIsNext(p: Policy, e: Engine, q: seq<nat>, last: int)
    requires Sound(e) && q != [] && q[0] in e.book.stops && Triggers(e.book.stops[q[0]], last)
    ensures
      var r := Drain(p, e, q, last);
      |e.executed| < |r.executed| && r.executed[|e.executed|] == q[0]
  {
    var e1 := Execute(p, e, q[0]);
    ExecuteSound(p, e, q[0]);
    ExecuteLogs(p, e, q[0]);
    DrainSound(p, e1, Live(e1.book.stops, q[1..]), last);
    hide Execute, Sound, Live;
  }

  lemma ExecuteLogs(p: Policy, e: Engine, id: nat)
    requires Sound(e) && id in e.book.stops
    ensures e.executed + [id] <= Execute(p, e, id).executed
  {
    var s, e1 := e.book.stops[id], Detach(e, id);
    DetachProgress(e, id);
    hide Sound;
    if s.kind == StopMarket {
      SubmitSound(p, e1, s.side, s.qty);
    }
  }

  // ----- quiescence -----

  /** Every queued stop fails its trigger test at `last`. */
  predicate Quiet(e: Engine, last: int) {
    forall id :: id in e.queued ==> id in e.book.stops && !Triggers(e.book.stops[id], last)
  }

  /** The stops of `q` that survive in `r` are queued there, and nothing else is. */
  predicate Kept(r: Engine, q: seq<nat>) {
    && r.stored == []
    && (forall id :: id in q && id in r.book.stops ==> id in r.queued)
    && (forall id :: id in r.queued ==> id in q)
  }

  lemma {:induction false} DrainSettles(p: Policy, e: Engine, q: seq<nat>, last: int)
    requires Sound(e) && Quiet(e, last) && e.stored == []
    ensures var r := Drain(p, e, q, last); Kept(r, e.queued + q) && Quiet(r, last)
    decreases |e.book.stops|, 0, |q|
  {
    if q == [] {
    } else if q[0] !in e.book.stops {
      DrainSettles(p, e, q[1..], last);
      DrainSound(p, e, q[1..], last);
    } else if !Triggers(e.book.stops[q[0]], last) {
      var e1 := e.(queued := e.queued + [q[0]]);
      DrainSettles(p, e1, q[1..], last);
      assert e1.queued + q[1..] == e.queued + q;
    } else {
      var e1 := Execute(p, e, q[0]);
      ExecuteSound(p, e, q[0]);
      ExecuteKeeps(p, e, q[0]);
      LiveMembers(e1.book.stops, q[1..]);
      ExecutedStays(p, e, q, last);
      hide Drain, Execute;
      DrainSettles(p, e1, Live(e1.book.stops, q[1..]), last);
      KeptOnward(e, e1, Drain(p, e, q, last), q);
    }
  }

  /** What was executed does not come back. */
  lemma ExecutedStays(p: Policy, e: Engine, q: seq<nat>, last: int)
    requires Sound(e) && q != [] && q[0] in e.book.stops && Triggers(e.book.stops[q[0]], last)
    ensures
      var e1 := Execute(p, e, q[0]);
      && Drain(p, e, q, last) == Drain(p, e1, Live(e1.book.stops, q[1..]), last)
      && q[0] !in e1.book.stops && SubStops(Drain(p, e, q, last).book.stops, e1.book.stops)
  {
    var e1 := Execute(p, e, q[0]);
    ExecuteSound(p, e, q[0]);
    ExecutedGone(p, e, q[0]);
    DrainSound(p, e1, Live(e1.book.stops, q[1..]), last);
    hide Execute, Sound;
  }

  lemma ExecutedGone(p: Policy, e: Engine, id: nat)
    requires Sound(e) && id in e.book.stops
    ensures id !in Execute(p, e, id).book.stops
  {
    var s, e1 := e.book.stops[id], Detach(e, id);
    DetachProgress(e, id);
    assert id !in e1.book.stops;
    if s.kind == StopMarket {
      SubmitSound(p, e1, s.side, s.qty);
    } else {
      LimitKeepsStops(e1.book, s.side, s.price, s.qty, s.display);
    }
  }

  lemma KeptOnward(e: Engine, e1: Engine, r: Engine, q: seq<nat>)
    requires q != [] && q[0] !in e1.book.stops && SubStops(r.book.stops, e1.book.stops)
    requires Kept(e1, e.queued)
    requires Kept(r, e1.queued + Live(e1.book.stops, q[1..]))
    ensures Kept(r, e.queued + q)
  {
    LiveMembers(e1.book.stops, q[1..]);
  }

  /** Executing a stop at a price that leaves the queue quiet keeps it queued and quiet. */
  lemma {:induction false} ExecuteKeeps(p: Policy, e: Engine, id: nat)
    requires Sound(e) && id in e.book.stops && e.stored == []
    ensures var r := Execute(p, e, id); Kept(r, e.queued)
    ensures forall last :: Quiet(e, last) ==> Quiet(Execute(p, e, id), last)
    decreases |e.book.stops|, 0, 0
  {
    var s := e.book.stops[id];
    var e1, r := Detach(e, id), Execute(p, e, id);
    assert e1.book.stops.Keys == e.book.stops.Keys - {id};
    DetachProgress(e, id);
    DetachKeeps(e, id);
    if s.kind == StopMarket {
      hide Sound, Kept, Quiet, Detach, Progress;
      SubmitKeeps(p, e1, s.side, s.qty);
      SubmitSound(p, e1, s.side, s.qty);
    } else {
      hide Sound, Quiet, Detach, Progress, LimitSpec;
      LimitKeepsStops(e1.book, s.side, s.price, s.qty, s.display);
    }
    ExecuteSound(p, e, id);
    hide Execute, SubmitMarket, LimitSpec, Detach;
    KeptTwice(e, e1, r);
    QuietAfter(e, r);
  }

  lemma DetachKeeps(e: Engine, id: nat)
    requires Sound(e) && id in e.book.stops && e.stored == []
    ensures Kept(Detach(e, id), e.queued) && Detach(e, id).stored == []
    ensures Kept(Detach(e, id), Detach(e, id).queued)
    ensures SubStops(Detach(e, id).book.stops, e.book.stops)
  {
    LiveMembers(DropStop(e.book, id).stops, e.queued);
  }

  lemma KeptTwice(e: Engine, e1: Engine, r: Engine)
    requires Kept(e1, e.queued) && Kept(r, e1.queued)
    requires Progress(e, r) && (forall id :: id in r.book.stops ==> id in e1.book.stops)
    ensures Kept(r, e.queued)
  {
  }

  lemma QuietAfter(e: Engine, r: Engine)
    requires Kept(r, e.queued) && Sound(r) && Progress(e, r)
    ensures forall last :: Quiet(e, last) ==> Quiet(r, last)
  {
    forall last | Quiet(e, last)
      ensures Quiet(r, last)
    {
    }
  }

  lemma {:induction false} SubmitKeeps(p: Policy, e: Engine, side: Side, qty: nat)
    requires Sound(e) && e.stored == []
    ensures Kept(SubmitMarket(p, e, side, qty).engine, e.queued)
    ensures Sound(SubmitMarket(p, e, side, qty).engine)
    decreases |e.book.stops|, 1, 0
  {
    SubmitSound(p, e, side, qty);
    MatchKeepsStops(p, e.book, side, qty);
    var m := MatchSpec(p, e.book, side, qty);
    hide MatchSpec;
    if m.value != [] {
      ProcessSettles(p, e.(book := m.book), m.value[|m.value| - 1].price);
      assert e.queued + [] == e.queued;
    }
  }

  lemma {:induction false} ProcessSettles(p: Policy, e: Engine, last: int)
    requires Sound(e)
    ensures var r := Process(p, e, last); Kept(r, e.queued + e.stored) && Quiet(r, last)
    decreases |e.book.stops|, 0, |e.queued| + |e.stored| + 1
  {
    DrainSettles(p, e.(queued := [], stored := []), e.queued + e.stored, last);
    assert [] + (e.queued + e.stored) == e.queued + e.stored;
  }

  /** Every pending stop stands in one of the two lists. */
  predicate Covered(e: Engine) {
    forall id :: id in e.book.stops ==> id in e.queued || id in e.stored
  }

  /** After a market order that traded, every stop still pending is queued and on the safe side
      of the last fill's price: a buy stop above it, a sell stop below it. */
  lemma {:induction false} MarketQuiesces(p: Policy, e: Engine, side: Side, qty: nat)
    requires Sound(e) && Covered(e)
    ensures
      var r := SubmitMarket(p, e, side, qty);
      && Covered(r.engine)
      && (r.fills != [] ==>
            && r.engine.stored == []
            && forall id :: id in r.engine.book.stops ==>
                 var s, last := r.engine.book.stops[id], r.fills[|r.fills| - 1].price;
                 id in r.engine.queued && (s.side == Buy ==> last < s.trigger) && (s.side == Sell ==> s.trigger < last))
  {
    MatchKeepsStops(p, e.book, side, qty);
    var m := MatchSpec(p, e.book, side, qty);
    var e1 := e.(book := m.book);
    SubmitSound(p, e, side, qty);
    hide MatchSpec;
    if m.value != [] {
      BookStepSound(e, m.book);
      ProcessSettles(p, e1, m.value[|m.value| - 1].price);
    }
  }

  // ----- runs -----

  /** submit_stop: the new stop joins both lists. In the engine's list it may also turn up
      earlier, at entries left behind for the slot it reuses. */
  predicate StopJoined(e: Engine, e': Engine, s: Stop) {
    var r := AddStop(e.book, s);
    && s.kind != NoStop
    && e'.book == r.book && e'.executed == e.executed
    && if r.value == 0 then e'.queued == e.queued && e'.stored == e.stored
       else
         && Live(e.book.stops, e'.queued) == e.queued
         && r.value in e'.queued && (forall id :: id in e'.queued ==> id in r.book.stops)
         && e'.stored == e.stored + [r.value]
  }

  /** One operation: a limit, market or stop submission, or an operation of the book alone. */
  ghost predicate Next(p: Policy, e: Engine, e': Engine) {
    || (exists side, qty :: e' == SubmitMarket(p, e, side, qty).engine)
    || (exists s :: StopJoined(e, e', s))
    || (e' == e.(book := e'.book) && e'.book.stops == e.book.stops && e'.book.nextId >= e.book.nextId)
  }

  lemma StopJoinedSound(e: Engine, e': Engine, s: Stop)
    requires Sound(e) && Covered(e) && StopJoined(e, e', s) && e.book.nextId > 0
    ensures Sound(e') && Covered(e') && e.executed <= e'.executed && e'.book.nextId > 0
  {
    LiveMembers(e.book.stops, e'.queued);
    assert e.executed == e'.executed;
  }

  lemma NextSound(p: Policy, e: Engine, e': Engine)
    requires Sound(e) && Covered(e) && e.book.nextId > 0 && Next(p, e, e')
    ensures Sound(e') && Covered(e') && e'.book.nextId > 0 && e.executed <= e'.executed
    ensures forall id :: id in e.book.stops ==> id in e'.book.stops || id in e'.executed
  {
    if s :| StopJoined(e, e', s) {
      StopJoinedSound(e, e', s);
    } else if side, qty :| e' == SubmitMarket(p, e, side, qty).engine {
      SubmitSound(p, e, side, qty);
      MarketQuiesces(p, e, side, qty);
    } else {
      BookStepSound(e, e'.book);
    }
  }

  /** Over every run from an empty engine: the log of executed stops only grows, names no
      stop twice and none that is still pending, and no pending stop is ever lost. */
  lemma {:induction false} RunsExecuteStopsOnce(p: Policy, run: seq<Engine>, i: nat)
    requires run != [] && run[0].book.stops == map[] && run[0].executed == [] && run[0].queued == run[0].stored == []
    requires run[0].book.nextId > 0
    requires forall k :: 0 <= k < |run| - 1 ==> Next(p, run[k], run[k + 1])
    requires i < |run|
    ensures Sound(run[i]) && Covered(run[i]) && run[i].book.nextId > 0
    ensures i > 0 ==> run[i - 1].executed <= run[i].executed
    ensures i > 0 ==> forall id :: id in run[i - 1].book.stops ==> id in run[i].book.stops || id in run[i].executed
  {
    if i > 0 {
      RunsExecuteStopsOnce(p, run, i - 1);
      assert Next(p, run[i - 1], run[i - 1 + 1]);
      NextSound(p, run[i - 1], run[i]);
    }
  }
}
