// The order in which stops are served. As long as every new stop queues behind the others, of
// two stops that trigger at the price of a trade the one submitted first is executed first,
// over whole runs and through nested cascades.
module ServiceOrder {
  import opened LobTypes
  import opened BookSpec
  import opened Policies
  import opened EngineSpec
  import opened EngineLaws

  // ----- queues in the order of submission -----

  /** Every entry repeats an earlier one or exceeds all of them: ids that occur for the first
      time ascend, and ids ascend in the order of submission. */
  predicate Ordered(q: seq<nat>) {
    forall j :: 0 <= j < |q| ==> q[j] in q[..j] || Exceeds(q[j], q[..j])
  }

  predicate Exceeds(x: nat, q: seq<nat>) {
    forall i :: 0 <= i < |q| ==> q[i] < x
  }

  lemma OrderedPrefix(q: seq<nat>, x: nat)
    ensures Ordered(q + [x]) <==> Ordered(q) && (x in q || Exceeds(x, q))
  {
    var s := q + [x];
    forall j: nat | j < |q|
      ensures s[..j] == q[..j]
    {
    }
    assert s[..|q|] == q && s[|q|] == x;
    if Ordered(q + [x]) {
      forall j: nat | j < |q|
        ensures q[j] in q[..j] || Exceeds(q[j], q[..j])
      {
        assert s[j] == q[j];
      }
    }
  }

  lemma {:induction false} LiveAppends(stops: map<nat, Stop>, q: seq<nat>, x: nat)
    ensures Live(stops, q + [x]) == Live(stops, q) + if x in stops then [x] else []
  {
    if q == [] {
      assert ([] + [x])[1..] == [];
    } else {
      assert (q + [x])[1..] == q[1..] + [x];
      LiveAppends(stops, q[1..], x);
    }
  }

  /** `a'` is an ordered queue of those of `a` that are still pending, and `b` is queued behind. */
  lemma {:induction false} OrderedMerge(stops: map<nat, Stop>, a: seq<nat>, a': seq<nat>, b: seq<nat>)
    requires Ordered(a + b) && Ordered(a')
    requires forall x :: x in a' ==> x in a
    requires forall x :: x in a && x in stops ==> x in a'
    ensures Ordered(a' + Live(stops, b))
    decreases |b|
  {
    if b == [] {
      assert a' + [] == a';
    } else {
      var c, y := b[..|b| - 1], b[|b| - 1];
      assert b == c + [y] && a + b == (a + c) + [y];
      var c' := Live(stops, c);
      hide Ordered, Live;
      OrderedPrefix(a + c, y);
      OrderedMerge(stops, a, a', c);
      LiveAppends(stops, c, y);
      LiveMembers(stops, c);
      if y in stops {
        assert a' + Live(stops, b) == (a' + c') + [y];
        NewAtEnd(a, a', c, c', y);
        OrderedPrefix(a' + c', y);
      } else {
        assert a' + (c' + []) == a' + c';
      }
    }
  }

  lemma NewAtEnd(a: seq<nat>, a': seq<nat>, c: seq<nat>, c': seq<nat>, y: nat)
    requires y in a + c || Exceeds(y, a + c)
    requires (y in a ==> y in a') && (y in c ==> y in c')
    requires (forall x :: x in a' ==> x in a) && (forall x :: x in c' ==> x in c)
    ensures y in a' + c' || Exceeds(y, a' + c')
  {
    if y !in a && y !in c {
      forall i | 0 <= i < |a' + c'|
        ensures (a' + c')[i] < y
      {
        assert (a' + c')[i] in a + c;
      }
    }
  }

  lemma OrderedLive(stops: map<nat, Stop>, q: seq<nat>)
    requires Ordered(q)
    ensures Ordered(Live(stops, q))
  {
    assert [] + q == q && [] + Live(stops, q) == Live(stops, q);
    OrderedMerge(stops, [], [], q);
  }

  lemma {:induction false} LiveTwice(stops: map<nat, Stop>, stops': map<nat, Stop>, q: seq<nat>)
    requires forall id :: id in stops' ==> id in stops
    ensures Live(stops', Live(stops, q)) == Live(stops', q)
  {
    if q != [] {
      LiveTwice(stops, stops', q[1..]);
      if q[0] in stops {
        assert Live(stops, q)[1..] == Live(stops, q[1..]);
      } else {
        assert Live(stops, q) == [] + Live(stops, q[1..]) == Live(stops, q[1..]);
        assert [] + Live(stops', q[1..]) == Live(stops', q[1..]);
      }
    }
  }

  // ----- the cascade keeps the order -----

  predicate Waiting(e: Engine, q: seq<nat>) {
    Ordered(e.queued + Live(e.book.stops, q))
  }

  lemma WaitingBehind(e: Engine, q: seq<nat>)
    requires q != [] && Waiting(e, q)
    ensures q[0] !in e.book.stops ==> Waiting(e, q[1..])
    ensures q[0] in e.book.stops ==> Waiting(e.(queued := e.queued + [q[0]]), q[1..])
  {
    hide Ordered;
    if q[0] in e.book.stops {
      assert e.queued + ([q[0]] + Live(e.book.stops, q[1..])) == (e.queued + [q[0]]) + Live(e.book.stops, q[1..]);
    } else {
      assert [] + Live(e.book.stops, q[1..]) == Live(e.book.stops, q[1..]);
    }
  }

  /** After the stop in front was executed the rest still waits in order. */
  lemma WaitingOn(e: Engine, e1: Engine, q: seq<nat>)
    requires q != [] && Waiting(e, q) && Ordered(e1.queued) && Kept(e1, e.queued)
    requires SubStops(e1.book.stops, e.book.stops) && q[0] !in e1.book.stops
    ensures Waiting(e1, Live(e1.book.stops, q[1..]))
  {
    var stops, stops' := e.book.stops, e1.book.stops;
    OrderedMerge(stops', e.queued, e1.queued, Live(stops, q));
    LiveTwice(stops, stops', q);
    LiveTwice(stops', stops', q[1..]);
    assert [] + Live(stops', q[1..]) == Live(stops', q[1..]);
    hide Ordered;
  }

  lemma {:induction false} DrainOrdered(p: Policy, e: Engine, q: seq<nat>, last: int)
    requires Sound(e) && e.stored == [] && Waiting(e, q)
    ensures Ordered(Drain(p, e, q, last).queued)
    decreases |e.book.stops|, 0, |q|
  {
    if q == [] {
      assert e.queued + [] == e.queued;
    } else {
      WaitingBehind(e, q);
      if q[0] !in e.book.stops {
        DrainOrdered(p, e, q[1..], last);
      } else if !Triggers(e.book.stops[q[0]], last) {
        DrainOrdered(p, e.(queued := e.queued + [q[0]]), q[1..], last);
      } else {
        var e1 := Execute(p, e, q[0]);
        ExecuteOrdered(p, e, q[0], q);
        ExecuteSound(p, e, q[0]);
        ExecutedGone(p, e, q[0]);
        ExecuteKeeps(p, e, q[0]);
        hide Execute, Ordered, Live, Sound, Drain;
        WaitingOn(e, e1, q);
        DrainOrdered(p, e1, Live(e1.book.stops, q[1..]), last);
        DrainFires(p, e, q, last);
      }
    }
  }

  lemma DrainFires(p: Policy, e: Engine, q: seq<nat>, last: int)
    requires q != [] && q[0] in e.book.stops && Triggers(e.book.stops[q[0]], last)
    ensures
      var e1 := Execute(p, e, q[0]);
      Drain(p, e, q, last) == Drain(p, e1, Live(e1.book.stops, q[1..]), last)
  {
    hide Execute;
  }

  lemma OrderedFront(a: seq<nat>, b: seq<nat>)
    requires Ordered(a + b)
    ensures Ordered(a)
    decreases |b|
  {
    if b == [] {
      assert a + b == a;
    } else {
      var c := b[..|b| - 1];
      assert a + b == (a + c) + [b[|b| - 1]];
      OrderedPrefix(a + c, b[|b| - 1]);
      OrderedFront(a, c);
    }
  }

  lemma {:induction false} ExecuteOrdered(p: Policy, e: Engine, id: nat, q: seq<nat>)
    requires Sound(e) && e.stored == [] && id in e.book.stops && Waiting(e, q)
    ensures Ordered(Execute(p, e, id).queued)
    decreases |e.book.stops|, 0, 0
  {
    var s, e1 := e.book.stops[id], Detach(e, id);
    assert e1.book.stops.Keys == e.book.stops.Keys - {id};
    OrderedFront(e.queued, Live(e.book.stops, q));
    OrderedLive(e1.book.stops, e.queued);
    DetachProgress(e, id);
    DetachKeeps(e, id);
    hide Ordered, Live, Sound, LimitSpec, Kept, SubStops, Progress;
    assert e1.queued + e1.stored == e1.queued;
    if s.kind == StopMarket {
      SubmitOrdered(p, e1, s.side, s.qty);
    }
  }

  lemma {:induction false} SubmitOrdered(p: Policy, e: Engine, side: Side, qty: nat)
    requires Sound(e) && Ordered(e.queued + e.stored)
    ensures Ordered(SubmitMarket(p, e, side, qty).engine.queued)
    decreases |e.book.stops|, 1, 0
  {
    MatchKeepsStops(p, e.book, side, qty);
    var m := MatchSpec(p, e.book, side, qty);
    OrderedFront(e.queued, e.stored);
    BookStepSound(e, m.book);
    hide MatchSpec, Ordered, Sound, Process;
    if m.value != [] {
      ProcessOrdered(p, e.(book := m.book), m.value[|m.value| - 1].price);
    }
  }

  lemma {:induction false} ProcessOrdered(p: Policy, e: Engine, last: int)
    requires Sound(e) && Ordered(e.queued + e.stored)
    ensures Ordered(Process(p, e, last).queued)
    decreases |e.book.stops|, 0, |e.queued| + |e.stored| + 1
  {
    var e1, q := e.(queued := [], stored := []), e.queued + e.stored;
    hide Ordered, Live, Drain, Sound;
    Cleared(e, q);
    DrainOrdered(p, e1, q, last);
  }

  /** Both lists moved into the queue. */
  lemma Cleared(e: Engine, q: seq<nat>)
    requires Sound(e) && Ordered(q)
    ensures
      var e1 := e.(queued := [], stored := []);
      Sound(e1) && Waiting(e1, q)
  {
    OrderedLive(e.book.stops, q);
    assert [] + Live(e.book.stops, q) == Live(e.book.stops, q);
    hide Ordered, Live;
  }

  // ----- what a cascade touches -----

  /** Only stops of `q` left. */
  predicate LeftFrom(e: Engine, r: Engine, q: seq<nat>) {
    forall id :: id in e.book.stops && id !in r.book.stops ==> id in q
  }

  lemma LeftOn(e: Engine, e1: Engine, r: Engine, a: seq<nat>, b: seq<nat>)
    requires LeftFrom(e, e1, a) && LeftFrom(e1, r, b) && forall id :: id in b ==> id in a
    ensures LeftFrom(e, r, a)
  {
  }

  lemma {:induction false} DrainTouches(p: Policy, e: Engine, q: seq<nat>, last: int)
    requires Sound(e) && e.stored == []
    ensures LeftFrom(e, Drain(p, e, q, last), e.queued + q)
    decreases |e.book.stops|, 0, |q|
  {
    if q != [] {
      if q[0] !in e.book.stops {
        DrainTouches(p, e, q[1..], last);
      } else if !Triggers(e.book.stops[q[0]], last) {
        DrainTouches(p, e.(queued := e.queued + [q[0]]), q[1..], last);
      } else {
        var e1 := Execute(p, e, q[0]);
        ExecuteTouches(p, e, q[0]);
        ExecuteSound(p, e, q[0]);
        ExecuteKeeps(p, e, q[0]);
        LiveMembers(e1.book.stops, q[1..]);
        DrainFires(p, e, q, last);
        hide Execute, Drain, Sound, Live, Quiet;
        DrainTouches(p, e1, Live(e1.book.stops, q[1..]), last);
      }
    }
  }

  lemma {:induction false} ExecuteTouches(p: Policy, e: Engine, id: nat)
    requires Sound(e) && id in e.book.stops && e.stored == []
    ensures LeftFrom(e, Execute(p, e, id), e.queued + [id])
    decreases |e.book.stops|, 0, 0
  {
    var s, e1 := e.book.stops[id], Detach(e, id);
    assert e1.book.stops.Keys == e.book.stops.Keys - {id};
    LiveMembers(e1.book.stops, e.queued);
    DetachProgress(e, id);
    DetachKeeps(e, id);
    hide Sound, Live, Progress, LimitSpec;
    if s.kind == StopMarket {
      SubmitTouches(p, e1, s.side, s.qty);
    } else {
      LimitKeepsStops(e1.book, s.side, s.price, s.qty, s.display);
    }
  }

  lemma {:induction false} SubmitTouches(p: Policy, e: Engine, side: Side, qty: nat)
    requires Sound(e) && e.stored == []
    ensures LeftFrom(e, SubmitMarket(p, e, side, qty).engine, e.queued)
    decreases |e.book.stops|, 1, 0
  {
    MatchKeepsStops(p, e.book, side, qty);
    var m := MatchSpec(p, e.book, side, qty);
    BookStepSound(e, m.book);
    hide MatchSpec, Sound, Process;
    if m.value != [] {
      ProcessTouches(p, e.(book := m.book), m.value[|m.value| - 1].price);
    }
  }

  lemma {:induction false} ProcessTouches(p: Policy, e: Engine, last: int)
    requires Sound(e) && e.stored == []
    ensures LeftFrom(e, Process(p, e, last), e.queued)
    decreases |e.book.stops|, 0, |e.queued| + |e.stored| + 1
  {
    hide Drain;
    assert e.queued + e.stored == e.queued && [] + e.queued == e.queued;
    DrainTouches(p, e.(queued := [], stored := []), e.queued + e.stored, last);
  }

  // ----- the older of two stops is served first -----

  /** `x` and, after it, `y` stand in the log from position `n` on. */
  predicate Before(log: seq<nat>, n: nat, x: nat, y: nat) {
    exists a, b :: n <= a < b < |log| && log[a] == x && log[b] == y
  }

  /** `id` is pending, triggers at `last`, and still stands in `q` only. */
  predicate Due(e: Engine, q: seq<nat>, last: int, id: nat) {
    id in e.book.stops && Triggers(e.book.stops[id], last) && id in q && id !in e.queued
  }

  /** In an ordered queue nothing that comes first later is older than the front. */
  lemma {:induction false} FrontIsOldest(a: seq<nat>, y: nat, rest: seq<nat>, x: nat)
    requires Ordered(a + [y] + rest) && x in rest && x !in a && x != y
    ensures y < x
    decreases |rest|
  {
    var c, z := rest[..|rest| - 1], rest[|rest| - 1];
    var front := a + [y] + c;
    assert rest == c + [z] && a + [y] + rest == front + [z];
    OrderedPrefix(front, z);
    if x in c {
      FrontIsOldest(a, y, c, x);
    } else {
      assert x !in front;
      assert front[|a|] == y;
    }
  }

  /** A stop that is due is executed. */
  lemma DueIsExecuted(p: Policy, e: Engine, q: seq<nat>, last: int, id: nat)
    requires Sound(e) && Quiet(e, last) && e.stored == [] && Due(e, q, last, id)
    ensures
      var r := Drain(p, e, q, last);
      e.executed <= r.executed && id in r.executed[|e.executed|..]
  {
    hide Drain;
    DrainSound(p, e, q, last);
    DrainSettles(p, e, q, last);
  }

  lemma StaysDue(e: Engine, e1: Engine, q: seq<nat>, last: int, id: nat)
    requires q != [] && Due(e, q, last, id) && id != q[0]
    requires LeftFrom(e, e1, e.queued + [q[0]]) && SubStops(e1.book.stops, e.book.stops) && Kept(e1, e.queued)
    ensures Due(e1, Live(e1.book.stops, q[1..]), last, id)
  {
    assert id in q[1..];
    LiveMembers(e1.book.stops, q[1..]);
  }

  lemma {:induction false} LiveShorter(stops: map<nat, Stop>, q: seq<nat>)
    ensures |Live(stops, q)| <= |q|
  {
    if q != [] {
      LiveShorter(stops, q[1..]);
    }
  }

  lemma BeforeFrom(log: seq<nat>, n: nat, m: nat, x: nat, y: nat)
    requires Before(log, m, x, y) && n <= m
    ensures Before(log, n, x, y)
  {
  }

  lemma BeforeNow(log: seq<nat>, n: nat, m: nat, x: nat, y: nat)
    requires n < m <= |log| && log[n] == x && y in log[m..]
    ensures Before(log, n, x, y)
  {
    var k :| 0 <= k < |log[m..]| && log[m..][k] == y;
    assert log[m + k] == y;
  }

  lemma AheadIsOldest(e: Engine, q: seq<nat>, x: nat)
    requires q != [] && Waiting(e, q) && q[0] in e.book.stops && x in q && x in e.book.stops
    requires x !in e.queued && x != q[0]
    ensures q[0] < x
  {
    hide Ordered;
    var rest := Live(e.book.stops, q[1..]);
    assert e.queued + ([q[0]] + rest) == e.queued + [q[0]] + rest;
    LiveMembers(e.book.stops, q[1..]);
    hide Live, Waiting;
    FrontIsOldest(e.queued, q[0], rest, x);
  }

  /** All that executing the stop in front leaves as it should be. */
  lemma FrontExecuted(p: Policy, e: Engine, q: seq<nat>, last: int)
    requires Sound(e) && Quiet(e, last) && e.stored == [] && Waiting(e, q)
    requires q != [] && q[0] in e.book.stops && Triggers(e.book.stops[q[0]], last)
    ensures
      var e1 := Execute(p, e, q[0]);
      && Sound(e1) && Quiet(e1, last) && Kept(e1, e.queued) && Waiting(e1, Live(e1.book.stops, q[1..]))
      && LeftFrom(e, e1, e.queued + [q[0]]) && SubStops(e1.book.stops, e.book.stops)
      && e.executed + [q[0]] <= e1.executed
      && Drain(p, e, q, last) == Drain(p, e1, Live(e1.book.stops, q[1..]), last)
      && e1.executed <= Drain(p, e, q, last).executed
  {
    var e1 := Execute(p, e, q[0]);
    ExecuteSound(p, e, q[0]);
    ExecutedGone(p, e, q[0]);
    ExecuteKeeps(p, e, q[0]);
    ExecuteTouches(p, e, q[0]);
    ExecuteLogs(p, e, q[0]);
    ExecuteOrdered(p, e, q[0], q);
    DrainFires(p, e, q, last);
    hide Execute, Drain, Sound, Live, Ordered, Quiet, Waiting, Kept, LeftFrom;
    WaitingOn(e, e1, q);
    DrainSound(p, e1, Live(e1.book.stops, q[1..]), last);
  }

  /** Of two stops that are due in one call, the older is executed first. */
  lemma {:induction false} OlderFirst(p: Policy, e: Engine, q: seq<nat>, last: int, x: nat, y: nat)
    requires Sound(e) && Quiet(e, last) && e.stored == [] && Waiting(e, q)
    requires x < y && Due(e, q, last, x) && Due(e, q, last, y)
    ensures Before(Drain(p, e, q, last).executed, |e.executed|, x, y)
    decreases |q|
  {
    WaitingBehind(e, q);
    if q[0] !in e.book.stops {
      OlderFirst(p, e, q[1..], last, x, y);
    } else if !Triggers(e.book.stops[q[0]], last) {
      hide Waiting;
      OlderFirst(p, e.(queued := e.queued + [q[0]]), q[1..], last, x, y);
    } else {
      var e1 := Execute(p, e, q[0]);
      var rest, log := Live(e1.book.stops, q[1..]), Drain(p, e, q, last).executed;
      hide Drain, Execute, Sound, Live, Quiet, Waiting, Kept, LeftFrom, Before;
      FrontExecuted(p, e, q, last);
      LiveShorter(e1.book.stops, q[1..]);
      if q[0] == x {
        StaysDue(e, e1, q, last, y);
        DueIsExecuted(p, e1, rest, last, y);
        BeforeNow(log, |e.executed|, |e1.executed|, x, y);
      } else {
        AheadIsOldest(e, q, x);
        StaysDue(e, e1, q, last, x);
        StaysDue(e, e1, q, last, y);
        OlderFirst(p, e1, rest, last, x, y);
        BeforeFrom(log, |e.executed|, |e1.executed|, x, y);
      }
    }
  }

  // ----- runs -----

  /** submit_stop when the new stop queues behind all others. */
  predicate JoinsLast(e: Engine, e': Engine, s: Stop) {
    var id := AddStop(e.book, s).value;
    StopJoined(e, e', s) && (id != 0 ==> e'.queued == e.queued + [id])
  }

  /** One operation of a run in which every new stop queues behind the others. */
  ghost predicate NextInOrder(p: Policy, e: Engine, e': Engine) {
    || (exists side, qty :: e' == SubmitMarket(p, e, side, qty).engine)
    || (exists s :: JoinsLast(e, e', s))
    || (e' == e.(book := e'.book) && e'.book.stops == e.book.stops && e'.book.nextId >= e.book.nextId)
  }

  /** Every pending stop is queued, in the order of submission. */
  predicate InOrder(e: Engine) {
    && Sound(e) && Covered(e) && e.book.nextId > 0
    && Ordered(e.queued) && forall id :: id in e.stored ==> id in e.queued
  }

  lemma {:induction false} StoredRepeats(a: seq<nat>, b: seq<nat>)
    requires Ordered(a) && forall id :: id in b ==> id in a
    ensures Ordered(a + b)
    decreases |b|
  {
    if b == [] {
      assert a + b == a;
    } else {
      var c, y := b[..|b| - 1], b[|b| - 1];
      assert b == c + [y] && a + b == (a + c) + [y];
      StoredRepeats(a, c);
      OrderedPrefix(a + c, y);
    }
  }

  lemma MarketInOrder(p: Policy, e: Engine, side: Side, qty: nat)
    requires InOrder(e)
    ensures InOrder(SubmitMarket(p, e, side, qty).engine)
  {
    StoredRepeats(e.queued, e.stored);
    SubmitOrdered(p, e, side, qty);
    SubmitSound(p, e, side, qty);
    MarketQuiesces(p, e, side, qty);
    MatchKeepsStops(p, e.book, side, qty);
    hide MatchSpec, Ordered, Sound, Process;
  }

  lemma StopInOrder(e: Engine, e': Engine, s: Stop)
    requires InOrder(e) && JoinsLast(e, e', s)
    ensures InOrder(e')
  {
    StopJoinedSound(e, e', s);
    QueuedBelow(e);
    hide Ordered, Live, Sound, Covered, Exceeds;
    OrderedPrefix(e.queued, e.book.nextId);
  }

  lemma QueuedBelow(e: Engine)
    requires Sound(e)
    ensures Exceeds(e.book.nextId, e.queued)
  {
    forall i | 0 <= i < |e.queued|
      ensures e.queued[i] < e.book.nextId
    {
      assert e.queued[i] in e.queued;
    }
  }

  lemma StepInOrder(p: Policy, e: Engine, e': Engine)
    requires InOrder(e) && NextInOrder(p, e, e')
    ensures InOrder(e')
  {
    if s :| JoinsLast(e, e', s) {
      StopInOrder(e, e', s);
    } else if side, qty :| e' == SubmitMarket(p, e, side, qty).engine {
      MarketInOrder(p, e, side, qty);
    } else {
      BookStepSound(e, e'.book);
    }
  }

  lemma {:induction false} RunInOrder(p: Policy, run: seq<Engine>, i: nat)
    requires run != [] && run[0].book.stops == map[] && run[0].executed == [] && run[0].queued == run[0].stored == []
    requires run[0].book.nextId > 0
    requires forall k :: 0 <= k < |run| - 1 ==> NextInOrder(p, run[k], run[k + 1])
    requires i < |run|
    ensures InOrder(run[i])
  {
    if i > 0 {
      RunInOrder(p, run, i - 1);
      assert NextInOrder(p, run[i - 1], run[i - 1 + 1]);
      StepInOrder(p, run[i - 1], run[i]);
    }
  }

  lemma ProcessServes(p: Policy, e: Engine, last: int, x: nat, y: nat)
    requires Sound(e) && Ordered(e.queued + e.stored) && x < y && x in e.book.stops && y in e.book.stops
    requires Triggers(e.book.stops[x], last) && Triggers(e.book.stops[y], last)
    requires x in e.queued + e.stored && y in e.queued + e.stored
    ensures Before(Process(p, e, last).executed, |e.executed|, x, y)
  {
    hide Ordered, Drain, Live, Before, Sound, Waiting;
    Cleared(e, e.queued + e.stored);
    OlderFirst(p, e.(queued := [], stored := []), e.queued + e.stored, last, x, y);
  }

  lemma BothLists(e: Engine, id: nat)
    requires InOrder(e) && id in e.book.stops
    ensures Sound(e) && Ordered(e.queued + e.stored) && id in e.queued + e.stored
  {
    StoredRepeats(e.queued, e.stored);
    hide Ordered, Sound;
  }

  lemma TradeProcesses(p: Policy, e: Engine, side: Side, qty: nat)
    requires SubmitMarket(p, e, side, qty).fills != []
    ensures
      var m := MatchSpec(p, e.book, side, qty);
      && m.book.stops == e.book.stops && m.book.nextId == e.book.nextId && m.value != []
      && SubmitMarket(p, e, side, qty) == Traded(Process(p, e.(book := m.book), m.value[|m.value| - 1].price), m.value)
  {
    MatchKeepsStops(p, e.book, side, qty);
    hide MatchSpec, Process;
  }

  /** In a state in order, of two stops that trigger at the price of a trade the one submitted
      first is executed first, whatever cascades their executions set off. */
  lemma TradeServesInOrder(p: Policy, e: Engine, side: Side, qty: nat, x: nat, y: nat)
    requires InOrder(e) && x < y && x in e.book.stops && y in e.book.stops
    requires
      var fills := SubmitMarket(p, e, side, qty).fills;
      && fills != [] && Triggers(e.book.stops[x], fills[|fills| - 1].price)
      && Triggers(e.book.stops[y], fills[|fills| - 1].price)
    ensures Before(SubmitMarket(p, e, side, qty).engine.executed, |e.executed|, x, y)
  {
    hide MatchSpec, Ordered, Process, Before, Sound, InOrder, SubmitMarket;
    var m := MatchSpec(p, e.book, side, qty);
    TradeProcesses(p, e, side, qty);
    BothLists(e, x);
    BothLists(e, y);
    BookStepSound(e, m.book);
    ProcessServes(p, e.(book := m.book), m.value[|m.value| - 1].price, x, y);
  }

  /** Over every run from an empty engine in which each new stop queues behind the others: of two
      stops that trigger at the price of a trade the one submitted first is executed first. */
  lemma StopsServedInOrder(p: Policy, run: seq<Engine>, i: nat, side: Side, qty: nat, x: nat, y: nat)
    requires run != [] && run[0].book.stops == map[] && run[0].executed == [] && run[0].queued == run[0].stored == []
    requires run[0].book.nextId > 0
    requires forall k :: 0 <= k < |run| - 1 ==> NextInOrder(p, run[k], run[k + 1])
    requires i < |run| && x < y && x in run[i].book.stops && y in run[i].book.stops
    requires
      var fills := SubmitMarket(p, run[i], side, qty).fills;
      && fills != [] && Triggers(run[i].book.stops[x], fills[|fills| - 1].price)
      && Triggers(run[i].book.stops[y], fills[|fills| - 1].price)
    ensures Before(SubmitMarket(p, run[i], side, qty).engine.executed, |run[i].executed|, x, y)
  {
    RunInOrder(p, run, i);
    hide SubmitMarket, InOrder;
    TradeServesInOrder(p, run[i], side, qty, x, y);
  }
}
