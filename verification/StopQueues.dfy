// Every pending stop is queued twice, once by the engine and once by the book. This is
// harmless: a cascade over queues with repeated entries executes the same stops in the
// same order and leaves the same book as one where every stop is queued once.
module StopQueues {
  import opened LobTypes
  import opened BookSpec
  import opened Policies
  import opened EngineSpec
  import opened EngineLaws

  /** The entries of `q` that occur for the first time and are not in `seen`. */
  function New(seen: set<nat>, q: seq<nat>): seq<nat>
    decreases q
  {
    if q == [] then []
    else if q[0] in seen then New(seen, q[1..])
    else [q[0]] + New(seen + {q[0]}, q[1..])
  }

  /** The queue without repetitions. */
  function Once(q: seq<nat>): seq<nat> {
    New({}, q)
  }

  function Members(q: seq<nat>): set<nat> {
    set id | id in q
  }

  lemma {:induction false} NewConcat(seen: set<nat>, a: seq<nat>, b: seq<nat>)
    ensures New(seen, a + b) == New(seen, a) + New(seen + Members(a), b)
    decreases a
  {
    if a == [] {
      assert a + b == b && seen + Members(a) == seen;
    } else {
      assert (a + b)[1..] == a[1..] + b;
      assert Members(a) == {a[0]} + Members(a[1..]);
      if a[0] in seen {
        NewConcat(seen, a[1..], b);
        assert seen + Members(a) == seen + Members(a[1..]);
      } else {
        NewConcat(seen + {a[0]}, a[1..], b);
        assert seen + Members(a) == seen + {a[0]} + Members(a[1..]);
      }
    }
  }

  lemma OnceAppend(q: seq<nat>, id: nat)
    ensures Once(q + [id]) == if id in q then Once(q) else Once(q) + [id]
    ensures Members(q + [id]) == Members(q) + {id}
  {
    NewConcat({}, q, [id]);
    assert {} + Members(q) == Members(q);
    assert [id][1..] == [];
  }

  lemma {:induction false} NewMembers(seen: set<nat>, q: seq<nat>)
    ensures Members(New(seen, q)) == Members(q) - seen
    decreases q
  {
    if q != [] {
      assert Members(q) == {q[0]} + Members(q[1..]);
      if q[0] in seen {
        NewMembers(seen, q[1..]);
      } else {
        NewMembers(seen + {q[0]}, q[1..]);
        var rest := New(seen + {q[0]}, q[1..]);
        assert Members([q[0]] + rest) == {q[0]} + Members(rest);
      }
    }
  }

  /** Dropping the entries of gone stops commutes with dropping repetitions. */
  lemma {:induction false} NewOfLive(stops: map<nat, Stop>, seen: set<nat>, seen': set<nat>, q: seq<nat>)
    requires forall id :: id in stops ==> (id in seen <==> id in seen')
    ensures New(seen', Live(stops, q)) == Live(stops, New(seen, q))
    decreases q
  {
    if q != [] {
      var id, rest := q[0], Live(stops, q[1..]);
      if id in stops {
        assert Live(stops, q) == [id] + rest && ([id] + rest)[1..] == rest;
        if id in seen {
          NewOfLive(stops, seen, seen', q[1..]);
        } else {
          NewOfLive(stops, seen + {id}, seen' + {id}, q[1..]);
          LiveFirst(stops, id, New(seen + {id}, q[1..]));
        }
      } else {
        assert Live(stops, q) == rest;
        if id in seen {
          NewOfLive(stops, seen, seen', q[1..]);
        } else {
          NewOfLive(stops, seen + {id}, seen', q[1..]);
          LiveFirst(stops, id, New(seen + {id}, q[1..]));
        }
      }
    }
  }

  lemma LiveFirst(stops: map<nat, Stop>, id: nat, q: seq<nat>)
    ensures Live(stops, [id] + q) == (if id in stops then [id] else []) + Live(stops, q)
  {
    assert ([id] + q)[1..] == q;
  }

  // ----- the simulation -----

  /** Equal but for repetitions in the engine's list; the book's list has been taken. */
  predicate Alike(e: Engine, f: Engine) {
    e.book == f.book && e.executed == f.executed && e.stored == f.stored == [] && Once(e.queued) == Once(f.queued)
  }

  lemma AlikeMembers(e: Engine, f: Engine)
    requires Once(e.queued) == Once(f.queued)
    ensures Members(e.queued) == Members(f.queued)
  {
    NewMembers({}, e.queued);
    NewMembers({}, f.queued);
    assert Members(e.queued) - {} == Members(e.queued) && Members(f.queued) - {} == Members(f.queued);
  }

  predicate AllLive(e: Engine, q: seq<nat>) {
    forall id :: id in q ==> id in e.book.stops
  }

  lemma DetachAlike(e: Engine, f: Engine, id: nat)
    requires Alike(e, f) && id in e.book.stops
    ensures Alike(Detach(e, id), Detach(f, id))
  {
    var stops := DropStop(e.book, id).stops;
    NewOfLive(stops, {}, {}, e.queued);
    NewOfLive(stops, {}, {}, f.queued);
  }

  lemma {:induction false} SubmitAlike(p: Policy, e: Engine, f: Engine, side: Side, qty: nat)
    requires Alike(e, f) && Sound(e) && Sound(f)
    ensures Alike(SubmitMarket(p, e, side, qty).engine, SubmitMarket(p, f, side, qty).engine)
    decreases |e.book.stops|, 1, 0
  {
    MatchKeepsStops(p, e.book, side, qty);
    var m := MatchSpec(p, e.book, side, qty);
    hide MatchSpec;
    if m.value != [] {
      BookStepSound(e, m.book);
      BookStepSound(f, m.book);
      assert e.queued + [] == e.queued && f.queued + [] == f.queued;
      hide Sound, Process;
      ProcessAlike(p, e.(book := m.book), f.(book := m.book), m.value[|m.value| - 1].price);
    }
  }

  /** Two engines that agree on which stops stand in their lists, and in which order they
      first occur, end up alike. */
  lemma {:induction false} ProcessAlike(p: Policy, e: Engine, f: Engine, last: int)
    requires e.book == f.book && e.executed == f.executed && Sound(e) && Sound(f)
    requires Once(e.queued + e.stored) == Once(f.queued + f.stored)
    ensures Alike(Process(p, e, last), Process(p, f, last))
    decreases |e.book.stops|, 0, |e.queued| + |e.stored| + |f.queued| + |f.stored| + 1
  {
    assert Members([]) == {};
    DrainAlike(p, e.(queued := [], stored := []), f.(queued := [], stored := []),
               e.queued + e.stored, f.queued + f.stored, last);
  }

  lemma {:induction false} ExecuteAlike(p: Policy, e: Engine, f: Engine, id: nat)
    requires Alike(e, f) && Sound(e) && Sound(f) && id in e.book.stops
    ensures Alike(Execute(p, e, id), Execute(p, f, id))
    decreases |e.book.stops|, 0, 0
  {
    var s := e.book.stops[id];
    assert Detach(e, id).book.stops.Keys == e.book.stops.Keys - {id};
    DetachAlike(e, f, id);
    DetachProgress(e, id);
    DetachProgress(f, id);
    hide Sound, Detach, LimitSpec;
    if s.kind == StopMarket {
      SubmitAlike(p, Detach(e, id), Detach(f, id), s.side, s.qty);
    }
  }

  lemma {:induction false} DrainAlike(p: Policy, e: Engine, f: Engine, q: seq<nat>, q': seq<nat>, last: int)
    requires Alike(e, f) && Sound(e) && Sound(f) && Quiet(e, last) && Quiet(f, last)
    requires AllLive(e, q) && AllLive(f, q')
    requires New(Members(e.queued), q) == New(Members(f.queued), q')
    ensures Alike(Drain(p, e, q, last), Drain(p, f, q', last))
    decreases |e.book.stops|, 0, |q| + |q'|
  {
    AlikeMembers(e, f);
    if q != [] && q[0] in e.queued {
      var e1 := e.(queued := e.queued + [q[0]]);
      OnceAppend(e.queued, q[0]);
      assert Members(e1.queued) == Members(e.queued);
      DrainAlike(p, e1, f, q[1..], q', last);
    } else if q' != [] && q'[0] in f.queued {
      var f1 := f.(queued := f.queued + [q'[0]]);
      OnceAppend(f.queued, q'[0]);
      assert Members(f1.queued) == Members(f.queued);
      DrainAlike(p, e, f1, q, q'[1..], last);
    } else if q == [] {
      assert q' == [];
    } else {
      SameFront(Members(e.queued), q, q');
      var id := q[0];
      if Triggers(e.book.stops[id], last) {
        FireAlike(p, e, f, q, q', last);
      } else {
        OnceAppend(e.queued, id);
        OnceAppend(f.queued, id);
        DrainAlike(p, e.(queued := e.queued + [id]), f.(queued := f.queued + [id]), q[1..], q'[1..], last);
      }
    }
  }

  lemma SameFront(seen: set<nat>, q: seq<nat>, q': seq<nat>)
    requires q != [] && q[0] !in seen && (q' != [] ==> q'[0] !in seen)
    requires New(seen, q) == New(seen, q')
    ensures q' != [] && q[0] == q'[0] && New(seen + {q[0]}, q[1..]) == New(seen + {q[0]}, q'[1..])
  {
    var a, b := New(seen + {q[0]}, q[1..]), New(seen, q');
    assert ([q[0]] + a)[1..] == a;
    if q' != [] {
      var c := New(seen + {q'[0]}, q'[1..]);
      assert b == [q'[0]] + c && ([q'[0]] + c)[1..] == c;
      assert ([q[0]] + a)[0] == b[0];
    }
  }

  lemma {:induction false} FireAlike(p: Policy, e: Engine, f: Engine, q: seq<nat>, q': seq<nat>, last: int)
    requires Alike(e, f) && Sound(e) && Sound(f) && Quiet(e, last) && Quiet(f, last)
    requires AllLive(e, q) && AllLive(f, q') && q != [] && q' != [] && q[0] == q'[0]
    requires Members(e.queued) == Members(f.queued)
    requires New(Members(e.queued) + {q[0]}, q[1..]) == New(Members(e.queued) + {q[0]}, q'[1..])
    requires Triggers(e.book.stops[q[0]], last)
    ensures Alike(Drain(p, e, q, last), Drain(p, f, q', last))
    decreases |e.book.stops|, 0, |q| + |q'|, 0
  {
    var id := q[0];
    var e1, f1 := Execute(p, e, id), Execute(p, f, id);
    ExecuteAlike(p, e, f, id);
    AlikeMembers(e1, f1);
    AfterExecute(p, e, id, q[1..]);
    AfterExecute(p, f, id, q'[1..]);
    ExecuteSound(p, e, id);
    ExecuteSound(p, f, id);
    ExecuteKeeps(p, e, id);
    ExecuteKeeps(p, f, id);
    LiveMembers(e1.book.stops, q[1..]);
    LiveMembers(f1.book.stops, q'[1..]);
    hide Execute, Sound;
    DrainAlike(p, e1, f1, Live(e1.book.stops, q[1..]), Live(f1.book.stops, q'[1..]), last);
  }

  /** The entries still to come are those that were to come before, less the stops gone. */
  lemma AfterExecute(p: Policy, e: Engine, id: nat, q: seq<nat>)
    requires Sound(e) && e.stored == [] && id in e.book.stops
    ensures
      var e1 := Execute(p, e, id);
      New(Members(e1.queued), Live(e1.book.stops, q)) == Live(e1.book.stops, New(Members(e.queued) + {id}, q))
  {
    var e1 := Execute(p, e, id);
    ExecuteKeeps(p, e, id);
    ExecuteSound(p, e, id);
    ExecutedGone(p, e, id);
    hide Execute;
    NewOfLive(e1.book.stops, Members(e.queued) + {id}, Members(e1.queued), q);
  }

  /** Queueing every stop twice comes to the same as queueing it once. */
  lemma QueueingTwiceIsHarmless(p: Policy, e: Engine, last: int)
    requires Sound(e)
    ensures
      var once := e.(queued := Once(e.queued + e.stored), stored := []);
      var r, r1 := Process(p, e, last), Process(p, once, last);
      && r.book == r1.book && r.executed == r1.executed && Once(r.queued) == Once(r1.queued)
  {
    var q := e.queued + e.stored;
    var once := e.(queued := Once(q), stored := []);
    NewMembers({}, q);
    forall id | id in Once(q)
      ensures id in e.book.stops
    {
      assert id in Members(Once(q));
      assert id in Members(q);
    }
    OnceTwice({}, q);
    assert Once(q) + [] == Once(q);
    ProcessAlike(p, e, once, last);
  }

  lemma {:induction false} OnceTwice(seen: set<nat>, q: seq<nat>)
    ensures New(seen, New(seen, q)) == New(seen, q)
    decreases q
  {
    if q != [] {
      if q[0] in seen {
        OnceTwice(seen, q[1..]);
      } else {
        var rest := New(seen + {q[0]}, q[1..]);
        OnceTwice(seen + {q[0]}, q[1..]);
        assert ([q[0]] + rest)[1..] == rest;
      }
    }
  }
}
