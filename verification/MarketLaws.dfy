// What a market order does, stated without its loop: the side is a fixed schedule
// of visible slices, price by price and round by round, and a market order for q
// takes the first q units of that schedule.
module MarketLaws {
  import opened LobTypes
  import opened Sums
  import opened BookSpec

  // ----- the schedule of a side -----

  /** One round at a level: every queued order offers its visible slice, oldest first. */
  function Round(px: int, os: seq<Ord>): seq<Fill> {
    seq(|os|, i requires 0 <= i < |os| => Fill(os[i].id, px, os[i].rem))
  }

  /** The icebergs that come back for the next round, in the order they were served. */
  function Refilled(os: seq<Ord>): seq<Ord> {
    if os == [] then []
    else (if Refills(os[0]) then [Replenish(os[0])] else []) + Refilled(os[1..])
  }

  lemma {:induction false} RefilledShrinks(os: seq<Ord>)
    ensures Sum(Refilled(os), Hidden) + |Refilled(os)| <= Sum(os, Hidden)
    ensures SaneOrders(os) ==> SaneOrders(Refilled(os))
  {
    if os != [] {
      RefilledShrinks(os[1..]);
      if Refills(os[0]) {
        assert Refilled(os)[1..] == Refilled(os[1..]);
      } else {
        assert Refilled(os) == Refilled(os[1..]);
      }
    }
  }

  /** All slices a level will ever offer, round after round. */
  function Rounds(px: int, os: seq<Ord>): seq<Fill>
    decreases Sum(os, Hidden), |os|
  {
    if os == [] then []
    else
      RefilledShrinks(os);
      Round(px, os) + Rounds(px, Refilled(os))
  }

  /** All slices of a side: a level is exhausted before the next one is touched. */
  function Schedule(ls: seq<Level>): seq<Fill> {
    if ls == [] then [] else Rounds(ls[0].price, ls[0].orders) + Schedule(ls[1..])
  }

  /** The first `q` units of a schedule; the last slice may be cut short. */
  function Cut(sl: seq<Fill>, q: nat): seq<Fill> {
    if q == 0 || sl == [] then []
    else
      var take := Min(q, sl[0].qty);
      [sl[0].(qty := take)] + Cut(sl[1..], q - take)
  }

  /** What remains of a schedule after its first `q` units. */
  function Rest(sl: seq<Fill>, q: nat): seq<Fill> {
    if q == 0 || sl == [] then sl
    else if q < sl[0].qty then [sl[0].(qty := sl[0].qty - q)] + sl[1..]
    else Rest(sl[1..], q - sl[0].qty)
  }

  // ----- queue processing follows the rounds -----

  lemma QueueServesRound(px: int, os: seq<Ord>)
    requires os != []
    ensures Rounds(px, os) == [Fill(os[0].id, px, os[0].rem)] + Rounds(px, StrikeAt(os, 0, os[0].rem))
  {
    var rest := os[1..];
    var back := if Refills(os[0]) then [Replenish(os[0])] else [];
    assert StrikeAt(os, 0, os[0].rem) == rest + back;
    assert Refilled(os) == back + Refilled(rest);
    hide Rounds, Round, Refilled, StrikeAt, Replenish, Refills;
    RoundThenBack(px, rest, back);
    RoundsUnfold(px, os);
    RoundHead(px, os);
    ConcatAssociates([Fill(os[0].id, px, os[0].rem)], Round(px, rest), Rounds(px, Refilled(os)));
  }

  lemma RoundHead(px: int, os: seq<Ord>)
    requires os != []
    ensures Round(px, os) == [Fill(os[0].id, px, os[0].rem)] + Round(px, os[1..])
  {
  }

  lemma RoundsUnfold(px: int, os: seq<Ord>)
    ensures Rounds(px, os) == Round(px, os) + Rounds(px, Refilled(os))
  {
  }

  /** Orders queued behind a round are served before the refills of that round. */
  lemma {:induction false} RoundThenBack(px: int, a: seq<Ord>, b: seq<Ord>)
    ensures Rounds(px, a + b) == Round(px, a) + Rounds(px, b + Refilled(a))
    decreases Sum(a + b, Hidden), |a + b|, |b|
  {
    if b == [] {
      assert a + b == a && b + Refilled(a) == Refilled(a);
      RoundsUnfold(px, a);
    } else if a == [] {
      assert a + b == b && b + Refilled(a) == b;
      assert Round(px, a) == [];
    } else {
      RequeueShrinks(a, b);
      RoundThenBack(px, b, Refilled(a));
      RoundSplits(px, a, b);
    }
  }

  lemma RequeueShrinks(a: seq<Ord>, b: seq<Ord>)
    requires a != []
    ensures Sum(b + Refilled(a), Hidden) <= Sum(a + b, Hidden)
    ensures Sum(b + Refilled(a), Hidden) == Sum(a + b, Hidden) ==> |b + Refilled(a)| < |a + b|
  {
    RefilledShrinks(a);
    SumConcat(a, b, Hidden);
    SumConcat(b, Refilled(a), Hidden);
  }

  lemma {:induction false} RoundSplits(px: int, a: seq<Ord>, b: seq<Ord>)
    ensures Rounds(px, a + b) == Round(px, a) + (Round(px, b) + Rounds(px, Refilled(a) + Refilled(b)))
  {
    assert Round(px, a + b) == Round(px, a) + Round(px, b);
    hide Rounds, Round, Refilled;
    RoundsUnfold(px, a + b);
    RefilledConcat(a, b);
    ConcatAssociates(Round(px, a), Round(px, b), Rounds(px, Refilled(a) + Refilled(b)));
  }

  lemma {:induction false} RefilledConcat(a: seq<Ord>, b: seq<Ord>)
    ensures Refilled(a + b) == Refilled(a) + Refilled(b)
  {
    if a == [] {
      assert a + b == b;
    } else {
      var back := if Refills(a[0]) then [Replenish(a[0])] else [];
      assert (a + b)[1..] == a[1..] + b;
      RefilledConcat(a[1..], b);
      assert back + (Refilled(a[1..]) + Refilled(b)) == (back + Refilled(a[1..])) + Refilled(b);
    }
  }

  // ----- the sweep takes the first q units of the schedule -----

  lemma ScheduleOfHead(ls: seq<Level>, os: seq<Ord>)
    requires ls != []
    ensures Schedule(SetQueue(ls, 0, os)) == Rounds(ls[0].price, os) + Schedule(ls[1..])
  {
    assert SetQueue(ls, 0, os) == (if os == [] then [] else [Level(ls[0].price, os)]) + ls[1..];
    if os == [] {
      assert SetQueue(ls, 0, os) == ls[1..];
    } else {
      assert SetQueue(ls, 0, os)[1..] == ls[1..];
    }
  }

  /** What the side still offers once the head slice is gone. */
  function Later(ls: seq<Level>): seq<Fill>
    requires ls != [] && ls[0].orders != []
  {
    Rounds(ls[0].price, StrikeAt(ls[0].orders, 0, ls[0].orders[0].rem)) + Schedule(ls[1..])
  }

  lemma ScheduleHead(ls: seq<Level>)
    requires ls != [] && ls[0].orders != []
    ensures
      var o := ls[0].orders[0];
      Schedule(ls) == [Fill(o.id, ls[0].price, o.rem)] + Later(ls)
  {
    var os, px := ls[0].orders, ls[0].price;
    QueueServesRound(px, os);
    ConcatAssociates([Fill(os[0].id, px, os[0].rem)], Rounds(px, StrikeAt(os, 0, os[0].rem)), Schedule(ls[1..]));
  }

  lemma ConcatAssociates(a: seq<Fill>, b: seq<Fill>, c: seq<Fill>)
    ensures (a + b) + c == a + (b + c)
  {
  }

  lemma WholeStrike(ls: seq<Level>, q: nat)
    requires ls != [] && ls[0].orders != [] && ls[0].orders[0].rem <= q
    ensures Schedule(Strike(ls, q)) == Later(ls)
  {
    ScheduleOfHead(ls, StrikeAt(ls[0].orders, 0, ls[0].orders[0].rem));
  }

  lemma PartialStrike(ls: seq<Level>, q: nat)
    requires ls != [] && ls[0].orders != [] && q < ls[0].orders[0].rem
    ensures
      var o := ls[0].orders[0];
      Schedule(Strike(ls, q)) == [Fill(o.id, ls[0].price, o.rem - q)] + Later(ls)
  {
    var os, ls' := ls[0].orders, Strike(ls, q);
    assert ls' == [Level(ls[0].price, ls'[0].orders)] + ls[1..];
    assert StrikeAt(ls'[0].orders, 0, ls'[0].orders[0].rem) == StrikeAt(os, 0, os[0].rem);
    ScheduleHead(ls');
  }

  /** Price-time priority: the fills are the first `q` units of the schedule, and the
      book left behind offers exactly the rest of it. */
  lemma {:induction false} SweepFollowsSchedule(ls: seq<Level>, q: nat)
    ensures Sweep(ls, q).fills == Cut(Schedule(ls), q)
    ensures Schedule(Sweep(ls, q).levels) == Rest(Schedule(ls), q)
    decreases q, Sum(ls, LevelHidden), Sum(ls, LevelCount)
  {
    if q == 0 || ls == [] {
    } else if ls[0].orders == [] {
      SetQueueSums(ls, 0, [], LevelHidden);
      SetQueueSums(ls, 0, [], LevelCount);
      EmptyLevelOffersNothing(ls, q);
      SweepFollowsSchedule(ls[1..], q);
    } else {
      StrikeDecreases(ls, q);
      hide Sweep, Schedule, Cut, Rest, Strike;
      SweepFollowsSchedule(Strike(ls, q), q - StrikeFill(ls, q).qty);
      TurnFollowsSchedule(ls, q);
    }
  }

  /** If the rest of the sweep follows the schedule, so does the turn before it. */
  lemma TurnFollowsSchedule(ls: seq<Level>, q: nat)
    requires ls != [] && ls[0].orders != [] && q > 0
    requires
      var r, sl := Sweep(Strike(ls, q), q - StrikeFill(ls, q).qty), Schedule(Strike(ls, q));
      r.fills == Cut(sl, q - StrikeFill(ls, q).qty) && Schedule(r.levels) == Rest(sl, q - StrikeFill(ls, q).qty)
    ensures Sweep(ls, q).fills == Cut(Schedule(ls), q)
    ensures Schedule(Sweep(ls, q).levels) == Rest(Schedule(ls), q)
  {
    hide Sweep, Schedule, Cut, Rest, Strike;
    SweepTurn(ls, q);
    ScheduleHead(ls);
    if ls[0].orders[0].rem <= q {
      WholeStrike(ls, q);
    } else {
      PartialStrike(ls, q);
    }
    CutFirst(Schedule(ls), Schedule(Strike(ls, q)), q);
  }

  lemma EmptyLevelOffersNothing(ls: seq<Level>, q: nat)
    requires ls != [] && ls[0].orders == [] && q > 0
    ensures Schedule(ls) == Schedule(ls[1..]) && Sweep(ls, q) == Sweep(ls[1..], q)
  {
    assert Rounds(ls[0].price, []) == [];
  }

  lemma CutFirst(sl: seq<Fill>, rest: seq<Fill>, q: nat)
    requires sl != [] && q > 0
    requires sl[0].qty <= q ==> rest == sl[1..]
    requires q < sl[0].qty ==> rest == [sl[0].(qty := sl[0].qty - q)] + sl[1..]
    ensures
      var take := Min(q, sl[0].qty);
      && Cut(sl, q) == [sl[0].(qty := take)] + Cut(rest, q - take)
      && Rest(sl, q) == Rest(rest, q - take)
  {
  }

  lemma {:induction false} SweepAccounts(ls: seq<Level>, q: nat)
    ensures Sweep(ls, q).left + Sum(Sweep(ls, q).fills, FillQty) == q
    ensures Sweep(ls, q).left > 0 ==> Sweep(ls, q).levels == []
    decreases q, Sum(ls, LevelHidden), Sum(ls, LevelCount)
  {
    if q == 0 || ls == [] {
    } else if ls[0].orders == [] {
      SetQueueSums(ls, 0, [], LevelHidden);
      SetQueueSums(ls, 0, [], LevelCount);
      SweepAccounts(ls[1..], q);
    } else {
      StrikeDecreases(ls, q);
      SweepAccounts(Strike(ls, q), q - StrikeFill(ls, q).qty);
      SweepTurn(ls, q);
    }
  }

  // ----- what an iceberg shows -----

  /** The slices of one order alone: first what it shows, then its display size again and again,
      and last what is left of it. */
  lemma {:induction false} IcebergSlices(px: int, o: Ord)
    ensures
      var sl := Rounds(px, [o]);
      && sl != [] && sl[0] == Fill(o.id, px, o.rem)
      && forall j :: 0 < j < |sl| ==>
           && sl[j].id == o.id && sl[j].price == px
           && 0 < sl[j].qty <= o.display && (j < |sl| - 1 ==> sl[j].qty == o.display)
    ensures SaneOrders([o]) ==> Sum(Rounds(px, [o]), FillQty) == o.rem + o.hidden
    decreases o.hidden
  {
    RoundsUnfold(px, [o]);
    OneRefilled(o);
    assert Round(px, [o]) == [Fill(o.id, px, o.rem)];
    if Refills(o) {
      IcebergSlices(px, Replenish(o));
    }
    if SaneOrders([o]) {
      RoundsSum(px, [o]);
      SumOne(o, Total);
    }
  }

  lemma OneRefilled(o: Ord)
    ensures Refilled([o]) == if Refills(o) then [Replenish(o)] else []
    ensures Rounds(0, []) == []
  {
    assert [o][1..] == [] && Refilled([]) == [];
  }

  /** The iceberg whose refill stands at position `j` of the next round. */
  lemma {:induction false} RefilledFrom(os: seq<Ord>, j: nat) returns (k: nat)
    requires j < |Refilled(os)|
    ensures k < |os| && Refills(os[k]) && Refilled(os)[j] == Replenish(os[k])
  {
    var back := if Refills(os[0]) then [Replenish(os[0])] else [];
    assert Refilled(os) == back + Refilled(os[1..]);
    if j < |back| {
      k := 0;
    } else {
      k := RefilledFrom(os[1..], j - |back|);
      k := k + 1;
    }
  }

  /** Behind the first round of a level every slice is a refill: it belongs to an iceberg of
      that level and is never larger than its display size. */
  lemma {:induction false} RefillsShowDisplay(px: int, os: seq<Ord>, j: nat)
    requires |os| <= j < |Rounds(px, os)|
    ensures exists k :: 0 <= k < |os| && os[k].id == Rounds(px, os)[j].id && 0 < Rounds(px, os)[j].qty <= os[k].display
    decreases Sum(os, Hidden), |os|
  {
    RefilledShrinks(os);
    RoundsUnfold(px, os);
    var back, n := Refilled(os), j - |os|;
    var rest := Rounds(px, back);
    assert Rounds(px, os)[j] == rest[n];
    if n < |back| {
      RoundsUnfold(px, back);
      assert rest[n] == Round(px, back)[n];
      var k := RefilledFrom(os, n);
      assert os[k].id == rest[n].id;
    } else {
      RefillsShowDisplay(px, back, n);
      var m :| 0 <= m < |back| && back[m].id == rest[n].id && 0 < rest[n].qty <= back[m].display;
      var k := RefilledFrom(os, m);
      assert os[k].id == rest[n].id;
    }
  }

  // ----- conservation -----

  lemma {:induction false} CutSum(sl: seq<Fill>, q: nat)
    ensures Sum(Cut(sl, q), FillQty) == Min(q, Sum(sl, FillQty))
    ensures Sum(Rest(sl, q), FillQty) + Sum(Cut(sl, q), FillQty) == Sum(sl, FillQty)
  {
    if q != 0 && sl != [] {
      var take := Min(q, sl[0].qty);
      var head := sl[0].(qty := take);
      CutSum(sl[1..], q - take);
      assert Cut(sl, q)[1..] == Cut(sl[1..], q - take);
      if q < sl[0].qty {
        assert Rest(sl, q)[1..] == sl[1..];
        assert Cut(sl[1..], 0) == [];
      }
    }
  }

  lemma {:induction false} RoundSum(px: int, os: seq<Ord>)
    ensures Sum(Round(px, os), FillQty) == Sum(os, Rem)
  {
    if os != [] {
      assert Round(px, os)[1..] == Round(px, os[1..]);
      RoundSum(px, os[1..]);
    }
  }

  lemma {:induction false} RefilledTotal(os: seq<Ord>)
    requires SaneOrders(os)
    ensures Sum(os, Rem) + Sum(Refilled(os), Total) == Sum(os, Total)
  {
    if os != [] {
      RefilledTotal(os[1..]);
      if Refills(os[0]) {
        assert Refilled(os)[1..] == Refilled(os[1..]);
      } else {
        assert Refilled(os) == Refilled(os[1..]);
      }
    }
  }

  lemma {:induction false} RoundsSum(px: int, os: seq<Ord>)
    requires SaneOrders(os)
    ensures Sum(Rounds(px, os), FillQty) == Sum(os, Total)
    decreases Sum(os, Hidden), |os|
  {
    if os != [] {
      RefilledShrinks(os);
      RoundsSum(px, Refilled(os));
      RoundSum(px, os);
      RefilledTotal(os);
      SumConcat(Round(px, os), Rounds(px, Refilled(os)), FillQty);
    }
  }

  lemma {:induction false} ScheduleSum(ls: seq<Level>)
    requires Sane(ls)
    ensures Sum(Schedule(ls), FillQty) == Liquidity(ls)
  {
    if ls != [] {
      ScheduleSum(ls[1..]);
      RoundsSum(ls[0].price, ls[0].orders);
      SumConcat(Rounds(ls[0].price, ls[0].orders), Schedule(ls[1..]), FillQty);
    }
  }

  /** A property of ladders kept by every strike is kept by the sweep. */
  lemma {:induction false} SweepKeepsShape(side: Side, ls: seq<Level>, q: nat)
    requires Sorted(side, ls) && NoEmpty(ls) && Sane(ls)
    ensures var r := Sweep(ls, q).levels; Sorted(side, r) && NoEmpty(r) && Sane(r)
    decreases q, Sum(ls, LevelHidden), Sum(ls, LevelCount)
  {
    if q != 0 && ls != [] {
      StrikeDecreases(ls, q);
      SweepKeepsShape(side, Strike(ls, q), q - StrikeFill(ls, q).qty);
    }
  }

  /** A market order fills exactly what it can, and the side loses exactly that. */
  lemma MarketConserves(side: Side, ls: seq<Level>, q: nat)
    requires Sorted(side, ls) && NoEmpty(ls) && Sane(ls)
    ensures Sum(Sweep(ls, q).fills, FillQty) == Min(q, Liquidity(ls))
    ensures Liquidity(Sweep(ls, q).levels) == Liquidity(ls) - Min(q, Liquidity(ls))
    ensures Sweep(ls, q).left == q - Min(q, Liquidity(ls))
  {
    SweepFollowsSchedule(ls, q);
    SweepAccounts(ls, q);
    SweepKeepsShape(side, ls, q);
    CutSum(Schedule(ls), q);
    ScheduleSum(ls);
    ScheduleSum(Sweep(ls, q).levels);
  }

  // ----- price priority -----

  /** Fills never step back towards the inside. */
  predicate Outward(side: Side, fs: seq<Fill>) {
    forall i, j :: 0 <= i < j < |fs| ==> fs[i].price == fs[j].price || Before(side, fs[i].price, fs[j].price)
  }

  lemma {:induction false} RoundsPrice(px: int, os: seq<Ord>)
    ensures forall i :: 0 <= i < |Rounds(px, os)| ==> Rounds(px, os)[i].price == px
    decreases Sum(os, Hidden), |os|
  {
    if os != [] {
      RefilledShrinks(os);
      RoundsPrice(px, Refilled(os));
    }
  }

  lemma {:induction false} ScheduleOutward(side: Side, ls: seq<Level>)
    requires Sorted(side, ls)
    ensures Outward(side, Schedule(ls))
    ensures forall i :: 0 <= i < |Schedule(ls)| ==>
              ls != [] && (Schedule(ls)[i].price == ls[0].price || Before(side, ls[0].price, Schedule(ls)[i].price))
  {
    if ls != [] {
      RoundsPrice(ls[0].price, ls[0].orders);
      ScheduleOutward(side, ls[1..]);
      assert |ls| > 1 ==> Before(side, ls[0].price, ls[1].price);
    }
  }

  lemma {:induction false} CutIsPrefix(sl: seq<Fill>, q: nat)
    ensures |Cut(sl, q)| <= |sl|
    ensures forall i :: 0 <= i < |Cut(sl, q)| ==>
              && Cut(sl, q)[i].id == sl[i].id && Cut(sl, q)[i].price == sl[i].price
              && Cut(sl, q)[i].qty <= sl[i].qty
              && (i < |Cut(sl, q)| - 1 ==> Cut(sl, q)[i] == sl[i])
  {
    if q != 0 && sl != [] {
      CutIsPrefix(sl[1..], q - Min(q, sl[0].qty));
    }
  }

  lemma MarketPricesOutward(side: Side, ls: seq<Level>, q: nat)
    requires Sorted(side, ls)
    ensures Outward(side, Sweep(ls, q).fills)
  {
    SweepFollowsSchedule(ls, q);
    ScheduleOutward(side, ls);
    CutIsPrefix(Schedule(ls), q);
  }

  // ----- time priority -----

  /** No id rests twice at a level. */
  predicate UniqueAll(ls: seq<Level>) {
    forall i :: 0 <= i < |ls| ==> UniqueIds(ls[i].orders)
  }

  /** The side and what is still wanted when the market loop has traded `t` times. */
  function AfterTrades(ls: seq<Level>, q: nat, t: nat): (seq<Level>, nat)
    requires NoEmpty(ls)
    decreases t
  {
    if t == 0 || q == 0 || ls == [] then (ls, q)
    else AfterTrades(Strike(ls, q), q - StrikeFill(ls, q).qty, t - 1)
  }

  lemma StrikeKeepsUnique(side: Side, ls: seq<Level>, q: nat)
    requires Sorted(side, ls) && NoEmpty(ls) && UniqueAll(ls) && ls != []
    ensures Sorted(side, Strike(ls, q)) && NoEmpty(Strike(ls, q)) && UniqueAll(Strike(ls, q))
  {
    var os := ls[0].orders;
    var os' := StrikeAt(os, 0, Min(q, os[0].rem));
    assert UniqueIds(os');
  }

  /** The loop resumed after `t` trades makes the fills that are still to come, from a side
      in the same good order. */
  lemma {:induction false} ResumesAfter(side: Side, ls: seq<Level>, q: nat, t: nat)
    requires Sorted(side, ls) && NoEmpty(ls) && UniqueAll(ls) && t <= |Sweep(ls, q).fills|
    ensures
      var (now, left) := AfterTrades(ls, q, t);
      && Sorted(side, now) && NoEmpty(now) && UniqueAll(now)
      && Sweep(ls, q).fills[t..] == Sweep(now, left).fills
    decreases t
  {
    hide Sweep, Strike, Sorted, NoEmpty, UniqueAll, StrikeFill;
    if t > 0 {
      FirstFill(ls, q);
      SweepTurn(ls, q);
      StrikeKeepsUnique(side, ls, q);
      ResumesAfter(side, Strike(ls, q), q - StrikeFill(ls, q).qty, t - 1);
    }
  }

  lemma FirstFill(ls: seq<Level>, q: nat)
    requires NoEmpty(ls) && Sweep(ls, q).fills != []
    ensures q > 0 && ls != [] && ls[0].orders != [] && StrikeFill(ls, q).qty <= q
    ensures Sweep(ls, q).fills[0] == StrikeFill(ls, q)
  {
  }

  lemma LaterPrices(side: Side, ls: seq<Level>)
    requires Sorted(side, ls) && ls != []
    ensures forall c :: 0 <= c < |Schedule(ls[1..])| ==> Schedule(ls[1..])[c].price != ls[0].price
  {
    hide Schedule;
    ScheduleOutward(side, ls[1..]);
    assert |ls| > 1 ==> Before(side, ls[0].price, ls[1].price);
  }

  /** A market order that trades with the head of a queue again has taken the whole visible
      slice of every other order of that queue in between, each in turn. */
  lemma HeadServedAgain(side: Side, ls: seq<Level>, q: nat, b: nat)
    requires Sorted(side, ls) && ls != [] && ls[0].orders != [] && UniqueIds(ls[0].orders)
    requires 0 < b < |Sweep(ls, q).fills|
    requires Sweep(ls, q).fills[b].id == ls[0].orders[0].id && Sweep(ls, q).fills[b].price == ls[0].price
    ensures
      var fs, os := Sweep(ls, q).fills, ls[0].orders;
      |os| <= b && forall j :: 0 <= j < |os| ==> fs[j] == Fill(os[j].id, ls[0].price, os[j].rem)
  {
    var os, px, sl := ls[0].orders, ls[0].price, Schedule(ls);
    var rounds := Rounds(px, os);
    SweepFollowsSchedule(ls, q);
    CutIsPrefix(sl, q);
    LaterPrices(side, ls);
    RoundsUnfold(px, os);
    assert sl == rounds + Schedule(ls[1..]);
    hide Sweep, Schedule, Cut, Rounds, Sorted;
    assert b < |rounds|;
    forall j: nat | j < |os|
      ensures sl[j] == Fill(os[j].id, px, os[j].rem)
    {
      assert sl[j] == rounds[j] == Round(px, os)[j];
    }
  }

  /** An iceberg that refills goes to the tail. Wherever one market order trades twice with
      the same order, at any level and in any round, it takes between the two trades the
      whole visible slice of every other order standing in the queue at the first one, in
      queue order. */
  lemma ReplenishedGoesLast(side: Side, ls: seq<Level>, q: nat, t: nat, b: nat)
    requires Sorted(side, ls) && NoEmpty(ls) && UniqueAll(ls)
    requires t < b < |Sweep(ls, q).fills|
    requires Sweep(ls, q).fills[t].id == Sweep(ls, q).fills[b].id
    requires Sweep(ls, q).fills[t].price == Sweep(ls, q).fills[b].price
    ensures
      var fs, now := Sweep(ls, q).fills, AfterTrades(ls, q, t).0;
      && now != [] && now[0].orders != []
      && var os := now[0].orders;
      && t + |os| <= b
      && forall j :: 0 <= j < |os| ==> fs[t + j] == Fill(os[j].id, now[0].price, os[j].rem)
  {
    var fs := Sweep(ls, q).fills;
    var (now, left) := AfterTrades(ls, q, t);
    ResumesAfter(side, ls, q, t);
    var rest := Sweep(now, left).fills;
    assert rest[0] == fs[t] && rest[b - t] == fs[b];
    FirstFill(now, left);
    hide Sweep, AfterTrades;
    HeadServedAgain(side, now, left, b - t);
    forall j: nat | j < |now[0].orders|
      ensures fs[t + j] == Fill(now[0].orders[j].id, now[0].price, now[0].orders[j].rem)
    {
      assert fs[t + j] == fs[t..][j];
    }
  }

  // ----- composition -----

  lemma {:induction false} LevelsCompose(ls: seq<Level>, p: nat, q: nat)
    ensures Sweep(Sweep(ls, p).levels, q).levels == Sweep(ls, p + q).levels
    decreases p, Sum(ls, LevelHidden), Sum(ls, LevelCount)
  {
    hide Sweep, Strike, Schedule;
    if p == 0 || ls == [] {
      SweepDone(ls, p);
      if ls == [] {
        SweepDone(ls, q);
        SweepDone(ls, p + q);
      }
    } else if ls[0].orders == [] {
      SetQueueSums(ls, 0, [], LevelHidden);
      SetQueueSums(ls, 0, [], LevelCount);
      EmptyLevelOffersNothing(ls, p);
      EmptyLevelOffersNothing(ls, p + q);
      LevelsCompose(ls[1..], p, q);
    } else if p < ls[0].orders[0].rem {
      SweepTurn(ls, p);
      SweepDone(Strike(ls, p), 0);
      PartialStrikesCompose(ls, p, q);
    } else {
      StrikeDecreases(ls, p);
      LevelsCompose(Strike(ls, p), p - ls[0].orders[0].rem, q);
      WholeStrikesCompose(ls, p, q);
    }
  }

  /** A strike that finishes the head is the same for any quantity that does. */
  lemma WholeStrikeAlike(ls: seq<Level>, p: nat, q: nat)
    requires ls != [] && ls[0].orders != [] && ls[0].orders[0].rem <= p <= q
    ensures Strike(ls, p) == Strike(ls, q)
    ensures StrikeFill(ls, p).qty == StrikeFill(ls, q).qty == ls[0].orders[0].rem
  {
  }

  lemma WholeStrikesCompose(ls: seq<Level>, p: nat, q: nat)
    requires ls != [] && ls[0].orders != [] && p > 0
    requires ls[0].orders[0].rem <= p
    ensures Sweep(ls, p).levels == Sweep(Strike(ls, p), p - ls[0].orders[0].rem).levels
    ensures Sweep(ls, p + q).levels == Sweep(Strike(ls, p), p - ls[0].orders[0].rem + q).levels
  {
    hide Sweep, Strike, StrikeFill;
    WholeStrikeAlike(ls, p, p + q);
    SweepTurn(ls, p);
    SweepTurn(ls, p + q);
  }

  lemma PartialStrikesCompose(ls: seq<Level>, p: nat, q: nat)
    requires ls != [] && ls[0].orders != [] && 0 < p < ls[0].orders[0].rem
    ensures Sweep(Strike(ls, p), q).levels == Sweep(ls, p + q).levels
  {
    var ls' := Strike(ls, p);
    SweepTurn(ls, p + q);
    if q > 0 {
      var os, os' := ls[0].orders, ls'[0].orders;
      var take, take' := Min(p + q, os[0].rem), Min(q, os'[0].rem);
      assert StrikeAt(os', 0, take') == StrikeAt(os, 0, take);
      assert Strike(ls', q) == Strike(ls, p + q);
      SweepTurn(ls', q);
    }
  }

  /** The fills `fs` and then `gs` are those of `all`, where one slice may have been cut in
      two: the end of `fs` and the beginning of `gs`. */
  predicate Joins(fs: seq<Fill>, gs: seq<Fill>, all: seq<Fill>) {
    || all == fs + gs
    || (&& fs != [] && gs != []
        && var cut := fs[|fs| - 1];
        && gs[0].id == cut.id && gs[0].price == cut.price
        && all == fs[..|fs| - 1] + [cut.(qty := cut.qty + gs[0].qty)] + gs[1..])
  }

  lemma JoinsBehind(f: Fill, fs: seq<Fill>, gs: seq<Fill>, all: seq<Fill>)
    requires Joins(fs, gs, all)
    ensures Joins([f] + fs, gs, [f] + all)
  {
    if all == fs + gs {
      ConcatAssociates([f], fs, gs);
    } else {
      assert ([f] + fs)[..|fs|] == [f] + fs[..|fs| - 1];
    }
  }

  lemma WholeSlice(sl: seq<Fill>, q: nat)
    requires sl != [] && sl[0].qty <= q && q > 0
    ensures Cut(sl, q) == [sl[0]] + Cut(sl[1..], q - sl[0].qty) && Rest(sl, q) == Rest(sl[1..], q - sl[0].qty)
  {
  }

  lemma {:induction false} CutsCompose(sl: seq<Fill>, p: nat, q: nat)
    ensures Joins(Cut(sl, p), Cut(Rest(sl, p), q), Cut(sl, p + q))
  {
    if p == 0 || sl == [] {
      assert [] + Cut(sl, q) == Cut(sl, q);
    } else if sl[0].qty <= p {
      hide Joins, Cut, Rest;
      CutsCompose(sl[1..], p - sl[0].qty, q);
      WholeSlice(sl, p);
      WholeSlice(sl, p + q);
      JoinsBehind(sl[0], Cut(sl[1..], p - sl[0].qty), Cut(Rest(sl, p), q), Cut(sl[1..], p - sl[0].qty + q));
    } else if q > 0 {
      SliceCut(sl, p, q);
    }
  }

  lemma SliceCut(sl: seq<Fill>, p: nat, q: nat)
    requires sl != [] && 0 < p < sl[0].qty && q > 0
    ensures Joins(Cut(sl, p), Cut(Rest(sl, p), q), Cut(sl, p + q))
  {
    var rest := Rest(sl, p);
    assert rest[1..] == sl[1..];
    assert Cut(sl[1..], 0) == [];
    assert Cut(rest, q)[1..] == Cut(sl[1..], q - Min(q, rest[0].qty));
  }

  /** Two market orders in a row leave the same book as one for their sum, and make the same
      fills, up to the one slice that the first may have cut in two. */
  lemma MarketsCompose(ls: seq<Level>, p: nat, q: nat)
    ensures
      var first := Sweep(ls, p);
      var second := Sweep(first.levels, q);
      var whole := Sweep(ls, p + q);
      && second.levels == whole.levels
      && Joins(first.fills, second.fills, whole.fills)
  {
    hide Sweep, Schedule, Joins;
    LevelsCompose(ls, p, q);
    SweepFollowsSchedule(ls, p);
    SweepFollowsSchedule(Sweep(ls, p).levels, q);
    SweepFollowsSchedule(ls, p + q);
    CutsCompose(Schedule(ls), p, q);
  }
}
