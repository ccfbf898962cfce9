// The laws of pro-rata matching: the allocations are an apportionment of the incoming
// quantity, they do not depend on the arrangement of the queue, and executing them
// fills exactly what the level shows.
module ProRataLaws {
  import opened Arith
  import opened LobTypes
  import opened Sums
  import opened BookSpec
  import opened ProRata

  /** The incoming quantity and what the level shows are 64-bit numbers. */
  predicate Fits(os: seq<Ord>, qty: nat) {
    Sum(os, Rem) < W && qty < W
  }

  /** No product or sum of the computation leaves 64 bits. */
  predicate NoWrap(os: seq<Ord>, qty: nat) {
    && Fits(os, qty)
    && forall i :: 0 <= i < |os| ==> os[i].rem * qty < W
  }

  // ----- sums -----

  lemma {:induction false} SumLe<T>(s: seq<T>, f: T -> nat, g: T -> nat)
    requires forall i :: 0 <= i < |s| ==> f(s[i]) <= g(s[i])
    ensures Sum(s, f) <= Sum(s, g)
  {
    if s != [] {
      SumLe(s[1..], f, g);
    }
  }

  lemma SumEq<T>(s: seq<T>, f: T -> nat, g: T -> nat)
    requires forall i :: 0 <= i < |s| ==> f(s[i]) == g(s[i])
    ensures Sum(s, f) == Sum(s, g)
  {
    SumLe(s, f, g);
    SumLe(s, g, f);
  }

  lemma SumMember<T>(s: seq<T>, f: T -> nat, x: T)
    requires x in s
    ensures f(x) <= Sum(s, f)
  {
    var i :| 0 <= i < |s| && s[i] == x;
    SumSplit(s, i, f);
  }

  lemma {:induction false} SumPlus<T>(s: seq<T>, f: T -> nat, g: T -> nat, h: T -> nat)
    requires forall i :: 0 <= i < |s| ==> h(s[i]) == f(s[i]) + g(s[i])
    ensures Sum(s, h) == Sum(s, f) + Sum(s, g)
  {
    if s != [] {
      SumPlus(s[1..], f, g, h);
    }
  }

  // ----- floors and remainders -----

  /** The floors and the remainders account for the whole quantity. */
  lemma {:induction false} SumDivision(os: seq<Ord>, qty: nat, total: Pos)
    requires forall i :: 0 <= i < |os| ==> os[i].rem * qty < W
    ensures total * Sum(os, Floors(qty, total)) + Sum(os, Lefts(qty, total)) == qty * Sum(os, Rem)
  {
    if os != [] {
      SumDivision(os[1..], qty, total);
      DivisionOf(os[0], qty, total);
      Distribute(total, Floor(os[0], qty, total), Sum(os[1..], Floors(qty, total)));
      Distribute(qty, os[0].rem, Sum(os[1..], Rem));
    }
  }

  lemma DivisionOf(o: Ord, qty: nat, total: Pos)
    requires o.rem * qty < W
    ensures total * Floor(o, qty, total) + Left(o, qty, total) == qty * o.rem
    ensures Left(o, qty, total) < total
    ensures Product(o, qty) == o.rem * qty
  {
  }

  /** Wrapping products only make the floors smaller. */
  lemma {:induction false} FloorsBelow(os: seq<Ord>, qty: nat, total: Pos)
    ensures total * Sum(os, Floors(qty, total)) <= qty * Sum(os, Rem)
  {
    if os != [] {
      FloorsBelow(os[1..], qty, total);
      FloorBelow(os[0], qty, total);
      Distribute(total, Floor(os[0], qty, total), Sum(os[1..], Floors(qty, total)));
      Distribute(qty, os[0].rem, Sum(os[1..], Rem));
    }
  }

  lemma FloorBelow(o: Ord, qty: nat, total: Pos)
    ensures total * Floor(o, qty, total) <= qty * o.rem
  {
    var p := o.rem * qty;
    assert p == W * (p / W) + p % W && Product(o, qty) == total * Floor(o, qty, total) + Left(o, qty, total);
  }

  /** The leftover is what the floors miss, whether products wrap or not. */
  lemma FloorsAndLeftover(os: seq<Ord>, qty: nat)
    requires Fits(os, qty) && Shown(os) > 0
    ensures
      var t := Shown(os);
      t == Sum(os, Rem) && Sum(os, Floors(qty, t)) + Leftover(os, qty, t) == qty
  {
    hide Floors;
    var t := Shown(os);
    FloorsBelow(os, qty, t);
    assert t * Sum(os, Floors(qty, t)) <= t * qty;
    MulCancel(t, Sum(os, Floors(qty, t)), qty);
  }

  function NonZero(qty: nat, total: Pos): Ord -> nat {
    (o: Ord) => if Left(o, qty, total) > 0 then 1 else 0
  }

  lemma {:induction false} LeftsBound(os: seq<Ord>, qty: nat, total: Pos)
    ensures Sum(os, Lefts(qty, total)) <= (total - 1) * Sum(os, NonZero(qty, total))
  {
    if os != [] {
      LeftsBound(os[1..], qty, total);
      Distribute(total - 1, NonZero(qty, total)(os[0]), Sum(os[1..], NonZero(qty, total)));
    }
  }

  /** The leftover is what the floors miss, and no more than there are nonzero remainders. */
  lemma LeftoverExact(os: seq<Ord>, qty: nat)
    requires NoWrap(os, qty) && Shown(os) > 0
    ensures
      var t := Shown(os);
      && t == Sum(os, Rem)
      && Sum(os, Floors(qty, t)) + Leftover(os, qty, t) == qty
      && Leftover(os, qty, t) <= Sum(os, NonZero(qty, t)) <= |os|
  {
    hide Floor, Left, Floors, Lefts, NonZero, Leftover;
    var t := Shown(os);
    FloorsAndLeftover(os, qty);
    hide Shown, Fits;
    var floors, lefts, many := Sum(os, Floors(qty, t)), Sum(os, Lefts(qty, t)), Sum(os, NonZero(qty, t));
    SumDivision(os, qty, t);
    LeftsBound(os, qty, t);
    LeftoverBound(t, floors, lefts, many, qty);
    AtMostOneEach(os, qty, t);
  }

  lemma LeftoverBound(t: Pos, floors: nat, lefts: nat, many: nat, qty: nat)
    requires t * floors + lefts == qty * t
    requires lefts <= (t - 1) * many
    ensures floors <= qty && qty - floors <= many
  {
    MulCancel(t, floors, qty);
    var left: nat := qty - floors;
    Distribute(t, left, floors);
    Distribute(many, t - 1, 1);
    MulCancel(t, left, many);
  }

  lemma {:induction false} AtMostOneEach(os: seq<Ord>, qty: nat, total: Pos)
    ensures Sum(os, NonZero(qty, total)) <= |os|
  {
    if os != [] {
      AtMostOneEach(os[1..], qty, total);
    }
  }

  // ----- ranks -----

  /** Put `o` in its place among ranked orders. */
  function Place(s: seq<Ord>, o: Ord, qty: nat, total: Pos): seq<Ord> {
    if s == [] || Beats(o, s[0], qty, total) then [o] + s
    else [s[0]] + Place(s[1..], o, qty, total)
  }

  function Arrange(os: seq<Ord>, qty: nat, total: Pos): seq<Ord> {
    if os == [] then [] else Place(Arrange(os[1..], qty, total), os[0], qty, total)
  }

  lemma {:induction false} PlaceMembers(s: seq<Ord>, o: Ord, qty: nat, total: Pos)
    ensures multiset(Place(s, o, qty, total)) == multiset(s) + multiset{o}
  {
    if s != [] && !Beats(o, s[0], qty, total) {
      PlaceMembers(s[1..], o, qty, total);
      assert s == [s[0]] + s[1..];
    }
  }

  lemma {:induction false} PlaceRanked(s: seq<Ord>, o: Ord, qty: nat, total: Pos)
    requires Ranked(s, qty, total) && forall x :: x in s ==> x.id != o.id
    ensures Ranked(Place(s, o, qty, total), qty, total)
  {
    if s != [] {
      assert s[0] in s;
      if Beats(o, s[0], qty, total) {
        assert forall j :: 0 <= j < |s| ==> Beats(o, s[j], qty, total);
      } else {
        var rest := Place(s[1..], o, qty, total);
        PlaceRanked(s[1..], o, qty, total);
        PlaceMembers(s[1..], o, qty, total);
        BeatsTotal(s[0], o, qty, total);
        forall j | 0 <= j < |rest|
          ensures Beats(s[0], rest[j], qty, total)
        {
          assert rest[j] in multiset(rest);
          assert rest[j] in s[1..] || rest[j] == o;
        }
      }
    }
  }

  lemma {:induction false} ArrangeRanks(os: seq<Ord>, qty: nat, total: Pos)
    requires UniqueIds(os)
    ensures multiset(Arrange(os, qty, total)) == multiset(os)
    ensures Ranked(Arrange(os, qty, total), qty, total)
  {
    if os != [] {
      var s := Arrange(os[1..], qty, total);
      ArrangeRanks(os[1..], qty, total);
      PlaceMembers(s, os[0], qty, total);
      assert os == [os[0]] + os[1..];
      forall x | x in s
        ensures x.id != os[0].id
      {
        assert x in multiset(s);
        assert x in os[1..];
      }
      PlaceRanked(s, os[0], qty, total);
    }
  }

  function Wins(os: seq<Ord>, qty: nat, total: Pos, n: nat): Ord -> nat {
    (o: Ord) => if RankOf(os, o, qty, total) < n then 1 else 0
  }

  /** Exactly `n` orders have a rank below `n`, or all of them when there are fewer. */
  lemma WinnersCount(os: seq<Ord>, qty: nat, total: Pos, n: nat)
    requires UniqueIds(os)
    ensures Sum(os, Wins(os, qty, total, n)) == Min(n, |os|)
  {
    var s := Arrange(os, qty, total);
    var f := Wins(os, qty, total, n);
    ArrangeRanks(os, qty, total);
    assert |multiset(s)| == |s| && |multiset(os)| == |os|;
    SumPermutation(os, s, f);
    forall k: nat | k < |s|
      ensures f(s[k]) == if k < n then 1 else 0
    {
      RankIsPosition(os, s, k, qty, total);
    }
    hide Wins;
    FirstOnes(s, f, Min(n, |os|));
  }

  lemma FirstOnes(s: seq<Ord>, f: Ord -> nat, n: nat)
    requires n <= |s| && forall k :: 0 <= k < |s| ==> f(s[k]) == if k < n then 1 else 0
    ensures Sum(s, f) == n
  {
    assert s == s[..n] + s[n..];
    SumConcat(s[..n], s[n..], f);
    AllOnes(s[..n], f);
    AllZeros(s[n..], f);
  }

  /** Being ahead carries over to ranks. */
  lemma AheadRanks(os: seq<Ord>, a: Ord, b: Ord, qty: nat, total: Pos)
    requires Beats(a, b, qty, total)
    ensures RankOf(os, a, qty, total) <= RankOf(os, b, qty, total)
  {
    SumLe(os, Beaters(a, qty, total), Beaters(b, qty, total));
  }

  // ----- the apportionment -----

  /** Adding a leftover unit never wraps. */
  lemma ShareExact(os: seq<Ord>, qty: nat, o: Ord)
    requires Fits(os, qty) && Shown(os) > 0 && o in os
    ensures
      var t := Shown(os);
      Share(os, qty, t, o) == Floor(o, qty, t) + if RankOf(os, o, qty, t) < Leftover(os, qty, t) then 1 else 0
  {
    var t := Shown(os);
    FloorsAndLeftover(os, qty);
    SumMember(os, Floors(qty, t), o);
    assert Floors(qty, t)(o) == Floor(o, qty, t);
    hide Floor, RankOf, Leftover;
  }

  /** What is allocated in all, wrapped products included: the quantity less the leftover
      units beyond one per order. So it is the whole quantity if and only if the loop over
      the sorted indices can hand out every leftover unit. */
  lemma SharesSumIff(os: seq<Ord>, qty: nat)
    requires UniqueIds(os) && Fits(os, qty) && Shown(os) > 0
    ensures
      var t := Shown(os);
      var sum, leftover := Sum(os, Shares(os, qty, t)), Leftover(os, qty, t);
      && sum + leftover == qty + Min(leftover, |os|)
      && (sum == qty <==> leftover <= |os|)
  {
    var t := Shown(os);
    var n := Leftover(os, qty, t);
    FloorsAndLeftover(os, qty);
    WinnersCount(os, qty, t, n);
    forall i | 0 <= i < |os|
      ensures Shares(os, qty, t)(os[i]) == Floors(qty, t)(os[i]) + Wins(os, qty, t, n)(os[i])
    {
      ShareExact(os, qty, os[i]);
    }
    SumPlus(os, Floors(qty, t), Wins(os, qty, t, n), Shares(os, qty, t));
  }

  /** The allocations sum to exactly the incoming quantity when no product wraps. */
  lemma SharesSumToQuantity(os: seq<Ord>, qty: nat)
    requires UniqueIds(os) && NoWrap(os, qty) && Shown(os) > 0
    ensures Sum(os, Shares(os, qty, Shown(os))) == qty
  {
    LeftoverExact(os, qty);
    SharesSumIff(os, qty);
  }

  /** Only orders with a nonzero remainder get a leftover unit. */
  lemma WinnerHasRemainder(os: seq<Ord>, qty: nat, o: Ord)
    requires NoWrap(os, qty) && Shown(os) > 0
    requires RankOf(os, o, qty, Shown(os)) < Leftover(os, qty, Shown(os))
    ensures Left(o, qty, Shown(os)) > 0
  {
    var t := Shown(os);
    LeftoverExact(os, qty);
    if Left(o, qty, t) == 0 {
      SumLe(os, NonZero(qty, t), Beaters(o, qty, t));
    }
  }

  /** Every share is the floor or the ceiling of the proportional part. */
  lemma ShareIsFloorOrCeiling(os: seq<Ord>, qty: nat, o: Ord)
    requires NoWrap(os, qty) && Shown(os) > 0 && o in os
    ensures
      var t := Sum(os, Rem);
      var share := Share(os, qty, Shown(os), o);
      && t > 0
      && (share == o.rem * qty / t || (share == o.rem * qty / t + 1 && o.rem * qty % t > 0))
  {
    var t := Shown(os);
    var i :| 0 <= i < |os| && os[i] == o;
    LeftoverExact(os, qty);
    ShareExact(os, qty, o);
    DivisionOf(o, qty, t);
    if RankOf(os, o, qty, t) < Leftover(os, qty, t) {
      WinnerHasRemainder(os, qty, o);
    }
  }

  /** When the level shows enough, nobody is allocated more than it shows. */
  lemma {:induction false} ShareFitsVisible(os: seq<Ord>, qty: nat, o: Ord)
    requires NoWrap(os, qty) && Shown(os) > 0 && o in os && qty <= Sum(os, Rem)
    ensures Share(os, qty, Shown(os), o) <= o.rem
  {
    var t := Sum(os, Rem);
    hide Share, RankOf, Leftover, Floor, Left;
    LeftoverExact(os, qty);
    ShareIsFloorOrCeiling(os, qty, o);
    MulMonotone(qty, t, o.rem);
    FloorBound(o.rem * qty, t, o.rem);
  }

  lemma FloorBound(x: nat, t: Pos, r: nat)
    requires x <= t * r
    ensures x / t <= r
    ensures x / t == r ==> x % t == 0
  {
    assert x == t * (x / t) + x % t;
    MulCancel(t, x / t, r);
  }

  /** When the level shows no more than is wanted, everybody is allocated all it shows. */
  lemma {:induction false} ShareCoversVisible(os: seq<Ord>, qty: nat, o: Ord)
    requires NoWrap(os, qty) && Shown(os) > 0 && o in os && qty >= Sum(os, Rem)
    ensures Share(os, qty, Shown(os), o) >= o.rem
  {
    var t := Sum(os, Rem);
    hide Share, RankOf, Leftover, Floor, Left;
    LeftoverExact(os, qty);
    ShareIsFloorOrCeiling(os, qty, o);
    MulMonotone(t, qty, o.rem);
    FloorCovers(o.rem * qty, t, o.rem);
  }

  lemma FloorCovers(x: nat, t: Pos, r: nat)
    requires t * r <= x
    ensures r <= x / t
  {
    assert x == t * (x / t) + x % t;
    MulCancel(t, r, x / t);
  }

  // ----- fairness -----

  /** A share is a function of the orders of the level, not of their arrangement. */
  lemma ShareIgnoresArrangement(os: seq<Ord>, os': seq<Ord>, qty: nat, o: Ord)
    requires multiset(os) == multiset(os')
    ensures Shown(os) == Shown(os')
    ensures Shown(os) > 0 ==> Share(os, qty, Shown(os), o) == Share(os', qty, Shown(os'), o)
  {
    SumPermutation(os, os', Rem);
    var t := Shown(os);
    if t > 0 {
      SumPermutation(os, os', Floors(qty, t));
      SumPermutation(os, os', Beaters(o, qty, t));
    }
  }

  /** What an order is offered depends on where it stands in neither queue. */
  lemma OffersIgnoreArrangement(os: seq<Ord>, os': seq<Ord>, qty: nat, minFill: nat, i: nat, j: nat)
    requires multiset(os) == multiset(os') && Shown(os) > 0 && i < |os| && j < |os'| && os[i] == os'[j]
    ensures Shown(os') == Shown(os)
    ensures Offers(os, qty, minFill, Shown(os))[i] == Offers(os', qty, minFill, Shown(os))[j]
  {
    ShareIgnoresArrangement(os, os', qty, os[i]);
  }

  lemma DivModMonotone(x: nat, y: nat, t: Pos)
    requires x >= y
    ensures x / t >= y / t
    ensures x / t == y / t ==> x % t >= y % t
    ensures x / t == y / t && x % t == y % t ==> x == y
  {
    assert x == t * (x / t) + x % t && y == t * (y / t) + y % t;
    PartsMonotone(t, x / t, x % t, y / t, y % t);
  }

  lemma PartsMonotone(t: Pos, q: nat, r: nat, q': nat, r': nat)
    requires t * q + r >= t * q' + r' && r < t
    ensures q >= q' && (q == q' ==> r >= r')
  {
    MulCancel(t, q', q);
  }

  /** The order with the larger 64-bit product never gets less, whether products wrap or not; of
      two equal products the lower id gets at most one unit more. */
  lemma LargerProductNeverGetsLess(os: seq<Ord>, qty: nat, a: Ord, b: Ord)
    requires Fits(os, qty) && Shown(os) > 0 && a in os && b in os
    requires Product(a, qty) > Product(b, qty) || (Product(a, qty) == Product(b, qty) && a.id < b.id)
    ensures
      var t := Shown(os);
      && Share(os, qty, t, a) >= Share(os, qty, t, b)
      && (Product(a, qty) == Product(b, qty) ==> Share(os, qty, t, a) <= Share(os, qty, t, b) + 1)
  {
    var t := Shown(os);
    ShareExact(os, qty, a);
    ShareExact(os, qty, b);
    DivModMonotone(Product(a, qty), Product(b, qty), t);
    if Floor(a, qty, t) == Floor(b, qty, t) {
      assert Beats(a, b, qty, t);
      AheadRanks(os, a, b, qty, t);
    }
  }

  lemma NothingForNothing(os: seq<Ord>, o: Ord)
    requires Fits(os, 0) && Shown(os) > 0 && o in os
    ensures Share(os, 0, Shown(os), o) == 0
  {
    ShareExact(os, 0, o);
    FloorsAndLeftover(os, 0);
    SumMember(os, Floors(0, Shown(os)), o);
  }

  /** A strictly larger order never gets less; of two equal ones the lower id gets at most
      one unit more. */
  lemma LargerNeverGetsLess(os: seq<Ord>, qty: nat, a: Ord, b: Ord)
    requires NoWrap(os, qty) && Shown(os) > 0 && a in os && b in os
    requires a.rem > b.rem || (a.rem == b.rem && a.id < b.id)
    ensures
      var t := Shown(os);
      && Share(os, qty, t, a) >= Share(os, qty, t, b)
      && (a.rem == b.rem ==> Share(os, qty, t, a) <= Share(os, qty, t, b) + 1)
  {
    hide Share, Shown, Product, Fits;
    if qty == 0 {
      NothingForNothing(os, a);
      NothingForNothing(os, b);
    } else {
      LargerProduct(a, b, qty);
      LargerProductNeverGetsLess(os, qty, a, b);
    }
  }

  lemma LargerProduct(a: Ord, b: Ord, qty: nat)
    requires qty > 0 && a.rem * qty < W && b.rem * qty < W && a.rem >= b.rem
    ensures a.rem > b.rem ==> Product(a, qty) > Product(b, qty)
    ensures a.rem == b.rem ==> Product(a, qty) == Product(b, qty)
  {
    if a.rem > b.rem {
      MulMonotone(b.rem + 1, a.rem, qty);
    }
  }

  // ----- the 64-bit boundary -----

  /** The products do wrap when quantities are large: one order of 2^33 and an incoming
      2^31 are far inside 64 bits, yet only a single unit is allocated. */
  lemma WrapLosesQuantity()
    ensures
      var o := Ord(1, 0x2_0000_0000, 0x2_0000_0000, 0, 0);
      && UniqueIds([o]) && Shown([o]) > 0 && Fits([o], 0x8000_0000) && !NoWrap([o], 0x8000_0000)
      && Sum([o], Shares([o], 0x8000_0000, Shown([o]))) == 1
  {
    var o := Ord(1, 0x2_0000_0000, 0x2_0000_0000, 0, 0);
    var q := 0x8000_0000;
    SumOne(o, Rem);
    var t := Shown([o]);
    assert Floor(o, q, t) == 0 && Left(o, q, t) == 0;
    SumOne(o, Floors(q, t));
    SharesSumIff([o], q);
    assert [o][0].rem * q == W;
  }

  /** Wrapping also turns the priority of size around: an order of 2^33 gets one unit of 2^31,
      and an order of 5 beside it gets two. */
  lemma WrapFavoursSmaller()
    ensures
      var a, b := Ord(1, 0x2_0000_0000, 0x2_0000_0000, 0, 0), Ord(2, 5, 5, 0, 0);
      var os, q := [a, b], 0x8000_0000;
      && Fits(os, q) && Shown(os) > 0 && a.rem > b.rem
      && Share(os, q, Shown(os), a) == 1 && Share(os, q, Shown(os), b) == 2
  {
    var a, b := Ord(1, 0x2_0000_0000, 0x2_0000_0000, 0, 0), Ord(2, 5, 5, 0, 0);
    var os, q := [a, b], 0x8000_0000;
    PairSum(a, b, Rem);
    var t := Shown(os);
    assert Floor(a, q, t) == 0 && Floor(b, q, t) == 1;
    PairSum(a, b, Floors(q, t));
    PairSum(a, b, Beaters(a, q, t));
    PairSum(a, b, Beaters(b, q, t));
  }

  lemma PairSum(a: Ord, b: Ord, f: Ord -> nat)
    ensures Sum([a, b], f) == f(a) + f(b)
  {
    assert [a, b] == [a] + [b];
    SumAppend([a], b, f);
    SumOne(a, f);
  }

  // ----- executing the allocations -----

  /** What `o` trades when offered g(o). */
  function Capped(g: Ord -> nat): Ord -> nat {
    (o: Ord) => Min(g(o), o.rem)
  }

  lemma {:induction false} TradesSum(px: int, os: seq<Ord>, alloc: seq<nat>, g: Ord -> nat)
    requires |os| == |alloc| && forall i :: 0 <= i < |os| ==> alloc[i] == g(os[i])
    ensures Sum(Each(os, alloc, Trade(px)), FillQty) == Sum(os, Capped(g))
  {
    if os != [] {
      var n := |os| - 1;
      assert os == os[..n] + [os[n]];
      assert Capped(g)(os[n]) == Min(alloc[n], os[n].rem);
      hide Each, Trade, Sum, Min, Capped;
      TradesSum(px, os[..n], alloc[..n], g);
      EachLast(os, alloc, Trade(px));
      SumAppend(os[..n], os[n], Capped(g));
      TradeQty(px, os[n], alloc[n]);
      SumConcat(Each(os[..n], alloc[..n], Trade(px)), Trade(px)(os[n], alloc[n]), FillQty);
    }
  }

  lemma TradeQty(px: int, o: Ord, a: nat)
    ensures Sum(Trade(px)(o, a), FillQty) == Min(a, o.rem)
  {
    SumOne(Fill(o.id, px, Min(a, o.rem)), FillQty);
  }

  function Offered(os: seq<Ord>, qty: nat, minFill: nat, total: Pos): Ord -> nat {
    (o: Ord) => CutSmall(Share(os, qty, total, o), minFill)
  }

  lemma {:induction false} SumZero<T>(s: seq<T>, f: T -> nat)
    ensures Sum(s, f) == 0 <==> forall i :: 0 <= i < |s| ==> f(s[i]) == 0
  {
    if s != [] {
      SumZero(s[1..], f);
      assert forall i :: 0 < i < |s| ==> s[i] == s[1..][i - 1];
      assert forall i :: 0 <= i < |s[1..]| ==> s[1..][i] == s[i + 1];
    }
  }

  /** No order has a positive allocation below min_fill. */
  predicate NoneCut(os: seq<Ord>, qty: nat, minFill: nat, total: Pos) {
    forall i :: 0 <= i < |os| ==> Share(os, qty, total, os[i]) == 0 || Share(os, qty, total, os[i]) >= minFill
  }

  function CutAway(os: seq<Ord>, qty: nat, minFill: nat, total: Pos): Ord -> nat {
    (o: Ord) => if Share(os, qty, total, o) < minFill then Share(os, qty, total, o) else 0
  }

  /** The min_fill cut gives up exactly the shares below it; they are not redistributed. The
      whole quantity is offered if and only if no order has a positive share below min_fill. */
  lemma MinFillOffersAllIff(os: seq<Ord>, qty: nat, minFill: nat)
    requires UniqueIds(os) && NoWrap(os, qty) && Shown(os) > 0
    ensures
      var t := Shown(os);
      && Sum(os, Offered(os, qty, minFill, t)) + Sum(os, CutAway(os, qty, minFill, t)) == qty
      && (Sum(os, Offered(os, qty, minFill, t)) == qty <==> NoneCut(os, qty, minFill, t))
  {
    var t := Shown(os);
    SharesSumToQuantity(os, qty);
    SumPlus(os, Offered(os, qty, minFill, t), CutAway(os, qty, minFill, t), Shares(os, qty, t));
    SumZero(os, CutAway(os, qty, minFill, t));
    forall i | 0 <= i < |os|
      ensures CutAway(os, qty, minFill, t)(os[i]) == 0
         <==> Share(os, qty, t, os[i]) == 0 || Share(os, qty, t, os[i]) >= minFill
    {
    }
  }

  /** What the cut keeps an order from trading. */
  function Withheld(os: seq<Ord>, qty: nat, minFill: nat, total: Pos): Ord -> nat {
    (o: Ord) => if Share(os, qty, total, o) < minFill then Min(Share(os, qty, total, o), o.rem) else 0
  }

  /** Without a cut the orders trade the smaller of the quantity and what the level shows. */
  lemma SharesTrade(os: seq<Ord>, qty: nat)
    requires UniqueIds(os) && NoWrap(os, qty) && Shown(os) > 0
    ensures Sum(os, Capped(Shares(os, qty, Shown(os)))) == Min(qty, Visible(os))
  {
    var t := Shown(os);
    var g := Shares(os, qty, t);
    if qty <= Sum(os, Rem) {
      forall i | 0 <= i < |os|
        ensures Capped(g)(os[i]) == g(os[i])
      {
        ShareFitsVisible(os, qty, os[i]);
      }
      SumEq(os, Capped(g), g);
      SharesSumToQuantity(os, qty);
    } else {
      forall i | 0 <= i < |os|
        ensures Capped(g)(os[i]) == Rem(os[i])
      {
        ShareCoversVisible(os, qty, os[i]);
      }
      SumEq(os, Capped(g), Rem);
    }
  }

  /** An order that shows nothing is allocated nothing. */
  lemma ShareNeedsVisible(os: seq<Ord>, qty: nat, o: Ord)
    requires NoWrap(os, qty) && Shown(os) > 0 && o in os && o.rem == 0
    ensures Share(os, qty, Shown(os), o) == 0
  {
    hide Share, RankOf, Leftover, Floor, Left;
    ShareIsFloorOrCeiling(os, qty, o);
  }

  /** One order: what it trades and what is withheld from it. */
  lemma TradedOrWithheld(os: seq<Ord>, qty: nat, minFill: nat, t: Pos, o: Ord)
    requires NoWrap(os, qty) && Shown(os) == t && o in os
    ensures Capped(Shares(os, qty, t))(o)
         == Capped(Offered(os, qty, minFill, t))(o) + Withheld(os, qty, minFill, t)(o)
    ensures Withheld(os, qty, minFill, t)(o) == 0
         <==> Share(os, qty, t, o) == 0 || Share(os, qty, t, o) >= minFill
  {
    hide Share, Shown, NoWrap;
    if o.rem == 0 {
      ShareNeedsVisible(os, qty, o);
    }
    var share := Share(os, qty, t, o);
    assert Shares(os, qty, t)(o) == share && Offered(os, qty, minFill, t)(o) == CutSmall(share, minFill);
  }

  lemma TradedIff(os: seq<Ord>, qty: nat, minFill: nat)
    requires UniqueIds(os) && NoWrap(os, qty) && Shown(os) > 0
    ensures
      var t := Shown(os);
      var traded, wanted := Sum(os, Capped(Offered(os, qty, minFill, t))), Min(qty, Visible(os));
      && traded + Sum(os, Withheld(os, qty, minFill, t)) == wanted
      && (traded == wanted <==> NoneCut(os, qty, minFill, t))
  {
    hide Share, Shown, NoWrap, UniqueIds, Capped, Offered, Shares, Withheld, Sum;
    var t := Shown(os);
    SharesTrade(os, qty);
    forall i | 0 <= i < |os|
      ensures Capped(Shares(os, qty, t))(os[i])
           == Capped(Offered(os, qty, minFill, t))(os[i]) + Withheld(os, qty, minFill, t)(os[i])
      ensures Withheld(os, qty, minFill, t)(os[i]) == 0
         <==> Share(os, qty, t, os[i]) == 0 || Share(os, qty, t, os[i]) >= minFill
    {
      TradedOrWithheld(os, qty, minFill, t, os[i]);
    }
    SumZero(os, Withheld(os, qty, minFill, t));
    SumPlus(os, Capped(Offered(os, qty, minFill, t)), Withheld(os, qty, minFill, t), Capped(Shares(os, qty, t)));
  }

  /** The fills of a pro-rata match are what the orders of the best level trade when offered
      their allocations. */
  lemma FillsAreTrades(b: Book, side: Side, qty: nat, minFill: nat)
    requires b.SideOf(Opposite(side)) != []
    ensures
      var os := b.SideOf(Opposite(side))[0].orders;
      Sum(ProRataMatch(b, side, qty, minFill).value, FillQty)
      == if Shown(os) == 0 then 0 else Sum(os, Capped(Offered(os, qty, minFill, Shown(os))))
  {
    var ls := b.SideOf(Opposite(side));
    var os := ls[0].orders;
    var t := Shown(os);
    if t == 0 {
      assert Sum<Fill>([], FillQty) == 0;
    } else {
      TradesSum(ls[0].price, os, Offers(os, qty, minFill, t), Offered(os, qty, minFill, t));
      hide Share, Shown, Served, Each;
    }
  }

  /** The executed fills, for every min_fill: they fall short of the smaller of the incoming
      quantity and what the best level shows by what the cut withholds, so they reach it if
      and only if no order has a positive allocation below min_fill. */
  lemma FillsReachLevelIff(b: Book, side: Side, qty: nat, minFill: nat)
    requires
      var ls := b.SideOf(Opposite(side));
      ls != [] && UniqueIds(ls[0].orders) && NoWrap(ls[0].orders, qty)
    ensures
      var os := b.SideOf(Opposite(side))[0].orders;
      var t := Shown(os);
      var filled, wanted := Sum(ProRataMatch(b, side, qty, minFill).value, FillQty), Min(qty, Visible(os));
      && (t == 0 ==> filled == wanted == 0)
      && (t > 0 ==>
            && filled + Sum(os, Withheld(os, qty, minFill, t)) == wanted
            && (filled == wanted <==> NoneCut(os, qty, minFill, t)))
  {
    var os := b.SideOf(Opposite(side))[0].orders;
    FillsAreTrades(b, side, qty, minFill);
    if Shown(os) > 0 {
      TradedIff(os, qty, minFill);
      hide Shown;
    }
    hide ProRataMatch, Share, NoneCut, Capped, Withheld, Offered, UniqueIds;
  }

  /** Every fill of a pro-rata match is a positive part of what one order of the best level
      shows, at the price of that level. */
  lemma FillsAreAtBest(b: Book, side: Side, qty: nat, minFill: nat, j: nat)
    requires j < |ProRataMatch(b, side, qty, minFill).value|
    ensures
      var ls, f := b.SideOf(Opposite(side)), ProRataMatch(b, side, qty, minFill).value[j];
      && ls != [] && f.price == ls[0].price
      && exists k :: 0 <= k < |ls[0].orders| && ls[0].orders[k].id == f.id && 0 < f.qty <= ls[0].orders[k].rem
  {
    var ls := b.SideOf(Opposite(side));
    hide Shown, Served, Each, Share;
    TradesAreAtBest(ls[0].price, ls[0].orders, Offers(ls[0].orders, qty, minFill, Shown(ls[0].orders)), j);
  }

  lemma {:induction false} TradesAreAtBest(px: int, os: seq<Ord>, alloc: seq<nat>, j: nat)
    requires |os| == |alloc| && j < |Each(os, alloc, Trade(px))|
    ensures
      var f := Each(os, alloc, Trade(px))[j];
      f.price == px && exists k :: 0 <= k < |os| && os[k].id == f.id && 0 < f.qty <= os[k].rem
    decreases |os|
  {
    if os != [] {
      var n := |os| - 1;
      EachLast(os, alloc, Trade(px));
      if j < |Each(os[..n], alloc[..n], Trade(px))| {
        TradesAreAtBest(px, os[..n], alloc[..n], j);
      } else {
        assert Trade(px)(os[n], alloc[n]) == [Each(os, alloc, Trade(px))[j]];
      }
    }
  }

  /** What is offered to an order beyond what it shows. */
  function Excess(g: Ord -> nat): Ord -> nat {
    (o: Ord) => if g(o) > o.rem then g(o) - o.rem else 0
  }

  /** Where the incoming quantity goes, for all 64-bit inputs, wrapped products included: it is
      filled, cut by min_fill, offered beyond what an order shows, or never handed out. All of it
      is filled if and only if the leftover can be handed out, no positive allocation is below
      min_fill, and none exceeds what its order shows. */
  lemma WhereTheQuantityGoes(b: Book, side: Side, qty: nat, minFill: nat)
    requires
      var ls := b.SideOf(Opposite(side));
      ls != [] && UniqueIds(ls[0].orders) && Fits(ls[0].orders, qty) && Shown(ls[0].orders) > 0
    ensures
      var os := b.SideOf(Opposite(side))[0].orders;
      var t := Shown(os);
      var g, left := Offered(os, qty, minFill, t), Leftover(os, qty, t);
      var filled := Sum(ProRataMatch(b, side, qty, minFill).value, FillQty);
      && filled + Sum(os, CutAway(os, qty, minFill, t)) + Sum(os, Excess(g)) + left == qty + Min(left, |os|)
      && (filled == qty <==>
            left <= |os| && NoneCut(os, qty, minFill, t) && forall i :: 0 <= i < |os| ==> g(os[i]) <= os[i].rem)
  {
    var os := b.SideOf(Opposite(side))[0].orders;
    hide ProRataMatch, Share, Leftover;
    FillsAreTrades(b, side, qty, minFill);
    GoesSomewhere(os, qty, minFill);
    hide Shown, NoneCut, Capped, Excess, Offered, CutAway;
  }

  lemma GoesSomewhere(os: seq<Ord>, qty: nat, minFill: nat)
    requires UniqueIds(os) && Fits(os, qty) && Shown(os) > 0
    ensures
      var t := Shown(os);
      var g, left := Offered(os, qty, minFill, t), Leftover(os, qty, t);
      var traded := Sum(os, Capped(g));
      && traded + Sum(os, CutAway(os, qty, minFill, t)) + Sum(os, Excess(g)) + left == qty + Min(left, |os|)
      && (traded == qty <==>
            left <= |os| && NoneCut(os, qty, minFill, t) && forall i :: 0 <= i < |os| ==> g(os[i]) <= os[i].rem)
  {
    hide Share, Shown, Leftover, Fits, UniqueIds;
    var t := Shown(os);
    var g, cut := Offered(os, qty, minFill, t), CutAway(os, qty, minFill, t);
    SharesSumIff(os, qty);
    SumPlus(os, g, cut, Shares(os, qty, t));
    SumPlus(os, Capped(g), Excess(g), g);
    SumZero(os, cut);
    SumZero(os, Excess(g));
    forall i | 0 <= i < |os|
      ensures cut(os[i]) == 0 <==> Share(os, qty, t, os[i]) == 0 || Share(os, qty, t, os[i]) >= minFill
      ensures Excess(g)(os[i]) == 0 <==> g(os[i]) <= os[i].rem
    {
    }
  }

  /** With a min_fill of 2 an incoming single unit is lost, although the level shows five. */
  lemma MinFillLosesUnit()
    ensures
      var b := Book([], [Level(100, [Ord(1, 5, 5, 0, 0)])], 2, 0, map[]);
      && NoWrap(b.asks[0].orders, 1) && Min(1, Visible(b.asks[0].orders)) == 1
      && Sum(ProRataMatch(b, Buy, 1, 2).value, FillQty) == 0
      && Sum(ProRataMatch(b, Buy, 1, 1).value, FillQty) == 1
  {
    var o := Ord(1, 5, 5, 0, 0);
    var b := Book([], [Level(100, [o])], 2, 0, map[]);
    SumOne(o, Rem);
    assert b.SideOf(Sell)[0].orders == [o] && Shown([o]) == 5;
    FillsReachLevelIff(b, Buy, 1, 2);
    ProRataFillsLevel(b, Buy, 1, 1);
    SumOne(o, Withheld([o], 1, 2, 5));
    SharesSumToQuantity([o], 1);
    SumOne(o, Shares([o], 1, 5));
  }

  /** With a min_fill of at most one unit the fills always total the smaller of the incoming
      quantity and what the best level shows. */
  lemma ProRataFillsLevel(b: Book, side: Side, qty: nat, minFill: nat)
    requires minFill <= 1
    requires
      var ls := b.SideOf(Opposite(side));
      ls != [] && UniqueIds(ls[0].orders) && NoWrap(ls[0].orders, qty)
    ensures Sum(ProRataMatch(b, side, qty, minFill).value, FillQty)
         == Min(qty, Visible(b.SideOf(Opposite(side))[0].orders))
  {
    hide Share;
    FillsReachLevelIff(b, side, qty, minFill);
  }

  /** A strike takes exactly `take` from what a queue can trade. */
  lemma {:induction false} StrikeTotal(os: seq<Ord>, k: nat, take: nat)
    requires SaneOrders(os) && k < |os| && take <= os[k].rem
    ensures SaneOrders(StrikeAt(os, k, take))
    ensures Sum(StrikeAt(os, k, take), BookSpec.Total) + take == Sum(os, BookSpec.Total)
  {
    SumRemoveAt(os, k, BookSpec.Total);
    SumAppend(RemoveAt(os, k), Replenish(os[k]), BookSpec.Total);
    SumUpdate(os, k, os[k].(rem := os[k].rem - take), BookSpec.Total);
    forall j: nat | j < |os| - 1
      ensures RemoveAt(os, k)[j] in os
    {
      RemoveAtIndex(os, k, j);
    }
  }

  lemma ServedStep(os: seq<Ord>, alloc: seq<nat>, n: nat)
    requires |os| == |alloc| && n < |os| && SaneOrders(Served(os, alloc, n))
    ensures SaneOrders(Served(os, alloc, n + 1))
    ensures Sum(Served(os, alloc, n + 1), BookSpec.Total) + Min(alloc[n], os[n].rem)
        == Sum(Served(os, alloc, n), BookSpec.Total)
  {
    hide Served, Each, StrikeAt, Sum, Gone, SaneOrders;
    ServeOne(os, alloc, n);
    if alloc[n] > 0 {
      StrikeTotal(Served(os, alloc, n), |Each(os[..n], alloc[..n], Stay)|, Min(alloc[n], os[n].rem));
    }
  }

  /** Serving the level takes from it exactly what it trades. */
  lemma {:induction false} ServedTotal(os: seq<Ord>, alloc: seq<nat>, g: Ord -> nat, n: nat)
    requires SaneOrders(os) && |os| == |alloc| && n <= |os|
    requires forall i :: 0 <= i < |os| ==> alloc[i] == g(os[i])
    ensures SaneOrders(Served(os, alloc, n))
    ensures Sum(Served(os, alloc, n), BookSpec.Total) + Sum(os[..n], Capped(g)) == Sum(os, BookSpec.Total)
  {
    if n == 0 {
      assert Served(os, alloc, 0) == os;
    } else {
      assert Capped(g)(os[n - 1]) == Min(alloc[n - 1], os[n - 1].rem);
      assert os[..n] == os[..n - 1] + [os[n - 1]];
      hide Served, Sum, SaneOrders, Min, Capped;
      ServedTotal(os, alloc, g, n - 1);
      ServedStep(os, alloc, n - 1);
      SumAppend(os[..n - 1], os[n - 1], Capped(g));
    }
  }

  /** Every level behind the best one is as it was. */
  predicate OnlyBestChanged(ls: seq<Level>, ls': seq<Level>) {
    ls != [] ==> |ls'| >= |ls| - 1 && ls'[|ls'| - (|ls| - 1)..] == ls[1..]
  }

  lemma BestServed(ls: seq<Level>, qty: nat, minFill: nat)
    requires Sane(ls) && ls != [] && Shown(ls[0].orders) > 0
    ensures
      var os := ls[0].orders;
      var alloc := Offers(os, qty, minFill, Shown(os));
      var ls' := SetQueue(ls, 0, Served(os, alloc, |os|));
      && Liquidity(ls') + Sum(Each(os, alloc, Trade(ls[0].price)), FillQty) == Liquidity(ls)
      && OnlyBestChanged(ls, ls')
  {
    var os := ls[0].orders;
    var alloc := Offers(os, qty, minFill, Shown(os));
    var g := Offered(os, qty, minFill, Shown(os));
    TradesSum(ls[0].price, os, alloc, g);
    ServedTotal(os, alloc, g, |os|);
    assert os[..|os|] == os;
    SetQueueSums(ls, 0, Served(os, alloc, |os|), LevelTotal);
    hide Shown, Served, Each, Share, Sum, Capped;
  }

  /** The opposite side loses exactly what was filled; the rest of the book stays. */
  lemma ProRataConserves(b: Book, side: Side, qty: nat, minFill: nat)
    requires Sane(b.SideOf(Opposite(side)))
    ensures
      var r := ProRataMatch(b, side, qty, minFill);
      && Liquidity(r.book.SideOf(Opposite(side))) + Sum(r.value, FillQty) == Liquidity(b.SideOf(Opposite(side)))
      && r.book.SideOf(side) == b.SideOf(side)
      && r.book.stops == b.stops && r.book.nextId == b.nextId
      && OnlyBestChanged(b.SideOf(Opposite(side)), r.book.SideOf(Opposite(side)))
  {
    var ls := b.SideOf(Opposite(side));
    if ls == [] || Shown(ls[0].orders) == 0 {
      assert Sum<Fill>([], FillQty) == 0;
    } else {
      BestServed(ls, qty, minFill);
      hide Shown, Served, Each, Offers, SetQueue, OnlyBestChanged, Liquidity;
    }
  }
}
