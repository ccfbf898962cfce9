// Pro-rata apportionment by largest remainder (ProRataPolicy::match in
// src/matching_engine.cpp): what each order of a level is offered, in the 64-bit
// arithmetic of the source, and the laws that hold while nothing wraps.
module ProRata {
  import opened Arith
  import opened LobTypes
  import opened Sums
  import opened BookSpec

  /** The range of uint64_t: every product and sum of the source is taken modulo W. */
  const W: nat := 0x1_0000_0000_0000_0000

  // ----- the allocation, as a function of the orders -----

  function Shown(os: seq<Ord>): nat {
    Sum(os, Rem) % W
  }

  function Product(o: Ord, qty: nat): nat {
    (o.rem * qty) % W
  }

  function Floor(o: Ord, qty: nat, total: Pos): nat {
    Product(o, qty) / total
  }

  function Left(o: Ord, qty: nat, total: Pos): nat {
    Product(o, qty) % total
  }

  /** `p` gets a leftover unit before `o`: larger remainder, ties to the lower id. */
  predicate Beats(p: Ord, o: Ord, qty: nat, total: Pos) {
    Left(p, qty, total) > Left(o, qty, total) || (Left(p, qty, total) == Left(o, qty, total) && p.id < o.id)
  }

  function Floors(qty: nat, total: Pos): Ord -> nat {
    (o: Ord) => Floor(o, qty, total)
  }

  function Lefts(qty: nat, total: Pos): Ord -> nat {
    (o: Ord) => Left(o, qty, total)
  }

  function Beaters(o: Ord, qty: nat, total: Pos): Ord -> nat {
    (p: Ord) => if Beats(p, o, qty, total) then 1 else 0
  }

  /** How many orders come before `o` when leftover units are handed out. */
  function RankOf(os: seq<Ord>, o: Ord, qty: nat, total: Pos): nat {
    Sum(os, Beaters(o, qty, total))
  }

  /** Units the floors leave over. */
  function Leftover(os: seq<Ord>, qty: nat, total: Pos): nat {
    var sum := Sum(os, Floors(qty, total)) % W;
    if qty > sum then qty - sum else 0
  }

  /** What `o` is allocated before the min_fill cut. */
  function Share(os: seq<Ord>, qty: nat, total: Pos, o: Ord): nat {
    (Floor(o, qty, total) + if RankOf(os, o, qty, total) < Leftover(os, qty, total) then 1 else 0) % W
  }

  function Shares(os: seq<Ord>, qty: nat, total: Pos): Ord -> nat {
    (o: Ord) => Share(os, qty, total, o)
  }

  function CutSmall(share: nat, minFill: nat): nat {
    if share < minFill then 0 else share
  }

  /** The allocations of a level, in queue order. */
  function Offers(os: seq<Ord>, qty: nat, minFill: nat, total: Pos): seq<nat> {
    seq(|os|, i requires 0 <= i < |os| => CutSmall(Share(os, qty, total, os[i]), minFill))
  }

  // ----- sorting the indices -----

  /** The orders in the sequence of `idx`. */
  function Pick(os: seq<Ord>, idx: seq<nat>): seq<Ord>
    requires forall k :: 0 <= k < |idx| ==> idx[k] < |os|
  {
    seq(|idx|, k requires 0 <= k < |idx| => os[idx[k]])
  }

  predicate InBounds(os: seq<Ord>, idx: seq<nat>) {
    forall k :: 0 <= k < |idx| ==> idx[k] < |os|
  }

  /** Better orders come first. */
  predicate Ranked(s: seq<Ord>, qty: nat, total: Pos) {
    forall i, j :: 0 <= i < j < |s| ==> Beats(s[i], s[j], qty, total)
  }

  lemma InsertPicks(os: seq<Ord>, idx: seq<nat>, p: nat, x: nat)
    requires InBounds(os, idx) && p <= |idx| && x < |os|
    ensures InBounds(os, InsertAt(idx, p, x))
    ensures Pick(os, InsertAt(idx, p, x)) == InsertAt(Pick(os, idx), p, os[x])
    ensures multiset(InsertAt(Pick(os, idx), p, os[x])) == multiset(Pick(os, idx)) + multiset{os[x]}
  {
    var s := Pick(os, idx);
    assert s == s[..p] + s[p..];
    assert Pick(os, InsertAt(idx, p, x)) == InsertAt(s, p, os[x]);
  }

  lemma InsertRanked(s: seq<Ord>, p: nat, o: Ord, qty: nat, total: Pos)
    requires Ranked(s, qty, total) && p <= |s|
    requires forall k :: 0 <= k < p ==> Beats(s[k], o, qty, total)
    requires forall k :: p <= k < |s| ==> Beats(o, s[k], qty, total)
    ensures Ranked(InsertAt(s, p, o), qty, total)
  {
    var s' := InsertAt(s, p, o);
    forall i: nat, j: nat | i < j < |s'|
      ensures Beats(s'[i], s'[j], qty, total)
    {
      InsertAtIndex(s, p, o, i);
      InsertAtIndex(s, p, o, j);
    }
  }

  lemma InsertDistinct(idx: seq<nat>, p: nat, x: nat)
    requires Distinct(idx) && p <= |idx| && forall k :: 0 <= k < |idx| ==> idx[k] < x
    ensures Distinct(InsertAt(idx, p, x)) && forall k :: 0 <= k < |InsertAt(idx, p, x)| ==> InsertAt(idx, p, x)[k] <= x
    ensures forall i: nat :: i in InsertAt(idx, p, x) <==> i in idx || i == x
  {
    assert idx == idx[..p] + idx[p..];
  }

  /** Where the next order belongs among ranked ones: each either beats it or is beaten. */
  lemma BeatsTotal(p: Ord, o: Ord, qty: nat, total: Pos)
    requires p.id != o.id
    ensures Beats(p, o, qty, total) <==> !Beats(o, p, qty, total)
  {
  }

  /** The indices below `n` stand in `idx`, each once, better orders first. */
  ghost predicate SortedTo(os: seq<Ord>, qty: nat, total: Pos, idx: seq<nat>, n: nat) {
    && n <= |os| && |idx| == n && InBounds(os, idx) && Distinct(idx)
    && (forall k :: 0 <= k < |idx| ==> idx[k] < n)
    && (forall i: nat :: i in idx <==> i < n)
    && multiset(Pick(os, idx)) == multiset(os[..n])
    && Ranked(Pick(os, idx), qty, total)
  }

  lemma SortedNext(os: seq<Ord>, qty: nat, total: Pos, idx: seq<nat>, n: nat, p: nat)
    requires SortedTo(os, qty, total, idx, n) && n < |os| && p <= |idx|
    requires forall k :: 0 <= k < p ==> Beats(Pick(os, idx)[k], os[n], qty, total)
    requires forall k :: p <= k < |idx| ==> Beats(os[n], Pick(os, idx)[k], qty, total)
    ensures SortedTo(os, qty, total, InsertAt(idx, p, n), n + 1)
  {
    InsertPicks(os, idx, p, n);
    InsertRanked(Pick(os, idx), p, os[n], qty, total);
    InsertDistinct(idx, p, n);
    assert os[..n + 1] == os[..n] + [os[n]];
    hide InsertAt, Pick, Ranked, Distinct, Beats;
  }

  /** std::sort over the indices with the comparator of the source; any correct sort gives
      the same sequence, since ids are distinct. */
  method SortByRemainder(os: seq<Ord>, qty: nat, total: Pos) returns (idx: seq<nat>)
    requires UniqueIds(os)
    ensures |idx| == |os| && InBounds(os, idx) && Distinct(idx)
    ensures forall i :: 0 <= i < |os| ==> i in idx
    ensures multiset(Pick(os, idx)) == multiset(os)
    ensures Ranked(Pick(os, idx), qty, total)
  {
    idx := [];
    var n := 0;
    while n < |os|
      invariant n <= |os| && SortedTo(os, qty, total, idx, n)
    {
      var p := InsertionPoint(os, qty, total, idx, n);
      SortedNext(os, qty, total, idx, n, p);
      idx := InsertAt(idx, p, n);
      n := n + 1;
    }
    assert os[..n] == os;
  }

  method InsertionPoint(os: seq<Ord>, qty: nat, total: Pos, idx: seq<nat>, n: nat) returns (p: nat)
    requires UniqueIds(os) && n < |os| && SortedTo(os, qty, total, idx, n)
    ensures p <= |idx|
    ensures forall k :: 0 <= k < p ==> Beats(Pick(os, idx)[k], os[n], qty, total)
    ensures forall k :: p <= k < |idx| ==> Beats(os[n], Pick(os, idx)[k], qty, total)
  {
    p := |idx|;
    while p > 0 && Beats(os[n], os[idx[p - 1]], qty, total)
      invariant 0 <= p <= |idx|
      invariant forall k :: p <= k < |idx| ==> Beats(os[n], Pick(os, idx)[k], qty, total)
    {
      p := p - 1;
    }
    forall k: nat | k < p
      ensures Beats(Pick(os, idx)[k], os[n], qty, total)
    {
      BeatsTotal(os[idx[p - 1]], os[n], qty, total);
      assert k < p - 1 ==> Beats(Pick(os, idx)[k], Pick(os, idx)[p - 1], qty, total);
    }
  }

  // ----- ranks are positions in the sorted order -----

  lemma CountBeaters(s: seq<Ord>, k: nat, qty: nat, total: Pos)
    requires Ranked(s, qty, total) && k < |s|
    ensures Sum(s, Beaters(s[k], qty, total)) == k
  {
    var f := Beaters(s[k], qty, total);
    SumSplit(s, k, f);
    AllOnes(s[..k], f);
    AllZeros(s[k + 1..], f);
  }

  lemma {:induction false} AllOnes(s: seq<Ord>, f: Ord -> nat)
    requires forall i :: 0 <= i < |s| ==> f(s[i]) == 1
    ensures Sum(s, f) == |s|
  {
    if s != [] {
      AllOnes(s[1..], f);
    }
  }

  lemma {:induction false} AllZeros(s: seq<Ord>, f: Ord -> nat)
    requires forall i :: 0 <= i < |s| ==> f(s[i]) == 0
    ensures Sum(s, f) == 0
  {
    if s != [] {
      AllZeros(s[1..], f);
    }
  }

  /** In any correctly sorted arrangement the order of rank k stands at position k. */
  lemma RankIsPosition(os: seq<Ord>, s: seq<Ord>, k: nat, qty: nat, total: Pos)
    requires multiset(s) == multiset(os) && Ranked(s, qty, total) && k < |s|
    ensures RankOf(os, s[k], qty, total) == k
  {
    SumPermutation(s, os, Beaters(s[k], qty, total));
    CountBeaters(s, k, qty, total);
  }

  // ----- the loops of the source -----

  method Apportion(os: seq<Ord>, qty: nat, minFill: nat) returns (total: nat, alloc: seq<nat>)
    requires UniqueIds(os)
    ensures total == Shown(os)
    ensures total > 0 ==> alloc == Offers(os, qty, minFill, total)
  {
    hide Floor, Share, Shown;
    total := SumUp(os);
    alloc := [];
    if total == 0 {
      return;
    }
    var sum: nat;
    alloc, sum := FloorAll(os, qty, total);
    var leftover := if qty > sum then qty - sum else 0;
    var idx := SortByRemainder(os, qty, total);
    alloc := HandOut(os, qty, total, leftover, idx, alloc);
    var i := 0;
    while i < |alloc|
      invariant 0 <= i <= |alloc| == |os|
      invariant forall j :: 0 <= j < i ==> alloc[j] == CutSmall(Share(os, qty, total, os[j]), minFill)
      invariant forall j :: i <= j < |os| ==> alloc[j] == Share(os, qty, total, os[j])
    {
      if alloc[i] < minFill {
        alloc := alloc[i := 0];
      }
      i := i + 1;
    }
  }

  method SumUp(os: seq<Ord>) returns (total: nat)
    ensures total == Shown(os)
  {
    total := 0;
    var i := 0;
    while i < |os|
      invariant 0 <= i <= |os| && total == Sum(os[..i], Rem) % W
    {
      assert os[..i + 1] == os[..i] + [os[i]];
      SumAppend(os[..i], os[i], Rem);
      WrapStep(Sum(os[..i], Rem), os[i].rem);
      total := (total + os[i].rem) % W;
      i := i + 1;
    }
    assert os[..i] == os;
  }

  lemma WrapStep(a: nat, b: nat)
    ensures (a % W + b) % W == (a + b) % W
  {
    assert a + b == W * (a / W) + (a % W + b);
    ModSkips(a % W + b, a / W);
  }

  lemma {:induction false} ModSkips(a: nat, k: nat)
    ensures (W * k + a) % W == a % W
  {
    if k > 0 {
      ModSkips(a, k - 1);
      assert W * k + a == W + (W * (k - 1) + a);
    }
  }

  method FloorAll(os: seq<Ord>, qty: nat, total: Pos) returns (alloc: seq<nat>, sum: nat)
    ensures |alloc| == |os| && forall j :: 0 <= j < |os| ==> alloc[j] == Floor(os[j], qty, total)
    ensures sum == Sum(os, Floors(qty, total)) % W
  {
    alloc, sum := [], 0;
    var i := 0;
    var f := Floors(qty, total);
    while i < |os|
      invariant 0 <= i <= |os| == |os[..i]| + |os| - i && |alloc| == i
      invariant forall j :: 0 <= j < i ==> alloc[j] == Floor(os[j], qty, total)
      invariant sum == Sum(os[..i], f) % W
    {
      var prod := (os[i].rem * qty) % W;
      assert os[..i + 1] == os[..i] + [os[i]];
      SumAppend(os[..i], os[i], f);
      WrapStep(Sum(os[..i], f), f(os[i]));
      alloc := alloc + [prod / total];
      sum := (sum + alloc[i]) % W;
      i := i + 1;
    }
    assert os[..i] == os;
  }

  /** The leftover units go to the front of the sorted indices, one each. */
  method HandOut(os: seq<Ord>, qty: nat, total: Pos, leftover: nat, idx: seq<nat>, floors: seq<nat>)
    returns (alloc: seq<nat>)
    requires |idx| == |os| == |floors| && InBounds(os, idx) && Distinct(idx)
    requires forall i :: 0 <= i < |os| ==> i in idx
    requires multiset(Pick(os, idx)) == multiset(os) && Ranked(Pick(os, idx), qty, total)
    requires forall j :: 0 <= j < |os| ==> floors[j] == Floor(os[j], qty, total)
    requires leftover == Leftover(os, qty, total)
    ensures |alloc| == |os| && forall j :: 0 <= j < |os| ==> alloc[j] == Share(os, qty, total, os[j])
  {
    hide Floor, Share, Leftover, Beats, RankOf;
    alloc := floors;
    var k := 0;
    while k < leftover && k < |idx|
      invariant 0 <= k <= |idx| && k <= leftover && |alloc| == |os|
      invariant forall m :: 0 <= m < k ==> alloc[idx[m]] == (Floor(os[idx[m]], qty, total) + 1) % W
      invariant forall m :: k <= m < |idx| ==> alloc[idx[m]] == Floor(os[idx[m]], qty, total)
    {
      alloc := alloc[idx[k] := (alloc[idx[k]] + 1) % W];
      k := k + 1;
    }
    forall j: nat | j < |os|
      ensures alloc[j] == Share(os, qty, total, os[j])
    {
      assert j in idx;
      var m :| 0 <= m < |idx| && idx[m] == j;
      RankIsPosition(os, Pick(os, idx), m, qty, total);
      ShareOfRank(os, os[j], qty, total, m);
    }
  }

  lemma ShareOfRank(os: seq<Ord>, o: Ord, qty: nat, total: Pos, m: nat)
    requires RankOf(os, o, qty, total) == m
    ensures Share(os, qty, total, o)
         == if m < Leftover(os, qty, total) then (Floor(o, qty, total) + 1) % W else Floor(o, qty, total)
  {
    FloorFits(o, qty, total);
    hide Floor, Leftover, RankOf;
  }

  lemma FloorFits(o: Ord, qty: nat, total: Pos)
    ensures Floor(o, qty, total) <= Product(o, qty) < W
    ensures Floor(o, qty, total) % W == Floor(o, qty, total)
  {
    DivShrinks(Product(o, qty), total);
  }

  // ----- applying the allocations -----

  /** What the visits of a queue leave behind, order by order. */
  function Each<T>(os: seq<Ord>, alloc: seq<nat>, f: (Ord, nat) -> seq<T>): seq<T>
    requires |os| == |alloc|
  {
    if os == [] then []
    else Each(os[..|os| - 1], alloc[..|os| - 1], f) + f(os[|os| - 1], alloc[|os| - 1])
  }

  /** The order where it stands, if it stays there. */
  function Stay(o: Ord, a: nat): seq<Ord> {
    if a == 0 then [o] else if a < o.rem then [o.(rem := o.rem - a)] else []
  }

  /** The order at the tail, if it was exhausted and refills. */
  function Requeue(o: Ord, a: nat): seq<Ord> {
    if a > 0 && a >= o.rem && Refills(o) then [Replenish(o)] else []
  }

  /** The fill reported for the order. */
  function Trade(px: int): (Ord, nat) -> seq<Fill> {
    (o: Ord, a: nat) => if a > 0 && o.rem > 0 then [Fill(o.id, px, Min(a, o.rem))] else []
  }

  /** The queue after its first `n` orders were offered their allocations. */
  function Served(os: seq<Ord>, alloc: seq<nat>, n: nat): seq<Ord>
    requires |os| == |alloc| && n <= |os|
  {
    Each(os[..n], alloc[..n], Stay) + os[n..] + Each(os[..n], alloc[..n], Requeue)
  }

  /** ProRataPolicy::match: only the best level of the opposite side takes part. */
  function ProRataMatch(b: Book, side: Side, qty: nat, minFill: nat): Outcome<seq<Fill>> {
    var opp := Opposite(side);
    var ls := b.SideOf(opp);
    if ls == [] || Shown(ls[0].orders) == 0 then Outcome([], b)
    else
      var os := ls[0].orders;
      var alloc := Offers(os, qty, minFill, Shown(os));
      var os' := Served(os, alloc, |os|);
      Outcome(Each(os, alloc, Trade(ls[0].price)),
              b.With(opp, SetQueue(ls, 0, os')).(free := if |os'| <= |os| then b.free + |os| - |os'| else b.free))
  }

  lemma EachStep<T>(os: seq<Ord>, alloc: seq<nat>, n: nat, f: (Ord, nat) -> seq<T>)
    requires |os| == |alloc| && n < |os|
    ensures Each(os[..n + 1], alloc[..n + 1], f) == Each(os[..n], alloc[..n], f) + f(os[n], alloc[n])
  {
    assert os[..n + 1][..n] == os[..n] && alloc[..n + 1][..n] == alloc[..n];
  }

  lemma EachLast<T>(os: seq<Ord>, alloc: seq<nat>, f: (Ord, nat) -> seq<T>)
    requires |os| == |alloc| && os != []
    ensures Each(os, alloc, f) == Each(os[..|os| - 1], alloc[..|os| - 1], f) + f(os[|os| - 1], alloc[|os| - 1])
  {
  }

  lemma EachAll<T>(os: seq<Ord>, alloc: seq<nat>, f: (Ord, nat) -> seq<T>)
    requires |os| == |alloc|
    ensures Each(os[..|os|], alloc[..|os|], f) == Each(os, alloc, f)
  {
    assert os[..|os|] == os && alloc[..|os|] == alloc;
  }

  /** Offering the n-th order its allocation is one strike of the queue. */
  lemma ServeOne(os: seq<Ord>, alloc: seq<nat>, n: nat)
    requires |os| == |alloc| && n < |os|
    ensures
      var k := |Each(os[..n], alloc[..n], Stay)|;
      var now := Served(os, alloc, n);
      && k < |now| && now[k] == os[n]
      && (alloc[n] == 0 ==> Served(os, alloc, n + 1) == now)
      && (alloc[n] > 0 ==> Served(os, alloc, n + 1) == StrikeAt(now, k, Min(alloc[n], os[n].rem)))
      && (alloc[n] > 0 ==> |Served(os, alloc, n + 1)| + Gone(os[n], Min(alloc[n], os[n].rem)) == |now|)
  {
    var before, back := Each(os[..n], alloc[..n], Stay), Each(os[..n], alloc[..n], Requeue);
    var o, a := os[n], alloc[n];
    EachStep(os, alloc, n, Stay);
    EachStep(os, alloc, n, Requeue);
    hide Each, StrikeAt;
    assert os[n..] == [o] + os[n + 1..];
    assert Served(os, alloc, n) == before + [o] + os[n + 1..] + back;
    assert Served(os, alloc, n + 1) == before + Stay(o, a) + os[n + 1..] + (back + Requeue(o, a));
    if a > 0 {
      StrikeMiddle(before, o, os[n + 1..], back, a);
    } else {
      assert before + [o] + os[n + 1..] + (back + []) == before + [o] + os[n + 1..] + back;
    }
  }

  lemma StrikeMiddle(before: seq<Ord>, o: Ord, rest: seq<Ord>, back: seq<Ord>, a: nat)
    requires a > 0
    ensures
      var now := before + [o] + rest + back;
      && now[|before|] == o
      && StrikeAt(now, |before|, Min(a, o.rem)) == before + Stay(o, a) + rest + (back + Requeue(o, a))
  {
    var now := before + [o] + rest + back;
    if a < o.rem {
      assert now[|before| := o.(rem := o.rem - a)] == before + [o.(rem := o.rem - a)] + rest + back;
      assert back + [] == back;
    } else {
      assert RemoveAt(now, |before|) == before + rest + back;
      assert before + [] + rest + (back + Requeue(o, a)) == before + rest + back + Requeue(o, a);
    }
  }
}
