// Fundamental types shared by every component (include/lob/types.hpp, order.hpp).
module LobTypes {

  datatype Option<+T> = None | Some(value: T)

  datatype Side = Buy | Sell

  datatype StopType = NoStop | StopMarket | StopLimit

  function Opposite(side: Side): Side {
    if side.Buy? then Sell else Buy
  }

  function Min(a: nat, b: nat): nat {
    if a <= b then a else b
  }

  /** The sequence without its k-th element. */
  function RemoveAt<T>(s: seq<T>, k: nat): seq<T>
    requires k < |s|
  {
    s[..k] + s[k + 1..]
  }

  /** The sequence with `x` put in front of its k-th element. */
  function InsertAt<T>(s: seq<T>, k: nat, x: T): seq<T>
    requires k <= |s|
  {
    s[..k] + [x] + s[k..]
  }

  /** No element occurs twice. */
  predicate Distinct(s: seq<nat>) {
    forall i, j :: 0 <= i < j < |s| ==> s[i] != s[j]
  }

  lemma RemoveAtIndex<T>(s: seq<T>, i: nat, j: nat)
    requires i < |s| && j < |s| - 1
    ensures RemoveAt(s, i)[j] == s[if j < i then j else j + 1]
  {
  }

  lemma InsertAtIndex<T>(s: seq<T>, i: nat, x: T, j: nat)
    requires i <= |s| && j <= |s|
    ensures InsertAt(s, i, x)[j] == if j < i then s[j] else if j == i then x else s[j - 1]
  {
  }
}

// Sums of a natural-number measure over a sequence.
module Sums {
  import opened LobTypes

  function Sum<T>(s: seq<T>, f: T -> nat): nat {
    if s == [] then 0 else f(s[0]) + Sum(s[1..], f)
  }

  lemma SumOne<T>(x: T, f: T -> nat)
    ensures Sum([x], f) == f(x)
  {
    assert [x][1..] == [];
  }

  lemma {:induction false} SumConcat<T>(a: seq<T>, b: seq<T>, f: T -> nat)
    ensures Sum(a + b, f) == Sum(a, f) + Sum(b, f)
  {
    if a == [] {
      assert a + b == b;
    } else {
      assert (a + b)[1..] == a[1..] + b;
      SumConcat(a[1..], b, f);
    }
  }

  lemma SumSplit<T>(s: seq<T>, k: nat, f: T -> nat)
    requires k < |s|
    ensures Sum(s, f) == Sum(s[..k], f) + f(s[k]) + Sum(s[k + 1..], f)
  {
    assert s == s[..k] + s[k..];
    SumConcat(s[..k], s[k..], f);
  }

  lemma SumAppend<T>(s: seq<T>, x: T, f: T -> nat)
    ensures Sum(s + [x], f) == Sum(s, f) + f(x)
  {
    SumConcat(s, [x], f);
    SumOne(x, f);
  }

  lemma SumRemoveAt<T>(s: seq<T>, k: nat, f: T -> nat)
    requires k < |s|
    ensures Sum(s, f) == Sum(RemoveAt(s, k), f) + f(s[k])
  {
    SumSplit(s, k, f);
    SumConcat(s[..k], s[k + 1..], f);
  }

  lemma SumUpdate<T>(s: seq<T>, k: nat, x: T, f: T -> nat)
    requires k < |s|
    ensures Sum(s[k := x], f) + f(s[k]) == Sum(s, f) + f(x)
  {
    SumSplit(s, k, f);
    SumSplit(s[k := x], k, f);
    assert s[k := x][..k] == s[..k] && s[k := x][k + 1..] == s[k + 1..];
  }

  lemma WithoutFirst<T>(s: seq<T>)
    requires s != []
    ensures multiset(s[1..]) == multiset(s) - multiset{s[0]}
  {
    assert s == [s[0]] + s[1..];
  }

  lemma WithoutOne<T>(s: seq<T>, k: nat)
    requires k < |s|
    ensures multiset(RemoveAt(s, k)) == multiset(s) - multiset{s[k]}
  {
    assert s == s[..k] + [s[k]] + s[k + 1..];
  }

  /** A sum does not depend on the order of its terms. */
  lemma {:induction false} SumPermutation<T>(a: seq<T>, b: seq<T>, f: T -> nat)
    requires multiset(a) == multiset(b)
    ensures Sum(a, f) == Sum(b, f)
  {
    if a == [] {
      assert |multiset(a)| == |a| && |multiset(b)| == |b|;
    } else {
      assert a[0] in multiset(b);
      var k :| 0 <= k < |b| && b[k] == a[0];
      WithoutFirst(a);
      WithoutOne(b, k);
      hide RemoveAt;
      SumPermutation(a[1..], RemoveAt(b, k), f);
      SumRemoveAt(b, k, f);
    }
  }
}

// The little nonlinear arithmetic the proofs need.
module Arith {

  type Pos = n: nat | n > 0 witness 1

  lemma MulMonotone(a: nat, b: nat, c: nat)
    requires a <= b
    ensures a * c <= b * c
  {
  }

  lemma Distribute(a: int, b: int, c: int)
    ensures a * (b + c) == a * b + a * c
  {
  }

  lemma MulCancel(t: Pos, a: nat, b: nat)
    requires t * a < t * b + t
    ensures a <= b
  {
    if a > b {
      MulMonotone(b + 1, a, t);
      Distribute(t, b, 1);
    }
  }

  lemma DivShrinks(a: nat, d: Pos)
    ensures a / d <= a
  {
    assert a == d * (a / d) + a % d;
    MulMonotone(1, d, a / d);
  }

  lemma DivModUnique(a: nat, d: Pos, k: nat, r: nat)
    requires a == d * k + r && r < d
    ensures a / d == k && a % d == r
  {
    assert a == d * (a / d) + a % d;
    MulCancel(d, k, a / d);
    MulCancel(d, a / d, k);
  }

  lemma ModNextLap(p: nat, d: Pos)
    ensures (p + d) % d == p % d
  {
    Distribute(d, p / d, 1);
    DivModUnique(p + d, d, p / d + 1, p % d);
  }

  /** Numbers less than `d` apart with the same remainder are equal. */
  lemma WindowDistinct(d: Pos, a: nat, b: nat)
    requires a <= b < a + d && a % d == b % d
    ensures a == b
  {
    assert a == d * (a / d) + a % d && b == d * (b / d) + b % d;
    MulCancel(d, b / d, a / d);
    MulCancel(d, a / d, b / d);
  }

  lemma WindowApart(d: Pos, a: nat, b: nat)
    requires a < b < a + d
    ensures a % d != b % d
  {
    if a % d == b % d {
      WindowDistinct(d, a, b);
    }
  }
}
