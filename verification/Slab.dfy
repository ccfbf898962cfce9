// The order slab and the intrusive lists threaded through it (include/lob/order.hpp,
// the PriceLevel part of src/order_book.cpp). An Order* is the number of a slot of
// the slab; a level keeps the slots of its first and last order.
module Slab {
  import opened LobTypes
  import opened Sums
  import opened BookSpec

  datatype Order = Order(
    orderId: nat, qty: nat, price: int, remainingQty: nat, displayQty: nat, hiddenQty: nat,
    side: Side, stopType: StopType, stopPrice: int, prev: Option<nat>, next: Option<nat>)
  {
    /** The resting order this record stands for. */
    function View(): Ord {
      Ord(orderId, qty, remainingQty, hiddenQty, displayQty)
    }

    /** The pending stop this record, held in slot `x`, stands for. */
    function AsStop(x: nat): Stop {
      Stop(x, side, stopType, stopPrice, qty, price, displayQty)
    }

    /** A limit order resting on `s` at price `px`. */
    predicate RestsAt(s: Side, px: int) {
      side == s && price == px && stopType == NoStop
    }
  }

  /** What the memset of OrderPool::allocate leaves in a slot. */
  const ZERO_ORDER: Order := Order(0, 0, 0, 0, 0, 0, Buy, NoStop, 0, None, None)

  datatype PriceLevel = PriceLevel(head: Option<nat>, tail: Option<nat>, aggQty: nat, cnt: nat)

  const EMPTY_LEVEL: PriceLevel := PriceLevel(None, None, 0, 0)

  /** PriceLevel::decrease_aggregate, which saturates at zero. */
  function DecreaseAggregate(l: PriceLevel, amt: nat): PriceLevel {
    l.(aggQty := if amt > l.aggQty then 0 else l.aggQty - amt)
  }

  /** PriceLevel::adjust_aggregate, which saturates at zero. */
  function AdjustAggregate(l: PriceLevel, delta: int): PriceLevel {
    l.(aggQty := if l.aggQty + delta < 0 then 0 else l.aggQty + delta)
  }

  // ----- the list of a level -----

  function At(s: seq<nat>, k: int): Option<nat> {
    if 0 <= k < |s| then Some(s[k]) else None
  }

  /** `l` is a well-formed list, in both directions, of the slots `s`. */
  predicate Linked(mem: seq<Order>, l: PriceLevel, s: seq<nat>) {
    && InRange(mem, s)
    && Distinct(s)
    && l.head == At(s, 0) && l.tail == At(s, |s| - 1)
    && (forall k {:trigger mem[s[k]].prev} :: 0 <= k < |s| ==> mem[s[k]].prev == At(s, k - 1))
    && (forall k {:trigger mem[s[k]].next} :: 0 <= k < |s| ==> mem[s[k]].next == At(s, k + 1))
  }

  predicate InRange(mem: seq<Order>, s: seq<nat>) {
    forall k :: 0 <= k < |s| ==> s[k] < |mem|
  }

  /** What the orders in the slots `s` stand for. */
  function Views(mem: seq<Order>, s: seq<nat>): seq<Ord> {
    seq(|s|, k requires 0 <= k < |s| => if s[k] < |mem| then mem[s[k]].View() else ZERO_ORDER.View())
  }

  /** The cached count and aggregate agree with the list. */
  predicate LevelOk(mem: seq<Order>, l: PriceLevel, s: seq<nat>) {
    Linked(mem, l, s) && l.cnt == |s| && l.aggQty == Visible(Views(mem, s))
  }

  /** A list only depends on the slots it links. */
  lemma LevelFrame(mem: seq<Order>, mem': seq<Order>, l: PriceLevel, s: seq<nat>)
    requires LevelOk(mem, l, s)
    requires |mem| == |mem'| && forall k :: 0 <= k < |s| ==> mem'[s[k]] == mem[s[k]]
    ensures LevelOk(mem', l, s) && Views(mem', s) == Views(mem, s)
  {
    assert Views(mem', s) == Views(mem, s);
  }

  // ----- push_back -----

  predicate PushedBack(mem: seq<Order>, mem': seq<Order>, s: seq<nat>, o: nat)
    requires o < |mem| && InRange(mem, s)
  {
    && |mem'| == |mem|
    && mem'[o] == mem[o].(prev := At(s, |s| - 1), next := None)
    && (s != [] ==> mem'[s[|s| - 1]] == mem[s[|s| - 1]].(next := Some(o)))
    && (forall x :: 0 <= x < |mem| && x != o && (s != [] ==> x != s[|s| - 1]) ==> mem'[x] == mem[x])
  }

  lemma PushBackLinks(mem: seq<Order>, mem': seq<Order>, l: PriceLevel, s: seq<nat>, o: nat,
      l': PriceLevel)
    requires Linked(mem, l, s) && o < |mem| && o !in s
    requires PushedBack(mem, mem', s, o)
    requires l'.head == (if l.head.None? then Some(o) else l.head) && l'.tail == Some(o)
    ensures Linked(mem', l', s + [o])
  {
    var s' := s + [o];
    assert forall k :: 0 <= k < |s| ==> s'[k] == s[k] && s[k] != o;
  }

  lemma PushBackViews(mem: seq<Order>, mem': seq<Order>, s: seq<nat>, o: nat)
    requires o < |mem| && InRange(mem, s)
    requires PushedBack(mem, mem', s, o)
    ensures Views(mem', s + [o]) == Views(mem, s) + [mem[o].View()]
    ensures Visible(Views(mem, s) + [mem[o].View()]) == Visible(Views(mem, s)) + mem[o].remainingQty
  {
    SumAppend(Views(mem, s), mem[o].View(), Rem);
  }

  // ----- remove -----

  predicate Unlinked(mem: seq<Order>, mem': seq<Order>, s: seq<nat>, k: nat)
    requires k < |s| && InRange(mem, s)
  {
    && |mem'| == |mem|
    && mem'[s[k]] == mem[s[k]].(prev := None, next := None)
    && (k > 0 ==> mem'[s[k - 1]] == mem[s[k - 1]].(next := At(s, k + 1)))
    && (k + 1 < |s| ==> mem'[s[k + 1]] == mem[s[k + 1]].(prev := At(s, k - 1)))
    && (forall x :: 0 <= x < |mem| && x != s[k] && (k > 0 ==> x != s[k - 1]) && (k + 1 < |s| ==> x != s[k + 1])
          ==> mem'[x] == mem[x])
  }

  lemma RemoveLinks(mem: seq<Order>, mem': seq<Order>, l: PriceLevel, s: seq<nat>, k: nat,
      l': PriceLevel)
    requires Linked(mem, l, s) && k < |s|
    requires Unlinked(mem, mem', s, k)
    requires l'.head == if k == 0 then At(s, 1) else l.head
    requires l'.tail == if k == |s| - 1 then At(s, k - 1) else l.tail
    ensures Linked(mem', l', RemoveAt(s, k))
  {
    var s' := RemoveAt(s, k);
    forall j | 0 <= j < |s'|
      ensures s'[j] < |mem'| && mem'[s'[j]].prev == At(s', j - 1) && mem'[s'[j]].next == At(s', j + 1)
    {
      RemoveLinksAt(mem, mem', l, s, k, j);
    }
  }

  lemma RemoveLinksAt(mem: seq<Order>, mem': seq<Order>, l: PriceLevel, s: seq<nat>, k: nat, j: nat)
    requires Linked(mem, l, s) && k < |s|
    requires Unlinked(mem, mem', s, k)
    requires j < |s| - 1
    ensures
      var s' := RemoveAt(s, k);
      s'[j] < |mem'| && mem'[s'[j]].prev == At(s', j - 1) && mem'[s'[j]].next == At(s', j + 1)
  {
    var i := if j < k then j else j + 1;
    assert RemoveAt(s, k)[j] == s[i] && s[i] != s[k];
    assert mem[s[i]].prev == At(s, i - 1) && mem[s[i]].next == At(s, i + 1);
    assert k > 0 && i != k - 1 ==> s[i] != s[k - 1];
    assert k + 1 < |s| && i != k + 1 ==> s[i] != s[k + 1];
  }

  lemma RemoveViews(mem: seq<Order>, mem': seq<Order>, s: seq<nat>, k: nat)
    requires k < |s| && InRange(mem, s)
    requires Unlinked(mem, mem', s, k)
    ensures Views(mem', RemoveAt(s, k)) == RemoveAt(Views(mem, s), k)
    ensures Visible(RemoveAt(Views(mem, s), k)) + mem[s[k]].remainingQty == Visible(Views(mem, s))
  {
    SumRemoveAt(Views(mem, s), k, Rem);
  }

  // ----- changing an order in place -----

  lemma RewriteLinks(mem: seq<Order>, l: PriceLevel, s: seq<nat>, k: nat, o': Order, l': PriceLevel)
    requires Linked(mem, l, s) && k < |s|
    requires o'.prev == mem[s[k]].prev && o'.next == mem[s[k]].next
    requires l'.head == l.head && l'.tail == l.tail
    ensures Linked(mem[s[k] := o'], l', s)
  {
  }

  lemma RewriteViews(mem: seq<Order>, s: seq<nat>, k: nat, o': Order)
    requires k < |s| && Distinct(s) && InRange(mem, s)
    ensures Views(mem[s[k] := o'], s) == Views(mem, s)[k := o'.View()]
    ensures Visible(Views(mem, s)[k := o'.View()]) + mem[s[k]].remainingQty == Visible(Views(mem, s)) + o'.remainingQty
    ensures mem[s[k]].remainingQty <= Visible(Views(mem, s))
  {
    assert Views(mem[s[k] := o'], s) == Views(mem, s)[k := o'.View()];
    AggregateChange(Views(mem, s), k, o'.View());
  }

  lemma AggregateChange(v: seq<Ord>, k: nat, x: Ord)
    requires k < |v|
    ensures v[k].rem <= Visible(v)
    ensures Visible(v[k := x]) + v[k].rem == Visible(v) + x.rem
  {
    SumSplit(v, k, Rem);
    SumUpdate(v, k, x, Rem);
  }
}
