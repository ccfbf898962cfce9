// Contiguous price ladder (include/lob/price_ladder.hpp): a vector of price levels,
// best price first, searched by binary search.
module PriceLadders {
  import opened LobTypes
  import opened BookSpec
  import opened Slab

  datatype Node = Node(price: int, level: PriceLevel)

  predicate PricesSorted(side: Side, v: seq<Node>) {
    forall i, j :: 0 <= i < j < |v| ==> Before(side, v[i].price, v[j].price)
  }

  /** `i` is where `px` is, or would be inserted. */
  predicate LowerAt(side: Side, v: seq<Node>, px: int, i: nat) {
    && i <= |v|
    && (forall k :: 0 <= k < i ==> Before(side, v[k].price, px))
    && (i < |v| ==> !Before(side, v[i].price, px))
  }

  class PriceLadder {
    const side: Side
    var v: seq<Node>
    /** The slots linked at each level, oldest first. */
    ghost var lists: seq<seq<nat>>

    constructor (side: Side)
      ensures this.side == side && v == [] && lists == []
    {
      this.side := side;
      v, lists := [], [];
    }

    /** std::lower_bound over the levels. */
    method LowerBound(px: int) returns (i: nat)
      requires PricesSorted(side, v)
      ensures LowerAt(side, v, px, i)
    {
      var lo, hi := 0, |v|;
      while lo < hi
        invariant 0 <= lo <= hi <= |v|
        invariant forall k :: 0 <= k < lo ==> Before(side, v[k].price, px)
        invariant forall k :: hi <= k < |v| ==> !Before(side, v[k].price, px)
      {
        var mid := (lo + hi) / 2;
        if Before(side, v[mid].price, px) {
          lo := mid + 1;
        } else {
          hi := mid;
        }
      }
      i := lo;
    }

    /** The index of `px`, or the length when no level has that price. */
    method Find(px: int) returns (i: nat)
      requires PricesSorted(side, v)
      ensures i <= |v|
      ensures i < |v| ==> v[i].price == px
      ensures i == |v| ==> forall k :: 0 <= k < |v| ==> v[k].price != px
    {
      i := LowerBound(px);
      assert forall k :: i < k < |v| ==> Before(side, v[i].price, v[k].price);
      if i == |v| || v[i].price != px {
        i := |v|;
      }
    }

    method FindOrEmplace(px: int) returns (i: nat)
      requires PricesSorted(side, v) && |lists| == |v|
      modifies this`v, this`lists
      ensures LowerAt(side, old(v), px, i)
      ensures i < |v| && v[i].price == px
      ensures if i < |old(v)| && old(v)[i].price == px
              then v == old(v) && lists == old(lists)
              else v == InsertAt(old(v), i, Node(px, EMPTY_LEVEL)) && lists == InsertAt(old(lists), i, [])
    {
      i := LowerBound(px);
      if i < |v| && v[i].price == px {
        return;
      }
      v := v[..i] + [Node(px, EMPTY_LEVEL)] + v[i..];
      lists := InsertAt(lists, i, []);
    }

    method Erase(i: nat)
      requires i < |v| && i < |lists|
      modifies this`v, this`lists
      ensures v == RemoveAt(old(v), i) && lists == RemoveAt(old(lists), i)
    {
      v := v[..i] + v[i + 1..];
      lists := RemoveAt(lists, i);
    }

    method ErasePrice(px: int)
      requires PricesSorted(side, v) && |lists| == |v|
      modifies this`v, this`lists
      ensures forall i :: 0 <= i < |old(v)| && old(v)[i].price == px ==>
                v == RemoveAt(old(v), i) && lists == RemoveAt(old(lists), i)
      ensures (forall i :: 0 <= i < |old(v)| ==> old(v)[i].price != px) ==> v == old(v) && lists == old(lists)
    {
      var i := Find(px);
      if i == |v| {
        return;
      }
      assert forall k :: 0 <= k < |v| && k != i ==> v[k].price != px;
      Erase(i);
    }
  }

  // ----- a ladder over the slab -----

  /** A level is intact and holds only orders of its own side and price. */
  predicate NodeOk(side: Side, mem: seq<Order>, n: Node, s: seq<nat>) {
    && LevelOk(mem, n.level, s)
    && (forall k :: 0 <= k < |s| ==> s[k] < |mem| && mem[s[k]].RestsAt(side, n.price))
  }

  predicate LadderOk(side: Side, mem: seq<Order>, v: seq<Node>, lists: seq<seq<nat>>) {
    && |v| == |lists|
    && PricesSorted(side, v)
    && (forall i :: 0 <= i < |v| ==> NodeOk(side, mem, v[i], lists[i]))
  }

  /** Slot `x` is linked at some level. */
  predicate Listed(lists: seq<seq<nat>>, x: nat) {
    exists i :: 0 <= i < |lists| && x in lists[i]
  }

  /** The abstract side a ladder stands for. */
  function LadderView(mem: seq<Order>, v: seq<Node>, lists: seq<seq<nat>>): seq<Level> {
    seq(|v|, i requires 0 <= i < |v| => Level(v[i].price, if i < |lists| then Views(mem, lists[i]) else []))
  }

  lemma ViewSorted(side: Side, mem: seq<Order>, v: seq<Node>, lists: seq<seq<nat>>)
    requires PricesSorted(side, v)
    ensures Sorted(side, LadderView(mem, v, lists))
  {
  }

  lemma LowerOfView(side: Side, mem: seq<Order>, v: seq<Node>, lists: seq<seq<nat>>, px: int, i: nat)
    requires LowerAt(side, v, px, i)
    ensures i == Lower(side, LadderView(mem, v, lists), px)
  {
    LowerUnique(side, LadderView(mem, v, lists), px, i);
  }

  /** Distinct levels link distinct slots: their orders have different prices. */
  lemma ListsDisjoint(side: Side, mem: seq<Order>, v: seq<Node>, lists: seq<seq<nat>>, i: nat,
      j: nat, x: nat)
    requires LadderOk(side, mem, v, lists)
    requires i < |lists| && j < |lists| && x in lists[i] && x in lists[j]
    ensures i == j
  {
    var k :| 0 <= k < |lists[i]| && lists[i][k] == x;
    var n :| 0 <= n < |lists[j]| && lists[j][n] == x;
    assert NodeOk(side, mem, v[i], lists[i]) && NodeOk(side, mem, v[j], lists[j]);
    assert v[i].price == v[j].price;
  }

  /** Memory outside the linked slots does not matter to a ladder. */
  lemma LadderFrame(side: Side, mem: seq<Order>, mem': seq<Order>, v: seq<Node>,
      lists: seq<seq<nat>>)
    requires LadderOk(side, mem, v, lists)
    requires |mem'| == |mem|
    requires forall x :: 0 <= x < |mem| && Listed(lists, x) ==> mem'[x] == mem[x]
    ensures LadderOk(side, mem', v, lists)
    ensures LadderView(mem', v, lists) == LadderView(mem, v, lists)
  {
    forall i | 0 <= i < |v|
      ensures NodeOk(side, mem', v[i], lists[i]) && Views(mem', lists[i]) == Views(mem, lists[i])
    {
      NodeFrame(side, mem, mem', v, lists, i);
    }
  }

  lemma NodeFrame(side: Side, mem: seq<Order>, mem': seq<Order>, v: seq<Node>, lists: seq<seq<nat>>,
      i: nat)
    requires i < |v| == |lists| && NodeOk(side, mem, v[i], lists[i])
    requires |mem'| == |mem|
    requires forall x :: 0 <= x < |mem| && x in lists[i] ==> mem'[x] == mem[x]
    ensures NodeOk(side, mem', v[i], lists[i]) && Views(mem', lists[i]) == Views(mem, lists[i])
  {
    assert forall k :: 0 <= k < |lists[i]| ==> lists[i][k] in lists[i];
    LevelFrame(mem, mem', v[i].level, lists[i]);
  }

  /** Replacing one level, touching only the slots it links, keeps the ladder intact. */
  lemma LadderUpdate(
    side: Side, mem: seq<Order>, mem': seq<Order>, v: seq<Node>, lists: seq<seq<nat>>, i: nat, n: Node, s: seq<nat>)
    requires LadderOk(side, mem, v, lists) && i < |v|
    requires |mem'| == |mem|
    requires forall x :: 0 <= x < |mem| && x !in lists[i] && Listed(lists, x) ==> mem'[x] == mem[x]
    requires n.price == v[i].price && NodeOk(side, mem', n, s)
    ensures LadderOk(side, mem', v[i := n], lists[i := s])
    ensures LadderView(mem', v[i := n], lists[i := s]) == LadderView(mem, v, lists)[i := Level(n.price, Views(mem', s))]
  {
    forall j: nat | j < |v| && j != i
      ensures NodeOk(side, mem', v[j], lists[j]) && Views(mem', lists[j]) == Views(mem, lists[j])
    {
      OtherNode(side, mem, mem', v, lists, i, j);
    }
    hide NodeOk, Views, LadderView, Listed;
    UpdatedView(mem, mem', v, lists, i, n, s);
  }

  lemma OtherNode(
    side: Side, mem: seq<Order>, mem': seq<Order>, v: seq<Node>, lists: seq<seq<nat>>, i: nat, j: nat)
    requires LadderOk(side, mem, v, lists) && i < |v| && j < |v| && j != i
    requires |mem'| == |mem|
    requires forall x :: 0 <= x < |mem| && x !in lists[i] && Listed(lists, x) ==> mem'[x] == mem[x]
    ensures NodeOk(side, mem', v[j], lists[j]) && Views(mem', lists[j]) == Views(mem, lists[j])
  {
    forall x | 0 <= x < |mem| && x in lists[j]
      ensures mem'[x] == mem[x]
    {
      if x in lists[i] {
        ListsDisjoint(side, mem, v, lists, i, j, x);
      }
    }
    NodeFrame(side, mem, mem', v, lists, j);
  }

  lemma UpdatedView(
    mem: seq<Order>, mem': seq<Order>, v: seq<Node>, lists: seq<seq<nat>>, i: nat, n: Node, s: seq<nat>)
    requires i < |v| == |lists|
    requires forall j :: 0 <= j < |v| && j != i ==> Views(mem', lists[j]) == Views(mem, lists[j])
    ensures LadderView(mem', v[i := n], lists[i := s]) == LadderView(mem, v, lists)[i := Level(n.price, Views(mem', s))]
  {
  }

  lemma LadderInsert(side: Side, mem: seq<Order>, v: seq<Node>, lists: seq<seq<nat>>, i: nat,
      px: int)
    requires LadderOk(side, mem, v, lists) && LowerAt(side, v, px, i)
    requires i < |v| ==> v[i].price != px
    ensures LadderOk(side, mem, InsertAt(v, i, Node(px, EMPTY_LEVEL)), InsertAt(lists, i, []))
  {
    var v', lists' := InsertAt(v, i, Node(px, EMPTY_LEVEL)), InsertAt(lists, i, []);
    InsertKeepsSorted(side, v, i, Node(px, EMPTY_LEVEL));
    EmptyNodeOk(side, mem, px);
    assert |v'| == |v| + 1 == |lists'|;
    hide InsertAt, NodeOk;
    forall j: nat | j < |v'|
      ensures NodeOk(side, mem, v'[j], lists'[j])
    {
      InsertAtIndex(v, i, Node(px, EMPTY_LEVEL), j);
      InsertAtIndex(lists, i, [], j);
    }
  }

  lemma EmptyNodeOk(side: Side, mem: seq<Order>, px: int)
    ensures NodeOk(side, mem, Node(px, EMPTY_LEVEL), []) && Views(mem, []) == []
  {
  }

  lemma InsertKeepsSorted(side: Side, v: seq<Node>, i: nat, n: Node)
    requires PricesSorted(side, v) && LowerAt(side, v, n.price, i)
    requires i < |v| ==> v[i].price != n.price
    ensures PricesSorted(side, InsertAt(v, i, n))
  {
    assert forall k :: i <= k < |v| ==> Before(side, n.price, v[k].price);
  }

  lemma InsertedView(mem: seq<Order>, v: seq<Node>, lists: seq<seq<nat>>, i: nat, px: int)
    requires i <= |v| == |lists|
    ensures LadderView(mem, InsertAt(v, i, Node(px, EMPTY_LEVEL)), InsertAt(lists, i, []))
         == InsertAt(LadderView(mem, v, lists), i, Level(px, []))
  {
  }

  lemma LadderErase(side: Side, mem: seq<Order>, v: seq<Node>, lists: seq<seq<nat>>, i: nat)
    requires LadderOk(side, mem, v, lists) && i < |v|
    ensures LadderOk(side, mem, RemoveAt(v, i), RemoveAt(lists, i))
  {
    var v', lists' := RemoveAt(v, i), RemoveAt(lists, i);
    EraseKeepsSorted(side, v, i);
    forall j | 0 <= j < |v'|
      ensures NodeOk(side, mem, v'[j], lists'[j])
    {
      var k := if j < i then j else j + 1;
      RemoveAtIndex(v, i, j);
      RemoveAtIndex(lists, i, j);
      assert NodeOk(side, mem, v[k], lists[k]);
    }
  }

  lemma EraseKeepsSorted(side: Side, v: seq<Node>, i: nat)
    requires PricesSorted(side, v) && i < |v|
    ensures PricesSorted(side, RemoveAt(v, i))
  {
  }

  lemma ErasedView(mem: seq<Order>, v: seq<Node>, lists: seq<seq<nat>>, i: nat)
    requires i < |v| == |lists|
    ensures LadderView(mem, RemoveAt(v, i), RemoveAt(lists, i)) == RemoveAt(LadderView(mem, v, lists), i)
  {
  }
}
