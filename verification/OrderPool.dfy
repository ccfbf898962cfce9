// The slab allocator of src/order_pool.cpp in Pool mode: a fixed buffer of order
// records and a stack of free slots. A freed slot keeps its fields until it is
// allocated again.
module OrderPools {
  import opened LobTypes
  import opened Slab

  class OrderPool {
    const buffer: array<Order>
    var freelist: seq<nat>

    constructor (capacity: nat)
      ensures fresh(buffer) && buffer.Length == capacity
      ensures forall x :: 0 <= x < capacity ==> buffer[x] == ZERO_ORDER
      ensures Distinct(freelist) && freelist == seq(capacity, k => k)
      ensures forall x: nat :: x in freelist <==> x < capacity
    {
      buffer := new Order[capacity](_ => ZERO_ORDER);
      freelist := [];
      new;
      var i := 0;
      while i < capacity
        invariant 0 <= i <= capacity && |freelist| == i
        invariant forall k :: 0 <= k < i ==> freelist[k] == k
        invariant forall x :: 0 <= x < capacity ==> buffer[x] == ZERO_ORDER
      {
        freelist := freelist + [i];
        i := i + 1;
      }
      forall x: nat
        ensures x in freelist <==> x < capacity
      {
        if x < capacity {
          assert freelist[x] in freelist;
        }
      }
    }

    /** Pop a free slot and zero it; None when the slab is exhausted. */
    method Allocate() returns (o: Option<nat>)
      requires InRange(buffer[..], freelist)
      modifies this`freelist, buffer
      ensures o.None? <==> old(freelist) == []
      ensures o.None? ==> freelist == [] && buffer[..] == old(buffer[..])
      ensures o.Some? ==>
                && o.value == old(freelist[|freelist| - 1]) && o.value < buffer.Length
                && freelist == old(freelist[..|freelist| - 1])
                && buffer[..] == old(buffer[..])[o.value := ZERO_ORDER]
    {
      if freelist == [] {
        return None;
      }
      var x := freelist[|freelist| - 1];
      assert x < |buffer[..]|;
      freelist := freelist[..|freelist| - 1];
      buffer[x] := ZERO_ORDER;
      o := Some(x);
    }

    method Deallocate(o: nat)
      modifies this`freelist
      ensures freelist == old(freelist) + [o]
    {
      freelist := freelist + [o];
    }
  }
}
