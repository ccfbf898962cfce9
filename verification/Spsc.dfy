// The single-producer single-consumer ring of include/lob/spsc_queue.hpp as a state
// machine. A load of the other side's index may return any value since the last one seen.
module Spsc {
  import opened Arith
  import opened LobTypes

  datatype Producer<T> =
    | Idle
    | Sizing(value: T)      // before the load of tail
    | Ready(value: T)       // before the write of buf[head]
    | Writing(value: T)     // in the write
    | Storing(value: T)     // before the store of head

  datatype Consumer<T> =
    | Waiting
    | Looking               // before the load of head
    | Reading               // in the read of buf[tail]
    | Releasing(value: T)   // before the store of tail

  /** `pushed` and `popped` record the successful calls; `seenTail` and `seenHead` are the
      last values each side loaded of the other's index. */
  datatype Ring<T> = Ring(
    buf: seq<Option<T>>, head: nat, tail: nat, producer: Producer<T>, consumer: Consumer<T>,
    seenTail: nat, seenHead: nat, pushed: seq<T>, popped: seq<T>)
  {
    function Cap(): nat { |buf| }

    function At(p: nat): Option<T>
      requires |buf| > 0
    {
      buf[p % |buf|]
    }

    function Put(p: nat, x: Option<T>): Ring<T>
      requires |buf| > 0
    {
      this.(buf := buf[p % |buf| := x])
    }
  }

  ghost predicate Init<T>(s: Ring<T>) {
    && s.Cap() > 0 && s.head == s.tail == s.seenTail == s.seenHead == 0
    && s.producer == Idle && s.consumer == Waiting && s.pushed == [] && s.popped == []
  }

  datatype Step<T> =
    | Push(arg: T) | LoadTail(sawTail: nat) | BeginWrite | EndWrite | StoreHead
    | Pop | LoadHead(sawHead: nat) | EndRead(got: T) | StoreTail

  ghost predicate Taken<T>(s: Ring<T>, s': Ring<T>, step: Step<T>) {
    && s.Cap() > 0
    && match step
       case Push(arg) => s.producer.Idle? && s' == s.(producer := Sizing(arg))
       case LoadTail(t) =>
         && s.producer.Sizing? && s.seenTail <= t <= s.tail
         && s' == s.(seenTail := t, producer := if s.head + 1 > t + s.Cap() then Idle else Ready(s.producer.value))
       case BeginWrite => s.producer.Ready? && s' == s.Put(s.head, None).(producer := Writing(s.producer.value))
       case EndWrite =>
         s.producer.Writing? && s' == s.Put(s.head, Some(s.producer.value)).(producer := Storing(s.producer.value))
       case StoreHead =>
         s.producer.Storing? && s' == s.(head := s.head + 1, pushed := s.pushed + [s.producer.value], producer := Idle)
       case Pop => s.consumer.Waiting? && s' == s.(consumer := Looking)
       case LoadHead(h) =>
         && s.consumer.Looking? && s.seenHead <= h <= s.head
         && s' == s.(seenHead := h, consumer := if s.tail == h then Waiting else Reading)
       case EndRead(got) =>
         && s.consumer.Reading? && (s.At(s.tail).Some? ==> got == s.At(s.tail).value)
         && s' == s.(consumer := Releasing(got))
       case StoreTail =>
         s.consumer.Releasing?
           && s' == s.(tail := s.tail + 1, popped := s.popped + [s.consumer.value], consumer := Waiting)
  }

  ghost predicate Next<T(!new)>(s: Ring<T>, s': Ring<T>) {
    exists step :: Taken(s, s', step)
  }

  ghost predicate Inv<T>(s: Ring<T>) {
    && s.Cap() > 0
    && s.head == |s.pushed| && s.tail == |s.popped|
    && s.tail <= s.seenHead <= s.head <= s.tail + s.Cap()
    && s.seenTail <= s.tail && s.head <= s.seenTail + s.Cap()
    && s.popped == s.pushed[..s.tail]
    && (forall p: nat :: s.tail <= p < s.head ==> s.At(p) == Some(s.pushed[p]))
    && (s.producer.Ready? || s.producer.Writing? || s.producer.Storing? ==> s.head < s.seenTail + s.Cap())
    && (s.producer.Storing? ==> s.At(s.head) == Some(s.producer.value))
    && (s.consumer.Reading? || s.consumer.Releasing? ==> s.tail < s.seenHead)
    && (s.consumer.Releasing? ==> s.consumer.value == s.pushed[s.tail])
  }

  lemma InitInv<T>(s: Ring<T>)
    requires Init(s)
    ensures Inv(s)
  {
  }

  /** The slot being written is none of the unread ones. */
  lemma WriteElsewhere<T>(s: Ring<T>, x: Option<T>, p: nat)
    requires Inv(s) && s.head < s.tail + s.Cap() && s.tail <= p < s.head
    ensures s.Put(s.head, x).At(p) == s.At(p)
  {
    WindowApart(s.Cap(), p, s.head);
  }

  lemma WriteInv<T>(s: Ring<T>, s': Ring<T>, step: Step<T>)
    requires Inv(s) && Taken(s, s', step) && (step.BeginWrite? || step.EndWrite?)
    ensures Inv(s')
  {
    var x := if step.BeginWrite? then None else Some(s.producer.value);
    forall p: nat | s.tail <= p < s.head
      ensures s'.At(p) == s.At(p)
    {
      WriteElsewhere(s, x, p);
      assert s'.At(p) == s.Put(s.head, x).At(p);
    }
  }

  lemma StoreInv<T>(s: Ring<T>, s': Ring<T>, step: Step<T>)
    requires Inv(s) && Taken(s, s', step) && (step.StoreHead? || step.StoreTail?)
    ensures Inv(s')
  {
    forall p: nat | s'.tail <= p < s'.head
      ensures s'.At(p) == Some(s'.pushed[p])
    {
      assert s'.At(p) == s.At(p);
    }
  }

  lemma LoadInv<T>(s: Ring<T>, s': Ring<T>, step: Step<T>)
    requires Inv(s) && Taken(s, s', step)
    requires step.Push? || step.LoadTail? || step.Pop? || step.LoadHead? || step.EndRead?
    ensures Inv(s')
  {
    forall p: nat | s'.tail <= p < s'.head
      ensures s'.At(p) == Some(s'.pushed[p])
    {
      assert s'.At(p) == s.At(p);
    }
    if step.EndRead? {
      assert s.At(s.tail) == Some(s.pushed[s.tail]);
    }
  }

  lemma NextInv<T(!new)>(s: Ring<T>, s': Ring<T>)
    requires Inv(s) && Next(s, s')
    ensures Inv(s')
  {
    var step :| Taken(s, s', step);
    hide Inv, Taken;
    if step.BeginWrite? || step.EndWrite? {
      WriteInv(s, s', step);
    } else if step.StoreHead? || step.StoreTail? {
      StoreInv(s, s', step);
    } else {
      LoadInv(s, s', step);
    }
  }

  ghost predicate Run<T(!new)>(run: seq<Ring<T>>) {
    && run != [] && Init(run[0])
    && forall k :: 0 <= k < |run| - 1 ==> Next(run[k], run[k + 1])
  }

  lemma {:induction false} RunInv<T(!new)>(run: seq<Ring<T>>, i: nat)
    requires Run(run) && i < |run|
    ensures Inv(run[i])
  {
    if i == 0 {
      InitInv(run[0]);
    } else {
      RunInv(run, i - 1);
      assert Next(run[i - 1], run[i - 1 + 1]);
      NextInv(run[i - 1], run[i]);
    }
  }

  // ----- refinement of a bounded FIFO -----

  /** The values pushed and not yet popped. */
  function Queue<T>(s: Ring<T>): seq<T>
    requires s.tail <= |s.pushed|
  {
    s.pushed[s.tail..]
  }

  /** Every step of the ring is a step of a FIFO queue of bounded length, or none. */
  ghost predicate FifoStep<T>(s: Ring<T>, s': Ring<T>)
    requires s.tail <= |s.pushed| && s'.tail <= |s'.pushed|
  {
    || (Queue(s') == Queue(s) && s'.pushed == s.pushed && s'.popped == s.popped)
    || (|Queue(s)| < s.Cap() && s'.pushed != []
        && Queue(s') == Queue(s) + [s'.pushed[|s'.pushed| - 1]] && s'.popped == s.popped
        && s'.pushed == s.pushed + [s'.pushed[|s'.pushed| - 1]])
    || (Queue(s) != [] && Queue(s') == Queue(s)[1..] && s'.popped == s.popped + [Queue(s)[0]] && s'.pushed == s.pushed)
  }

  lemma StepRefines<T>(s: Ring<T>, s': Ring<T>, step: Step<T>)
    requires Inv(s) && Taken(s, s', step)
    requires s'.tail <= |s'.pushed|
    ensures FifoStep(s, s')
  {
    if step.StoreHead? {
      PushRefines(s, s', s.producer.value);
    } else if step.StoreTail? {
      PopRefines(s, s');
    } else {
      assert s'.pushed == s.pushed && s'.popped == s.popped && s'.tail == s.tail;
    }
  }

  lemma PushRefines<T>(s: Ring<T>, s': Ring<T>, v: T)
    requires Inv(s) && s.head < s.tail + s.Cap()
    requires s'.pushed == s.pushed + [v] && s'.popped == s.popped && s'.tail == s.tail
    ensures FifoStep(s, s')
  {
    assert (s.pushed + [v])[s.tail..] == s.pushed[s.tail..] + [v];
  }

  lemma PopRefines<T>(s: Ring<T>, s': Ring<T>)
    requires Inv(s) && s.tail < s.head
    requires s'.pushed == s.pushed && s'.popped == s.popped + [s.pushed[s.tail]] && s'.tail == s.tail + 1
    ensures FifoStep(s, s')
  {
    assert s.pushed[s.tail..][1..] == s.pushed[s.tail + 1..];
  }

  /** For any interleaving and any staleness the ring behaves as a bounded FIFO: what was
      popped is a prefix of what was pushed, and at most Capacity values are in between. */
  lemma {:induction false} RefinesFifo<T(!new)>(run: seq<Ring<T>>, i: nat)
    requires Run(run) && i < |run|
    ensures
      var s := run[i];
      && s.tail <= s.head == |s.pushed| && s.popped == s.pushed[..s.tail] && |Queue(s)| <= s.Cap() == run[0].Cap()
    ensures i > 0 ==>
              && run[i - 1].tail <= |run[i - 1].pushed| && run[i].tail <= |run[i].pushed|
              && FifoStep(run[i - 1], run[i])
  {
    RunInv(run, i);
    if i > 0 {
      RunInv(run, i - 1);
      RefinesFifo(run, i - 1);
      assert Next(run[i - 1], run[i - 1 + 1]);
      var step :| Taken(run[i - 1], run[i], step);
      StepRefines(run[i - 1], run[i], step);
      SameCapacity(run[i - 1], run[i], step);
      hide Inv, Taken, FifoStep;
    }
  }

  lemma SameCapacity<T>(s: Ring<T>, s': Ring<T>, step: Step<T>)
    requires Taken(s, s', step)
    ensures s'.Cap() == s.Cap()
  {
  }

  /** The cell being written is not the one being read, nor any unread one. */
  lemma NoOverwrite<T(!new)>(run: seq<Ring<T>>, i: nat)
    requires Run(run) && i < |run| && run[i].producer.Writing?
    ensures
      var s := run[i];
      s.Cap() > 0 && forall p: nat :: s.tail <= p < s.head ==> p % s.Cap() != s.head % s.Cap()
    ensures run[i].consumer.Reading? ==> run[i].tail < run[i].head
  {
    RunInv(run, i);
    var s := run[i];
    forall p: nat | s.tail <= p < s.head
      ensures p % s.Cap() != s.head % s.Cap()
    {
      WindowApart(s.Cap(), p, s.head);
    }
  }

  /** What a refusal says, however stale the load: a refused push misses exactly the room that
      was freed since the value of tail it saw, and a refused pop exactly the values that came
      since the value of head it saw. So the ring is full, or empty, if and only if the load
      was fresh. */
  lemma RefusalsMeasure<T(!new)>(run: seq<Ring<T>>, i: nat, s': Ring<T>, seen: nat)
    requires Run(run) && i < |run|
    ensures Taken(run[i], s', LoadTail(seen)) && s'.producer.Idle? ==>
              && run[i].tail <= |run[i].pushed| && seen <= run[i].tail
              && |Queue(run[i])| + (run[i].tail - seen) == run[i].Cap()
              && (|Queue(run[i])| == run[i].Cap() <==> seen == run[i].tail)
    ensures Taken(run[i], s', LoadHead(seen)) && s'.consumer.Waiting? ==>
              && run[i].tail <= |run[i].pushed| && seen <= run[i].head
              && |Queue(run[i])| == run[i].head - seen
              && (Queue(run[i]) == [] <==> seen == run[i].head)
  {
    RunInv(run, i);
  }

  /** With fresh loads a refused push means full and a refused pop means empty. */
  lemma RefusalsAreHonest<T(!new)>(run: seq<Ring<T>>, i: nat, s': Ring<T>)
    requires Run(run) && i < |run|
    ensures Taken(run[i], s', LoadTail(run[i].tail)) ==>
              (s'.producer.Idle? <==> run[i].head == run[i].tail + run[i].Cap())
    ensures Taken(run[i], s', LoadHead(run[i].head)) ==>
              (s'.consumer.Waiting? <==> run[i].tail <= |run[i].pushed| && Queue(run[i]) == [])
  {
    RunInv(run, i);
  }
}
