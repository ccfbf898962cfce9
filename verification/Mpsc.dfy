// The bounded multi-producer single-consumer ring of include/lob/mpsc_queue.hpp as a
// state machine: one step per atomic operation, and two steps (begin, end) per access to
// the plain field slot.data, interleaved sequentially consistently.
module Mpsc {
  import opened Arith
  import opened LobTypes

  /** `data` is None while a write to it is under way, and before the first one. */
  datatype Slot<T> = Slot(seqNo: nat, data: Option<T>)

  /** Where a producer stands in try_push(value). */
  datatype Producer<T> =
    | Idle
    | Loading(value: T)                // before the load of enqueue_pos
    | Inspecting(value: T, pos: nat)   // before the load of slot.seq
    | Claiming(value: T, pos: nat)     // before the CAS on enqueue_pos
    | Claimed(value: T, pos: nat)      // before the write of slot.data
    | Writing(value: T, pos: nat)      // in the write of slot.data
    | Written(value: T, pos: nat)      // before the store of slot.seq
  {
    predicate Holds(p: nat) {
      (Claimed? || Writing? || Written?) && pos == p
    }
  }

  /** Where the consumer stands in try_pop. */
  datatype Consumer<T> =
    | Waiting
    | Looking(pos: nat)                // before the load of slot.seq
    | Reading(pos: nat)                // in the read of slot.data
    | Releasing(pos: nat, value: T)    // before the store of slot.seq
    | Advancing(pos: nat, value: T)    // before the store of dequeue_pos

  /** A won position: which producer claimed it, and for which value. */
  datatype Claim<T> = Claim(producer: nat, value: T)

  /** `log` records the claims by position, `sent` the pushes of each producer that have
      returned true, `popped` the values try_pop has returned. */
  datatype Ring<T> = Ring(
    slots: seq<Slot<T>>, enq: nat, deq: nat, producers: seq<Producer<T>>, consumer: Consumer<T>,
    log: seq<Claim<T>>, sent: seq<seq<T>>, popped: seq<T>)
  {
    function Cap(): nat { |slots| }

    function At(p: nat): Slot<T>
      requires |slots| > 0
    {
      slots[p % |slots|]
    }

    function Put(p: nat, x: Slot<T>): Ring<T>
      requires |slots| > 0
    {
      this.(slots := slots[p % |slots| := x])
    }

    /** Positions below this one have been given back by the consumer. */
    function Released(): nat {
      if consumer.Advancing? then deq + 1 else deq
    }
  }

  ghost predicate Init<T>(s: Ring<T>) {
    && s.Cap() >= 2
    && (forall i :: 0 <= i < s.Cap() ==> s.slots[i].seqNo == i)
    && s.enq == s.deq == 0 && s.consumer == Waiting
    && (forall q :: 0 <= q < |s.producers| ==> s.producers[q] == Idle)
    && s.log == [] && s.popped == []
    && |s.sent| == |s.producers| && (forall q :: 0 <= q < |s.sent| ==> s.sent[q] == [])
  }

  // ----- the steps of a producer -----

  /** Producer `q` moves on to `pc` and the rest of the ring is `s`. */
  function Move<T>(s: Ring<T>, q: nat, pc: Producer<T>): Ring<T>
    requires q < |s.producers|
  {
    s.(producers := s.producers[q := pc])
  }

  datatype ProducerStep<T> =
    | Call(arg: T) | LoadPos | ReadSeq | CasWins | CasFails | BeginWrite | EndWrite | Publish

  ghost predicate ProducerNext<T>(s: Ring<T>, s': Ring<T>, q: nat, step: ProducerStep<T>) {
    && q < |s.producers| && |s.sent| == |s.producers| && s.Cap() > 0
    && var pc := s.producers[q];
    match step
    case Call(arg) =>
      pc.Idle? && s' == Move(s, q, Loading(arg))
    case LoadPos =>
      pc.Loading? && s' == Move(s, q, Inspecting(pc.value, s.enq))
    case ReadSeq =>
      && pc.Inspecting?
      && var seqNo := s.At(pc.pos).seqNo;
      s' == Move(s, q, if seqNo == pc.pos then Claiming(pc.value, pc.pos)
                       else if seqNo < pc.pos then Idle
                       else Loading(pc.value))
    case CasWins =>
      && pc.Claiming? && s.enq == pc.pos
      && s' == Move(s, q, Claimed(pc.value, pc.pos)).(enq := s.enq + 1, log := s.log + [Claim(q, pc.value)])
    case CasFails =>
      // Also when enqueue_pos is as expected: the weak CAS may fail spuriously.
      pc.Claiming? && s' == Move(s, q, Inspecting(pc.value, s.enq))
    case BeginWrite =>
      pc.Claimed? && s' == Move(s, q, Writing(pc.value, pc.pos)).Put(pc.pos, s.At(pc.pos).(data := None))
    case EndWrite =>
      pc.Writing? && s' == Move(s, q, Written(pc.value, pc.pos)).Put(pc.pos, s.At(pc.pos).(data := Some(pc.value)))
    case Publish =>
      && pc.Written?
      && s' == Move(s, q, Idle).Put(pc.pos, s.At(pc.pos).(seqNo := pc.pos + 1))
                 .(sent := s.sent[q := s.sent[q] + [pc.value]])
  }

  // ----- the steps of the consumer -----

  datatype ConsumerStep<T> = Poll | CheckSeq | EndRead(got: T) | Release | Advance

  ghost predicate ConsumerNext<T>(s: Ring<T>, s': Ring<T>, step: ConsumerStep<T>) {
    && s.Cap() > 0
    && match step
       case Poll =>
         s.consumer.Waiting? && s' == s.(consumer := Looking(s.deq))
       case CheckSeq =>
         && s.consumer.Looking?
         && s' == s.(consumer :=
              if s.At(s.consumer.pos).seqNo < s.consumer.pos + 1 then Waiting else Reading(s.consumer.pos))
       case EndRead(got) =>
         // A torn slot could yield any value.
         && s.consumer.Reading?
         && (s.At(s.consumer.pos).data.Some? ==> got == s.At(s.consumer.pos).data.value)
         && s' == s.(consumer := Releasing(s.consumer.pos, got))
       case Release =>
         && s.consumer.Releasing?
         && s' == s.Put(s.consumer.pos, s.At(s.consumer.pos).(seqNo := s.consumer.pos + s.Cap()))
                    .(consumer := Advancing(s.consumer.pos, s.consumer.value))
       case Advance =>
         && s.consumer.Advancing?
         && s' == s.(deq := s.consumer.pos + 1, consumer := Waiting, popped := s.popped + [s.consumer.value])
  }

  ghost predicate Next<T(!new)>(s: Ring<T>, s': Ring<T>) {
    || (exists q, step :: ProducerNext(s, s', q, step))
    || (exists step :: ConsumerNext(s, s', step))
  }

  // ----- the invariant -----

  /** The claims of producer `q`, in claim order. */
  function Mine<T>(log: seq<Claim<T>>, q: nat): seq<T> {
    if log == [] then []
    else Mine(log[..|log| - 1], q) + (if log[|log| - 1].producer == q then [log[|log| - 1].value] else [])
  }

  /** The value of a claim that is not yet published. */
  function InFlight<T>(pc: Producer<T>): seq<T> {
    if pc.Claimed? || pc.Writing? || pc.Written? then [pc.value] else []
  }

  /** A position of the current window is free, held by the producer that claimed it, or
      published with the claimed value. */
  ghost predicate SlotOk<T>(s: Ring<T>, p: nat)
    requires s.Cap() > 0 && |s.log| == s.enq
  {
    if p >= s.enq then s.At(p).seqNo == p
    else
      || (s.At(p).seqNo == p && s.log[p].producer < |s.producers| && s.producers[s.log[p].producer].Holds(p))
      || (s.At(p).seqNo == p + 1 && s.At(p).data == Some(s.log[p].value))
  }

  ghost predicate ProducerOk<T>(s: Ring<T>, q: nat)
    requires s.Cap() > 0 && |s.log| == s.enq && q < |s.producers| && |s.sent| == |s.producers|
  {
    var pc := s.producers[q];
    && Mine(s.log, q) == s.sent[q] + InFlight(pc)
    && (pc.Inspecting? || pc.Claiming? ==> pc.pos <= s.enq)
    && (pc.Claiming? ==> pc.pos < s.Released() + s.Cap())
    && (pc.Claimed? || pc.Writing? || pc.Written? ==>
          && s.Released() <= pc.pos < s.enq
          && s.log[pc.pos] == Claim(q, pc.value)
          && s.At(pc.pos).seqNo == pc.pos)
    && (pc.Written? ==> s.At(pc.pos).data == Some(pc.value))
  }

  ghost predicate ConsumerOk<T>(s: Ring<T>)
    requires s.Cap() > 0 && |s.log| == s.enq
  {
    var c := s.consumer;
    && (!c.Waiting? ==> c.pos == s.deq)
    && (c.Reading? || c.Releasing? ==> c.pos < s.enq && s.At(c.pos).seqNo == c.pos + 1)
    && (c.Releasing? || c.Advancing? ==> c.pos < s.enq && c.value == s.log[c.pos].value)
  }

  function Values<T>(log: seq<Claim<T>>): seq<T> {
    seq(|log|, i requires 0 <= i < |log| => log[i].value)
  }

  ghost predicate Inv<T>(s: Ring<T>) {
    && s.Cap() >= 2
    && |s.log| == s.enq && |s.sent| == |s.producers|
    && s.Released() <= s.enq <= s.Released() + s.Cap()
    && (forall p: nat :: s.Released() <= p < s.Released() + s.Cap() ==> SlotOk(s, p))
    && (forall q: nat :: q < |s.producers| ==> ProducerOk(s, q))
    && ConsumerOk(s)
    && s.popped == Values(s.log[..s.deq])
  }

  /** Rewriting the slot of one position of the window leaves the others alone. */
  lemma Elsewhere<T>(s: Ring<T>, lo: nat, p: nat, pos: nat, x: Slot<T>)
    requires s.Cap() > 0 && lo <= p < lo + s.Cap() && lo <= pos < lo + s.Cap()
    ensures p != pos ==> s.Put(pos, x).At(p) == s.At(p)
    ensures s.Put(pos, x).At(pos) == x
  {
    if p < pos {
      WindowApart(s.Cap(), p, pos);
    } else if pos < p {
      WindowApart(s.Cap(), pos, p);
    }
  }

  lemma SmallMod(p: nat, cap: nat)
    requires p < cap
    ensures p % cap == p
  {
  }

  lemma InitInv<T>(s: Ring<T>)
    requires Init(s)
    ensures Inv(s)
  {
    forall p: nat | p < s.Cap()
      ensures SlotOk(s, p)
    {
      SmallMod(p, s.Cap());
    }
    assert s.popped == Values(s.log[..s.deq]);
  }

  // ----- every step keeps the invariant -----

  /** A producer that holds no position before and after moves. */
  lemma MoveInv<T>(s: Ring<T>, q: nat, pc: Producer<T>)
    requires Inv(s) && q < |s.producers| && InFlight(s.producers[q]) == [] && InFlight(pc) == []
    requires pc.Inspecting? || pc.Claiming? ==> pc.pos <= s.enq
    requires pc.Claiming? ==> pc.pos < s.Released() + s.Cap()
    ensures Inv(Move(s, q, pc))
  {
    var s' := Move(s, q, pc);
    assert s'.Released() == s.Released() && s'.Cap() == s.Cap();
    forall p: nat | s.Released() <= p < s.Released() + s.Cap()
      ensures SlotOk(s', p)
    {
      assert SlotOk(s, p);
      assert s'.At(p) == s.At(p);
    }
    forall r: nat | r < |s.producers|
      ensures ProducerOk(s', r)
    {
      assert ProducerOk(s, r);
    }
  }

  /** The slot of position `pos` seen with sequence number `pos` is the free or claimed one. */
  lemma SeenFree<T>(s: Ring<T>, pos: nat)
    requires Inv(s) && pos <= s.enq && s.At(pos).seqNo == pos
    ensures pos < s.Released() + s.Cap()
  {
    var r := s.Released();
    assert SlotOk(s, r);
    ModNextLap(r, s.Cap());
    assert s.At(r + s.Cap()) == s.At(r);
  }

  lemma MineAppend<T>(log: seq<Claim<T>>, c: Claim<T>, q: nat)
    ensures Mine(log + [c], q) == Mine(log, q) + (if c.producer == q then [c.value] else [])
  {
    assert (log + [c])[..|log|] == log;
  }

  lemma CasWinsInv<T>(s: Ring<T>, s': Ring<T>, q: nat)
    requires Inv(s) && ProducerNext(s, s', q, CasWins)
    ensures Inv(s')
  {
    var pc := s.producers[q];
    assert ProducerOk(s, q);
    assert s'.Released() == s.Released() && s'.slots == s.slots;
    forall p: nat | s.Released() <= p < s.Released() + s.Cap()
      ensures SlotOk(s', p)
    {
      CasWinsSlot(s, s', q, p);
    }
    forall r: nat | r < |s.producers|
      ensures ProducerOk(s', r)
    {
      CasWinsProducer(s, s', q, r);
    }
    assert s'.log[..s.deq] == s.log[..s.deq];
  }

  lemma CasWinsProducer<T>(s: Ring<T>, s': Ring<T>, q: nat, r: nat)
    requires Inv(s) && ProducerNext(s, s', q, CasWins) && r < |s.producers|
    ensures ProducerOk(s', r)
  {
    var pc := s.producers[q];
    assert ProducerOk(s, q) && ProducerOk(s, r);
    MineAppend(s.log, Claim(q, pc.value), r);
    if r == q {
      assert s.sent[q] + [] == s.sent[q];
      assert s'.producers[q] == Claimed(pc.value, pc.pos);
      assert SlotOk(s, pc.pos);
      assert s'.At(pc.pos) == s.At(pc.pos);
    } else {
      assert s'.producers[r] == s.producers[r];
      assert Mine(s.log, r) + [] == Mine(s.log, r);
      var p := s.producers[r];
      if p.Claimed? || p.Writing? || p.Written? {
        assert s'.At(p.pos) == s.At(p.pos);
      }
    }
  }

  lemma CasWinsSlot<T>(s: Ring<T>, s': Ring<T>, q: nat, p: nat)
    requires Inv(s) && ProducerNext(s, s', q, CasWins) && s.Released() <= p < s.Released() + s.Cap()
    ensures SlotOk(s', p)
  {
    assert SlotOk(s, p);
    assert s'.At(p) == s.At(p);
    if p < s.enq {
      assert s'.log[p] == s.log[p];
    } else if p == s.enq {
      assert s'.log[p].producer == q && s'.producers[q].Holds(p);
    }
  }

  /** A producer writes its own slot: nobody else sees a difference. */
  lemma WriteInv<T>(s: Ring<T>, s': Ring<T>, q: nat, pc': Producer<T>, data: Option<T>)
    requires Inv(s) && q < |s.producers|
    requires var pc := s.producers[q]; (pc.Claimed? || pc.Writing?) && pc'.Holds(pc.pos) && pc'.value == pc.value
    requires var pc := s.producers[q]; s' == Move(s, q, pc').Put(pc.pos, s.At(pc.pos).(data := data))
    requires pc'.Written? ==> data == Some(pc'.value)
    ensures Inv(s')
  {
    var pc := s.producers[q];
    var x := s.At(pc.pos).(data := data);
    assert ProducerOk(s, q);
    assert s'.Released() == s.Released() && s'.slots == s.Put(pc.pos, x).slots;
    forall p: nat | s.Released() <= p < s.Released() + s.Cap()
      ensures SlotOk(s', p)
      ensures s'.At(p).seqNo == s.At(p).seqNo && (p != pc.pos ==> s'.At(p) == s.At(p))
    {
      assert SlotOk(s, p);
      Elsewhere(s, s.Released(), p, pc.pos, x);
      assert s'.At(p) == s.Put(pc.pos, x).At(p);
    }
    forall r: nat | r < |s.producers|
      ensures ProducerOk(s', r)
    {
      assert ProducerOk(s, r);
    }
    ConsumerSees(s, s');
  }

  lemma ConsumerSees<T>(s: Ring<T>, s': Ring<T>)
    requires Inv(s) && s'.consumer == s.consumer && s'.deq == s.deq && s'.enq == s.enq && s'.log == s.log
        && s'.Cap() == s.Cap()
    requires forall p: nat :: s.Released() <= p < s.Released() + s.Cap() ==>
               s'.At(p).seqNo == s.At(p).seqNo || s.At(p).seqNo == p
    ensures ConsumerOk(s')
  {
    if s.consumer.Reading? || s.consumer.Releasing? {
      assert s.Released() == s.deq;
    }
  }

  lemma PublishInv<T>(s: Ring<T>, s': Ring<T>, q: nat)
    requires Inv(s) && ProducerNext(s, s', q, Publish)
    ensures Inv(s')
  {
    var pc := s.producers[q];
    var x := s.At(pc.pos).(seqNo := pc.pos + 1);
    assert ProducerOk(s, q);
    assert s'.Released() == s.Released() && s'.slots == s.Put(pc.pos, x).slots;
    forall p: nat | s.Released() <= p < s.Released() + s.Cap()
      ensures SlotOk(s', p)
      ensures p != pc.pos ==> s'.At(p) == s.At(p)
    {
      assert SlotOk(s, p);
      Elsewhere(s, s.Released(), p, pc.pos, x);
      assert s'.At(p) == s.Put(pc.pos, x).At(p);
    }
    forall r: nat | r < |s.producers|
      ensures ProducerOk(s', r)
    {
      assert ProducerOk(s, r);
    }
    ConsumerSees(s, s');
  }

  lemma ReleaseInv<T>(s: Ring<T>, s': Ring<T>)
    requires Inv(s) && ConsumerNext(s, s', Release)
    ensures Inv(s')
  {
    var pos := s.deq;
    var x := s.At(pos).(seqNo := pos + s.Cap());
    assert s'.Released() == pos + 1 && s.Released() == pos;
    assert SlotOk(s, pos);
    ModNextLap(pos, s.Cap());
    assert s'.slots == s.Put(pos, x).slots;
    forall p: nat | pos <= p < pos + s.Cap()
      ensures p != pos ==> s'.At(p) == s.At(p) && SlotOk(s', p)
    {
      assert SlotOk(s, p);
      Elsewhere(s, pos, p, pos, x);
      assert s'.At(p) == s.Put(pos, x).At(p);
    }
    assert s'.At(pos + s.Cap()) == s'.At(pos) == x by {
      Elsewhere(s, pos, pos, pos, x);
    }
    assert SlotOk(s', pos + s.Cap());
    forall r: nat | r < |s.producers|
      ensures ProducerOk(s', r)
    {
      assert ProducerOk(s, r);
    }
  }

  lemma AdvanceInv<T>(s: Ring<T>, s': Ring<T>)
    requires Inv(s) && ConsumerNext(s, s', Advance)
    ensures Inv(s')
  {
    assert s'.Released() == s.Released();
    forall p: nat | s.Released() <= p < s.Released() + s.Cap()
      ensures SlotOk(s', p)
    {
      assert SlotOk(s, p);
      assert s'.At(p) == s.At(p);
    }
    forall r: nat | r < |s.producers|
      ensures ProducerOk(s', r)
    {
      assert ProducerOk(s, r);
    }
    assert s.log[..s.deq + 1] == s.log[..s.deq] + [s.log[s.deq]];
    assert s'.popped == Values(s.log[..s.deq + 1]);
  }

  /** The consumer changes its mind only. */
  lemma ConsumerMoveInv<T>(s: Ring<T>, c: Consumer<T>)
    requires Inv(s) && !s.consumer.Advancing? && !c.Advancing? && ConsumerOk(s.(consumer := c))
    ensures Inv(s.(consumer := c))
  {
    var s' := s.(consumer := c);
    assert s'.Released() == s.Released();
    forall p: nat | s.Released() <= p < s.Released() + s.Cap()
      ensures SlotOk(s', p)
    {
      assert SlotOk(s, p);
      assert s'.At(p) == s.At(p);
    }
    forall r: nat | r < |s.producers|
      ensures ProducerOk(s', r)
    {
      assert ProducerOk(s, r);
    }
  }

  /** The position the consumer looks at is published or not; when it is, its data is there. */
  lemma AtDequeue<T>(s: Ring<T>)
    requires Inv(s) && !s.consumer.Advancing?
    ensures s.At(s.deq).seqNo == s.deq || s.At(s.deq).seqNo == s.deq + 1
    ensures s.At(s.deq).seqNo == s.deq + 1 ==> s.deq < s.enq && s.At(s.deq).data == Some(s.log[s.deq].value)
  {
    assert SlotOk(s, s.deq);
  }

  lemma ProducerStepInv<T>(s: Ring<T>, s': Ring<T>, q: nat, step: ProducerStep<T>)
    requires Inv(s) && ProducerNext(s, s', q, step)
    ensures Inv(s')
  {
    var pc := s.producers[q];
    assert ProducerOk(s, q);
    match step {
      case Call(arg) => MoveInv(s, q, Loading(arg));
      case LoadPos => MoveInv(s, q, Inspecting(pc.value, s.enq));
      case ReadSeq =>
        if s.At(pc.pos).seqNo == pc.pos {
          SeenFree(s, pc.pos);
          MoveInv(s, q, Claiming(pc.value, pc.pos));
        } else {
          MoveInv(s, q, if s.At(pc.pos).seqNo < pc.pos then Idle else Loading(pc.value));
        }
      case CasWins => CasWinsInv(s, s', q);
      case CasFails => MoveInv(s, q, Inspecting(pc.value, s.enq));
      case BeginWrite => WriteInv(s, s', q, Writing(pc.value, pc.pos), None);
      case EndWrite => WriteInv(s, s', q, Written(pc.value, pc.pos), Some(pc.value));
      case Publish => PublishInv(s, s', q);
    }
  }

  lemma ConsumerStepInv<T>(s: Ring<T>, s': Ring<T>, step: ConsumerStep<T>)
    requires Inv(s) && ConsumerNext(s, s', step)
    ensures Inv(s')
  {
    if !s.consumer.Advancing? {
      AtDequeue(s);
    }
    match step {
      case Poll => ConsumerMoveInv(s, s'.consumer);
      case CheckSeq => ConsumerMoveInv(s, s'.consumer);
      case EndRead(got) => ConsumerMoveInv(s, s'.consumer);
      case Release => ReleaseInv(s, s');
      case Advance => AdvanceInv(s, s');
    }
  }

  lemma NextInv<T(!new)>(s: Ring<T>, s': Ring<T>)
    requires Inv(s) && Next(s, s')
    ensures Inv(s')
  {
    if q, step :| ProducerNext(s, s', q, step) {
      ProducerStepInv(s, s', q, step);
    } else {
      var step :| ConsumerNext(s, s', step);
      ConsumerStepInv(s, s', step);
    }
  }

  ghost predicate Run<T(!new)>(run: seq<Ring<T>>) {
    && run != [] && Init(run[0])
    && forall k :: 0 <= k < |run| - 1 ==> Next(run[k], run[k + 1])
  }

  lemma {:induction false} RunInv<T(!new)>(run: seq<Ring<T>>, i: nat)
    requires Run(run) && i < |run|
    ensures Inv(run[i])
  {
    if i == 0 {
      InitInv(run[0]);
    } else {
      RunInv(run, i - 1);
      assert Next(run[i - 1], run[i - 1 + 1]);
      NextInv(run[i - 1], run[i]);
    }
  }

  // ----- what the invariant means -----

  /** Exactly once: in every reachable state the values popped are those of the first
      dequeue_pos won positions, in that order; no push that returned true is missing from
      the log or twice in it, and no push that returned false is in it. */
  lemma ExactlyOnce<T(!new)>(run: seq<Ring<T>>, i: nat)
    requires Run(run) && i < |run|
    ensures
      var s := run[i];
      && |s.sent| == |s.producers| && s.deq <= s.enq == |s.log|
      && s.popped == Values(s.log[..s.deq])
      && forall q: nat :: q < |s.producers| ==> Mine(s.log, q) == s.sent[q] + InFlight(s.producers[q])
  {
    RunInv(run, i);
    var s := run[i];
    forall q: nat | q < |s.producers|
      ensures Mine(s.log, q) == s.sent[q] + InFlight(s.producers[q])
    {
      assert ProducerOk(s, q);
    }
  }

  /** Each producer's items come out in its own order. */
  lemma ProducerOrder<T(!new)>(run: seq<Ring<T>>, i: nat, q: nat)
    requires Run(run) && i < |run| && q < |run[i].producers|
    ensures
      var s := run[i];
      |s.sent| == |s.producers| && s.deq <= |s.log| && Mine(s.log[..s.deq], q) <= s.sent[q] + InFlight(s.producers[q])
  {
    ExactlyOnce(run, i);
    MinePrefix(run[i].log, run[i].deq, q);
  }

  lemma {:induction false} MinePrefix<T>(log: seq<Claim<T>>, n: nat, q: nat)
    requires n <= |log|
    ensures Mine(log[..n], q) <= Mine(log, q)
  {
    if n < |log| {
      MinePrefix(log[..|log| - 1], n, q);
      assert log[..|log| - 1][..n] == log[..n];
    } else {
      assert log[..n] == log;
    }
  }

  /** Ownership: every slot of the current window is free, claimed by exactly one producer,
      or published and held by nobody. */
  lemma SlotOwnership<T(!new)>(run: seq<Ring<T>>, i: nat, p: nat)
    requires Run(run) && i < |run| && run[i].Released() <= p < run[i].Released() + run[i].Cap()
    ensures
      var s := run[i];
      && s.Cap() > 0 && s.enq == |s.log|
      && (p >= s.enq ==> s.At(p).seqNo == p && NobodyHolds(s, p))
      && (p < s.enq && s.At(p).seqNo == p ==> HeldOnlyBy(s, p, s.log[p].producer))
      && (p < s.enq && s.At(p).seqNo != p ==>
            s.At(p).seqNo == p + 1 && s.At(p).data == Some(s.log[p].value) && NobodyHolds(s, p))
  {
    RunInv(run, i);
    var s := run[i];
    assert SlotOk(s, p);
    forall r: nat | r < |s.producers| && s.producers[r].Holds(p)
      ensures p < s.enq && s.At(p).seqNo == p && s.log[p].producer == r
    {
      assert ProducerOk(s, r);
    }
  }

  ghost predicate NobodyHolds<T>(s: Ring<T>, p: nat) {
    forall r: nat :: r < |s.producers| ==> !s.producers[r].Holds(p)
  }

  ghost predicate HeldOnlyBy<T>(s: Ring<T>, p: nat, q: nat) {
    && q < |s.producers| && s.producers[q].Holds(p)
    && forall r: nat :: r < |s.producers| && s.producers[r].Holds(p) ==> r == q
  }

  /** No data race: at no time do two threads access the same slot.data, one writing. */
  lemma NoDataRace<T(!new)>(run: seq<Ring<T>>, i: nat, q: nat)
    requires Run(run) && i < |run| && q < |run[i].producers| && run[i].producers[q].Writing?
    ensures
      var s := run[i];
      s.Cap() > 0
      && var mine := s.producers[q].pos % s.Cap();
      && (forall r: nat :: r < |s.producers| && r != q && s.producers[r].Writing? ==>
            s.producers[r].pos % s.Cap() != mine)
      && (s.consumer.Reading? ==> s.consumer.pos % s.Cap() != mine)
  {
    RunInv(run, i);
    var s := run[i];
    assert ProducerOk(s, q);
    forall r: nat | r < |s.producers| && r != q && s.producers[r].Writing?
      ensures s.producers[r].pos % s.Cap() != s.producers[q].pos % s.Cap()
    {
      assert ProducerOk(s, r);
      var a, b := s.producers[r].pos, s.producers[q].pos;
      assert s.log[a].producer != s.log[b].producer;
      if a < b {
        WindowApart(s.Cap(), a, b);
      } else {
        WindowApart(s.Cap(), b, a);
      }
    }
    if s.consumer.Reading? {
      WindowApart(s.Cap(), s.consumer.pos, s.producers[q].pos);
    }
  }

  /** The slot read by the consumer is complete: never torn, never stale. */
  lemma ReadsWhatWasWritten<T(!new)>(run: seq<Ring<T>>, i: nat)
    requires Run(run) && i < |run| && run[i].consumer.Reading?
    ensures
      var s := run[i];
      s.deq < |s.log| && s.Cap() > 0 && s.At(s.consumer.pos).data == Some(s.log[s.deq].value)
  {
    RunInv(run, i);
    AtDequeue(run[i]);
  }

  /** Full is honest: the load of the slot's sequence number makes try_push return false if and
      only if at that moment Capacity positions are claimed and not released, however stale the
      position it loaded. */
  lemma FullIsHonest<T(!new)>(run: seq<Ring<T>>, i: nat, q: nat, s': Ring<T>)
    requires Run(run) && i < |run| && ProducerNext(run[i], s', q, ReadSeq)
    ensures
      var s := run[i];
      && q < |s.producers| && q < |s'.producers| && s.producers[q].Inspecting?
      && s.producers[q].pos <= s.enq <= s.Released() + s.Cap()
      && (s'.producers[q].Idle? <==> s.producers[q].pos == s.Released() + s.Cap())
  {
    RunInv(run, i);
    var s := run[i];
    var pos := s.producers[q].pos;
    assert ProducerOk(s, q);
    if pos < s.Released() + s.Cap() {
      InsideNotFull(s, pos);
    } else {
      ModNextLap(s.Released(), s.Cap());
      assert SlotOk(s, s.Released());
    }
  }

  /** Below the end of the window the sequence number never lags behind the position. */
  lemma InsideNotFull<T>(s: Ring<T>, pos: nat)
    requires Inv(s) && pos < s.Released() + s.Cap()
    ensures s.At(pos).seqNo >= pos
  {
    if pos >= s.Released() {
      assert SlotOk(s, pos);
    } else {
      var p := LaterLap(s, pos, s.Released());
      assert SlotOk(s, p);
    }
  }

  /** The position of the window that uses the slot of an older position. */
  lemma LaterLap<T>(s: Ring<T>, pos: nat, lo: nat) returns (p: nat)
    requires s.Cap() > 0 && pos < lo
    ensures lo <= p < lo + s.Cap() && p >= pos && s.At(p) == s.At(pos)
  {
    p := pos;
    while p < lo
      invariant pos <= p < lo + s.Cap() && s.At(p) == s.At(pos)
    {
      ModNextLap(p, s.Cap());
      p := p + s.Cap();
    }
  }

  /** Position dequeue_pos is not claimed, or its producer has not published it yet. */
  ghost predicate Unpublished<T>(s: Ring<T>) {
    || s.deq >= |s.log|
    || (s.log[s.deq].producer < |s.producers| && s.producers[s.log[s.deq].producer].Holds(s.deq))
  }

  lemma DequeueStep<T(!new)>(s: Ring<T>, s': Ring<T>)
    requires Inv(s) && Next(s, s')
    ensures s.deq <= s'.deq && s'.Cap() == s.Cap()
  {
    if q, step :| ProducerNext(s, s', q, step) {
      hide Inv;
    } else {
      hide ProducerNext;
      assert s.consumer.Advancing? ==> s.consumer.pos == s.deq;
    }
  }

  lemma DequeueStepTo<T(!new)>(run: seq<Ring<T>>, j: nat)
    requires Run(run) && 0 < j < |run|
    ensures run[j - 1].deq <= run[j].deq && run[j].Cap() == run[j - 1].Cap()
  {
    RunInv(run, j - 1);
    assert Next(run[j - 1], run[j - 1 + 1]);
    hide Inv, Next;
    DequeueStep(run[j - 1], run[j]);
  }

  /** Positions only move on. */
  lemma {:induction false} DequeueMovesOn<T(!new)>(run: seq<Ring<T>>, i: nat, j: nat)
    requires Run(run) && i <= j < |run|
    ensures run[i].deq <= run[j].deq && run[j].Cap() == run[i].Cap()
  {
    hide Run;
    if i < j {
      DequeueStepTo(run, j);
      DequeueMovesOn(run, i, j - 1);
    }
  }

  /** A slot whose position was given back has a sequence number beyond it. */
  lemma ReleasedIsPast<T>(s: Ring<T>, pos: nat)
    requires Inv(s) && pos < s.Released()
    ensures s.At(pos).seqNo > pos
  {
    var p := LaterLap(s, pos, s.Released());
    assert SlotOk(s, p);
  }

  /** What a load of the sequence number at dequeue_pos says. */
  lemma LooksEmpty<T>(s: Ring<T>)
    requires Inv(s)
    ensures s.At(s.deq).seqNo <= s.deq <==> Unpublished(s)
  {
    if s.consumer.Advancing? {
      ReleasedIsPast(s, s.deq);
    } else {
      assert SlotOk(s, s.deq);
    }
    if s.deq < s.enq && s.log[s.deq].producer < |s.producers| {
      assert ProducerOk(s, s.log[s.deq].producer);
    }
  }

  /** empty() on any thread, and a try_pop that returns false, are two loads: of dequeue_pos
      at state `i` and of the sequence number of its slot at a later state `j`. They say
      "empty" if and only if at `j` nothing was popped since and position dequeue_pos is
      unpublished, which is not that the ring holds nothing. */
  lemma EmptyMeansUnpublished<T(!new)>(run: seq<Ring<T>>, i: nat, j: nat)
    requires Run(run) && i <= j < |run|
    ensures run[j].Cap() > 0
    ensures run[j].At(run[i].deq).seqNo < run[i].deq + 1 <==> run[j].deq == run[i].deq && Unpublished(run[j])
  {
    RunInv(run, j);
    DequeueMovesOn(run, i, j);
    if run[i].deq < run[j].deq {
      ReleasedIsPast(run[j], run[i].deq);
    } else {
      LooksEmpty(run[j]);
    }
  }

  /** The load of the sequence number makes try_pop return false if and only if position
      dequeue_pos is unpublished at that moment. */
  lemma RefusedPopIff<T(!new)>(run: seq<Ring<T>>, i: nat, s': Ring<T>)
    requires Run(run) && i < |run| && ConsumerNext(run[i], s', CheckSeq)
    ensures s'.consumer.Waiting? <==> Unpublished(run[i])
  {
    RunInv(run, i);
    CheckedEmpty(run[i], s');
  }

  lemma CheckedEmpty<T>(s: Ring<T>, s': Ring<T>)
    requires Inv(s) && ConsumerNext(s, s', CheckSeq)
    ensures s'.consumer.Waiting? <==> Unpublished(s)
  {
    LooksEmpty(s);
    hide Unpublished;
  }

  // ----- why Capacity must be at least two -----

  ghost predicate Steps<T(!new)>(run: seq<Ring<T>>) {
    forall k :: 0 <= k < |run| - 1 ==> Next(run[k], run[k + 1])
  }

  /** A ring of one slot that looks free, with one producer and nothing under way. */
  predicate OneSlot<T>(s: Ring<T>) {
    && s.Cap() == 1 && s.slots[0].seqNo == s.enq
    && |s.producers| == |s.sent| == 1 && s.producers[0].Idle? && s.consumer.Waiting?
  }

  function PushedTo<T>(s: Ring<T>, v: T): Ring<T>
    requires OneSlot(s)
  {
    s.(slots := [Slot(s.enq + 1, Some(v))], enq := s.enq + 1, log := s.log + [Claim(0, v)],
       producers := [Idle], sent := [s.sent[0] + [v]])
  }

  lemma OneStep<T(!new)>(s: Ring<T>, s': Ring<T>, q: nat, step: ProducerStep<T>)
    requires ProducerNext(s, s', q, step)
    ensures Next(s, s')
  {
  }

  lemma StepsJoin<T(!new)>(a: seq<Ring<T>>, b: seq<Ring<T>>) returns (run: seq<Ring<T>>)
    requires Steps(a) && Steps(b) && |a| > 0 && |b| > 0 && a[|a| - 1] == b[0]
    ensures Steps(run) && |run| > 0 && run[0] == a[0] && run[|run| - 1] == b[|b| - 1]
  {
    hide Next;
    run := a + b[1..];
    forall k | 0 <= k < |run| - 1
      ensures Next(run[k], run[k + 1])
    {
      if k < |a| - 1 {
        assert Next(a[k], a[k + 1]);
      } else {
        assert Next(b[k - |a| + 1], b[k - |a| + 1 + 1]);
      }
    }
  }

  /** The ring after the only producer won the next position for `v`. */
  function ClaimedFor<T>(s: Ring<T>, v: T): Ring<T>
    requires OneSlot(s)
  {
    Move(s, 0, Claimed(v, s.enq)).(enq := s.enq + 1, log := s.log + [Claim(0, v)])
  }

  lemma ClaimAlone<T(!new)>(s: Ring<T>, v: T) returns (run: seq<Ring<T>>)
    requires OneSlot(s)
    ensures Steps(run) && |run| > 0 && run[0] == s && run[|run| - 1] == ClaimedFor(s, v)
  {
    hide Next;
    var p := s.enq;
    var r1, r2, r3 := Move(s, 0, Loading(v)), Move(s, 0, Inspecting(v, p)), Move(s, 0, Claiming(v, p));
    assert p % 1 == 0;
    OneStep(s, r1, 0, Call(v));
    OneStep(r1, r2, 0, LoadPos);
    OneStep(r2, r3, 0, ReadSeq);
    OneStep(r3, ClaimedFor(s, v), 0, CasWins);
    run := [s, r1, r2, r3, ClaimedFor(s, v)];
  }

  lemma StoreAlone<T(!new)>(s: Ring<T>, v: T) returns (run: seq<Ring<T>>)
    requires OneSlot(s)
    ensures Steps(run) && |run| > 0 && run[0] == ClaimedFor(s, v) && run[|run| - 1] == PushedTo(s, v)
  {
    hide Next;
    var p, r := s.enq, ClaimedFor(s, v);
    var r1 := Move(r, 0, Writing(v, p)).(slots := [Slot(p, None)]);
    var r2 := Move(r, 0, Written(v, p)).(slots := [Slot(p, Some(v))]);
    assert p % 1 == 0;
    OneStep(r, r1, 0, BeginWrite);
    OneStep(r1, r2, 0, EndWrite);
    OneStep(r2, PushedTo(s, v), 0, Publish);
    run := [r, r1, r2, PushedTo(s, v)];
  }

  /** try_push on its own, step by step. */
  lemma PushAlone<T(!new)>(s: Ring<T>, v: T) returns (run: seq<Ring<T>>)
    requires OneSlot(s)
    ensures Steps(run) && |run| > 0 && run[0] == s && run[|run| - 1] == PushedTo(s, v)
    ensures OneSlot(PushedTo(s, v))
  {
    var claim := ClaimAlone(s, v);
    var store := StoreAlone(s, v);
    hide Steps;
    run := StepsJoin(claim, store);
  }

  /** try_pop on its own at position 0, which a later lap has overwritten with `w`. */
  lemma PopAlone<T(!new)>(s: Ring<T>, w: T) returns (run: seq<Ring<T>>)
    requires s.slots == [Slot(2, Some(w))] && s.consumer.Waiting? && s.deq == 0
    ensures Steps(run) && |run| > 0 && run[0] == s
    ensures run[|run| - 1] == s.(slots := [Slot(1, Some(w))], deq := 1, popped := s.popped + [w])
  {
    var r1, r2, r3 := s.(consumer := Looking(0)), s.(consumer := Reading(0)), s.(consumer := Releasing(0, w));
    var r4 := s.(slots := [Slot(1, Some(w))], consumer := Advancing(0, w));
    var r5 := s.(slots := [Slot(1, Some(w))], deq := 1, popped := s.popped + [w]);
    assert ConsumerNext(s, r1, Poll);
    assert ConsumerNext(r1, r2, CheckSeq);
    assert ConsumerNext(r2, r3, EndRead(w));
    assert ConsumerNext(r3, r4, Release);
    assert ConsumerNext(r4, r5, Advance);
    run := [s, r1, r2, r3, r4, r5];
  }

  /** With one slot a published position that was not popped looks free to the next push,
      which overwrites it: two pushes return true, and the consumer only ever gets the
      second value, after which the ring looks empty. */
  lemma OneSlotLosesValue<T(!new)>(v: T, w: T) returns (run: seq<Ring<T>>)
    ensures Steps(run) && |run| > 0
    ensures run[0] == Ring([Slot(0, None)], 0, 0, [Idle], Waiting, [], [[]], [])
    ensures
      var s := run[|run| - 1];
      && s.sent == [[v, w]] && s.popped == [w] && s.deq == 1
      && s.Cap() == 1 && s.At(s.deq).seqNo < s.deq + 1
  {
    var s0 := Ring([Slot(0, None)], 0, 0, [Idle], Waiting, [], [[]], []);
    var s1 := PushedTo(s0, v);
    var first := PushAlone(s0, v);
    var second := PushAlone(s1, w);
    var third := PopAlone(PushedTo(s1, w), w);
    hide Steps;
    var both := StepsJoin(first, second);
    run := StepsJoin(both, third);
    assert [] + [v] == [v] && [v] + [w] == [v, w] && [] + [w] == [w];
    assert 1 % 1 == 0;
  }
}
