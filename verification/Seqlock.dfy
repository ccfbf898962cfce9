// SeqlockQuote of include/lob/seqlock.hpp as a state machine: one writer, any number of
// readers, one step per load or store of seq or of one of the six payload fields.
module Seqlock {
  import opened LobTypes

  datatype Quote = Quote(bid: int, ask: int, bidQty: nat, askQty: nat, hasBid: bool, hasAsk: bool)

  const ZERO_QUOTE: Quote := Quote(0, 0, 0, 0, false, false)

  /** `to` with its k-th payload field taken from `src`: one store, or one load. */
  function CopyField(to: Quote, src: Quote, k: nat): Quote {
    match k
    case 0 => to.(bid := src.bid)
    case 1 => to.(ask := src.ask)
    case 2 => to.(bidQty := src.bidQty)
    case 3 => to.(askQty := src.askQty)
    case 4 => to.(hasBid := src.hasBid)
    case _ => to.(hasAsk := src.hasAsk)
  }

  /** The first `k` fields of the two quotes are equal. */
  predicate AgreeUpTo(a: Quote, b: Quote, k: nat) {
    && (k > 0 ==> a.bid == b.bid)
    && (k > 1 ==> a.ask == b.ask)
    && (k > 2 ==> a.bidQty == b.bidQty)
    && (k > 3 ==> a.askQty == b.askQty)
    && (k > 4 ==> a.hasBid == b.hasBid)
    && (k > 5 ==> a.hasAsk == b.hasAsk)
  }

  predicate AgreeFrom(a: Quote, b: Quote, k: nat) {
    && (k <= 0 ==> a.bid == b.bid)
    && (k <= 1 ==> a.ask == b.ask)
    && (k <= 2 ==> a.bidQty == b.bidQty)
    && (k <= 3 ==> a.askQty == b.askQty)
    && (k <= 4 ==> a.hasBid == b.hasBid)
    && (k <= 5 ==> a.hasAsk == b.hasAsk)
  }

  datatype Writer =
    | Resting
    | Storing(quote: Quote, stored: nat)   // seq is odd, `stored` fields are written

  datatype ReaderPc =
    | Idle
    | Starting                             // before the first load of seq
    | Loading(s1: nat, loaded: nat, got: Quote)
    | Checking(s1: nat, got: Quote)        // before the second load of seq

  /** What a read returned: a quote, and half the sequence number it was read at. */
  datatype Result = Result(publish: nat, quote: Quote)

  /** `floor` is the number of publishes completed when the read under way began. */
  datatype Reader = Reader(pc: ReaderPc, floor: nat, results: seq<Result>)

  /** `history[n]` is the argument of the n-th publish, and history[0] the initial payload. */
  datatype Lock = Lock(seqNo: nat, mem: Quote, writer: Writer, readers: seq<Reader>, history: seq<Quote>)

  ghost predicate Init(s: Lock) {
    && s.seqNo == 0 && s.mem == ZERO_QUOTE && s.writer == Resting && s.history == [ZERO_QUOTE]
    && forall r :: 0 <= r < |s.readers| ==> s.readers[r] == Reader(Idle, 0, [])
  }

  datatype WriterStep = Open(quote: Quote) | StoreField | Close

  predicate WriterNext(s: Lock, s': Lock, step: WriterStep) {
    match step
    case Open(quote) =>
      s.writer.Resting? && s' == s.(seqNo := s.seqNo + 1, writer := Storing(quote, 0), history := s.history + [quote])
    case StoreField =>
      && s.writer.Storing? && s.writer.stored < 6
      && s' == s.(mem := CopyField(s.mem, s.writer.quote, s.writer.stored),
                  writer := Storing(s.writer.quote, s.writer.stored + 1))
    case Close =>
      s.writer.Storing? && s.writer.stored == 6 && s' == s.(seqNo := s.seqNo + 1, writer := Resting)
  }

  datatype ReaderStep = Begin | LoadSeq | LoadField | Recheck

  predicate ReaderNext(s: Lock, s': Lock, r: nat, step: ReaderStep) {
    && r < |s.readers|
    && var reader := s.readers[r];
    match step
    case Begin =>
      reader.pc.Idle? && s' == s.(readers := s.readers[r := reader.(pc := Starting, floor := s.seqNo / 2)])
    case LoadSeq =>
      // An odd number means a write is in flight: try again.
      && reader.pc.Starting?
      && s' == s.(readers := s.readers[r :=
                 reader.(pc := if s.seqNo % 2 == 1 then Starting else Loading(s.seqNo, 0, ZERO_QUOTE))])
    case LoadField =>
      && reader.pc.Loading? && reader.pc.loaded < 6
      && var got := CopyField(reader.pc.got, s.mem, reader.pc.loaded);
      s' == s.(readers := s.readers[r := reader.(pc :=
              if reader.pc.loaded == 5 then Checking(reader.pc.s1, got)
                else Loading(reader.pc.s1, reader.pc.loaded + 1, got))])
    case Recheck =>
      && reader.pc.Checking?
      && s' == s.(readers := s.readers[r :=
                 if reader.pc.s1 == s.seqNo
                 then reader.(pc := Idle, results := reader.results + [Result(reader.pc.s1 / 2, reader.pc.got)])
                 else reader.(pc := Starting)])
  }

  ghost predicate Next(s: Lock, s': Lock) {
    || (exists step :: WriterNext(s, s', step))
    || (exists r, step :: ReaderNext(s, s', r, step))
  }

  // ----- the invariant -----

  /** Publishes completed so far. */
  function Completed(s: Lock): nat {
    s.seqNo / 2
  }

  predicate WriterOk(s: Lock) {
    match s.writer
    case Resting =>
      s.seqNo % 2 == 0 && |s.history| == Completed(s) + 1 && s.mem == s.history[Completed(s)]
    case Storing(quote, stored) =>
      && s.seqNo % 2 == 1 && |s.history| == Completed(s) + 2 && stored <= 6
      && quote == s.history[Completed(s) + 1]
      && AgreeUpTo(s.mem, quote, stored) && AgreeFrom(s.mem, s.history[Completed(s)], stored)
  }

  /** While the sequence number has not moved, what was loaded comes from one publish. */
  predicate ReaderOk(s: Lock, reader: Reader) {
    && reader.floor <= Completed(s)
    && (reader.pc.Loading? || reader.pc.Checking? ==>
          && reader.pc.s1 % 2 == 0 && 2 * reader.floor <= reader.pc.s1 <= s.seqNo && reader.pc.s1 / 2 < |s.history|
          && (reader.pc.s1 == s.seqNo ==>
                AgreeUpTo(reader.pc.got, s.history[reader.pc.s1 / 2],
                  if reader.pc.Loading? then reader.pc.loaded else 6)))
    && (reader.pc.Loading? ==> reader.pc.loaded < 6)
    && ResultsOk(s, reader)
  }

  /** Results are whole publishes, in an order that never goes back. */
  predicate ResultsOk(s: Lock, reader: Reader) {
    && (forall k :: 0 <= k < |reader.results| ==>
          && reader.results[k].publish < |s.history|
          && reader.results[k].quote == s.history[reader.results[k].publish]
          && reader.results[k].publish <= Completed(s))
    && (forall j, k :: 0 <= j < k < |reader.results| ==> reader.results[j].publish <= reader.results[k].publish)
    && (!reader.pc.Idle? ==> forall k :: 0 <= k < |reader.results| ==> reader.results[k].publish <= reader.floor)
  }

  predicate Inv(s: Lock) {
    WriterOk(s) && forall r :: 0 <= r < |s.readers| ==> ReaderOk(s, s.readers[r])
  }

  lemma WriterStepInv(s: Lock, s': Lock, step: WriterStep)
    requires Inv(s) && WriterNext(s, s', step)
    ensures Inv(s')
  {
    forall r | 0 <= r < |s.readers|
      ensures ReaderOk(s', s.readers[r])
    {
      assert ReaderOk(s, s.readers[r]);
    }
  }

  lemma ReaderStepInv(s: Lock, s': Lock, r: nat, step: ReaderStep)
    requires Inv(s) && ReaderNext(s, s', r, step)
    ensures Inv(s')
  {
    OwnStep(s, s', r, step);
    OthersUntouched(s, s', r, step);
    hide ReaderNext, ReaderOk;
    forall q | 0 <= q < |s'.readers|
      ensures ReaderOk(s', s'.readers[q])
    {
      if q != r {
        assert ReaderOk(s, s.readers[q]);
        SameMemory(s, s', s.readers[q]);
      }
    }
  }

  lemma OwnStep(s: Lock, s': Lock, r: nat, step: ReaderStep)
    requires WriterOk(s) && ReaderNext(s, s', r, step) && ReaderOk(s, s.readers[r])
    ensures r < |s'.readers| && ReaderOk(s', s'.readers[r])
  {
    var reader, reader' := s.readers[r], s'.readers[r];
    if step.Recheck? && reader.pc.s1 == s.seqNo {
      assert AgreeUpTo(reader.pc.got, s.history[reader.pc.s1 / 2], 6);
      assert reader.pc.got == s.history[reader.pc.s1 / 2];
    } else {
      assert reader'.results == reader.results;
    }
  }

  lemma OthersUntouched(s: Lock, s': Lock, r: nat, step: ReaderStep)
    requires WriterOk(s) && ReaderNext(s, s', r, step)
    ensures WriterOk(s') && s'.seqNo == s.seqNo && s'.history == s.history && |s'.readers| == |s.readers|
    ensures forall q :: 0 <= q < |s.readers| && q != r ==> s'.readers[q] == s.readers[q]
  {
  }

  lemma SameMemory(s: Lock, s': Lock, reader: Reader)
    requires ReaderOk(s, reader) && s'.seqNo == s.seqNo && s'.history == s.history
    ensures ReaderOk(s', reader)
  {
  }

  lemma NextInv(s: Lock, s': Lock)
    requires Inv(s) && Next(s, s')
    ensures Inv(s')
  {
    if step :| WriterNext(s, s', step) {
      WriterStepInv(s, s', step);
    } else {
      var r, step :| ReaderNext(s, s', r, step);
      ReaderStepInv(s, s', r, step);
    }
  }

  /** A run, which may also pause: other parts of a program take steps in between. */
  ghost predicate Run(run: seq<Lock>) {
    && run != [] && Init(run[0])
    && forall k :: 0 <= k < |run| - 1 ==> run[k + 1] == run[k] || Next(run[k], run[k + 1])
  }

  lemma {:induction false} RunInv(run: seq<Lock>, i: nat)
    requires Run(run) && i < |run|
    ensures Inv(run[i])
  {
    if i > 0 {
      RunInv(run, i - 1);
      assert run[i - 1 + 1] == run[i - 1] || Next(run[i - 1], run[i - 1 + 1]);
      if run[i] != run[i - 1] {
        NextInv(run[i - 1], run[i]);
      }
    }
  }

  /** Reader `r` began a read with the step from state `b`, and is still in it at state `i`. */
  ghost predicate ReadingSince(run: seq<Lock>, b: nat, i: nat, r: nat) {
    && b < i < |run| && ReaderNext(run[b], run[b + 1], r, Begin)
    && forall k :: b < k <= i ==> r < |run[k].readers| && !run[k].readers[r].pc.Idle?
  }

  lemma FloorKept(s: Lock, s': Lock, r: nat)
    requires Next(s, s') && r < |s.readers| && !s.readers[r].pc.Idle?
    ensures r < |s'.readers| && s'.readers[r].floor == s.readers[r].floor
  {
  }

  /** The floor of a read is what was completed when it began. */
  lemma {:induction false} FloorIsCompletedAtBegin(run: seq<Lock>, b: nat, i: nat, r: nat)
    requires Run(run) && ReadingSince(run, b, i, r)
    ensures run[i].readers[r].floor == Completed(run[b])
  {
    if i > b + 1 {
      FloorIsCompletedAtBegin(run, b, i - 1, r);
      assert run[i - 1 + 1] == run[i - 1] || Next(run[i - 1], run[i - 1 + 1]);
      if run[i] != run[i - 1] {
        FloorKept(run[i - 1], run[i], r);
      }
    }
  }

  /** Atomicity, freshness and order: a read that began at state `b` returns all six fields of
      one publish, no older than the last one completed at `b`, no younger than the last one
      completed now, and no older than what the same reader got before. */
  lemma ReadsAreAtomic(run: seq<Lock>, b: nat, i: nat, r: nat, s': Lock)
    requires Run(run) && ReadingSince(run, b, i, r)
    requires ReaderNext(run[i], s', r, Recheck) && run[i].readers[r].pc.s1 == run[i].seqNo
    ensures
      var s, before := run[i], run[i].readers[r];
      && |s'.readers| == |s.readers| && s'.readers[r].results != []
      && var result := s'.readers[r].results[|before.results|];
      && s'.readers[r].results == before.results + [result]
      && result.publish < |s.history| && result.quote == s.history[result.publish]
      && Completed(run[b]) <= result.publish == Completed(s)
      && forall k :: 0 <= k < |before.results| ==> before.results[k].publish <= result.publish
  {
    RunInv(run, i);
    FloorIsCompletedAtBegin(run, b, i, r);
    ReaderStepInv(run[i], s', r, Recheck);
    assert ReaderOk(run[i], run[i].readers[r]);
    assert ReaderOk(s', s'.readers[r]);
  }

  /** A reader waits only for a publish under way, and starts over only when one was opened since
      it loaded the sequence number: otherwise it returns what it has. */
  lemma RetriesIff(run: seq<Lock>, i: nat, r: nat, s': Lock)
    requires Run(run) && i < |run| && r < |run[i].readers|
    ensures ReaderNext(run[i], s', r, LoadSeq) ==>
              && |s'.readers| == |run[i].readers|
              && (s'.readers[r].pc.Loading? <==> run[i].writer.Resting?)
    ensures ReaderNext(run[i], s', r, Recheck) ==>
              var s, pc := run[i], run[i].readers[r].pc;
              && |s'.readers| == |s.readers|
              && (s'.readers[r].pc.Idle? <==> s.writer.Resting? && Completed(s) == pc.s1 / 2)
              && (s'.readers[r].pc.Idle? <==> |s'.readers[r].results| == |s.readers[r].results| + 1)
              && (s'.readers[r].pc.Idle? ==> s'.readers[r].results[|s.readers[r].results|].quote == s.mem)
  {
    RunInv(run, i);
    assert ReaderOk(run[i], run[i].readers[r]);
    hide Run, ResultsOk;
  }

  /** Over a whole run, every reader has only ever seen whole publishes, never going back. */
  lemma ReadersNeverGoBack(run: seq<Lock>, i: nat, r: nat)
    requires Run(run) && i < |run| && r < |run[i].readers|
    ensures ResultsOk(run[i], run[i].readers[r])
  {
    RunInv(run, i);
    assert ReaderOk(run[i], run[i].readers[r]);
  }

  lemma ReaderOkOf(s: Lock, r: nat)
    requires Inv(s) && r < |s.readers|
    ensures ResultsOk(s, s.readers[r])
  {
    assert ReaderOk(s, s.readers[r]);
  }
}
