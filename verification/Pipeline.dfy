// SingleWriterPipeline of include/lob/pipeline.hpp: many producers submit commands to the
// ring, one thread drains it, applies the commands to the book and publishes the inside
// market, and any number of readers read it. The state machine composes the ring, the
// book and the seqlock; every step of one of them is a step of the whole.
module Pipeline {
  import opened LobTypes
  import opened BookSpec
  import opened Commands
  import opened Ids
  import L = Ledgers
  import M = Mpsc
  import S = Seqlock

  // ----- the state machine -----

  /** Where the draining thread stands in drain(max). */
  datatype Drainer =
    | Idle
    | Deciding(n: nat, max: nat)
    | Popping(n: nat, max: nat)
    | Applying(n: nat, max: nat, command: Command)
    | Counting(n: nat, max: nat)
    | Quoting(n: nat, max: nat)
    | Publishing

  /** `marks[k]` is the number of commands applied when the k-th quote was published. */
  datatype Pipe = Pipe(ring: M.Ring<Command>, book: Book, applied: nat, lock: S.Lock, drainer: Drainer, marks: seq<nat>)

  ghost predicate Init(s: Pipe) {
    && M.Init(s.ring) && S.Init(s.lock)
    && NewBook(s.book) && s.applied == 0 && s.drainer == Idle && s.marks == [0]
  }

  /** Nothing rests or is pending, and ids are issued from a positive number on. */
  predicate NewBook(b: Book) {
    b.bids == b.asks == [] && b.stops == map[] && b.nextId > 0
  }

  /** After the loop of drain: publish when something was applied. */
  function AfterLoop(n: nat, max: nat): Drainer {
    if n > 0 then Quoting(n, max) else Idle
  }

  datatype DrainStep =
    | Start(limit: nat) | Decide | InPop(step: M.ConsumerStep<Command>) | ApplyOne | Count | Quote
    | InPublish(store: S.WriterStep)

  ghost predicate DrainNext(s: Pipe, s': Pipe, step: DrainStep) {
    var d := s.drainer;
    match step
    case Start(limit) => d.Idle? && s' == s.(drainer := Deciding(0, limit))
    case Decide =>
      && d.Deciding?
      && if d.n < d.max
         then M.ConsumerNext(s.ring, s'.ring, M.Poll) && s' == s.(ring := s'.ring, drainer := Popping(d.n, d.max))
         else s' == s.(drainer := AfterLoop(d.n, d.max))
    case InPop(pop) =>
      && d.Popping? && pop != M.Poll && M.ConsumerNext(s.ring, s'.ring, pop)
      && s' == s.(ring := s'.ring, drainer :=
                  if pop.Advance? then Applying(d.n, d.max, s.ring.consumer.value)
                  else if s'.ring.consumer.Waiting? then AfterLoop(d.n, d.max)
                  else d)
    case ApplyOne =>
      d.Applying? && s' == s.(book := Apply(s.book, d.command), drainer := Counting(d.n, d.max))
    case Count =>
      d.Counting? && s' == s.(applied := s.applied + 1, drainer := Deciding(d.n + 1, d.max))
    case Quote =>
      && d.Quoting? && S.WriterNext(s.lock, s'.lock, S.Open(Top(s.book)))
      && s' == s.(lock := s'.lock, drainer := Publishing, marks := s.marks + [s.applied])
    case InPublish(store) =>
      && d.Publishing? && (store.StoreField? || store.Close?) && S.WriterNext(s.lock, s'.lock, store)
      && s' == s.(lock := s'.lock, drainer := if store.Close? then Idle else d)
  }

  ghost predicate SubmitNext(s: Pipe, s': Pipe, q: nat, step: M.ProducerStep<Command>) {
    M.ProducerNext(s.ring, s'.ring, q, step) && s' == s.(ring := s'.ring)
  }

  ghost predicate ReadNext(s: Pipe, s': Pipe, r: nat, step: S.ReaderStep) {
    S.ReaderNext(s.lock, s'.lock, r, step) && s' == s.(lock := s'.lock)
  }

  ghost predicate Next(s: Pipe, s': Pipe) {
    || (exists step :: DrainNext(s, s', step))
    || (exists q, step :: SubmitNext(s, s', q, step))
    || (exists r, step :: ReadNext(s, s', r, step))
  }

  // ----- the invariant -----

  /** Commands whose effect is in the book. */
  function Done(s: Pipe): int {
    |s.ring.popped| - if s.drainer.Applying? then 1 else 0
  }

  /** The quote published k-th is the top of the book after the first marks[k] commands. */
  ghost predicate MarksOk(s: Pipe, b0: Book) {
    && |s.marks| == |s.lock.history|
    && (forall k :: 0 <= k < |s.marks| ==>
          s.marks[k] <= |s.ring.popped| && s.lock.history[k] == Top(Fold(b0, s.ring.popped[..s.marks[k]])))
    && (forall k :: 0 <= k < |s.marks| ==> s.marks[k] <= s.applied)
    && (forall j, k :: 0 <= j < k < |s.marks| ==> s.marks[j] <= s.marks[k])
  }

  ghost predicate DrainerOk(s: Pipe, b0: Book) {
    && 0 <= Done(s) && s.book == Fold(b0, s.ring.popped[..Done(s)])
    && s.applied == Done(s) - (if s.drainer.Counting? then 1 else 0)
    && (s.drainer.Applying? ==> s.ring.popped[|s.ring.popped| - 1] == s.drainer.command)
    && (s.drainer.Popping? <==> !s.ring.consumer.Waiting?)
    && (s.drainer.Publishing? <==> s.lock.writer.Storing?)
  }

  /** The drain under way has applied the `n` commands since the last mark, at most `max` of
      them; outside the loop and once the publish is open, none. */
  ghost predicate SinceMark(s: Pipe) {
    && s.marks != []
    && var mark := s.marks[|s.marks| - 1];
    match s.drainer
    case Idle => s.applied == mark
    case Deciding(n, max) => s.applied == mark + n && n <= max
    case Popping(n, max) => s.applied == mark + n && n < max
    case Applying(n, max, command) => s.applied == mark + n && n < max
    case Counting(n, max) => s.applied == mark + n && n < max
    case Quoting(n, max) => s.applied == mark + n && 0 < n <= max
    case Publishing => s.applied == mark
  }

  ghost predicate Core(s: Pipe, b0: Book) {
    M.Inv(s.ring) && S.Inv(s.lock) && DrainerOk(s, b0) && MarksOk(s, b0)
  }

  ghost predicate Inv(s: Pipe, b0: Book) {
    Core(s, b0) && SinceMark(s)
  }

  lemma {:induction false} InitInv(s: Pipe)
    requires Init(s)
    ensures Inv(s, s.book)
  {
    M.InitInv(s.ring);
    assert s.ring.popped[..0] == [];
    assert s.lock.history[0] == Top(s.book);
    assert forall r :: 0 <= r < |s.lock.readers| ==> s.lock.readers[r] == S.Reader(S.Idle, 0, []);
  }

  /** Popping one more command keeps all prefixes. */
  lemma MarksGrow(s: Pipe, s': Pipe, b0: Book)
    requires MarksOk(s, b0) && s'.marks == s.marks && s'.lock.history == s.lock.history && s'.applied >= s.applied
    requires |s.ring.popped| <= |s'.ring.popped| && s'.ring.popped[..|s.ring.popped|] == s.ring.popped
    ensures MarksOk(s', b0)
  {
    forall k | 0 <= k < |s.marks|
      ensures s'.ring.popped[..s.marks[k]] == s.ring.popped[..s.marks[k]]
    {
      assert s.ring.popped[..s.marks[k]] == s'.ring.popped[..|s.ring.popped|][..s.marks[k]];
    }
  }

  lemma PopCore(s: Pipe, s': Pipe, b0: Book, pop: M.ConsumerStep<Command>)
    requires Core(s, b0) && DrainNext(s, s', InPop(pop))
    ensures Core(s', b0)
  {
    hide M.Inv, S.Inv, Fold;
    M.ConsumerStepInv(s.ring, s'.ring, pop);
    if pop.Advance? {
      assert s'.ring.popped == s.ring.popped + [s.ring.consumer.value];
      assert s'.ring.popped[..|s.ring.popped|] == s.ring.popped;
      assert s.ring.popped[..|s.ring.popped|] == s.ring.popped;
    } else {
      assert s'.ring.popped == s.ring.popped;
    }
    MarksGrow(s, s', b0);
  }

  lemma DecideCore(s: Pipe, s': Pipe, b0: Book)
    requires Core(s, b0) && DrainNext(s, s', Decide)
    ensures Core(s', b0)
  {
    hide M.Inv, S.Inv, Fold;
    if s.drainer.n < s.drainer.max {
      M.ConsumerStepInv(s.ring, s'.ring, M.Poll);
    }
    assert s'.ring.popped == s.ring.popped;
    MarksGrow(s, s', b0);
  }

  lemma ApplyCore(s: Pipe, s': Pipe, b0: Book)
    requires Core(s, b0) && DrainNext(s, s', ApplyOne)
    ensures Core(s', b0)
  {
    hide M.Inv, S.Inv, Fold, Apply;
    var n := |s.ring.popped| - 1;
    assert s.ring.popped == s.ring.popped[..n] + [s.drainer.command];
    FoldAppend(b0, s.ring.popped[..n], s.drainer.command);
    assert s.ring.popped[..n + 1] == s.ring.popped;
    MarksGrow(s, s', b0);
  }

  lemma QuoteCore(s: Pipe, s': Pipe, b0: Book)
    requires Core(s, b0) && DrainNext(s, s', Quote)
    ensures Core(s', b0)
  {
    hide M.Inv, S.Inv, Fold, Top, MarksOk;
    S.WriterStepInv(s.lock, s'.lock, S.Open(Top(s.book)));
    QuoteMarks(s, s', b0, s.applied);
  }

  lemma QuoteMarks(s: Pipe, s': Pipe, b0: Book, n: nat)
    requires MarksOk(s, b0) && s'.ring == s.ring && s'.applied == s.applied == n <= |s.ring.popped|
    requires s'.marks == s.marks + [n]
    requires s'.lock.history == s.lock.history + [Top(Fold(b0, s.ring.popped[..n]))]
    ensures MarksOk(s', b0)
  {
    hide Fold, Top;
  }

  lemma PublishCore(s: Pipe, s': Pipe, b0: Book, store: S.WriterStep)
    requires Core(s, b0) && DrainNext(s, s', InPublish(store))
    ensures Core(s', b0)
  {
    hide M.Inv, S.Inv, Fold;
    S.WriterStepInv(s.lock, s'.lock, store);
    MarksGrow(s, s', b0);
  }

  lemma StartCore(s: Pipe, s': Pipe, b0: Book, limit: nat)
    requires Core(s, b0) && DrainNext(s, s', Start(limit))
    ensures Core(s', b0)
  {
    hide M.Inv, S.Inv, Fold;
    MarksGrow(s, s', b0);
  }

  lemma CountCore(s: Pipe, s': Pipe, b0: Book)
    requires Core(s, b0) && DrainNext(s, s', Count)
    ensures Core(s', b0)
  {
    hide M.Inv, S.Inv, Fold;
    MarksGrow(s, s', b0);
  }

  lemma DrainCore(s: Pipe, s': Pipe, b0: Book, step: DrainStep)
    requires Core(s, b0) && DrainNext(s, s', step)
    ensures Core(s', b0)
  {
    hide Core, DrainNext;
    match step {
      case Decide => DecideCore(s, s', b0);
      case InPop(pop) => PopCore(s, s', b0, pop);
      case ApplyOne => ApplyCore(s, s', b0);
      case Quote => QuoteCore(s, s', b0);
      case InPublish(store) => PublishCore(s, s', b0, store);
      case Start(limit) => StartCore(s, s', b0, limit);
      case Count => CountCore(s, s', b0);
    }
  }

  lemma SubmitCore(s: Pipe, s': Pipe, b0: Book, q: nat, step: M.ProducerStep<Command>)
    requires Core(s, b0) && SubmitNext(s, s', q, step)
    ensures Core(s', b0)
  {
    hide M.Inv, S.Inv, Fold;
    M.ProducerStepInv(s.ring, s'.ring, q, step);
    assert s'.ring.popped == s.ring.popped && s'.ring.consumer == s.ring.consumer;
    MarksGrow(s, s', b0);
  }

  lemma ReadCore(s: Pipe, s': Pipe, b0: Book, r: nat, step: S.ReaderStep)
    requires Core(s, b0) && ReadNext(s, s', r, step)
    ensures Core(s', b0)
  {
    hide M.Inv, S.Inv, Fold;
    S.ReaderStepInv(s.lock, s'.lock, r, step);
    assert s'.lock.history == s.lock.history && s'.lock.writer == s.lock.writer;
    MarksGrow(s, s', b0);
  }

  lemma DrainSinceMark(s: Pipe, s': Pipe, step: DrainStep)
    requires SinceMark(s) && DrainNext(s, s', step)
    ensures SinceMark(s')
  {
    hide M.ConsumerNext, S.WriterNext, Apply, Top;
  }

  /** Producers and readers touch neither the drainer nor the marks. */
  lemma OtherSinceMark(s: Pipe, s': Pipe)
    requires SinceMark(s) && s' == s.(ring := s'.ring, lock := s'.lock)
    ensures SinceMark(s')
  {
  }

  lemma OthersStep(s: Pipe, s': Pipe, k: nat)
    requires (exists step :: SubmitNext(s, s', k, step)) || exists step :: ReadNext(s, s', k, step)
    ensures s' == s.(ring := s'.ring, lock := s'.lock)
  {
    hide M.ProducerNext, S.ReaderNext;
  }

  lemma NextInv(s: Pipe, s': Pipe, b0: Book)
    requires Inv(s, b0) && Next(s, s')
    ensures Inv(s', b0)
  {
    hide Core, SinceMark, DrainNext, SubmitNext, ReadNext;
    if step :| DrainNext(s, s', step) {
      DrainCore(s, s', b0, step);
      DrainSinceMark(s, s', step);
    } else if q, step :| SubmitNext(s, s', q, step) {
      SubmitCore(s, s', b0, q, step);
      OthersStep(s, s', q);
      OtherSinceMark(s, s');
    } else {
      var r, step :| ReadNext(s, s', r, step);
      ReadCore(s, s', b0, r, step);
      OthersStep(s, s', r);
      OtherSinceMark(s, s');
    }
  }

  ghost predicate Run(run: seq<Pipe>) {
    && run != [] && Init(run[0])
    && forall k :: 0 <= k < |run| - 1 ==> Next(run[k], run[k + 1])
  }

  lemma {:induction false} RunInv(run: seq<Pipe>, i: nat)
    requires Run(run) && i < |run|
    ensures Inv(run[i], run[0].book)
  {
    if i == 0 {
      InitInv(run[0]);
    } else {
      RunInv(run, i - 1);
      assert Next(run[i - 1], run[i - 1 + 1]);
      NextInv(run[i - 1], run[i], run[0].book);
    }
  }

  // ----- end to end -----

  /** Between commands the book is the fold of exactly the first `applied` commands of the
      claim-order log, for any interleaving of producers, the drainer and readers. */
  lemma BookIsFoldOfLog(run: seq<Pipe>, i: nat)
    requires Run(run) && i < |run|
    requires !run[i].drainer.Applying? && !run[i].drainer.Counting?
    ensures
      var s := run[i];
      && s.applied == s.ring.deq <= |s.ring.log|
      && s.book == Fold(run[0].book, M.Values(s.ring.log[..s.applied]))
  {
    RunInv(run, i);
    var s := run[i];
    assert s.ring.popped[..|s.ring.popped|] == s.ring.popped;
  }

  /** Commands keep a book in order that was new. */
  lemma FoldOk(b: Book, cs: seq<Command>)
    requires NewBook(b)
    ensures Priced(Fold(b, cs)) && IdsOk(Fold(b, cs)) && IsInside(Top(Fold(b, cs)), Fold(b, cs))
  {
    FoldIsRun(L.Ledger(b, map[], {}, []), cs);
    hide Fold, Top, Priced, IdsOk, IsInside;
    QuoteIsInside(Fold(b, cs));
  }

  /** At any moment between commands, whatever the producers do: each order that came through
      the ring was filled for exactly what it no longer shows, and stands under its own id. */
  lemma OrdersThroughRing(run: seq<Pipe>, i: nat, id: nat)
    requires Run(run) && i < |run| && run[0].book == L.NewLedger(run[0].book.free).book
    requires !run[i].drainer.Applying? && !run[i].drainer.Counting?
    ensures
      var s := run[i];
      && s.applied == s.ring.deq <= |s.ring.log|
      && var l := L.After(L.NewLedger(run[0].book.free), ActsOf(M.Values(s.ring.log[..s.applied])));
      && l.book == s.book && L.FilledExactly(l, id) && Holders(s.book, id) <= 1
  {
    BookIsFoldOfLog(run, i);
    hide Fold, L.After, L.FilledExactly, ActsOf, Top, IsInside, Holders, Run, M.Values;
    CommandsConserve(run[0].book.free, M.Values(run[i].ring.log[..run[i].applied]), id);
  }

  /** A drain applies at most as many commands as it was told, and counts them: while it is in
      its loop, `n` is the number applied since the last quote was published. */
  lemma DrainCounts(run: seq<Pipe>, i: nat)
    requires Run(run) && i < |run| && (run[i].drainer.Deciding? || run[i].drainer.Popping?)
    ensures
      var s := run[i];
      s.marks != [] && s.marks[|s.marks| - 1] + s.drainer.n == s.applied && s.drainer.n <= s.drainer.max
  {
    hide Core, Run, SinceMark;
    RunInv(run, i);
    Counted(run[i]);
  }

  lemma Counted(s: Pipe)
    requires SinceMark(s) && (s.drainer.Deciding? || s.drainer.Popping?)
    ensures s.marks != [] && s.marks[|s.marks| - 1] + s.drainer.n == s.applied && s.drainer.n <= s.drainer.max
  {
  }

  /** A drain ends its loop if and only if it has applied as many commands as it was told, or
      finds the next position of the ring unpublished. */
  lemma DrainEndsIff(run: seq<Pipe>, i: nat, s': Pipe, step: DrainStep)
    requires Run(run) && i < |run| && DrainNext(run[i], s', step)
    requires step == Decide || step == InPop(M.CheckSeq)
    ensures
      var s := run[i];
      var stops := if step == Decide then s.drainer.n == s.drainer.max else M.Unpublished(s.ring);
      && (stops <==> s'.drainer == if s.drainer.n > 0 then Quoting(s.drainer.n, s.drainer.max) else Idle)
      && (!stops <==> s'.drainer == Popping(s.drainer.n, s.drainer.max))
  {
    RunInv(run, i);
    var s := run[i];
    hide Run, MarksOk, DrainerOk, S.Inv;
    if step == Decide {
      Counted(s);
    } else {
      M.CheckedEmpty(s.ring, s'.ring);
    }
    hide M.Inv, M.Unpublished, SinceMark;
  }

  /** A drain that applied something publishes before it returns: whenever the drainer is idle
      the last quote was published for the book as it is, the publish is complete, and the six
      fields in memory are the inside of that book. */
  lemma IdleIsPublished(run: seq<Pipe>, i: nat)
    requires Run(run) && i < |run| && run[i].drainer.Idle?
    ensures
      var s := run[i];
      && s.marks != [] && s.marks[|s.marks| - 1] == s.applied == s.ring.deq
      && s.lock.writer.Resting? && S.Completed(s.lock) == |s.marks| - 1
      && s.lock.mem == Top(s.book) && IsInside(s.lock.mem, s.book)
  {
    hide Run, Inv, Fold, Top, IsInside, Priced, IdsOk, NewBook;
    RunInv(run, i);
    FirstIsNew(run);
    IdleDrainer(run[i], run[0].book);
    IdleWriter(run[i], run[0].book);
    FoldOk(run[0].book, run[i].ring.popped);
  }

  lemma IdleDrainer(s: Pipe, b0: Book)
    requires Inv(s, b0) && s.drainer.Idle?
    ensures s.marks != [] && s.marks[|s.marks| - 1] == s.applied == s.ring.deq
    ensures s.book == Fold(b0, s.ring.popped) && |s.marks| == |s.lock.history|
    ensures s.lock.history[|s.marks| - 1] == Top(s.book)
  {
    LastMark(s, b0);
    hide Fold, Top, M.Inv, S.Inv;
    assert s.ring.popped[..s.applied] == s.ring.popped;
  }

  lemma IdleWriter(s: Pipe, b0: Book)
    requires Inv(s, b0) && s.drainer.Idle?
    ensures s.lock.writer.Resting? && |s.lock.history| == S.Completed(s.lock) + 1
    ensures s.lock.mem == s.lock.history[S.Completed(s.lock)]
  {
    hide Fold, Top, M.Inv, MarksOk, SinceMark;
  }

  /** Every quote a reader got is the inside of the book after some drain boundary: a prefix of
      the claim-order log that was completely applied when the quote was published. The
      boundaries a reader sees never go back. */
  lemma QuotesAreDrainBoundaries(run: seq<Pipe>, i: nat, r: nat, k: nat)
    requires Run(run) && i < |run| && r < |run[i].lock.readers| && k < |run[i].lock.readers[r].results|
    ensures
      var s := run[i];
      var result := s.lock.readers[r].results[k];
      && result.publish < |s.marks| && s.marks[result.publish] <= s.applied <= |s.ring.log|
      && IsInside(result.quote, Fold(run[0].book, M.Values(s.ring.log[..s.marks[result.publish]])))
      && forall j :: 0 <= j < k ==>
           var earlier := s.lock.readers[r].results[j];
           earlier.publish < |s.marks| && s.marks[earlier.publish] <= s.marks[result.publish]
  {
    RunInv(run, i);
    var s := run[i];
    LastMark(s, run[0].book);
    S.ReaderOkOf(s.lock, r);
    hide M.Inv, S.Inv, Fold, Top, Inv, S.ReaderOk, M.Values, Run, MarksOk, S.ResultsOk, IsInside, Priced, IdsOk;
    ResultMark(s, run[0].book, s.lock.readers[r], k);
    var mark := s.marks[s.lock.readers[r].results[k].publish];
    ValuesPrefix(s.ring, mark);
    FirstIsNew(run);
    FoldOk(run[0].book, M.Values(s.ring.log[..mark]));
  }

  /** The seqlock's part of a run of the pipeline. */
  function Locks(run: seq<Pipe>): seq<S.Lock> {
    seq(|run|, k requires 0 <= k < |run| => run[k].lock)
  }

  lemma LockStep(s: Pipe, s': Pipe)
    requires Next(s, s')
    ensures s'.lock == s.lock || S.Next(s.lock, s'.lock)
  {
    hide M.ProducerNext, M.ConsumerNext, S.ReaderNext, S.WriterNext, Apply, Top;
  }

  lemma LocksRun(run: seq<Pipe>)
    requires Run(run)
    ensures S.Run(Locks(run))
  {
    hide S.Next, Next;
    forall k | 0 <= k < |run| - 1
      ensures Locks(run)[k + 1] == Locks(run)[k] || S.Next(Locks(run)[k], Locks(run)[k + 1])
    {
      assert Next(run[k], run[k + 1]);
      LockStep(run[k], run[k + 1]);
    }
  }

  lemma FirstIsNew(run: seq<Pipe>)
    requires Run(run)
    ensures NewBook(run[0].book)
  {
  }

  /** A quote is fresh: what a read returns that began at state `b` is the inside of the book at
      the last boundary published when it returns, no earlier than the last boundary whose
      publish was complete at `b`. While the drainer is idle that is the book as it is. */
  lemma QuotesAreFresh(run: seq<Pipe>, b: nat, i: nat, r: nat, s': Pipe)
    requires Run(run) && S.ReadingSince(Locks(run), b, i, r)
    requires ReadNext(run[i], s', r, S.Recheck) && run[i].lock.readers[r].pc.s1 == run[i].lock.seqNo
    ensures
      var s, began, now := run[i], S.Completed(run[b].lock), S.Completed(run[i].lock);
      var before := s.lock.readers[r].results;
      && began <= now < |s.marks| && s.marks[began] <= s.marks[now] <= s.applied <= |s.ring.log|
      && r < |s'.lock.readers|
      && var quote := Top(Fold(run[0].book, M.Values(s.ring.log[..s.marks[now]])));
      && s'.lock.readers[r].results == before + [S.Result(now, quote)]
      && IsInside(quote, Fold(run[0].book, M.Values(s.ring.log[..s.marks[now]])))
      && (s.drainer.Idle? ==> IsInside(quote, s.book))
  {
    var s, locks := run[i], Locks(run);
    RunInv(run, i);
    LastMark(s, run[0].book);
    LocksRun(run);
    FirstIsNew(run);
    if s.drainer.Idle? {
      IdleIsPublished(run, i);
    }
    hide M.Inv, S.Inv, Fold, Top, Inv, M.Values, Run, MarksOk, S.Run, S.ReadingSince, S.ReaderNext, IsInside, Priced,
        IdsOk;
    S.ReadsAreAtomic(locks, b, i, r, s'.lock);
    assert locks[i] == s.lock && locks[b] == run[b].lock;
    PublishedMark(s, run[0].book, S.Completed(run[b].lock), S.Completed(s.lock));
    ValuesPrefix(s.ring, s.marks[S.Completed(s.lock)]);
    FoldOk(run[0].book, M.Values(s.ring.log[..s.marks[S.Completed(s.lock)]]));
    if s.drainer.Idle? {
      BookIsFoldOfLog(run, i);
    }
  }

  lemma PublishedMark(s: Pipe, b0: Book, m: nat, n: nat)
    requires MarksOk(s, b0) && m <= n < |s.lock.history|
    ensures n < |s.marks| && s.marks[m] <= s.marks[n] <= s.applied && s.marks[n] <= |s.ring.popped|
    ensures s.lock.history[n] == Top(Fold(b0, s.ring.popped[..s.marks[n]]))
  {
    hide Fold, Top;
  }

  lemma ResultMark(s: Pipe, b0: Book, reader: S.Reader, k: nat)
    requires MarksOk(s, b0) && S.ResultsOk(s.lock, reader) && k < |reader.results|
    ensures
      var result := reader.results[k];
      && result.publish < |s.marks| && s.marks[result.publish] <= s.applied
          && s.marks[result.publish] <= |s.ring.popped|
      && result.quote == Top(Fold(b0, s.ring.popped[..s.marks[result.publish]]))
    ensures forall j :: 0 <= j < k ==>
              && reader.results[j].publish < |s.marks|
              && s.marks[reader.results[j].publish] <= s.marks[reader.results[k].publish]
  {
    hide Fold, Top;
  }

  lemma ValuesPrefix(ring: M.Ring<Command>, n: nat)
    requires n <= ring.deq <= |ring.log| && ring.popped == M.Values(ring.log[..ring.deq])
    ensures ring.popped[..n] == M.Values(ring.log[..n])
  {
  }

  lemma LastMark(s: Pipe, b0: Book)
    requires Inv(s, b0)
    ensures MarksOk(s, b0) && s.applied <= |s.ring.popped| == s.ring.deq <= |s.ring.log|
    ensures s.ring.popped == M.Values(s.ring.log[..s.ring.deq])
  {
  }
}
