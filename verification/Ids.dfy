// Order ids over every run of the operations of the book: they are issued densely, each
// once, and no two orders or stops ever stand under the same one.
module Ids {
  import opened LobTypes
  import opened Sums
  import opened BookSpec
  import opened BookLaws
  import opened EngineSpec
  import opened ProRata
  import opened Policies
  import opened Ledgers

  /** What stands under an id: resting orders, on either side, and pending stops. */
  function Holders(b: Book, id: nat): nat {
    BookAccount(b, id).count + if id in b.stops then 1 else 0
  }

  predicate IdOk(b: Book, id: nat) {
    Holders(b, id) <= 1 && (Holders(b, id) > 0 ==> 0 < id < b.nextId)
  }

  ghost predicate AllIdsOk(b: Book) {
    forall id: nat :: IdOk(b, id)
  }

  ghost predicate IdsOk(b: Book) {
    Sane(b.bids) && Sane(b.asks) && b.nextId > 0 && AllIdsOk(b)
  }

  // ----- what an act issues -----

  function NonZero(id: nat): seq<nat> {
    if id == 0 then [] else [id]
  }

  /** The ids handed out by the three places that number orders: add_limit_order, whether
      called for a submission or by modify_order for a change of price, and add_pending_stop. */
  function Issues(b: Book, act: Act): seq<nat> {
    match act
    case SubmitLimit(side, price, qty, display) => NonZero(AddLimit(b, side, price, qty).value)
    case ModifyOne(id, price, qty) =>
      if Resting(b, id) && price != PriceOf(b, id)
      then NonZero(AddLimit(Take(b, id), SideHolding(b, id), price, qty).value) else []
    case PendStop(stop) => NonZero(AddStop(b, stop).value)
    case _ => []
  }

  function Issued(l: Ledger, acts: seq<Act>): seq<nat> {
    if acts == [] then []
    else
      var before := acts[..|acts| - 1];
      Issued(l, before) + Issues(After(l, before).book, acts[|acts| - 1])
  }

  /** `ids` are the numbers from `first` on. */
  predicate Consecutive(first: nat, ids: seq<nat>) {
    forall k :: 0 <= k < |ids| ==> ids[k] == first + k
  }

  // ----- every act keeps the ids -----

  /** Nothing came to stand under any id. */
  lemma FewerHolders(b: Book, b': Book)
    requires AllIdsOk(b) && b'.nextId >= b.nextId
    requires forall id: nat :: Holders(b', id) <= Holders(b, id)
    ensures AllIdsOk(b')
  {
    hide Holders;
    forall id: nat
      ensures IdOk(b', id)
    {
      assert IdOk(b, id);
    }
  }

  /** One order or stop came to stand under the next id. */
  lemma OneMoreHolder(b: Book, b': Book)
    requires AllIdsOk(b) && b.nextId > 0 && b'.nextId == b.nextId + 1
    requires forall id: nat :: Holders(b', id) == Holders(b, id) + if id == b.nextId then 1 else 0
    ensures AllIdsOk(b')
  {
    hide Holders;
    forall id: nat
      ensures IdOk(b', id)
    {
      assert IdOk(b, id);
    }
  }

  lemma NextIdAbsent(b: Book)
    requires IdsOk(b)
    ensures Absent(b.bids, b.nextId) && Absent(b.asks, b.nextId) && !Resting(b, 0)
  {
    assert IdOk(b, b.nextId) && IdOk(b, 0);
    hide OnSide, Absent;
    NoCountAbsent(b.bids, b.nextId);
    NoCountAbsent(b.asks, b.nextId);
    NoCountAbsent(b.bids, 0);
    NoCountAbsent(b.asks, 0);
    AbsentRestsNot(b.bids, 0);
    AbsentRestsNot(b.asks, 0);
  }

  lemma MarketIds(l: Ledger, p: Policy, side: Side, qty: nat)
    requires IdsOk(l.book)
    ensures IdsOk(Do(l, MarketOrder(p, side, qty)).book)
    ensures Do(l, MarketOrder(p, side, qty)).book.nextId == l.book.nextId
  {
    var b, m, opp := l.book, MatchSpec(p, l.book, side, qty).book, Opposite(side);
    MatchTrades(p, b, side, qty, 0);
    MatchKeepsStops(p, b, side, qty);
    forall id: nat
      ensures Holders(m, id) <= Holders(b, id)
    {
      MatchTrades(p, b, side, qty, id);
      BothSides(b, opp, id);
      BothSides(m, opp, id);
      hide MatchSpec, SideAccount, BookAccount;
    }
    hide MatchSpec, Holders, AllIdsOk;
    FewerHolders(b, m);
  }

  lemma FillIds(l: Ledger, id: nat, qty: nat)
    requires IdsOk(l.book)
    ensures IdsOk(Do(l, FillOne(id, qty)).book)
    ensures Do(l, FillOne(id, qty)).book.nextId == l.book.nextId
  {
    if Resting(l.book, id) {
      var b, b' := l.book, ApplyFill(l.book, id, qty).book;
      FillTrades(b, id, qty, 0);
      FillKeepsStops(b, id, qty);
      forall x: nat
        ensures Holders(b', x) <= Holders(b, x)
      {
        FillTrades(b, id, qty, x);
        hide BookAccount, ApplyFill;
      }
      hide ApplyFill, Holders, AllIdsOk;
      FewerHolders(b, b');
    }
  }

  lemma FillKeepsStops(b: Book, id: nat, qty: nat)
    ensures ApplyFill(b, id, qty).book.stops == b.stops
  {
    hide Resting, SideHolding, LevelOf, IndexOf, SetQueue, StrikeAt;
  }

  lemma CancelIds(l: Ledger, id: nat)
    requires IdsOk(l.book)
    ensures IdsOk(Do(l, CancelOne(id)).book)
    ensures Do(l, CancelOne(id)).book.nextId == l.book.nextId
  {
    if Resting(l.book, id) {
      var b := l.book;
      var side := SideHolding(b, id);
      var ls := b.SideOf(side);
      var i := LevelOf(ls, id);
      var k := IndexOf(ls[i].orders, id);
      var b' := Do(l, CancelOne(id)).book;
      TakenSane(ls, i, k);
      forall x: nat
        ensures Holders(b', x) <= Holders(b, x)
      {
        TakenAccount(b, side, i, k, x);
        SameLadders(b.With(side, SetQueue(ls, i, RemoveAt(ls[i].orders, k))), b', x);
        hide SideAccount, BookAccount, SetQueue;
      }
      hide Holders, AllIdsOk;
      FewerHolders(b, b');
    }
  }

  lemma SubmitIds(l: Ledger, side: Side, px: int, qty: nat, display: nat)
    requires IdsOk(l.book)
    ensures
      var l' := Do(l, SubmitLimit(side, px, qty, display));
      var ids := NonZero(AddLimit(l.book, side, px, qty).value);
      && IdsOk(l'.book) && l'.book.nextId == l.book.nextId + |ids| && Consecutive(l.book.nextId, ids)
  {
    var b := l.book;
    NextIdAbsent(b);
    if b.free == 0 {
      RefusedLimit(b, side, px, qty, display);
      hide LimitSpec;
    } else {
      var o := Iceberg(b.nextId, qty, display);
      SubmittedSide(b, side, px, qty, display);
      AddedSane(side, b.SideOf(side), px, o);
      PlainLimit(b, side, px, qty);
      hide AddOrder, LimitSpec, AddLimit, Absent, Sane;
      var b' := LimitSpec(b, side, px, qty, display).book;
      forall id: nat
        ensures Holders(b', id) == Holders(b, id) + if id == b.nextId then 1 else 0
      {
        AddedAccount(b, side, px, o, id);
        SameLadders(b.With(side, AddOrder(side, b.SideOf(side), px, o)), b', id);
        hide BookAccount;
      }
      hide Holders, AllIdsOk;
      OneMoreHolder(b, b');
    }
  }

  lemma RewriteIds(b: Book, id: nat, o': Ord)
    requires IdsOk(b) && Resting(b, id) && o'.id == id && (o'.hidden > 0 ==> o'.display > 0)
    ensures IdsOk(BookSpec.Rewrite(b, id, o')) && BookSpec.Rewrite(b, id, o').nextId == b.nextId
  {
    var b' := BookSpec.Rewrite(b, id, o');
    RewriteSane(b, id, o');
    RewriteKeeps(b, id, o');
    assert IdOk(b, id);
    RestingAccount(b, id);
    forall x: nat
      ensures Holders(b', x) <= Holders(b, x)
    {
      RewriteAccounts(b, id, o', x);
      hide BookAccount, BookSpec.Rewrite, FindIn, Resting;
    }
    hide Holders, AllIdsOk, BookSpec.Rewrite, Resting;
    FewerHolders(b, b');
  }

  lemma ModifyIds(l: Ledger, id: nat, price: int, qty: nat)
    requires IdsOk(l.book)
    ensures
      var l', ids := Do(l, ModifyOne(id, price, qty)), Issues(l.book, ModifyOne(id, price, qty));
      && IdsOk(l'.book) && l'.book.nextId == l.book.nextId + |ids| && Consecutive(l.book.nextId, ids)
  {
    if !Resting(l.book, id) {
      NoModify(l.book, id, price, qty);
    } else if price == PriceOf(l.book, id) {
      var o := FindIn(l.book, id);
      FoundSane(l.book, id);
      hide FindIn, BookSpec.Rewrite, IdsOk, Resting;
      RewriteIds(l.book, id, o.(qty := qty, rem := ResizedRem(o, qty)));
    } else {
      RepriceInSteps(l, id, price, qty);
      CancelIds(l, id);
      hide Do, IdsOk, Resting, PriceOf, AddLimit;
      CancelTakes(l, id);
      SubmitIds(Do(l, CancelOne(id)), SideHolding(l.book, id), price, qty, 0);
    }
  }

  lemma CancelTakes(l: Ledger, id: nat)
    requires Resting(l.book, id)
    ensures Do(l, CancelOne(id)).book == Take(l.book, id)
  {
    hide Take, Resting;
  }

  lemma ConfigureIds(l: Ledger, id: nat, display: nat)
    requires IdsOk(l.book)
    ensures IdsOk(Do(l, ConfigureOne(id, display)).book)
    ensures Do(l, ConfigureOne(id, display)).book.nextId == l.book.nextId
  {
    if !Resting(l.book, id) || display == 0 {
      NoConfigure(l.book, id, display);
    } else {
      var o := FindIn(l.book, id);
      FoundSane(l.book, id);
      hide FindIn, BookSpec.Rewrite, IdsOk, Resting;
      RewriteIds(l.book, id, o.(display := display, hidden := if o.qty > display then o.qty - display else 0,
                                rem := Min(display, o.qty)));
    }
  }

  lemma StopIds(b: Book, s: Stop)
    requires IdsOk(b)
    ensures
      var b', ids := AddStop(b, s).book, NonZero(AddStop(b, s).value);
      && IdsOk(b') && b'.nextId == b.nextId + |ids| && Consecutive(b.nextId, ids)
  {
    hide BookAccount;
    var b' := AddStop(b, s).book;
    if b.free > 0 {
      assert IdOk(b, b.nextId);
      forall id: nat
        ensures Holders(b', id) == Holders(b, id) + if id == b.nextId then 1 else 0
      {
        OneMoreStop(b, b', s, id);
      }
      hide Holders, AllIdsOk;
      OneMoreHolder(b, b');
    }
  }

  lemma OneMoreStop(b: Book, b': Book, s: Stop, id: nat)
    requires b'.bids == b.bids && b'.asks == b.asks && b.nextId !in b.stops && b'.stops == b.stops[b.nextId := s]
    ensures Holders(b', id) == Holders(b, id) + if id == b.nextId then 1 else 0
  {
    SameLadders(b, b', id);
    hide BookAccount;
  }

  lemma DropIds(b: Book, id: nat)
    requires IdsOk(b) && id in b.stops
    ensures IdsOk(DropStop(b, id)) && DropStop(b, id).nextId == b.nextId
  {
    var b' := DropStop(b, id);
    forall x: nat
      ensures Holders(b', x) <= Holders(b, x)
    {
      SameLadders(b, b', x);
      hide BookAccount;
    }
    hide Holders, AllIdsOk;
    FewerHolders(b, b');
  }

  /** An act issues the next id or none. */
  lemma DoKeepsIds(l: Ledger, act: Act)
    requires IdsOk(l.book)
    ensures
      var l', ids := Do(l, act), Issues(l.book, act);
      && IdsOk(l'.book) && l'.book.nextId == l.book.nextId + |ids| && Consecutive(l.book.nextId, ids)
  {
    match act {
      case SubmitLimit(side, price, qty, display) => SubmitIds(l, side, price, qty, display);
      case MarketOrder(policy, side, qty) => MarketIds(l, policy, side, qty);
      case FillOne(id, qty) => FillIds(l, id, qty);
      case CancelOne(id) => CancelIds(l, id);
      case ModifyOne(id, price, qty) => ModifyIds(l, id, price, qty);
      case ConfigureOne(id, display) => ConfigureIds(l, id, display);
      case PendStop(stop) => StopIds(l.book, stop);
      case DropOne(id) =>
        if id in l.book.stops {
          DropIds(l.book, id);
        }
    }
  }

  // ----- runs -----

  /** Over every run of the operations of a book, the ids issued are the consecutive numbers
      from the next id on. */
  lemma {:induction false} RunsIssueConsecutively(l: Ledger, acts: seq<Act>)
    requires IdsOk(l.book)
    ensures
      var l', ids := After(l, acts), Issued(l, acts);
      && IdsOk(l'.book) && l'.book.nextId == l.book.nextId + |ids| && Consecutive(l.book.nextId, ids)
  {
    if acts != [] {
      var before := acts[..|acts| - 1];
      RunsIssueConsecutively(l, before);
      hide Do, Issues, IdsOk;
      DoKeepsIds(After(l, before), acts[|acts| - 1]);
    }
  }

  /** Ids are never reused, over every run of submissions, market orders of either policy,
      single fills, cancellations, modifications with and without a change of price, iceberg
      configurations, stops registered and stops detached, from a new book: the k-th id issued
      is k + 1, whatever stands in the book stands there under an id that was issued, and no
      two orders or stops stand under one id. */
  lemma IdsAreNeverReused(capacity: nat, acts: seq<Act>, id: nat)
    ensures
      var b, ids := After(NewLedger(capacity), acts).book, Issued(NewLedger(capacity), acts);
      && (forall k :: 0 <= k < |ids| ==> ids[k] == k + 1)
      && b.nextId == |ids| + 1
      && Holders(b, id) <= 1
      && (Holders(b, id) > 0 ==> id in ids)
  {
    var l := NewLedger(capacity);
    NewIdsOk(capacity);
    RunsIssueConsecutively(l, acts);
    var b, ids := After(l, acts).book, Issued(l, acts);
    hide After, Issued, Holders, NewLedger;
    assert IdOk(b, id);
    if 0 < id < b.nextId {
      assert ids[id - 1] == id;
    }
  }

  lemma NewIdsOk(capacity: nat)
    ensures IdsOk(NewLedger(capacity).book) && NewLedger(capacity).book.nextId == 1
  {
  }
}
