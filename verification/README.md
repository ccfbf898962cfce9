# A verified model of the limit order book and its queues

This project models the C++ limit order book: the book and its matchers, the lock-free
queues around it, and the market-data codec. Every operation is written in the form the
source has and proved against a simple specification; the specification's own properties
are proved as theorems.

## The three parts

**The book and its matchers.** `BookSpec.dfy` is the abstract book: each side is a list of
price levels, best price first, and each level is the queue of its orders (id, total,
visible, hidden and display quantity), oldest first. `OrderBook.dfy` is the class of
`src/order_book.cpp`: it relinks `prev`/`next`, updates cached aggregates and counts, inserts
into and erases from two sorted vectors, keeps a dense id table, a slab with a freelist and
the storage of pending stops. `BookRep.dfy` states what ties these together (`RepOk`); every
method keeps it and does to the abstract book exactly what the specification says, error
returns included. Then:

- `MarketLaws.dfy`: a market order takes the first q units of a fixed schedule, price by price
  and round by round, which is price-time priority with icebergs going to the tail; it
  conserves quantity and its prices never step back.
- `BookLaws.dfy`: a side as a map from prices to queues, the inside as an extremum, add and
  cancel, modify with and without a price change, iceberg configuration, single fills.
- `Ledger.dfy`: the account of every order over every run of the operations of the book. Fills,
  visible and hidden quantity always add up to what was ordered. `modify_order` and
  `configure_iceberg` break this for partly filled orders; an operation keeps all accounts in
  balance if and only if it is within a condition stated for it, and a concrete order shows the
  failure. `Ids.dfy`: over the same runs ids are issued densely and never shared.
  `EngineLedger.dfy`: both over runs of the engine, cascades of stops included.
- `ProRata.dfy`, `ProRataLaws.dfy`, `Policies.dfy`: largest-remainder apportionment with the
  64-bit wrap-around of the source written out, exactly when the whole quantity is allocated and
  exactly when it is filled, its fairness where nothing wraps, a concrete order for which
  wrapping loses quantity, and the loop of `apply_fill` calls.
- `EngineSpec.dfy`, `EngineLaws.dfy`, `StopQueues.dfy`, `MatchingEngine.dfy`: the recursive
  stop cascade. The class queues slots, which may have been freed and reused by the time they
  are looked at; it is proved to do what the abstract cascade over pending stops does, and
  exactly when a new stop queues behind the others. `StopLaws.dfy`: which stops a trade price
  fires, and what a fired stop does to the book. `ServiceOrder.dfy`: while every new stop queues
  behind the others, stops that trigger at one price are served in the order of submission, over
  whole runs. `StopOrder.dfy`: a run from a new book in which one does not, and overtakes.

**The concurrent protocols.** `Mpsc.dfy`, `Spsc.dfy` and `Seqlock.dfy` are state machines with
one step per atomic operation; accesses to plain memory have a beginning and an end, so that
exclusive ownership is proved and not assumed. The weak compare-and-swap may fail
spuriously. `Commands.dfy` has the commands of the pipeline and the quote on the `OrderBook`
class, and what each command does to the two sides of the book; `Pipeline.dfy` composes ring,
book and seqlock and proves the end-to-end statements. All theorems are about every state of
every run, for any number of producers and readers.

**The codec and the batcher.** `Itch.dfy` is the wire format, independent of the byte order of
the host; `Wire.dfy` states its layouts byte by byte, with every constant written out, and what
a receiver refuses; `MarketData.dfy` has the batching publisher and the parsing receiver as
classes, and the stream round trip; `Snapshot.dfy` publishes the inside of the book; `Feed.dfy` composes the
ring of `Spsc.dfy` with the publisher's loop, up to what a receiver parses.

`Types.dfy` holds shared datatypes, sums over sequences and a little arithmetic; `Slab.dfy` and
`PriceLadder.dfy` the intrusive lists and the price ladders; `OrderPool.dfy` the allocator.

## Reading the model

- Buy and sell branches that mirror each other in the source are one method with a side
  parameter.
- An `Order*` is the number of a slot of the slab. A freed slot keeps its fields until it is
  allocated again, as in the source.
- A limit order never matches on entry, so a crossed book is reachable and nothing is claimed
  against it.
- Branches the source keeps for impossible cases (a level without a head, an order whose
  level is not found, a message of no known kind in the queue) are proved dead.
- Capacity is used as a modulus; the mask of the source is the same for a power of two. The
  ring needs a capacity of at least two, and `Mpsc.OneSlotLosesValue` shows why.
- Where the documentation and the code differ, the model follows the code:
  `docs/matching_semantics.md` warns that `min_fill = 1` may fall short, but in the code a
  min_fill of at most one cuts nothing (`ProRataLaws.ProRataFillsLevel`); it also speaks of a
  new timestamp on replenishment, which the code does not set.
- Stops are not always served in the order of submission: an entry left in the engine's list
  for a freed slot starts to denote the next stop that is given the slot. A new stop queues
  behind all others if and only if the slot on top of the freelist does not occur in that list
  (`MatchingEngines.JoinsLastIff`). `StopOrder.StaleEntryOvertakes` is a run from a new book in
  which it does occur, and the new stop is executed before an older one. The run is followed at
  the level of slots, with sell orders and buy stop-markets of one unit.
- `Ledger.dfy` runs over operations of the book; `EngineLedgers.MarketActs` is the sequence of
  operations that one call of `submit_market` performs, with its cascade.

## Model

| member | source | states |
|---|---|---|
| `MarketLaws.SweepFollowsSchedule` | src/order_book.cpp:311-368 | the fills of a market order are the first q units of the side's schedule of slices, and what the book offers afterwards is exactly the rest of that schedule |
| `MarketLaws.QueueServesRound` | src/order_book.cpp:328-335 | striking the head to exhaustion and requeueing its refill is one step of the round-by-round schedule |
| `MarketLaws.MarketConserves` | src/order_book.cpp:311-368 | total filled is min(q, visible plus hidden liquidity), the side loses exactly that, and the unfilled rest is returned |
| `MarketLaws.SweepAccounts` | src/order_book.cpp:316-326 | filled plus unfilled is the incoming quantity, and something stays unfilled only when the side is swept empty |
| `MarketLaws.SweepKeepsShape` | src/order_book.cpp:311-368 | the side stays strictly sorted, without empty levels and with icebergs able to refill |
| `MarketLaws.MarketPricesOutward` | src/order_book.cpp:315-340 | fill prices never step back towards the inside |
| `MarketLaws.ResumesAfter` | src/order_book.cpp:316-340 | after any number of trades the rest of the fills are those of the side as it stands then, which is sorted, without empty levels and without a repeated id at a level |
| `MarketLaws.ReplenishedGoesLast` | src/order_book.cpp:153-164 | at any level and in any round: between two trades of one market order with the same order, every other order standing in the queue at the first of them had its whole visible slice taken, in queue order |
| `MarketLaws.IcebergSlices` | src/order_book.cpp:153-164 | alone at its price an iceberg offers what it shows, then its display size again and again, then what is left of it, and all of its quantity in total |
| `MarketLaws.RefillsShowDisplay` | src/order_book.cpp:153-164 | behind the first round of a level every slice belongs to an iceberg of the level and is no larger than its display size |
| `MarketLaws.MarketsCompose` | src/order_book.cpp:311-368 | two market orders in a row leave the book one for their sum leaves, and make the same fills up to the one slice the first may have cut in two |
| `BookSpec.MidwayTurn` | src/order_book.cpp:316-340 | one turn of the loop keeps the relation between what was traded and what the rest of the sweep will trade |
| `Slab.PushBackLinks` | src/order_book.cpp:9-17 | after push_back the list is well linked both ways, with the order at the tail |
| `Slab.RemoveLinks` | src/order_book.cpp:19-27 | after remove the list is well linked both ways without that order, wherever it stood |
| `Slab.RewriteViews` | src/order_book.cpp:29-42 | changing one visible quantity changes the sum over the level by as much, so the aggregate never has to saturate |
| `PriceLadders.PriceLadder.LowerBound` | include/lob/price_ladder.hpp:62-69 | binary search returns the number of levels strictly closer to the inside |
| `PriceLadders.PriceLadder.Find` | include/lob/price_ladder.hpp:33-42 | a price is found if and only if some level has it |
| `PriceLadders.PriceLadder.FindOrEmplace` | include/lob/price_ladder.hpp:44-48 | the level exists afterwards at its sorted place, and nothing else changed |
| `PriceLadders.PriceLadder.ErasePrice` | include/lob/price_ladder.hpp:52-56 | exactly the level with that price is removed, if any |
| `PriceLadders.LadderInsert` | include/lob/price_ladder.hpp:44-48 | inserting an empty level keeps the ladder sorted, without duplicate prices, and every level intact |
| `PriceLadders.LadderErase` | include/lob/price_ladder.hpp:50-56 | erasing a level keeps the ladder sorted and the other levels intact |
| `PriceLadders.ListsDisjoint` | include/lob/order_book.hpp:20-40 | no order is linked at two levels |
| `OrderPools.OrderPool.constructor` | src/order_pool.cpp:9-25 | every slot is free, once, in ascending order |
| `OrderPools.OrderPool.Allocate` | src/order_pool.cpp:33-45 | a free slot is popped and zeroed; none exactly when the slab is exhausted |
| `OrderPools.OrderPool.Deallocate` | src/order_pool.cpp:47-54 | the slot is pushed on the freelist and keeps its fields |
| `BookReps.NewBookOk` | src/order_book.cpp:45-51 | a new book satisfies the representation invariant and is empty |
| `BookReps.RewriteOk` | src/order_book.cpp:34-42 | changing quantities of a resting order together with its level's aggregate keeps the invariant and changes that order only |
| `BookReps.RemoveOk` | src/order_book.cpp:244-263 | unlinking an order, erasing an emptied level, dropping the id and freeing the slot keep the invariant and remove that order only |
| `BookReps.RequeueOk` | src/order_book.cpp:153-164 | peeling the next slice and relinking at the tail keep the invariant and move that order only |
| `BookReps.AddOk` | src/order_book.cpp:221-242 | a new order in a fresh slot keeps the invariant and is appended at its price |
| `BookReps.StopAddOk` | src/order_book.cpp:82-98 | registering a pending stop keeps the invariant and adds that stop only |
| `BookReps.DetachOk` | src/order_book.cpp:106-128 | detaching and freeing a pending stop keep the invariant and remove that stop only |
| `BookReps.FreedDrops` | src/order_book.cpp:106-128 | detaching and freeing do on the abstract book what dropping the stop does |
| `BookReps.StaleStop` | src/order_book.cpp:106-123 | the id left in a freed stop slot is no longer in the table |
| `BookReps.RestsIffInTable` | src/order_book.cpp:61-76 | an id rests in the book if and only if the id table maps it to a limit order |
| `BookReps.PositionsByIds` | src/order_book.cpp:221-242 | no two linked positions, on either side, share an id |
| `BookReps.LevelAtPrice` | src/order_book.cpp:244-258 | the level found at an order's price is the level that links it |
| `OrderBooks.OrderBook.constructor` | src/order_book.cpp:45-51 | a valid, empty book with the whole slab free, the last slot on top |
| `OrderBooks.OrderBook.PushBack` | src/order_book.cpp:9-17 | the slab and the level after linking an order at the tail |
| `OrderBooks.OrderBook.Remove` | src/order_book.cpp:19-27 | the slab and the level after unlinking an order |
| `OrderBooks.OrderBook.PutId` | src/order_book.cpp:66-72 | the id table grows as needed and maps the id to the slot, all else kept |
| `OrderBooks.OrderBook.TryReplenishIceberg` | src/order_book.cpp:153-164 | refuses exactly when there is no display size or nothing hidden; else the order moves to the tail with its next slice |
| `OrderBooks.OrderBook.Strike` | src/order_book.cpp:323-338 | a fill reduces the order in place, requeues it or removes it, as the abstract strike does |
| `OrderBooks.OrderBook.MarketOrder` | src/order_book.cpp:311-368 | fills and book are those of the abstract sweep, on either side, zero-quantity orders included; the loop terminates |
| `OrderBooks.OrderBook.AddLimitOrder` | src/order_book.cpp:221-242 | id 0 and no change on an exhausted pool, else the next id at the tail of its price |
| `OrderBooks.OrderBook.CancelOrder` | src/order_book.cpp:244-263 | false and no change for an unknown id, else exactly that order is gone |
| `OrderBooks.OrderBook.ModifyOrder` | src/order_book.cpp:265-309 | in-place change at the same price, cancel and re-add otherwise, false for an unknown id |
| `OrderBooks.OrderBook.ConfigureIceberg` | src/order_book.cpp:166-183 | the split into visible and hidden quantity, false for an unknown id or display 0 |
| `OrderBooks.OrderBook.ApplyFill` | src/order_book.cpp:185-219 | the quantity filled and the book after it |
| `OrderBooks.OrderBook.AddPendingStop` | src/order_book.cpp:82-98 | id 0 and no change on an exhausted pool, else a pending stop under the next id in the slot on top of the freelist, queued in the storage |
| `OrderBooks.OrderBook.TakePendingStops` | src/order_book.cpp:100-104 | the storage is handed over and emptied |
| `OrderBooks.OrderBook.DetachPending` | src/order_book.cpp:106-123 | finds a stop exactly when the id is a pending one, and takes it out of storage and table |
| `OrderBooks.OrderBook.FreeOrder` | src/order_book.cpp:125-128 | after detach_pending the slot returns to the freelist, and the book is valid and lacks exactly that stop; nothing happens when none was found |
| `OrderBooks.OrderBook.GetLevelOrders` | src/order_book.cpp:130-151 | the slots linked at a price, oldest first; none when the price is absent |
| `OrderBooks.OrderBook.Best` | src/order_book.cpp:370-378 | the best price of a side, if any |
| `OrderBooks.OrderBook.BestQuantity` | src/order_book.cpp:380-388 | the cached aggregate is the visible quantity at the inside |
| `BookLaws.AddAppends` | src/order_book.cpp:221-242 | adding appends to the queue at its price and touches no other price |
| `BookLaws.SetQueueSets` | src/order_book.cpp:244-258 | rewriting one queue touches no other price, and an emptied level is gone |
| `BookLaws.QueueOfPrice` | include/lob/price_ladder.hpp:33-42 | a price has a queue if and only if some level has it |
| `BookLaws.BestIsExtremum` | src/order_book.cpp:370-388 | the best price is the extremum over all resting orders, and its quantity is what rests there |
| `BookLaws.ValidBookIsOk` | src/order_book.cpp:61-76 | every valid state shows sorted sides, unique ids below the next one, and stops apart from resting orders |
| `BookLaws.SlabIsPartitioned` | src/order_pool.cpp:33-54 | freelist and live slots partition the slab; a live slot is a pending stop or linked at its own side and price |
| `BookLaws.CancelUndoesAdd` | src/order_book.cpp:221-263 | cancelling the order just added restores the book, but for the spent id |
| `BookLaws.ModifyKeepsPlace` | src/order_book.cpp:269-300 | a quantity change at the same price keeps time priority and touches no other order; the visible slice grows with the total, and is cut down to a smaller total or left when it is smaller still |
| `BookLaws.ConfigureKeepsPlace` | src/order_book.cpp:166-183 | configure_iceberg keeps the order's place, makes it show its total or the display size and hide the rest, and touches no other order |
| `BookLaws.FillTakes` | src/order_book.cpp:185-219 | apply_fill takes the smaller of the quantity and the visible slice; the order stays in its place, shows its next slice at the tail, or leaves, and no other queue changes |
| `BookLaws.RepriceAlwaysSucceeds` | src/order_book.cpp:301-308 | a price change never fails, even with a full pool, and puts a new id at the tail of the new price |
| `Ledgers.OrdersAreFilledExactly` | src/order_book.cpp:185-368 | over every run of all operations, modifications within their conditions, fills plus visible plus hidden equal the quantity ordered, and an order gone without a cancel was filled completely |
| `Ids.IdsAreNeverReused` | src/order_book.cpp:82-85 | over every run of all operations, price changes and stops included, the k-th id issued is k + 1, everything in the book stands under an issued id, and no two orders or stops under the same one |
| `Ids.RunsIssueConsecutively` | src/order_book.cpp:221-224 | from any state with sound ids a run issues the consecutive numbers from the next id on |
| `Ids.DoKeepsIds` | src/order_book.cpp:301-308 | each operation issues the next id or none and keeps ids unshared |
| `EngineLedgers.CascadesConserve` | src/matching_engine.cpp:72-148 | over every run of the engine, orders that stops place or trade with included, each order is filled exactly and each order and stop has an issued id of its own |
| `EngineLedgers.MarketFollows` | src/matching_engine.cpp:81-148 | a market order with its whole cascade is a sequence of book operations that ends in the same book and logs the returned fills first |
| `Ledgers.DoKeepsBalanceIff` | src/matching_engine.cpp:72-89 | every operation keeps all accounts balanced if and only if it is within its condition, which only modify_order and configure_iceberg have |
| `Ledgers.SubmittedSide` | src/matching_engine.cpp:72-79 | submit_limit places one order that shows at most its display size and hides the rest |
| `Ledgers.ModifyBalancesIff` | src/order_book.cpp:265-309 | modify_order keeps the accounts balanced if and only if it changes the price, or the total does not shrink, or the order shows all of its total |
| `Ledgers.ConfigureBalancesIff` | src/order_book.cpp:166-183 | configure_iceberg keeps the accounts balanced if and only if the order still has all of its quantity open |
| `Ledgers.PartlyFilledOrderOvertrades` | src/order_book.cpp:276-279 | a concrete partly filled order that trades more than its new total |
| `ProRata.Apportion` | src/matching_engine.cpp:25-56 | the loops compute the allocation function on every input, in 64-bit arithmetic |
| `ProRata.SortByRemainder` | src/matching_engine.cpp:43-48 | the indices are a permutation ordered by remainder, ties by id |
| `ProRata.HandOut` | src/matching_engine.cpp:49-51 | one leftover unit each to the front of the sorted indices |
| `ProRata.RankIsPosition` | src/matching_engine.cpp:42-48 | any correct sort puts the same order at the same position |
| `ProRata.ServeOne` | src/matching_engine.cpp:58-66 | one apply_fill turns the queue served so far into the next one |
| `ProRataLaws.SharesSumIff` | src/matching_engine.cpp:29-51 | for all 64-bit totals and quantities, wrapped products included: the allocations fall short by the leftover units beyond one per order, so they sum to the incoming quantity if and only if the leftover is at most the number of orders |
| `ProRataLaws.SharesSumToQuantity` | src/matching_engine.cpp:29-51 | absent wrap-around the allocations sum to exactly the incoming quantity |
| `ProRataLaws.ShareIsFloorOrCeiling` | src/matching_engine.cpp:33-51 | every allocation is the floor of the proportional part, or one more when there is a remainder |
| `ProRataLaws.WinnerHasRemainder` | src/matching_engine.cpp:41-51 | leftover units go only to orders with a nonzero remainder |
| `ProRataLaws.ShareFitsVisible` | src/matching_engine.cpp:33-51 | when the level shows enough, nobody is allocated more than it shows |
| `ProRataLaws.ShareIgnoresArrangement` | src/matching_engine.cpp:29-51 | an allocation depends on the orders of the level, not on their arrangement |
| `ProRataLaws.OffersIgnoreArrangement` | src/matching_engine.cpp:53-56 | nor does what is offered after the min_fill cut |
| `ProRataLaws.LargerNeverGetsLess` | src/matching_engine.cpp:43-51 | a larger order never gets less, and of two equal ones the lower id gets at most one unit more |
| `ProRataLaws.LargerProductNeverGetsLess` | src/matching_engine.cpp:33-51 | whether products wrap or not, the order with the larger 64-bit product never gets less |
| `ProRataLaws.WrapFavoursSmaller` | src/matching_engine.cpp:34-39 | a concrete level where a product wraps and the larger order gets less |
| `ProRataLaws.MinFillOffersAllIff` | src/matching_engine.cpp:53-56 | what the min_fill cut gives up, and that nothing is lost if and only if no positive share is below it |
| `ProRataLaws.WrapLosesQuantity` | src/matching_engine.cpp:34-39 | a concrete order for which the 64-bit product wraps and the allocation is short |
| `ProRataLaws.FillsReachLevelIff` | src/matching_engine.cpp:53-66 | for every min_fill: the executed fills fall short of min(q, visible quantity of the best level) by what the cut withholds, so they reach it if and only if no order has a positive allocation below min_fill |
| `ProRataLaws.MinFillLosesUnit` | src/matching_engine.cpp:53-56 | a concrete level that shows five, where a min_fill of 2 fills nothing of an incoming unit |
| `ProRataLaws.WhereTheQuantityGoes` | src/matching_engine.cpp:29-66 | for all 64-bit inputs, wrapped products included: the incoming quantity is filled, cut, offered beyond what an order shows, or never handed out, and when all of it is filled |
| `ProRataLaws.ProRataFillsLevel` | src/matching_engine.cpp:58-66 | with min_fill at most 1 the fills total min(q, visible quantity of the best level) |
| `ProRataLaws.ProRataConserves` | src/matching_engine.cpp:58-66 | the side loses exactly what was filled and only its best level changes |
| `ProRataLaws.FillsAreAtBest` | src/matching_engine.cpp:58-66 | every pro-rata fill is a positive part of what one order of the best level shows, at the price of that level |
| `Policies.MatchFifo` | src/matching_engine.cpp:9-11 | the FIFO policy is the book's market order |
| `Policies.MatchProRata` | src/matching_engine.cpp:14-67 | the loop of apply_fill calls, through freed slots and an erased level, ends in the specified book and fills |
| `EngineLaws.RunsExecuteStopsOnce` | src/matching_engine.cpp:81-148 | over every run no stop is executed twice or while pending, and a stop leaves only by being executed |
| `EngineLaws.MarketQuiesces` | src/matching_engine.cpp:81-148 | after a market order that traded, every pending stop is queued; a buy stop's trigger is above the price of the last fill, a sell stop's below it |
| `EngineLaws.DrainSound` | src/matching_engine.cpp:111-147 | draining a queue, cascades included, keeps the log free of repetitions and exact |
| `EngineLaws.DrainSettles` | src/matching_engine.cpp:111-147 | what survives a drain is queued and quiet, through nested cascades |
| `EngineLaws.FrontIsNext` | src/matching_engine.cpp:111-123 | a triggered stop at the front of the queue is the next one executed |
| `StopLaws.MarketFiresIff` | src/matching_engine.cpp:81-148 | a market order executes a stop if and only if it trades and the price of its last fill reaches a pending stop, a buy stop from below or a sell stop from above; otherwise the book is what the order alone makes of it |
| `StopLaws.FirstReachedFires` | src/matching_engine.cpp:111-147 | the first pending stop of the queue that the trade price reaches is the next one executed |
| `StopLaws.SafeStopsWait` | src/matching_engine.cpp:111-147 | a draining loop whose pending stops are all on the safe side of the price executes nothing and requeues them in order |
| `StopLaws.FiredStopLimitRests` | src/matching_engine.cpp:134-142 | a stop-limit that fires always finds a slot and joins the tail at its limit price on its own side, showing at most its display size |
| `StopLaws.FiredStopMarketTrades` | src/matching_engine.cpp:118-126 | the last pending stop-market, when it fires, takes the first units of the other side's schedule and leaves its own side alone |
| `EngineSpec.Drain` | src/matching_engine.cpp:100-148 | the cascade terminates: no more stops are pending after it than before |
| `EngineSpec.Execute` | src/matching_engine.cpp:118-122 | executing a stop leaves strictly fewer stops, whatever it sets off |
| `StopQueues.QueueingTwiceIsHarmless` | src/matching_engine.cpp:103-109 | a cascade over both lists does what it does when every stop is queued once |
| `StopQueues.ProcessAlike` | src/matching_engine.cpp:100-148 | only the order of first occurrences in the queue matters |
| `MatchingEngines.MatchingEngine.SubmitLimit` | src/matching_engine.cpp:72-79 | the id and the book of the specified submission, all stops kept |
| `MatchingEngines.MatchingEngine.SubmitMarket` | src/matching_engine.cpp:81-89 | fills and engine are those of the abstract cascade, although slots are freed and reused in it |
| `MatchingEngines.MatchingEngine.ProcessTriggers` | src/matching_engine.cpp:100-148 | draining the queue of slots refines draining the queue of pending ids |
| `MatchingEngines.MatchingEngine.Visit` | src/matching_engine.cpp:111-147 | one queue entry, live or stale, triggered or not |
| `MatchingEngines.MatchingEngine.DetachStop` | src/matching_engine.cpp:118-122 | detaches exactly when the slot still holds a pending stop, never a resting order |
| `MatchingEngines.MatchingEngine.SubmitStop` | src/matching_engine.cpp:91-98 | the stop takes the slot on top of the freelist and joins both lists, all other stops keep their order, and it queues behind them if and only if that slot was not in the engine's list |
| `MatchingEngines.JoinsLastIff` | src/matching_engine.cpp:94-97 | a new stop queues behind all others exactly when the engine's list has no entry for the slot on top of the freelist |
| `StopOrder.StaleEntryOvertakes` | src/matching_engine.cpp:100-148 | a run from a new book with five slots: a cascade of two stops leaves a freed slot in the engine's list, the second of the next two stops is given it, and is executed while the older one, triggered too, still waits |
| `StopOrder.LeadsOk` | src/matching_engine.cpp:111-147 | every step of the run keeps the representation invariant of the book |
| `StopOrder.BoughtOk` | src/order_book.cpp:311-340 | a buy of the one unit at the best level makes the fill and the book of the specified market order |
| `StopOrder.FirstSlotFires` | src/matching_engine.cpp:103-123 | the specified cascade executes the stop in the first slot of the engine's list next, if it triggers |
| `StopOrder.SpecOvertakes` | src/matching_engine.cpp:100-148 | from the state of that run the specified cascade also executes the newer stop first, by either policy |
| `ServiceOrder.StopsServedInOrder` | src/matching_engine.cpp:100-148 | over every run in which each new stop queues behind the others, of two stops that trigger at the price of a trade the one submitted first is executed first, through nested cascades |
| `ServiceOrder.OlderFirst` | src/matching_engine.cpp:111-147 | in one draining loop over an ordered queue the older of two due stops is executed first |
| `ServiceOrder.DrainOrdered` | src/matching_engine.cpp:111-147 | a draining loop over an ordered queue leaves an ordered list, through nested cascades |
| `ServiceOrder.DrainTouches` | src/matching_engine.cpp:100-109 | a draining loop executes only stops of its queue and of the engine's list |
| `MatchingEngines.LiveIdsFollow` | src/matching_engine.cpp:103-109 | when stops leave, the queue of slots denotes exactly those that stay |
| `Mpsc.NextInv` | include/lob/mpsc_queue.hpp:62-106 | every step of any producer or of the consumer keeps the slot protocol |
| `Mpsc.ExactlyOnce` | include/lob/mpsc_queue.hpp:62-106 | popped values are the first dequeue_pos entries of the claim log; each successful push is in it once, failed ones not at all |
| `Mpsc.ProducerOrder` | include/lob/mpsc_queue.hpp:62-106 | each producer's items come out in its own order |
| `Mpsc.SlotOwnership` | include/lob/mpsc_queue.hpp:65-104 | every slot of the window is free, claimed by exactly one producer, or published |
| `Mpsc.NoDataRace` | include/lob/mpsc_queue.hpp:77-99 | no two threads access the same slot data with one of them writing |
| `Mpsc.ReadsWhatWasWritten` | include/lob/mpsc_queue.hpp:95-99 | the consumer reads a complete value, the one claimed at that position |
| `Mpsc.FullIsHonest` | include/lob/mpsc_queue.hpp:63-83 | try_push returns false if and only if Capacity positions are claimed and not released at its load of the sequence number, however stale the position it holds |
| `Mpsc.OneSlotLosesValue` | include/lob/mpsc_queue.hpp:36-37 | with capacity one, a run from the initial state in which two pushes return true and only the second value ever comes out |
| `Mpsc.EmptyMeansUnpublished` | include/lob/mpsc_queue.hpp:91-112 | empty() on any thread, as two loads at different times, and a refused pop say "empty" if and only if nothing was popped in between and position dequeue_pos is unpublished |
| `Mpsc.RefusedPopIff` | include/lob/mpsc_queue.hpp:91-98 | try_pop returns false if and only if position dequeue_pos is unpublished at its load of the sequence number |
| `Spsc.RefinesFifo` | include/lob/spsc_queue.hpp:23-42 | with stale reads the ring is a bounded FIFO: popped values are a prefix of pushed ones, at most Capacity in between |
| `Spsc.NoOverwrite` | include/lob/spsc_queue.hpp:23-42 | the cell being written is none of the unread ones |
| `Spsc.RefusalsAreHonest` | include/lob/spsc_queue.hpp:23-42 | with fresh reads a refused push means full and a refused pop means empty |
| `Spsc.RefusalsMeasure` | include/lob/spsc_queue.hpp:23-42 | after a stale load a refused push misses exactly the room freed since, a refused pop exactly the values pushed since, so full and empty are meant if and only if the load was fresh |
| `Seqlock.ReadsAreAtomic` | include/lob/seqlock.hpp:33-71 | a read returns all six fields of one publish: the last one completed when it returns, no older than the last one completed at the state where it began, nor than earlier reads |
| `Seqlock.FloorIsCompletedAtBegin` | include/lob/seqlock.hpp:51-56 | a read carries the number of publishes completed when it began, through retries and other threads' steps |
| `Seqlock.ReadersNeverGoBack` | include/lob/seqlock.hpp:51-71 | all results of a reader are whole publishes in non-decreasing order |
| `Seqlock.RetriesIff` | include/lob/seqlock.hpp:51-71 | a reader waits only for a publish under way and starts over only when one was opened since; otherwise it returns what is in memory |
| `Seqlock.NextInv` | include/lob/seqlock.hpp:33-71 | every store and load keeps the seqlock invariant |
| `Commands.ApplyCommand` | include/lob/pipeline.hpp:60-73 | the command on the OrderBook class is the abstract apply |
| `Commands.MarketTakes` | include/lob/pipeline.hpp:60-73 | a market command takes the first units of the other side's schedule, frees the slots of the orders it finished, and leaves its own side and the ids alone |
| `Commands.LimitQueues` | include/lob/pipeline.hpp:60-73 | a limit command puts one whole order under the next id at the tail of the queue at its price, on its own side, and changes no other queue; with no free slot it changes nothing |
| `Commands.CancelRemoves` | include/lob/pipeline.hpp:60-73 | a cancel command takes exactly that order out of the book: every queue of either side is what it was without it, in the same order |
| `Commands.CommandsConserve` | include/lob/pipeline.hpp:43-73 | whatever commands are applied to a new book, each order is filled exactly, stands under an id of its own, and the quote is the inside |
| `Commands.BuildQuote` | include/lob/pipeline.hpp:75-86 | the quote built from the OrderBook class is the inside of its book |
| `Commands.QuoteIsInside` | include/lob/pipeline.hpp:75-86 | a side is flagged if and only if something rests on it; then its price is the highest bid or the lowest ask and its quantity what rests visibly there; otherwise both are 0 |
| `Pipeline.BookIsFoldOfLog` | include/lob/pipeline.hpp:43-73 | between commands the book is the fold of apply over the first applied commands of the claim-order log |
| `Pipeline.QuotesAreDrainBoundaries` | include/lob/pipeline.hpp:75-88 | every quote read is the inside of the book at a drain boundary, and a reader's boundaries never go back |
| `Pipeline.QuotesAreFresh` | include/lob/pipeline.hpp:40-88 | a read returns the inside of the book at the last boundary published when it returns, no earlier than the last boundary published when it began; while the drainer is idle that is the book as it is |
| `Pipeline.IdleIsPublished` | include/lob/pipeline.hpp:43-52 | a drain that applied something publishes before it returns: whenever the drainer is idle, the payload of the seqlock is the inside of the book as it is |
| `Pipeline.DrainCounts` | include/lob/pipeline.hpp:43-52 | n is the number of commands applied since the last publish, at most max_cmds |
| `Pipeline.DrainEndsIff` | include/lob/pipeline.hpp:43-52 | a drain ends its loop if and only if max_cmds are applied or the next position of the ring is unpublished, and then publishes if and only if it applied something |
| `Pipeline.OrdersThroughRing` | include/lob/pipeline.hpp:40-73 | at any moment between commands, each order that came through the ring is filled exactly and stands under an id of its own |
| `Pipeline.NextInv` | include/lob/pipeline.hpp:40-88 | every step of producers, drainer and readers keeps the composed invariant |
| `Itch.WireIsBigEndian` | net/itch_protocol.hpp:25-48 | swapping and copying puts big-endian bytes on the wire on either kind of host, and swapping twice is the identity |
| `Itch.DecodeEncode` | net/itch_protocol.hpp:135-227 | decoding an encoded message gives the message back, whatever follows it |
| `Itch.EncodeDecode` | net/itch_protocol.hpp:180-227 | a decoded message re-encodes to the bytes it was read from |
| `Wire.AddLayout` | net/itch_protocol.hpp:60-66 | byte by byte: type 1, id, side 0 for buy and 1 for sell, price, quantity and time of an add, 34 bytes |
| `Wire.CancelLayout` | net/itch_protocol.hpp:68-71 | byte by byte: type 2, id and time of a cancel, 17 bytes |
| `Wire.ExecuteLayout` | net/itch_protocol.hpp:73-78 | byte by byte: type 3, id, price, quantity and time of an execution, 33 bytes |
| `Wire.SnapshotLayout` | net/itch_protocol.hpp:81-88 | byte by byte: type 4, flags, both sides and time of a snapshot, 42 bytes |
| `Wire.FirstByteWeighsMost` | net/itch_protocol.hpp:25-44 | the first byte of a number on the wire is the most significant one |
| `Wire.TwosComplement` | net/itch_protocol.hpp:46-48 | a negative price stands on the wire as itself plus 2^64, with the top bit set |
| `Wire.PacketLayout` | net/itch_protocol.hpp:51-58 | byte by byte: the four letters, version 1, count, length, number and time of a packet, then its messages |
| `Wire.PublishedPacket` | net/md_publisher.cpp:136-170 | every datagram of the publisher has those letters and that version, 1 to 64 messages and at most 1400 bytes |
| `Wire.RefusedIff` | net/md_receiver.cpp:88-129 | a datagram shorter than 24 bytes, with other letters or of another version yields nothing and counts once as bad; any other counts as a packet, and as bad if and only if it yields fewer messages than it announces |
| `MarketData.PackMsg` | net/itch_protocol.hpp:135-177 | exactly the wire form is written at the offset, 0 for an unknown kind; an add has type 1, and side 0 for buy and 1 for sell at byte 9 |
| `MarketData.UnpackMsg` | net/itch_protocol.hpp:180-227 | the message at the offset and its size, 0 for an unknown kind or too few bytes |
| `MarketData.BatchFits` | net/md_publisher.cpp:143-149 | a batch has at most 64 messages, fits 1400 bytes, and stops only at those limits |
| `MarketData.ReceiveInvertsPacket` | net/md_receiver.cpp:99-128 | receiving a packet gives exactly what its events carry |
| `MarketData.StreamRoundTrip` | net/md_publisher.cpp:136-170 | however a stream is cut into packets, receiving them gives the stream back; packets are well formed and numbered consecutively |
| `MarketData.Publisher.Enqueue` | net/md_publisher.cpp:27-34 | an accepted event is queued, a refused one counted as dropped |
| `MarketData.Publisher.TryPublishAdd` | net/md_publisher.cpp:36-46 | one event carrying the add, side 0 for buy and 1 for sell, is put behind the queue, or nothing is and one more is counted as dropped |
| `MarketData.Publisher.TryPublishCancel` | net/md_publisher.cpp:48-54 | the same for the cancel |
| `MarketData.Publisher.TryPublishExecute` | net/md_publisher.cpp:56-65 | the same for the execution |
| `Snapshots.TryPublishSnapshot` | net/md_publisher.cpp:67-82 | one event carrying the inside of the OrderBook is put behind the queue, or nothing is and one more is counted as dropped |
| `Snapshots.SnapshotIsInside` | net/md_publisher.cpp:67-82 | a side is flagged if and only if something rests on it; then its price is the extremum over all resting orders and its quantity what rests there |
| `Feed.NextInv` | net/md_publisher.cpp:136-170 | every step of the matching thread's push and of the publisher's loop keeps the composed invariant |
| `Feed.ReceivedIsPrefix` | net/md_publisher.cpp:27-34 | for every interleaving with stale index loads, parsing the packets formed so far gives exactly what the first accepted events carry; at most one ring and one batch are still to come |
| `Feed.ShipsWhenDone` | net/md_publisher.cpp:143-149 | before every packet the batch is as long as it may be, or the ring looked empty |
| `MarketData.Publisher.BatchTurn` | net/md_publisher.cpp:136-170 | one packet of the longest allowed batch; nothing popped is lost before a packet is formed, and numbers have no gaps |
| `MarketData.Receiver.PollOnce` | net/md_receiver.cpp:88-129 | the messages decoded and the counters, for well-formed, truncated and foreign datagrams; a short one or one of another version only counts as bad |

## Left out

- Sockets, multicast options, thread pinning and clocks: a datagram is a byte sequence and times are values passed in; latency rings and histograms are not modelled.
- C++ memory orderings: steps interleave sequentially consistently; in `Spsc.dfy` loads of the other side's index may also be stale.
- Wrap-around of `size_t` positions, of the seqlock counter and of ids: these are unbounded; the packet number is encoded modulo 2^64.
- 64-bit wrap-around of quantities and aggregates in the book: quantities are unbounded there. Only the pro-rata arithmetic wraps, as the source's does.
- Liveness of spin loops (producers on a full ring, readers of the seqlock): the source disclaims it.
- `AllocMode::Heap`, alignment and padding; the slab starts zeroed instead of uninitialised, which no operation observes.
- OrderBooks.OrderBook.CancelOrder: requires that the id is no pending stop, because the source looks the level up by the limit price and would unlink an order that is not linked. Unknown ids are covered.
- OrderBooks.OrderBook.ModifyOrder: requires that the id is no pending stop, for the same reason.
- OrderBooks.OrderBook.ConfigureIceberg: requires that the id is no pending stop, for the same reason.
- OrderBooks.OrderBook.ApplyFill: requires that the id is no pending stop, for the same reason.
- OrderBooks.OrderBook.DetachPending: requires that the id is no resting order, for the same reason; the engine is proved never to call it with one.
- OrderBooks.OrderBook.AddPendingStop: requires a stop kind, for the reason given for SubmitStop.
- MatchingEngines.MatchingEngine.SubmitStop: requires a stop kind; a stop of kind None would occupy a slot and trigger nothing.
- The order fields `timestamp`, `type` and `flags`, which no operation reads.
- std::sort is an insertion sort here; `ProRata.RankIsPosition` shows that any correct sort gives the same allocation.
- `ShardedBooks`, `OrderFlowSimulator`, the benches, `midprice`, the `snapshot` text and the demo: they add nothing to prove.
- Re-testing stops at the prices of inner cascades: the source does not do it, and the quiescence theorem is about the price of the outermost market order.
