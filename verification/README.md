# Shadow exchange: a verified model

The platform runs a contestant's matching engine against a fleet of bots and keeps a shadow
exchange beside it: an order book that matches the same orders, records which fills it expects,
and turns expected against reported fills into a correctness score. This project models that
shadow exchange and everything that has to agree with it, and proves what the agreement rests on.

| component | modules |
|---|---|
| vocabulary, sums, map ranging | `Orders`, `Sums`, `Ranging` |
| matching: flat pass, price levels, rescanning engine | `Matching`, `LevelTree` |
| the judge's book and what it logs, over all runs | `Log`, `FlatBook`, `BookRuns`, `TimePriority`, `Unfilled` |
| fill records, folding, cleanup, score | `Ledger`, `Judge`, `Tape` |
| the shadow shard as updated in place | `Shard` |
| the reference engine and the whole evaluation | `FlatEngine`, `CorrectEngine`, `Evaluation` |
| buffers that restore engine order | `JitterBuffer`, `KafkaBuffer` |
| order accounting of one bot's three goroutines | `PendingTable`, `BotRun` |
| retry and dead letters under crashes | `RetryQueue` |
| codecs | `Fix`, `Varint` |
| bot numbers, order ids, order streams | `BotIds`, `OrderStreams`, `FleetBot` |

How the layers fit. `Matching.Sweep` is one forward pass over a flat, sorted list. It is proved to
give priority as a closed definition has it (`Share`, `Ahead`), where the list's order is priority;
over every run that order is price, then time of acceptance (`TimePriority`). Both real matchers are
proved equal to the pass: the shadow book's pass over price levels and the engine's rescan of a slice. The
flat book's events (`Step`) produce a log of expected fills, reported fills, cleanups and
violations; the ledger is a fold of that log. The class `Shard.SymbolShard`, with its trees, its
id index and its maps, is proved to change exactly as `Step` and the ledger say. The theorems over
runs are then about logs, and hold for the class driven through a run (`Shard.JudgeRun`).

The evaluation as a whole (`CorrectEngine`) is a state machine: bots send and register orders, the
engine serves connections in any order, reports reach the judge in sequence order. `Evaluation` lets
them arrive in any order and parks them as the consumer does. The reports of an
order's own bot arrive on that bot's connection, so they are processed as the bot's own.

## Conventions

- Trees are sequences of levels in rank order; a FIFO list is a sequence; an element pointer of the
  index is the side and price of its level together with the id.
- Order kinds, sides and statuses are enumerations with one value for every other spelling.
- The score is over reals. Quantities, prices and ids of the exchange are integers without a width.
- Clocks, random draws, scheduling and delivery order are arguments or arbitrary choices of a run.
- Protocols (`CorrectEngine`, `Evaluation`, `BotRun`, `RetryQueue`) are sequences of atomic steps; a theorem about
  them is about every sequence of enabled steps.

## Where the code does not do what is written about it

- The gap-skip loop of `drainJitterBuffer` is described as the way not to stall forever. It never
  returns once 100 buffered ids lie below the next expected one (`KafkaBuffer.NeverStops`); ids that
  arrive after their turn collect in the buffer and are only removed by the final flush. Events 101
  to 200 followed by 1 to 100 are such an input (`KafkaBuffer.DrainNeverReturns`), and which records
  are safe to receive is `KafkaBuffer.SafeToReceive`.
- The first fill of an unacknowledged order is published as an acknowledgement and a fill under one
  sequence id. If the id's turn has not come, the fill overwrites the acknowledgement
  (`KafkaBuffer.AckIsOverwritten`); if it has, the fill comes too late and stays until the flush, and
  the hundredth such report stalls the consumer (`KafkaBuffer.FilledReportsStall`). Nothing is lost
  exactly if no record finds its id in the buffer (`KafkaBuffer.ExactlyOnce`).
- Recovery of pending entries is described as re-delivering them. `XCLAIM` only changes the owner,
  and workers read new entries only, so an entry whose worker died is never handled again
  (`RetryQueue.OrphanForever`): a pending entry can still be acknowledged exactly if a worker holds
  it (`RetryQueue.SettlesOnlyIfHeld`). It is not lost either: it stays pending.
- Bot 0 is exempt from self-cross skipping in the shadow book and not in the reference engine
  (`Matching.ExemptionMatters`, with a book on which they part in `CorrectEngine.BotZeroDisagrees`).
  Theorems about the two together are for bots numbered from 1.
- Momentum and noise bots of the load fleet send cancels under an id of their own
  (`FleetBot.NamedCancelsHitNothing`).
- An order whose report overtakes the error of its own write is counted twice
  (`BotRun.LateWriteErrorCountsTwice`), because the result of `removePending` is not looked at. The
  account is exact if and only if it would have reported success for an order, and none for a cancel
  (`BotRun.OrdersAccountedIff`). A failed cancel can also lose the order it names
  (`BotRun.FailedCancelLosesItsTarget`), and so can an order entered while a lost connection is being
  cleaned up (`BotRun.CountAndClearDisagree`).

## Model

| member | source | states |
|---|---|---|
| `Matching.SweepIsPriority` | bot-fleet/shadow/validator.go:177-280 | On a list sorted by price, whose order breaks ties, matching gives each resting order exactly the share that all offers ahead of it leave, trades in list order at the resting prices, and leaves the rest; the share is defined from offered quantities alone, without any pass over the book. That list order within a price is age is TimePriority.PositionIsAge |
| `Matching.PriorityIsRespected` | bot-fleet/shadow/validator.go:182-277 | If the matching pass trades with a resting order, it has used up and removed from the book every eligible order (other bot, within the limit) placed ahead of it, and the trade is at the resting order's own price |
| `Matching.SweepExhausts` | bot-fleet/shadow/validator.go:184-224 | When the incoming order has quantity left, every order still resting within its limit belongs to its own bot |
| `Matching.SweepConserves` | bot-fleet/shadow/validator.go:182-277 | What the incoming order loses, what trades and what the book loses are the same quantity |
| `Matching.SweepKeepsBook` | bot-fleet/shadow/validator.go:177-280 | Matching keeps the book sorted, quantities positive and ids distinct |
| `Matching.SweepAppend` | bot-fleet/shadow/validator.go:182-277 | Matching against better orders first and the rest afterwards is matching against both together |
| `Matching.RescanIsSweep` | test_payloads/go_optimized/main.go:194-244 | Rescanning the sorted slice from the front before every trade yields the same trades in the same order and the same book as one forward pass |
| `Matching.RescanStep` | test_payloads/go_optimized/main.go:196-244 | After one trade with the first eligible order, the remaining forward pass is the pass over the updated slice |
| `Matching.LevelsRefineSweep` | bot-fleet/shadow/validator.go:182-228 | The pass over price levels, with self-skips and the removal of emptied levels, is the pass over the flattened book |
| `Matching.LevelsRefineRescan` | bot-fleet/shadow/validator.go:177-280 | The shadow book's level matcher and the reference engine's slice matcher produce the same trades, the same flattened book and the same remainder for every book and order |
| `Matching.FlatOk` | bot-fleet/shadow/validator.go:182-228 | A tree with strictly ordered, non-empty levels flattens to a sorted list of positive quantities |
| `Matching.ExemptionMatters` | bot-fleet/shadow/validator.go:702-704 | The shadow book exempts bot 0 from self-cross skipping and the engine does not: the two agree on an order of bot 0 if and only if no order of bot 0 is reached before the incoming quantity is used up |
| `CorrectEngine.BotZeroDisagrees` | bot-fleet/shadow/validator.go:702-704 | The disagreement occurs: a book with one resting order of bot 0 and an order of bot 0 that the shadow book trades and the engine rests |
| `LevelTree.AddIsInsert` | bot-fleet/shadow/validator.go:282-294 | Pushing an order to the back of its price level is inserting it into the flat list behind everything of the same or a better price, and keeps the tree ordered with no empty level |
| `LevelTree.RemoveIsWithout` | bot-fleet/shadow/validator.go:301-326 | Removing an order from the level of its price is removing it from the flat list; an emptied level disappears |
| `LevelTree.OrderIsAtItsPrice` | bot-fleet/shadow/validator.go:301-326 | Every resting order is found in the level of its own price |
| `LevelTree.RemoveEmpties` | bot-fleet/shadow/validator.go:221-228 | Removing the collected empty prices one by one leaves exactly the levels that still hold orders |
| `FlatBook.StepKeepsBook` | bot-fleet/shadow/validator.go:397-499 | Every event keeps both lists sorted, positive and distinct, no id on both sides or both pending and resting, and the book uncrossed between different bots |
| `FlatBook.InsertUncrossed` | bot-fleet/shadow/validator.go:157-171 | What an order has left after matching may rest: every order it would cross belongs to its own non-zero bot |
| `FlatBook.MatchKeepsBook` | bot-fleet/shadow/validator.go:157-280 | Accepting an order keeps the book well formed and adds no id but its own |
| `FlatBook.CancelKeepsBook` | bot-fleet/shadow/validator.go:301-326 | Cancelling removes exactly the named order and keeps the book well formed |
| `FlatBook.SweepConservesEach` | bot-fleet/shadow/validator.go:193-219 | For every resting order, what it trades plus what it keeps is what it had |
| `BookRuns.RunTrack` | bot-fleet/shadow/validator.go:397-499 | In every run in which each non-cancel id is submitted once: the book is well formed and never crossed between different bots, no fill is expected of an order after it was offered for cleanup, and every resting order is on the side it was submitted for |
| `BookRuns.QuantityConserved` | bot-fleet/shadow/validator.go:157-335 | Over whole runs, for each acknowledged order: original quantity = resting + expected fills + dropped quantity; which orders drop any is Unfilled.DroppedIff |
| `Unfilled.DroppedIff` | bot-fleet/shadow/validator.go:427-478 | Over whole runs, an order of positive quantity has dropped quantity if and only if some event took it off the market: a cancellation while it rests, an answer other than an acceptance, a kind or side that is not matched, or a market order that found too little |
| `Unfilled.AcceptedLimitDropsNothing` | bot-fleet/shadow/validator.go:157-171 | A limit order of positive quantity on a known side whose acknowledgements all accept it drops nothing: once acknowledged, what was submitted rests or is expected to be filled |
| `BookRuns.TradesMirrored` | bot-fleet/shadow/validator.go:328-335 | Over whole runs, the quantity expected of x with y at each price equals that expected of y with x: every trade is recorded on both sides with the counterparties swapped |
| `BookRuns.VolumesBalance` | bot-fleet/shadow/validator.go:328-335 | Over whole runs, bought volume equals sold volume and the total expected quantity is twice either |
| `BookRuns.StepFills` | bot-fleet/shadow/validator.go:207-208 | An acknowledgement expects exactly two fills per trade of its match, taker first, and every other event expects none |
| `BookRuns.SweepRemovesDone` | bot-fleet/shadow/validator.go:213-217 | The orders that leave the book in a match are exactly those used up |
| `TimePriority.RunInTime` | bot-fleet/shadow/validator.go:282-294 | In every run with fresh ids, orders of one price rest, on both sides, in the order in which they were accepted; the time of acceptance is read off the events alone |
| `TimePriority.PositionIsAge` | bot-fleet/shadow/validator.go:177-294 | In every run with fresh ids the lists are exactly in price-time order: one order stands before another if and only if its price is better, or equal and it was accepted earlier |
| `TimePriority.PriceTimePriority` | bot-fleet/shadow/validator.go:157-294 | Price-time priority over whole runs: when an acceptance makes the incoming order trade with b, every resting order of another bot within the limit that has a better price, or the same price and was accepted earlier, is expected to trade all it has at its own price and is gone, and the trade with b is at b's price |
| `Shard.SymbolShard.ProcessAck` | bot-fleet/shadow/validator.go:427-478 | In any state whose index and trees agree, an acknowledgement changes the book and the fill records exactly as the flat book says (cancel, match and rest, late, unknown, wrong status), and leaves index and trees in agreement |
| `Shard.SymbolShard.AckPending` | bot-fleet/shadow/validator.go:443-477 | The acknowledgement of a pending order: matched if accepted, counted as a violation otherwise, and offered for cleanup in every branch |
| `Shard.SymbolShard.ProcessOrder` | bot-fleet/shadow/validator.go:397-425 | Submitting an order makes it pending and counts a duplicate for an id already pending and for one already resting; cancels are not recorded |
| `Shard.SymbolShard.ProcessFill` | bot-fleet/shadow/validator.go:480-499 | A reported fill is appended to its order's history and the order offered for cleanup |
| `Shard.SymbolShard.MatchIncoming` | bot-fleet/shadow/validator.go:177-280 | The nested in-place loops over levels and queues leave the flattened book, the remainder, the recorded fills and the index exactly as one forward pass over the flat list does |
| `Shard.SymbolShard.MatchLevel` | bot-fleet/shadow/validator.go:193-219 | The inner loop over one level's list trades, skips and removes as the forward pass does, records both sides of each trade, cleans up used-up makers and drops them from the index |
| `Shard.SymbolShard.SweepTree` | bot-fleet/shadow/validator.go:182-228 | The outer loop stops at the first level beyond the limit and removes exactly the emptied levels |
| `Shard.SymbolShard.RecordTrade` | bot-fleet/shadow/validator.go:207-217 | One trade records both expected fills with swapped counterparties; a used-up maker leaves the index and is offered for cleanup |
| `Shard.SymbolShard.RecordExpectedFill` | bot-fleet/shadow/validator.go:328-335 | Appends one expected fill to the order's history and changes nothing else |
| `Shard.SymbolShard.AddOrderToBook` | bot-fleet/shadow/validator.go:282-294 | The order rests behind everything of the same or a better price and the index points at the level it is in |
| `Shard.SymbolShard.RemoveRestingOrder` | bot-fleet/shadow/validator.go:301-326 | Removes the order from book and index; the branch for an index entry whose level is missing is unreachable |
| `Shard.SymbolShard.MatchLimitOrder` | bot-fleet/shadow/validator.go:157-171 | A limit order is matched and its remainder rests |
| `Shard.SymbolShard.MatchMarketOrder` | bot-fleet/shadow/validator.go:173-175 | A market order is matched and its remainder is dropped |
| `Shard.SymbolShard.CheckCleanup` | bot-fleet/shadow/validator.go:102-155 | An order that neither waits nor rests, and whose folded reported fills equal its folded expected fills, leaves the maps and enters the counters; any other call changes nothing |
| `Shard.SymbolShard.CleanupPass` | bot-fleet/shadow/validator.go:516-520 | The cleanup pass before scoring leaves the totals unchanged and every order it could settle settled |
| `Shard.SymbolShard.GetCorrectnessScore` | bot-fleet/shadow/validator.go:501-625 | The score is the judgement on the records as they stood before the call, and each order's folded mismatches are added to the priority violations |
| `Shard.SymbolShard.ExpectedPass` | bot-fleet/shadow/validator.go:533-581 | The pass over expected orders, in any map order, sums each order's contribution and counts its priority violations |
| `Shard.SymbolShard.PhantomPass` | bot-fleet/shadow/validator.go:583-590 | Orders with reported fills and no expected record contribute their whole quantity as phantom |
| `Shard.SymbolShard.OrderTally` | bot-fleet/shadow/validator.go:533-563 | One order's share of every total of the score |
| `Shard.SymbolShard.MatchingQtyByPrice` | bot-fleet/shadow/validator.go:653-668 | Price-matched quantity: the sum over expected prices of the smaller of expected and reported quantity at that price |
| `Shard.SymbolShard.ByPrice` | bot-fleet/shadow/validator.go:653-661 | Total quantity per price, for exactly the prices that occur |
| `Shard.SymbolShard.PriorityMatchedQty` | bot-fleet/shadow/validator.go:337-359 | Quantity met position by position, and the number of positions not met or beyond the expected ones |
| `Shard.JudgeRun` | bot-fleet/shadow/validator.go:397-625 | A fresh shard driven by ProcessOrder, ProcessAck and ProcessFill through any run with fresh ids, then scored, returns exactly the judgement on that run's log |
| `Shard.FoldPartials` | bot-fleet/shadow/validator.go:31-48 | The merging loop computes the folded list |
| `Shard.SumFills` | bot-fleet/shadow/validator.go:115-121 | Sums of quantity and of quantity times price |
| `Shard.CompareFolded` | bot-fleet/shadow/validator.go:130-139 | The comparison loop decides whether two lists agree in length, quantities, prices and counterparties |
| `Ledger.FoldKeeps` | bot-fleet/shadow/validator.go:31-48 | Folding keeps quantity, value, sign and owner |
| `Ledger.MatchedBounds` | bot-fleet/shadow/validator.go:337-359 | For positive fills: 0 <= priority-matched <= price-matched <= min(expected, reported) |
| `Ledger.FullPriority` | bot-fleet/shadow/validator.go:337-359 | If everything expected is met in position and no more is reported than expected, the lists are the same |
| `Ledger.NoViolationIsAlike` | bot-fleet/shadow/validator.go:337-359 | No priority violation is counted exactly when the two lists agree position by position |
| `Ledger.ScoreIsFull` | bot-fleet/shadow/validator.go:594-625 | Over reals, the score is 100 exactly when the totals are flawless and all three violation counters are zero |
| `Tape.FoldMeansTicks` | bot-fleet/shadow/validator.go:31-48 | Two histories of positive fills fold to the same list if and only if they are the same trades unit by unit, however they were cut into partial fills |
| `Tape.FoldTicks` | bot-fleet/shadow/validator.go:31-48 | Folding changes no single traded unit and leaves no two neighbours that could be merged |
| `Tape.FullScoreMeansSameTrades` | bot-fleet/shadow/validator.go:501-625 | In every run with fresh ids and positive reports the score is 100 if and only if each order was reported to trade, unit by unit, what it was expected to trade and no acknowledgement was wrong |
| `Judge.CleanupIsTransparent` | bot-fleet/shadow/validator.go:102-155 | Moving a settled order from the maps into the counters changes none of the totals the score is made of |
| `Judge.NothingForgotten` | bot-fleet/shadow/validator.go:102-155 | In all runs, counter plus map contents equals the total expected and reported quantity ever recorded |
| `Judge.AlwaysFaithful` | bot-fleet/shadow/validator.go:102-155 | In every run the records of an order are its whole history, or the order was cleaned after its history so far settled and only later reports are on record |
| `Judge.CountersArePaid` | bot-fleet/shadow/validator.go:102-155 | The counters are the sum over cleaned orders of what each would contribute |
| `Judge.TotalsAreContributions` | bot-fleet/shadow/validator.go:516-592 | The totals of the score are the sum over all orders that ever traded of what each left in counters and maps |
| `Judge.ContributionVerdict` | bot-fleet/shadow/validator.go:533-590 | Per order: contributions are within bounds, and flawless exactly when the folded histories agree; late fills of a cleaned order show up as phantom quantity |
| `Judge.FullScoreMeansExact` | bot-fleet/shadow/validator.go:501-625 | The score is 100 if and only if every order's folded reported history equals its folded expected history and no violation was counted |
| `Judge.RunScoreMeansExact` | bot-fleet/shadow/validator.go:397-625 | The same for every run of events with fresh ids and positive reported fills |
| `Judge.IncrementalIsBatch` | bot-fleet/shadow/validator.go:501-625 | When no fill arrives for an order after it was cleaned, the incremental score equals the score of one pass over whole histories |
| `Judge.CleanupNeverLowers` | bot-fleet/shadow/validator.go:102-155 | Over every tidy log of positive fills the incremental score is at least the score of one pass over whole histories, late reports or not |
| `Judge.CleanupCanRaise` | bot-fleet/shadow/validator.go:102-155 | It can be more: a report repeated after its order was cleaned up |
| `FlatEngine.OrderBook.HandleOrder` | test_payloads/go_optimized/main.go:152-324 | The in-place engine changes its two slices and emits its reports exactly as the rescanning specification says |
| `FlatEngine.OrderBook.MatchAgainst` | test_payloads/go_optimized/main.go:196-244 | The matching loop trades with the first eligible order until none is left, two reports per trade, taker first, numbered in sequence |
| `FlatEngine.OrderBook.FindMatch` | test_payloads/go_optimized/main.go:197-208 | The scan finds the first order that is within the limit and not the taker's own, stopping at the first price beyond the limit |
| `FlatEngine.OrderBook.InsertInto` | test_payloads/go_optimized/main.go:246-258 | The remainder is inserted before the first order of a strictly worse price |
| `FlatEngine.OrderBook.RemoveFrom` | test_payloads/go_optimized/main.go:161-177 | The linear search removes the first order with the id and says whether there was one |
| `FlatEngine.OrderBook.Cancel` | test_payloads/go_optimized/main.go:157-186 | A cancel searches the buys, then the sells, and reports cancelled or rejected |
| `FlatEngine.HandleNumbered` | test_payloads/go_optimized/main.go:152-324 | The reports of one order carry consecutive sequence ids |
| `CorrectEngine.CorrectEngineScores100` | bot-fleet/shadow/validator.go:397-625 | A correct engine always scores 100: for any interleaving of sending, serving and report delivery over bots numbered from 1, with distinct order ids and cancels only of orders sent before, once all reports are processed the score is 100, expected and reported fills are the same stream, and no acknowledgement, duplicate or unknown-ack violation was counted |
| `Evaluation.AnyArrivalScores100` | services/testing/runner.go:341-416 | The same with reports that arrive in any order and are parked by sequence id, while bots keep sending and registering: once everything has arrived and the consumer waits for more, nothing is parked and the score is 100 |
| `Evaluation.RunSimulates` | services/testing/runner.go:341-416 | What the judge is told in any such run is what it is told in some run whose reports arrive in engine order; the outstanding reports are numbered from the next id to the engine's last |
| `CorrectEngine.HandleIsMatch` | test_payloads/go_optimized/main.go:188-324 | What the engine does with an order is what the judge does on its acknowledgement: same lists afterwards, reported fills equal expected fills |
| `CorrectEngine.HandleIsCancel` | test_payloads/go_optimized/main.go:157-186 | The engine cancels an order exactly when it rests in the judge's book |
| `CorrectEngine.ReachableInStep` | services/testing/runner.go:785-809 | In every reachable state the engine's lists are the judge's book after the orders the judge has not been told about yet, and nothing expected is missing from or foreign to the reports under way |
| `CorrectEngine.ServeNeedsOnlyAnOrder` | test_payloads/go_optimized/main.go:326-349 | In every reachable state the engine can serve any bot with an order waiting |
| `CorrectEngine.EngineNumbersReports` | test_payloads/go_optimized/main.go:152-324 | Over any sequence of orders the engine numbers its reports consecutively |
| `JitterBuffer.Consume` | services/testing/runner.go:341-416 | For every arrival order and any ids: processed reports are strictly increasing and were received, both loops terminate, and every received report is processed exactly once if and only if ids are distinct and at least 1; then everything before the first missing id is processed before the channel closes |
| `JitterBuffer.Drain` | services/testing/runner.go:393-413 | The inner loop processes the run of consecutive ids that is there and stops at the first gap |
| `JitterBuffer.Flush` | services/testing/runner.go:351-380 | After the channel closes, jumping to the smallest parked id over each gap empties the buffer in increasing order |
| `JitterBuffer.MinKey` | services/testing/runner.go:368-373 | The search for the smallest parked key, with -1 for none |
| `JitterBuffer.OnlyOneOrder` | services/testing/runner.go:341-416 | There is only one increasing order of a set of reports |
| `JitterBuffer.ConsumeEngineRun` | services/testing/runner.go:341-416 | In whatever order the reports of an engine run arrive, failures and empty events in between, the consumer processes them exactly as the engine emitted them |
| `KafkaBuffer.DrainTerminates` | bot-fleet/telemetry/consumer.go:177-209 | The drain loop terminates if and only if fewer than 100 buffered ids are below the next expected id |
| `KafkaBuffer.NeverStops` | bot-fleet/telemetry/consumer.go:178-190 | With 100 or more such stale ids the loop skips ids forever |
| `KafkaBuffer.Consumer.DrainJitterBuffer` | bot-fleet/telemetry/consumer.go:177-209 | A drain delivers the buffered ids up to where it stops, in order and without the gaps, counts acks and fills, and leaves fewer than 100 events |
| `KafkaBuffer.Consumer.DrainOne` | bot-fleet/telemetry/consumer.go:178-208 | One turn delivers the next event, skips a missing id when at least 100 events wait, or stops |
| `KafkaBuffer.Consumer.ProcessRecord` | bot-fleet/telemetry/consumer.go:150-166 | Buffering an event and draining |
| `KafkaBuffer.Consumer.FlushRemainingBuffer` | bot-fleet/telemetry/consumer.go:218-253 | The flush delivers everything left in increasing id order and empties the buffer |
| `KafkaBuffer.SortedKeys` | bot-fleet/telemetry/consumer.go:231-235 | The leftover ids in increasing order |
| `KafkaBuffer.AlwaysSound` | bot-fleet/telemetry/consumer.go:177-209 | In every run whose drains terminate, whatever ids the events carry: drains emit strictly increasing ids, and every received event is delivered, buffered or overwritten, as often as it was received |
| `KafkaBuffer.ExactlyOnce` | bot-fleet/telemetry/consumer.go:140-253 | Drains and the final flush each deliver in increasing id order, and together deliver what was received, as often as it was received, if and only if no record came whose id was in the buffer at that moment; otherwise what is missing is what was overwritten |
| `KafkaBuffer.DistinctIdsSuffice` | bot-fleet/telemetry/consumer.go:140-209 | Different ids are enough for that |
| `KafkaBuffer.AckIsOverwritten` | bot-fleet/telemetry/consumer.go:148-164 | An acknowledgement waiting for its turn is lost when the fill published under the same id arrives |
| `KafkaBuffer.StaleCountsLate` | bot-fleet/telemetry/consumer.go:177-209 | The stale ids in the buffer are exactly the ids that arrived late, counted once each |
| `KafkaBuffer.SafeToReceive` | bot-fleet/telemetry/consumer.go:177-209 | The next record's drain terminates if and only if the ids that arrived late, this one included, stay below 100 |
| `KafkaBuffer.DrainNeverReturns` | bot-fleet/telemetry/consumer.go:177-209 | An input on which it does not: events 101 to 200, then 1 to 100, all distinct; every drain but the last returns, and after any number of turns the last is still running |
| `KafkaBuffer.FilledReportsStall` | bot-fleet/runner.go:556-587 | Another such input, with nothing missing and nothing delayed: a hundred reports in engine order, each published as an acknowledgement and a fill under one id |
| `PendingTable.Table.Set` | bot-fleet/pending.go:28-33 | The sixteen shards together are one map; setting changes that map at one id |
| `PendingTable.Table.Remove` | bot-fleet/pending.go:35-44 | Removing hands out the send time exactly if the id is in the one map, and takes it out |
| `PendingTable.Table.Len` | bot-fleet/pending.go:46-55 | The sum of the shard sizes is the size of the one map |
| `PendingTable.Table.Clear` | bot-fleet/pending.go:57-66 | Clearing every shard empties the one map |
| `PendingTable.Table.GetExpiredAndRemove` | bot-fleet/pending.go:68-82 | Hands out each order sent at or before the deadline exactly once and removes exactly those |
| `PendingTable.SplitShard` | bot-fleet/pending.go:73-78 | The pass over one shard collects and deletes its expired orders, each once |
| `PendingTable.MergeAt` | bot-fleet/pending.go:28-44 | An order is in the table exactly if the shard its number chooses holds it |
| `BotRun.OrdersAccounted` | bot-fleet/runner.go:438-643 | Under every interleaving of the three goroutines that ends by the control goroutine's close, failed waits included: without a write error, acknowledged + failed + cancels written = OrdersToSend and nothing is pending, although the length scan before the close is not atomic |
| `BotRun.OrdersAccountedIff` | bot-fleet/runner.go:438-643 | With write errors allowed too, the sum is off by at most one and nothing is pending; it is exact if and only if each failed write found its own order, and no other, still in the table |
| `BotRun.DriftIsTheFailure` | bot-fleet/runner.go:487-494 | A run has at most one write error, and the account deviates by exactly what the ignored result of removePending would have said: +1 for a non-cancel order no longer in the table, -1 for a cancel whose id was in it |
| `BotRun.ClosedAccount` | bot-fleet/runner.go:617-638 | In such runs without a write error, already at the close only a result the receiver still holds is missing |
| `BotRun.FinalAccount` | bot-fleet/runner.go:426-432 | In every run, errors, cancellation and early read errors included, the results differ from OrdersToSend by exactly what the unlocked paths did: orders counted by the scan but not emptied by the clear (or the reverse), the deviation of a failed write, and orders left pending |
| `BotRun.HandedOutOnce` | bot-fleet/pending.go:35-82 | Under every interleaving each order that was ever pending is pending, taken by one report, expired once, or dropped by an error path: never two of these |
| `BotRun.LateWriteErrorCountsTwice` | bot-fleet/runner.go:471-494 | A finished, orderly run with one result too many: an order reported before its write returns an error is counted as sent and again as failed |
| `BotRun.FailedCancelLosesItsTarget` | bot-fleet/runner.go:471-494 | A finished, orderly run with one result too few: a cancel whose write fails takes the order it names out of the table |
| `BotRun.CountAndClearDisagree` | bot-fleet/runner.go:426-432 | A finished run with no result at all for its order, which was entered between the count and the clear |
| `RetryQueue.BoundedRuns` | services/common/retry.go:19-47 | Under any interleaving of workers, crashes between commands and claims, a message causes at most MaxRetries + 1 handler runs |
| `RetryQueue.NeverLost` | services/common/retry.go:19-47 | A published message is in the stream, pending, or dead-lettered until some handler run has finished it |
| `RetryQueue.DeadLettersAreExhausted` | services/common/retry.go:25-36 | A dead-lettered message is there once, was finished by no run, and had exactly MaxRetries + 1 handler runs |
| `RetryQueue.StepKeeps` | services/common/retry.go:19-47 | Every command and every crash keeps retry counts equal to earlier copies, workers on different entries, and each entry settled before it is acknowledged or deleted |
| `RetryQueue.Redis.ShouldRetry` | services/common/retry.go:19-47 | Writes the new copy with the count increased, or the dead letter, before acknowledging and deleting the old entry, and reports which |
| `RetryQueue.Redis.AckAndDel` | services/common/redis.go:102-107 | Acknowledges, then deletes |
| `RetryQueue.CrashOrphans` | services/testing/main.go:124-153 | A worker that dies while its handler runs leaves its entry pending with nobody working on it |
| `RetryQueue.OrphanForever` | services/common/pel_recovery.go:33-47 | Claiming never runs such an entry again: in every continuation of the run it stays pending and unhandled |
| `RetryQueue.SettlesOnlyIfHeld` | services/common/pel_recovery.go:33-47 | A pending entry is acknowledged in some continuation of the run if and only if a worker holds it |
| `Fix.ParseFIX` | services/testing/runner.go:1333-1351 | The parsing loop computes the fields of the parts that have a numeric tag |
| `Fix.BuildFIX` | services/testing/runner.go:1353-1372 | Whatever order the map is ranged over, the bytes written are the message for that order |
| `Fix.CalculateFIXChecksum` | services/testing/runner.go:1374-1380 | The sum of all bytes modulo 256 |
| `Fix.RoundTrip` | services/testing/runner.go:1333-1372 | Parsing a built message gives the fields back outside tags 9 and 10 if and only if tags 8 and 35 are given and no value holds the separator, for every order of the map |
| `Fix.ParseOfBuild` | services/testing/runner.go:1333-1372 | The whole parsed map: the given fields, tags 8 and 35 present, the body length under 9 and the checksum under 10 |
| `Fix.LengthAndChecksum` | services/testing/runner.go:1353-1380 | Tag 9 is the number of bytes between its own field and the checksum field; tag 10 is three digits, the sum of all bytes before it modulo 256 |
| `Fix.AtoiOfItoa` | services/testing/runner.go:1344-1347 | Reading back a printed int64 gives the number |
| `Fix.SplitJoin` | services/testing/runner.go:1335-1335 | Splitting at the separator gives back the fields that were joined |
| `Fix.Connection.ReadMessage` | services/testing/runner.go:1253-1267 | Reads fields until the bytes so far contain a checksum field and end in the separator |
| `Fix.FrameOfMessage` | services/testing/runner.go:1253-1267 | The framing loop takes a built message, and nothing more, off the front of any stream |
| `Fix.FramesOfConcat` | services/testing/runner.go:1253-1267 | Any concatenation of built messages is cut back into exactly those messages |
| `Fix.TrailerIsAField` | services/testing/runner.go:1264-1266 | The checksum pattern can only begin where one field ends and the next starts |
| `Varint.EncodeVarint` | test_payloads/go_optimized/main.go:60-73 | The loop computes the varint of the value |
| `Varint.DecodeVarint` | test_payloads/go_optimized/main.go:45-58 | The loop with shift and or computes the decoded value, stays within 64 bits and within the data |
| `Varint.RoundTrip` | test_payloads/go_optimized/main.go:45-73 | For every uint64 and any bytes before and after, decoding undoes encoding and stops right after it |
| `Varint.AtMostTenBytes` | test_payloads/go_optimized/main.go:60-73 | An encoding has between one and ten bytes |
| `Varint.EncodedLength` | test_payloads/go_optimized/main.go:60-73 | A value takes at most n bytes exactly when it is below 128 to the n |
| `Varint.EncodeIsMinimal` | test_payloads/go_optimized/main.go:60-73 | Every encoding is continued except for its last byte and not padded |
| `Varint.EncodeValue` | test_payloads/go_optimized/main.go:60-73 | Every such byte string is the encoding of its value, so encoding is a bijection |
| `Varint.EncodeReport` | test_payloads/go_optimized/main.go:108-139 | The payload is the seven fields in order, each a key byte and a varint |
| `Varint.ReportReadsBack` | test_payloads/go_optimized/main.go:108-139 | Reading a report's payload field by field returns all seven values, negative prices by two's complement |
| `Varint.ReadEncoded` | test_payloads/go_optimized/main.go:75-106 | Any sequence of varint fields numbered below 32 is read back as it was written |
| `Varint.DecodeOrder` | test_payloads/go_optimized/main.go:75-106 | The decoding loop takes the last value of each known field, skips unknown fields and fails on any other wire type |
| `Varint.OrderReadsBack` | test_payloads/go_optimized/main.go:75-106 | An order written with or without its zero fields is read back as it was |
| `BotIds.PackDecodes` | bot-fleet/shadow/validator.go:698-700 | Shifting an order id back gives the bot number if and only if that fits 32 signed bits; the low half always gives the sequence number modulo 2 to the 32 |
| `BotIds.PackIsShiftAndOr` | bot-fleet/bot.go:161-161 | Shifting, masking and or-ing on int64 puts the bot number, wrapped to 32 bits, above the low 32 bits of the sequence number |
| `BotIds.PackInjective` | bot-fleet/bot.go:158-161 | Different bots below 2 to the 31 or different sequence numbers below 2 to the 32 never share an order id |
| `BotIds.SplitBots` | bot-fleet/runner.go:226-246 | Every worker gets the even share, the last one also the remainder, at offsets of multiples of the share; no workers is an error |
| `BotIds.BuildShardBots` | bot-fleet/worker_node.go:103-139 | The slice is filled with numbers from the offset on, one strategy per range, and seeds that differ |
| `BotIds.EveryBotOnce` | bot-fleet/runner.go:233-254 | For every bot and worker count, the numbers 1..NumBots are given out, each to exactly one bot of one worker |
| `OrderStreams.StreamsAreUsable` | services/testing/runner.go:84-182 | In every run of fewer than 2 to the 32 orders, whatever the random draws: non-cancel ids are distinct, each cancel names a limit order issued earlier and never cancelled before, and the low half of every id is an index into the send times |
| `OrderStreams.GenerateKeeps` | services/testing/runner.go:84-182 | One more order keeps the stream well formed and the active list free of cancelled or repeated ids |
| `OrderStreams.BotsDisjoint` | services/testing/runner.go:165-165 | Orders of different bots never share an id |
| `OrderStreams.SendTimeIndex` | services/testing/runner.go:472-476 | The low half of the i-th id is between 1 and i |
| `OrderStreams.PretestBot.GenerateNextOrder` | services/testing/runner.go:84-182 | The in-place generator issues the specified order and keeps its log well formed |
| `OrderStreams.PretestBot.SendNext` | services/testing/runner.go:472-476 | The send time is written inside the array, at the id's low half, and nowhere else |
| `OrderStreams.ZipfQuantity` | services/testing/runner.go:184-194 | Quantities are at most 10000, and at least 200 for draws below 1 |
| `FleetBot.RingBuf.Push` | bot-fleet/bot.go:96-104 | A full ring drops its oldest entry, otherwise the value is added behind |
| `FleetBot.RingBuf.Pop` | bot-fleet/bot.go:106-114 | Takes the oldest entry, if there is one |
| `FleetBot.RingKeepsNewest` | bot-fleet/bot.go:96-104 | After any pushes the ring holds the last ones, as many as it has room for, in order |
| `FleetBot.Bot.NextOrder` | bot-fleet/bot.go:158-177 | The bot issues the order of its strategy and its ring changes accordingly |
| `FleetBot.Bot.ProgressBasedOrder` | bot-fleet/bot.go:179-208 | Limits that enter the ring, then markets, then cancels of the oldest entry in the ring |
| `FleetBot.ProgressStream` | bot-fleet/bot.go:179-208 | A bot that orders by progress cancels only limit orders it issued, each at most once, although the ring forgets the oldest |
| `FleetBot.NamedCancelsHitNothing` | bot-fleet/bot.go:250-318 | The cancels of momentum and noise bots carry an id of their own, so none names an order any bot of the fleet placed |

## Left out

- Shard.SymbolShard.ProcessAck: requires that index and trees agree and no id is both pending and resting; the code runs on after a resting id was submitted again, and what happens to the old element then is not modelled.
- Shard.SymbolShard.AckPending: the same requirement, so each non-cancel id is taken to be submitted once, as the order ids of bots are.
- Shard.SymbolShard.MatchLevel: list elements are found by id and position, not by pointer; aliasing between the index and the list nodes is represented by the index naming the level.
- CorrectEngine.CorrectEngineScores100: every report counts as its own bot's, since an engine writes it to the connection the order came from; a fill report with the acknowledgement it implies is processed in one step; sockets, adapters and the fan-in channel are not modelled.
- BotRun.OrdersAccounted: the fill-drain grace period is left open, so the close may come earlier in the model than in the program; dialling and the result histogram are outside.
- Evaluation.AnyArrivalScores100: starts from one engine with an empty book and next id 1, and every report counts as its own bot's; reports that never arrive are not scored.
- RetryQueue.BoundedRuns: Redis commands succeed and a handler run starts when its entry is read; the few commands a handler itself issues besides these are outside.
- Varint.OrderReadsBack: the bot's encoder is a library; both of its choices for zero fields are covered.
- Wrap-around of int64 prices, quantities and sums in book and score, and rounding of float64 in the score.
- More than one symbol: every entry point of the judge uses the one shard for BTCUSD, so the map of shards and the lock around it are not modelled.
- The counters behind GetPhantomFills and GetPriorityViolations beyond what GetCorrectnessScore adds, and all logging.
- JSON, WebSocket, REST and SSE adapters, the FIX logon exchange, deadlines and reconnects.
- Kafka, Redis, Postgres, S3, Docker and Kubernetes themselves; gateway, authentication, dashboard and leaderboard.
- Send-time pacing (rate limiter, MMPP), latency histograms and percentiles.
- Totals of RunShard, the master's job store, verdict thresholds and weighted composite scores: short sums and comparisons.
- The other sample engines: three repeat the matching, two number both sides of a trade alike, two are wrong on purpose.
