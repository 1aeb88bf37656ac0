# Verified model of the trading engine's core

A Dafny model of the parts of the trading engine that keep money and orders straight, with proofs about every input and
every run:

* **Order book and matching engine.** `OrderBook.dfy` keeps the book the way the program does (two price-ordered level
  maps of FIFO queues, an id index, a counter) and proves that each operation is an operation on ONE list per side in
  price-time priority (`BookModel.dfy`). `MatchingEngine.dfy` keeps books, ledger and counters and proves that each method
  computes a transition of the pure engine in `EngineModel.dfy`. The laws about that engine are in `EngineLaws.dfy`,
  `EngineSteps.dfy`, `ReusedIds.dfy` and `EngineRuns.dfy` (ledger and books agree), `MatchingLaws.dfy` (priority and best
  execution), `CrossingLaws.dfy` (no crossed book), `MarketLaws.dfy` (external levels), `SubmitLaws.dfy`,
  `EventLaws.dfy` and `AnswerLaws.dfy` (what each operation leaves behind and answers), `RestoreLaws.dfy`,
  `MirrorLaws.dfy` and `ProbeLaws.dfy` (exactly when a restored engine trades and reports alike).
* **Portfolio** (`Portfolio.dfy`, `PortfolioLaws.dfy`, `MarkLaws.dfy`, `SplitLaws.dfy`): accounting identities over all
  histories of fills and marks, and exactly when realized profit depends on the order of fills.
* **Live execution tracker** (`Tracker.dfy`, `ReportLaws.dfy`, `TrackerLaws.dfy`, `TieLaws.dfy`, `HigherTies.dfy`,
  `HeldTies.dfy`, `FinalStatus.dfy`): the answer to every report, convergence under reordering and repetition, and
  exactly when the final status does not depend on the delivery.
* **Ingestion and recovery** (`Ingestion.dfy`, `IngestionLaws.dfy`, `IngestionLosses.dfy`, `Republications.dfy`,
  `DeliveryLaws.dfy`, `IngestionService.dfy`): a protocol of single steps with a crash possible between any two, exactly
  which sources it is safe for, what it delivers and records, and the objects that take those steps.
* **Codecs** (`Text.dfy`, `KafkaCodec.dfy`, `ReplayLog.dfy`): exact conditions for both round trips; `KafkaSource.dfy` joins
  the Kafka payload to the protocol.

How the program is read:

* A `double` is a `real`. The tolerance 1e-9 is the constant `TOLERANCE`, and every comparison that uses it does so here.
* Identifiers are `Name`s: the empty string, the strings generated from the engine's counters, and a numbering of all other
  strings (`KafkaSource.NamesAreNumbered` gives one). The program only compares identifiers, tests them for emptiness and
  sorts them; the sort of touched orders uses a fixed total order on `Name`s instead of the lexicographic one.
* A `std::map` of price levels is the sequence of its entries in key order; `Levels.Store` inserts, replaces or erases one.
* The three matching loops of the program (one in `submit`, two in `process_market_event`) have the same body up to the test
  whether a resting order is executable and the price of the fill; one loop, `MatchLoop`, stands for all of them.
* Number text is a parameter, `NumberFormat`; round trips are stated for numbers that print exactly.
* Which Kafka partition delivers next, and in which order recovery lists checkpoints, is left open by nondeterministic
  choice, so results hold for every such order. Offsets are positions in a partition.
* `published`, `rejected`, `crashes` and `stage` of the ingestion state are history used to state properties.

Properties that fail in general, each with a concrete failing case and the exact condition under which it holds:

* Ledger and books need not agree after a restart: counters begin at 1 again, so a submit can use the id of a restored
  order (`EngineRuns.RestartReusesIds`). `ReusedIds.SubmitAgreesExactly` says when a submit keeps them in agreement: its id
  is not that of an open order, or matching consumes that order, which is stated on the quantities ahead of it.
  `EngineSteps.RestoreAgreesExactly` does the same for a restore, and `EngineRuns.RunAgreesExactly` for runs.
* A restore does not match, so it can cross a book (`CrossingLaws.RestoresCanCross`); `CrossingLaws.RestoreSoundExactly`
  says exactly when it does not, and `CrossingLaws.RunSoundExactly` does so for runs.
* A restart can lose time priority, because the order repository lists open orders in the order of a hash map
  (`ProbeLaws.ReversedListLosesPriority`). `ProbeLaws.RestartKeepsPriorityExactly`: books and all later fills are the same
  exactly when orders of equal price are listed in arrival order.
* Crash safety fails if two partitions share a transaction id (`IngestionLosses.SharedIdLosesMessage`).
  `IngestionLosses.CrashSafetyExactly`: it holds for exactly the sources in which no command shares its id with a valid
  command in another partition.
* The split of profit into realized and unrealized can depend on the order of fills (`PortfolioLaws.SplitDependsOnOrder`).
  `SplitLaws.SplitIsFixedExactly`: it does not exactly when the position ends flat, or all fills are on one side, or all
  fills on the side of the net have one price.
* Reports that tie for the greatest cumulative quantity can leave a status that depends on the delivery
  (`TrackerLaws.TieDependsOnOrder`, and `FinalStatus.UnfilledDependsOnOrder` for an order that never fills).
  `FinalStatus.TieEndsExactly` and `FinalStatus.TieSettlesExactly` say when it does not, for all reports. If the quantity
  is new to the order: exactly when one of the tied reports beats all those with another status, for every timestamp the
  order can have by then. If the order has the quantity already: exactly when none of them changes its status, or one of
  them, which enters from the order's status, is neither outdated nor taken over by any report of another status and
  takes over from each such status that the order can get to.

Second publications are bounded for every source by the messages that the crashes of a run rewind
(`Republications.RepublicationsAreRewound`). If valid commands have ids of their own, there is at most one for
each crash (`IngestionLaws.RepublicationsAreBounded`); commands that share an id can make it more
(`Republications.SharedIdIsPublishedAgain`).

## Model

| member | source | states |
|---|---|---|
| Levels.StoreSplices | src/execution/order_book.cpp:15-83 | Looking a price up cuts the side's flat order list in three, and storing a queue there (erasing the level if empty) replaces the middle part only. |
| Levels.SplicePrices | src/execution/order_book.cpp:15-45 | Those three parts are exactly the strictly better, the equal and the strictly worse prices. |
| Levels.StoreShaped | src/execution/order_book.cpp:47-83 | Storing keeps keys strictly ordered, no level empty, and every order under its own price. |
| OrderBooks.PushRefines | src/execution/order_book.cpp:15-45 | Appending to the queue of an order's price is insertion into the single list by price-time priority. |
| OrderBooks.EditRefines | src/execution/order_book.cpp:47-83 | Replacing or erasing one queue position replaces or removes exactly the order with that id in the single list. |
| OrderBooks.DepthOfLevels | src/execution/order_book.cpp:101-119 | The visible levels are the totals and counts of the price groups of the single list, computed independently by `Depth`. |
| OrderBooks.OrderBook.constructor | include/execution/order_book.hpp:34-34 | A new book is well formed and stands for two empty lists. |
| OrderBooks.OrderBook.AddOrder | src/execution/order_book.cpp:15-45 | Refines insertion into the priority list, refusing exactly the incompatible requests; keeps levels, index, counter and sequence numbers consistent. |
| OrderBooks.OrderBook.IsRequestCompatible | src/execution/order_book.cpp:210-234 | Accepts exactly the requests the list model accepts; the index answers the duplicate-id test of the whole book. |
| OrderBooks.OrderBook.Locate | src/execution/order_book.cpp:121-145 | The index knows an id exactly when it rests, and then leads to the queue and position that hold it. |
| OrderBooks.OrderBook.FindOrder | src/execution/order_book.cpp:121-145 | Finds through the index the order that a scan of both lists finds, or nothing. |
| OrderBooks.OrderBook.CancelOrder | src/execution/order_book.cpp:47-83 | Refines removal of the id from the list, false and unchanged when it does not rest. |
| OrderBooks.OrderBook.ApplyFill | src/execution/order_book.cpp:163-208 | Refines reducing the order in the list, removing it when at most the tolerance is left; refuses tiny, unknown and excessive fills without a change. |
| OrderBooks.OrderBook.BestOrder | src/execution/order_book.cpp:147-161 | Returns the first order of the priority list. |
| OrderBooks.OrderBook.LevelSnapshot | src/execution/order_book.cpp:101-119 | Returns the price groups of the priority list. |
| OrderBooks.OrderBook.BestLevel | src/execution/order_book.cpp:85-99 | Returns the first price group. |
| BookLaws.AddKeepsBook | src/execution/order_book.cpp:15-45 | Every add keeps priority order, distinct ids, remaining above the tolerance and increasing sequence numbers. |
| BookLaws.InsertOrdered | src/execution/order_book.cpp:27-41 | Inserting a newer order into a list in strict price-time priority gives such a list again. |
| BookLaws.CancelIs | src/execution/order_book.cpp:47-83 | A cancel removes exactly one order, the one with the id, from the whole book and keeps the book invariant. |
| BookLaws.FillIs | src/execution/order_book.cpp:163-208 | A fill within the remaining quantity succeeds, touches exactly one position of one side and keeps the book invariant. |
| BookLaws.FillRefuses | src/execution/order_book.cpp:163-208 | A fill succeeds if and only if it exceeds the tolerance and some order with the id rests with that much, up to the tolerance; otherwise the book does not change. |
| BookLaws.DepthLaw | src/execution/order_book.cpp:101-119 | The visible levels of an ordered side are in strict priority, none is empty, and at every price they show exactly the total and the number of the orders at that price. |
| MatchingEngines.MatchingEngine.constructor | include/execution/matching_engine.hpp:49-54 | A new engine has no books, no orders and counters at 1. |
| MatchingEngines.MatchingEngine.ApplyFillToOrder | src/execution/matching_engine.cpp:372-386 | Updates the ledger record as the reference ledger does, snapping to the full quantity within the tolerance. |
| MatchingEngines.MatchingEngine.MatchBest | src/execution/matching_engine.cpp:70-109 | One pass of a matching loop; the book never refuses the fill. |
| MatchingEngines.MatchingEngine.MatchLoop | src/execution/matching_engine.cpp:69-110 | The loop terminates and computes the recursive walk over the priority list: same trades, same fills, same remaining book, same rest. |
| MatchingEngines.MatchingEngine.Submit | src/execution/matching_engine.cpp:16-130 | The new engine state and the returned result are those of the reference submit, for every request. |
| MatchingEngines.MatchingEngine.ProcessMarketEvent | src/execution/matching_engine.cpp:132-227 | The new engine state, fills and updates are those of the reference market event, for every pair of level lists. |
| MatchingEngines.MatchingEngine.AppendUpdates | src/execution/matching_engine.cpp:388-399 | Reports the record of each listed id that is known, in list order. |
| MatchingEngines.MatchingEngine.Cancel | src/execution/matching_engine.cpp:229-282 | Refines the reference cancel in all four outcomes. |
| MatchingEngines.MatchingEngine.RestoreOpenOrder | src/execution/matching_engine.cpp:284-314 | Refines the reference restore, including erasing the record when the book refuses the order. |
| MatchingEngines.PassProgress | src/execution/matching_engine.cpp:70-110 | Each pass removes the resting order or exhausts the taker. |
| EngineLaws.FilledRecordOf | src/execution/matching_engine.cpp:372-386 | Ledger and book apply the tolerance alike: a record closes exactly when its order leaves the book. |
| EngineLaws.ExecutedIsFillable | src/execution/matching_engine.cpp:80-94 | While ledger and books agree, the quantity of every pass is one the book accepts, so a failed fill is unreachable. |
| EngineLaws.MatchAgrees | src/execution/matching_engine.cpp:69-110 | Matching any taker against any side keeps ledger and books in agreement. |
| EngineLaws.MarketEventAgrees | src/execution/matching_engine.cpp:132-227 | A market event keeps ledger and books in agreement and adds or drops no record. |
| ReusedIds.WalkRemoves | src/execution/matching_engine.cpp:70-110 | A walk removes exactly the executable orders whose turn comes with more than the tolerance left and for which that suffices, computed from the quantities ahead. |
| ReusedIds.SubmitAgreesExactly | src/execution/matching_engine.cpp:16-130 | A submit keeps ledger and books in agreement if and only if its id is not an open order or matching consumes that order; then it never reports that the order failed to rest. |
| EngineSteps.SubmitReports | src/execution/matching_engine.cpp:16-130 | A submit starts with an acknowledgement or a rejection, according to the request, and its last update reports the status and filled quantity of the record it leaves, whatever id it uses. |
| SubmitLaws.SubmitRests | src/execution/matching_engine.cpp:96-130 | If more than the tolerance of an accepted order is unfilled, its own side is the old one with exactly that order, holding the unfilled quantity, in its place by price and time, and its record is open; otherwise the side is unchanged and the record is filled. Updates say the same, and no other book changes. |
| SubmitLaws.SubmitRefuses | src/execution/matching_engine.cpp:16-59 | A market order or an order without positive price and quantity is rejected with its reason under fresh ids; no book and no other record changes. |
| SubmitLaws.SubmitFillsMakers | src/execution/matching_engine.cpp:69-110 | Exactly the resting orders met by the fills have their records filled, by what they gave, and closed exactly when they leave the book; every other record is as before. |
| SubmitLaws.RunNumbered | src/execution/matching_engine.cpp:16-130 | In every run of the engine fills are numbered one after the other without a gap, and each submit takes the next order and client number, so no id is given out twice. |
| EngineSteps.CancelAgrees | src/execution/matching_engine.cpp:229-282 | A cancel keeps agreement; it succeeds for every open order, whose id then rests nowhere in its book, and changes nothing for every other id. |
| AnswerLaws.CancelLaw | src/execution/matching_engine.cpp:267-282 | Cancelling an open order takes exactly that order out of its book, closes its record and no other, and reports both steps with the record's client id and filled quantity. |
| AnswerLaws.CancelRefuses | src/execution/matching_engine.cpp:229-265 | Any other id changes nothing; the refusal carries what the record knows, says not cancelable exactly for a known terminal order, and not found otherwise. |
| EngineSteps.RestoreAgreesExactly | src/execution/matching_engine.cpp:284-314 | A restore keeps agreement if and only if its input is refused outright or its id is not an open order. |
| AnswerLaws.RestoreLaw | src/execution/matching_engine.cpp:284-314 | An implausible order is ignored; one that fits its book rests with what is unfilled, in its place by price and time, under an open record; any other loses its record. Nothing else changes. |
| EngineRuns.StepAgreesExactly | src/execution/matching_engine.cpp:16-314 | Each operation keeps agreement if and only if it does not overwrite the record of an order that stays in its book. |
| EngineRuns.RunAgreesExactly | src/execution/matching_engine.cpp:16-314 | Ledger and books agree after every prefix of a run if and only if each of its operations is safe when it is applied. |
| EngineRuns.EveryRunAgrees | src/execution/matching_engine.cpp:16-314 | From the empty engine, restored ids that are unknown and never generated later make every operation safe, so ledger and books agree after every such run. |
| EngineRuns.OpenIffRestsOnce | src/execution/matching_engine.cpp:69-127 | Under agreement a record is open exactly when its id rests, once in all books, in its instrument's book and on its side, with remaining = quantity - filled, and partially filled iff filled > 0. |
| EngineRuns.RestartReusesIds | include/execution/matching_engine.hpp:52-54 | The hypothesis on restored ids is needed: a concrete run that breaks agreement. |
| MatchingLaws.WalkLaw | src/execution/matching_engine.cpp:69-110 | A walk trades in list order, consumes all but the last order fully, leaves exactly the remainder, accounts for the whole quantity, and stops only when it has to. |
| MatchingLaws.SubmitLaw | src/execution/matching_engine.cpp:69-130 | The fills of an accepted submit follow price-time priority at prices within the limit, and stop only when at most the tolerance is left or the next opposing order lies beyond the limit; the record holds what was filled. |
| MatchingLaws.WalkIsBest | src/execution/matching_engine.cpp:70-94 | No allocation of the same total over the same resting orders gives a better bill than the walk. |
| MatchingLaws.SubmitIsBestExecution | src/execution/matching_engine.cpp:69-110 | A buy costs no more, and a sell yields no less, than any allocation of the same total quantity over the opposing orders that rested before the call. |
| CrossingLaws.WalkClears | src/execution/matching_engine.cpp:352-363 | If an incoming order has quantity left, everything left opposite is priced strictly beyond its limit. |
| CrossingLaws.AddSound | src/execution/order_book.cpp:15-45 | Resting an order leaves a book uncrossed if and only if it is refused or lies strictly beyond the opposite side. |
| CrossingLaws.SubmitSound | src/execution/matching_engine.cpp:69-127 | A submit keeps every book well formed and uncrossed. |
| CrossingLaws.RestoreSoundExactly | src/execution/matching_engine.cpp:284-314 | A restore keeps all books uncrossed if and only if it is refused or its price lies beyond the opposite side. |
| CrossingLaws.CrossingRestores | src/execution/matching_engine.cpp:284-314 | Any bid and any ask at no higher price, restored one after the other, leave a crossed book. |
| CrossingLaws.RestoresCanCross | src/execution/matching_engine.cpp:284-314 | A bid at 10 and an ask at 9 do. |
| CrossingLaws.StepSoundExactly | src/execution/matching_engine.cpp:16-314 | An operation keeps all books well formed and uncrossed if and only if it is not a restore that crosses. |
| CrossingLaws.RunSoundExactly | src/execution/matching_engine.cpp:16-314 | All books are uncrossed after every prefix of a run if and only if no restore crosses when it is applied. |
| CrossingLaws.NoBookIsEverCrossed | src/execution/matching_engine.cpp:16-314 | In particular in every run from the empty engine. |
| MarketLaws.LevelLaw | src/execution/matching_engine.cpp:142-214 | The fills of one external level follow priority, take its price, respect each limit within the tolerance, never exceed the level, and stop only when it is used up or the next order does not accept. |
| MarketLaws.LevelStep | src/execution/matching_engine.cpp:142-214 | Matching one more level appends exactly that level's fills and continues from the state before it. |
| EventLaws.EventServes | src/execution/matching_engine.cpp:132-227 | Whatever two lists an event carries, every ask level is offered to the bids and then every bid level to the asks; the fills are exactly those of all levels, in that order, each following priority at the price of its level. |
| EventLaws.NothingLeftToTrade | src/execution/matching_engine.cpp:142-218 | What a level still offers after all levels of its list is accepted by no order left on the side it faced. |
| EventLaws.EventTradesAll | src/execution/matching_engine.cpp:132-227 | After any event no level of either list with more than the tolerance unused is accepted by any order left on the opposing side. |
| MarketLaws.MarketEventAccounts | src/execution/matching_engine.cpp:132-227 | Every record grows by its own fills, exactly while it stays open and within the tolerance when it closes; closed records do not move. |
| MarketLaws.SortUniqueLaw | src/execution/matching_engine.cpp:219-220 | Sorting and deduplicating lists each touched id exactly once. |
| MarketLaws.MarketEventUpdates | src/execution/matching_engine.cpp:132-227 | Exactly the touched orders get exactly one update each, reporting the old filled quantity plus their fills within the tolerance. |
| RestoreLaws.RestoreAllRebuilds | src/app/simulation_runtime.cpp:156-169 | Restoring distinct open records one by one rebuilds exactly their ledger, in agreement with books that hold them in list order of arrival. |
| RestoreLaws.RestoredBooksAreTheSame | src/execution/matching_engine.cpp:284-314 | Restoring all open records, those of equal price in arrival order, gives every side the same ids, prices, remaining quantities and priority. |
| RestoreLaws.WalkAlike | src/execution/matching_engine.cpp:142-214 | External matching depends on id, side, price and remaining quantity only. |
| RestoreLaws.RestoredEngineTradesAlike | src/execution/matching_engine.cpp:132-227 | After such a restore every later sequence of market events fills the same orders at the same prices and quantities. |
| MirrorLaws.RestoredEngineReportsAlike | src/execution/matching_engine.cpp:388-399 | And it reports identical updates: order and client ids, statuses and filled quantities. |
| ProbeLaws.ProbeShows | src/execution/matching_engine.cpp:142-214 | One external level that a whole side accepts, and that exceeds it, fills its orders in exactly their priority order. |
| ProbeLaws.RestartKeepsPriorityExactly | src/app/simulation_runtime.cpp:156-169 | For any listing of the open records: all later market events fill alike if and only if orders of equal price are listed in arrival order, and so if and only if all books look alike. |
| ProbeLaws.SwappedListLosesPriority | src/app/simulation_runtime.cpp:156-169 | Any two listings of the same records that order two of equal price differently give engines that trade differently in some event. |
| ProbeLaws.ReversedListLosesPriority | src/app/simulation_runtime.cpp:156-169 | The smallest case: two orders at one price, restored in the other order. |
| Portfolios.PortfolioService.ApplyFill | src/portfolio/portfolio_service.cpp:9-18 | Positions and balances become those after the fill. |
| Portfolios.PortfolioService.ApplyFillToPosition | src/portfolio/portfolio_service.cpp:101-131 | The open, increase, reduce, close and flip branches compute the reference trade, marked at the mark or the fill price. |
| Portfolios.PortfolioService.ApplyFillToBalances | src/portfolio/portfolio_service.cpp:134-152 | Base is credited with the signed quantity, quote with the proceeds less the fee, also when they are the same asset. |
| Portfolios.PortfolioService.HandleFills | src/app/simulation_runtime.cpp:103-112 | The loop over fills applies them all in order. |
| Portfolios.PortfolioService.SetMarkPrice | src/portfolio/portfolio_service.cpp:43-48 | Stores the mark and revalues that position only. |
| PortfolioLaws.TradeWorth | src/portfolio/portfolio_service.cpp:101-124 | In every branch, realized profit minus net times average moves by exactly the signed cash of the fill. |
| PortfolioLaws.TradeMoves | src/portfolio/portfolio_service.cpp:101-124 | Adding realizes nothing, reducing keeps the average, closing leaves none and a flip starts over at the price; with TradeWorth this fixes the whole position. |
| PortfolioLaws.PositionAddsUp | src/portfolio/portfolio_service.cpp:101-124 | Over all fill sequences, net is the sum of signed fills and realized minus cost of the open quantity is their cash flow. |
| MarkLaws.TotalThroughout | src/portfolio/portfolio_service.cpp:43-48 | At every moment of every interleaving of fills and marks, realized plus unrealized equals cash flow plus net times the last mark, or the last fill price before any mark. |
| MarkLaws.TotalIgnoresInterleaving | src/portfolio/portfolio_service.cpp:91-131 | So histories with the same multiset of fills and the same last price have the same total and the same net quantity. |
| PortfolioLaws.SplitDependsOnOrder | src/portfolio/portfolio_service.cpp:101-124 | Two orders of the same fills with different realized profit. |
| SplitLaws.SplitIsFixedExactly | src/portfolio/portfolio_service.cpp:101-124 | For positive fills, every order realizes the same profit if and only if the position ends flat, or all fills are on one side, or all on the side of the net have one price. |
| PortfolioLaws.BalancesMatchPositions | src/portfolio/portfolio_service.cpp:134-152 | For fills with consistent metadata every asset's balance, all of it available, is the net quantity where it is base plus realized minus cost of open quantity minus fees where it is quote. |
| PortfolioLaws.AllAvailable | src/portfolio/portfolio_service.cpp:134-152 | After every sequence of fills all of every balance is available, if that was so before. |
| PortfolioLaws.AverageWithinEntries | src/portfolio/portfolio_service.cpp:101-124 | While a position is open its average lies within every bound on the prices that entered it since it was opened or flipped. |
| TrackerLaws.RegisteredConverges | src/execution/live_execution_tracker.cpp:7-18 | A newly registered order ends any delivery of new reports with the greatest quantity reported, or 0, and its fills add up to that, whatever was filed under its id before. |
| TrackerLaws.RestoredConverges | src/execution/live_execution_tracker.cpp:20-39 | An order restored from its record converges from the quantity on record, and only what is new is emitted as fills. |
| Trackers.LiveExecutionTracker.ApplyReport | src/execution/live_execution_tracker.cpp:41-96 | The new state and result are those of the reference report, for every report. |
| ReportLaws.ReportLaw | src/execution/live_execution_tracker.cpp:41-190 | Every report about a known order: dropped as duplicate or stale, applied with one fill of the difference, or, at the quantity held, applied exactly when the status is in a listed successor table; with the order, the update, the fill and the fill counter that result, and no other order changed. |
| ReportLaws.UnknownOrder | src/execution/live_execution_tracker.cpp:41-53 | A report about an unknown order changes no order and is stale, or a duplicate if its id was seen. |
| ReportLaws.RestoredReadsBack | src/execution/live_execution_tracker.cpp:20-39 | An order restored from a record reads back as that record. |
| ReportLaws.RegisteredReadsBack | src/execution/live_execution_tracker.cpp:7-18 | A registered order reads back as submitted, pending and unfilled. |
| Trackers.LiveExecutionTracker.GetOrder | src/execution/live_execution_tracker.cpp:108-126 | Returns the record of a known order, and nothing for an unknown one. |
| Trackers.LiveExecutionTracker.Reconcile | src/execution/live_execution_tracker.cpp:98-106 | Applies all reports in order and returns their results. |
| TrackerLaws.RunLaw | src/execution/live_execution_tracker.cpp:56-95 | Over every run, filled quantity and timestamp never decrease, and fills are positive and sum to what the filled quantity gained. |
| TrackerLaws.TerminalIsLeftByFillsOnly | src/execution/live_execution_tracker.cpp:135-154 | A terminal order keeps status and quantity through every run without a strictly greater cumulative report. |
| TrackerLaws.StepLaw | src/execution/live_execution_tracker.cpp:41-190 | One report moves only its own order, and leaves a terminal status only with a strictly greater cumulative quantity. |
| TrackerLaws.FilledAfter | src/execution/live_execution_tracker.cpp:41-96 | A report that is not a duplicate takes the maximum of filled and cumulative quantity, whether stale or applied. |
| TrackerLaws.FilledConverges | src/execution/live_execution_tracker.cpp:98-106 | Any two deliveries of the same reports, in any order with any repetitions, end with the same filled quantity: the greatest reported or the initial. |
| TrackerLaws.GreatestIs | src/execution/live_execution_tracker.cpp:135-154 | That quantity is an upper bound of the initial and all reported quantities, and is one of them. |
| TrackerLaws.TopStatusWins | src/execution/live_execution_tracker.cpp:135-190 | A report with strictly the greatest cumulative quantity above the initial decides the final status in every delivery. |
| TrackerLaws.TieDependsOnOrder | src/execution/live_execution_tracker.cpp:135-190 | Strictness is needed: a fill and a cancellation with equal quantity leave whichever arrives first. |
| FinalStatus.UnfilledDependsOnOrder | src/execution/live_execution_tracker.cpp:135-190 | Nor is a fill needed: of a cancellation and a rejection of a newly registered order, whichever arrives first stays. |
| FinalStatus.TieOfTwo | src/execution/live_execution_tracker.cpp:41-96 | For any two reports of equal quantity, whatever the order has, the order of arrival does not matter if and only if they commute: both too small; or both set the status and agree or exactly one takes over; or one alone sets it and the other neither outdates it nor takes over, or does both with the order's own status; or neither changes it. |
| HigherTies.HigherEndsExactly | src/execution/live_execution_tracker.cpp:98-190 | If the greatest quantity is new to the order, every delivery ends with a given status if and only if, for each timestamp the order can have when the first top report arrives, some top report of that status beats all top reports of another. |
| HeldTies.TwoStepsSuffice | src/execution/live_execution_tracker.cpp:156-190 | Whatever status tied reports can lead an order to, they lead it there in one or two steps. |
| HeldTies.HeldEndsExactly | src/execution/live_execution_tracker.cpp:98-190 | If no report exceeds what the order has, every delivery ends with a given status if and only if a tied report of that status prevails over all of another, or no tied report changes the status that the order has. |
| FinalStatus.TieEndsExactly | src/execution/live_execution_tracker.cpp:98-190 | Every delivery of any reports, in any order and with any repetitions, ends with a given status if and only if the not yet processed ones of the greatest quantity decide for it in one of these two ways. |
| FinalStatus.TieSettlesExactly | src/execution/live_execution_tracker.cpp:98-190 | So the final status is independent of the delivery if and only if they decide for some status. |
| IngestionService.SetStatusAt | src/storage/storage_interfaces.cpp:18-35 | Setting a status updates the first record with the id and nothing else, or appends a record when there is none. |
| IngestionLaws.SaveReceivedKeeps | src/storage/storage_interfaces.cpp:6-15 | Appending the receipt keeps the protocol invariant; in particular, of the records with one id in one partition the first still has the least offset. |
| IngestionService.TransactionRepository.SaveProcessed | src/storage/storage_interfaces.cpp:18-35 | The scanning loop sets the status of the first record with the id, or appends the fallback record. |
| IngestionService.KafkaTransactionConsumer.Poll | src/infrastructure/kafka_transaction_consumer.cpp:112-133 | Terminates; every message passed over is committed as a protocol step, and the result is the next command or proof that all partitions are exhausted. |
| IngestionService.TransactionIngestor.ProcessNext | src/ingestion/transaction_ingestor.cpp:6-71 | Its effects are, one by one and in order, steps of the protocol without a crash; a valid command is published once, an invalid one recorded as rejected. |
| IngestionService.TransactionIngestor.Restart | src/app/recovery_service.cpp:21-94 | Subscribing, recovering and seeking is the protocol's crash step when there are no stored checkpoints; stored ones alone decide for their partitions. Nothing else changes. |
| IngestionService.RestartApplies | src/app/recovery_service.cpp:21-47 | In every run, for every source, the processed records name partitions that exist, as the crash step needs. |
| IngestionService.Recover | src/app/recovery_service.cpp:21-47 | Stored checkpoints win; otherwise exactly one checkpoint for each partition with a processed record, its greatest processed offset. |
| IngestionService.ResumeKafka | src/app/recovery_service.cpp:90-94 | Each checkpointed partition resumes one past its last checkpoint in the list; no other moves. |
| IngestionLaws.SetStatusLaw | src/storage/storage_interfaces.cpp:18-35 | For every id: one record changes, the first with the id or a new one; every other record stays, no place in Kafka is lost, and the first record of every other id is the same. |
| IngestionLaws.CheckpointLaw | src/app/recovery_service.cpp:21-47 | The scan finds the greatest offset among the processed records of a partition, and nothing exactly when there is none. |
| IngestionLaws.ResumeIsSafe | src/app/recovery_service.cpp:90-94 | Everything before the resume point was handled, and all processed records lie before it. |
| IngestionLaws.StepKeeps | src/ingestion/transaction_ingestor.cpp:6-71 | Every step and every crash keeps the protocol invariant if no valid command shares its id with another partition. |
| IngestionLaws.ResumeSkipsNothing | src/app/recovery_service.cpp:21-47 | For such sources, in every run with any crashes, the resume offset skips no message that was not published, rejected or unparsable. |
| DeliveryLaws.DeliversExactlyOnce | src/ingestion/transaction_ingestor.cpp:6-71 | Between two messages of any run without a crash, for every source: exactly the valid commands before the committed offsets were published, each once and by offset; exactly the invalid ones were rejected; each has one record under its id, and its end is on record; position and committed offset are equal. |
| DeliveryLaws.RecordsAreTruthful | src/storage/storage_interfaces.cpp:6-35 | In every run of every source, with any crashes, a record says processed only of an id that was published and rejected only of one that was rejected. |
| DeliveryLaws.RestartKeepsProgress | src/app/recovery_service.cpp:21-94 | A restart after such a run goes on where it was in every partition whose commands share no id with anything published. |
| IngestionLosses.SharingLosesMessage | src/app/recovery_service.cpp:21-47 | For every other source some run, with one crash, skips a message that was never handled. |
| IngestionLosses.CrashSafetyExactly | src/app/recovery_service.cpp:21-94 | Ingestion is crash safe if and only if no command shares its id with a valid command in another partition. |
| IngestionLaws.RepublicationsAreBounded | src/ingestion/transaction_ingestor.cpp:50-63 | If the ids of valid commands are their own, publications in every run are at most the distinct messages published plus the number of crashes. |
| Republications.RepublicationsAreRewound | src/ingestion/transaction_ingestor.cpp:6-71 | In every run of every source, publications are at most the distinct messages published plus, for each crash, the published messages that ingestion had passed and that lie at or behind the offset at which it resumes. |
| Republications.SharedIdIsPublishedAgain | src/storage/storage_interfaces.cpp:18-35 | Own ids are needed for a bound of one per crash: three valid commands with one id are published five times with one crash. |
| IngestionLosses.SharedIdLosesMessage | src/storage/storage_interfaces.cpp:18-35 | A concrete source of two commands that is not crash safe. |
| Text.CheckpointKeysDiffer | src/app/recovery_service.cpp:9-11 | The checkpoint key determines topic and partition, even if topics contain the separator. |
| Text.SplitJoin | src/storage/replay_service.cpp:16-24 | Splitting undoes joining, with empty middle fields, when the last field is not empty. |
| Text.SplitText | src/storage/replay_service.cpp:16-24 | The line-splitting loop computes the recursive split. |
| Text.ReadShowInt | src/storage/replay_service.cpp:173-253 | Reading a printed integer within range gives it back. |
| Text.ReadIntText | src/storage/replay_service.cpp:173-253 | Reading an integer skips leading space, takes an optional sign and all digits that follow, ignores the rest, and fails when out of range. |
| KafkaCodec.ParseKeyValuePayload | src/infrastructure/kafka_transaction_consumer.cpp:16-37 | The loop builds the field map of the split payload, later keys winning. |
| KafkaCodec.SerializeIsJoin | src/infrastructure/kafka_transaction_producer.cpp:42-56 | The payload is the key-value tokens joined by semicolons. |
| KafkaCodec.RoundTripExactly | src/infrastructure/kafka_transaction_consumer.cpp:141-182 | For numbers that print exactly, parsing a serialized command gives it back, with its place taken from the message, if and only if no string contains a semicolon. |
| KafkaCodec.ParsedPlace | src/infrastructure/kafka_transaction_consumer.cpp:160-171 | Whatever the payload, topic, partition and offset come from the message. |
| KafkaCodec.ParsesExactly | src/infrastructure/kafka_transaction_consumer.cpp:141-182 | For any payload, the consumer reads a command if and only if all six keys have that command's values, the quantity reads, and the price is absent, empty or readable. |
| KafkaSource.SomeSourceReads | src/infrastructure/kafka_transaction_consumer.cpp:112-182 | Every raw log, of whatever payloads, is read as some source of the protocol, message by message. |
| KafkaSource.ReadsProduced | src/infrastructure/kafka_transaction_consumer.cpp:112-182 | Of published commands that survive their text, ingestion sees exactly those of its topic, with their fields, and finds valid exactly the complete ones. |
| KafkaSource.ProducedIsCrashSafeExactly | src/ingestion/transaction_ingestor.cpp:6-87 | From producer to recovery: publishing such commands is crash safe if and only if no transaction id of a complete command occurs in two partitions of the topic. |
| ReplayLog.EncodeBookLevels | src/storage/replay_service.cpp:41-51 | The encoding loop joins price:quantity pairs by commas. |
| ReplayLog.DecodeBookLevels | src/storage/replay_service.cpp:54-75 | The decoding loop reads the pairs back, failing as a whole on unreadable numbers. |
| ReplayLog.LevelsRoundTrip | src/storage/replay_service.cpp:41-75 | Decoding undoes encoding for every list of levels, empty included, and the text has no tab or newline. |
| ReplayLog.EventRoundTrip | src/storage/replay_service.cpp:119-253 | Deserializing a serialized event gives it back, for all three kinds of events, and the event is one line. |
| ReplayLog.ReadIsClean | src/storage/replay_service.cpp:173-253 | No line yields an event with a tab or newline in a string. |
| ReplayLog.ReadsExactly | src/storage/replay_service.cpp:173-253 | For any line, replay delivers an event if and only if the fields of the line spell that event, old lines without book levels included. |
| ReplayLog.Replay | src/storage/replay_service.cpp:97-116 | Delivers the readable lines in order; total is replayed plus skipped. |
| ReplayLog.ReplayRoundTripExactly | src/storage/replay_service.cpp:87-116 | Appending any events and replaying delivers the same events with none skipped if and only if no string contains a tab or newline. |

## Left out

- IEEE rounding, NaN and number formatting: reals are exact and number text is a parameter.
- EngineRuns.EveryRunAgrees: assumes that restored ids are unknown and never generated later, as a caller can arrange; `EngineRuns.RunAgreesExactly` gives the exact condition.
- RestoreLaws.RestoredBooksAreTheSame: takes the arrival order of equal prices as a hypothesis; `ProbeLaws.RestartKeepsPriorityExactly` shows that it is needed.
- RestoreLaws.RestoredEngineTradesAlike: compares order id, side, price and quantity of fills; fill ids follow the new engine's counter, and a restored order carries no asset names, so a fill may name the event's instrument instead.
- IngestionService.TransactionIngestor.Restart: ties only a restart without stored checkpoints to the protocol; nothing in the ingestion path stores one.
- IngestionLaws.ResumeSkipsNothing: assumes no stored checkpoints and that a failing persistence call ends the process.
- IngestionLaws.RepublicationsAreBounded: assumes that valid commands have transaction ids of their own; invalid ones may share theirs. `Republications.RepublicationsAreRewound` assumes nothing.
- FinalStatus.TieEndsExactly: assumes that a non-empty report id stands for one report.
- Filing a stored checkpoint (`save_checkpoint`), the transaction and market caches, latency and counter metrics: they do not feed back into what is modelled.
- Restoring positions, balances and market snapshots on recovery, and the order, position and balance repositories: plain copying.
- libpq, hiredis and librdkafka, including what a failing seek or commit does; the Kafka client here reads, commits and seeks positions.
- File handling of the replay log: the log is its text.
- The order repository does not learn of makers hit by a local taker, position limits are not enforced across orders, and the tracker does not cap fills at the order quantity: the program provides none of these, so none is claimed.
- `EngineController`, `EventDispatcher`, strategies, `RiskEngine`, `MarketStateStore`, `SimulatedExecutionEngine`, configuration, logging, health, feed controllers, the JSON reader and the mock adapter: easy or without a counterpart to relate them to.
- Overflow of counters and of the order count: they are unbounded here.
