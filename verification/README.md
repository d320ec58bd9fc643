# EXG verification model

EXG is an event-sourced exchange. One thread matches orders, writes events to a write-ahead log, and rebuilds its
state from that log at boot. This project models the exchange's core in Dafny and proves what its design relies on.

A decimal is its raw value, the real value times 10^18, as an integer; multiplication and division truncate toward
zero. Word sizes are explicit where they decide something: in the decimal arithmetic, the log encoding and the ring
buffer. Hash-map iteration is any order. A clock reading, a checksum function, an event encoding and a read callback
are parameters. The three kinds of idempotency keys are a datatype, because their text formats have disjoint prefixes.

Code that changes state in place is a class whose methods are proved against a specification: a function of the state
before. The theorems are about those functions, over every state, run or interleaving.

## Parts

- Order book and matching. `OrderBook.dfy` has the book with its redundant indexes, proved to be determined by one
  list of orders in arrival order. `Priority.dfy` flattens a side by price and arrival; `Matcher.dfy` proves the
  two-level matching loops equal to a walk over that list; `MatchTheorems.dfy` says what such a walk achieves, and
  `Reach.dfy` what of it can be read off the book before.
- Engine. `EngineSpec.dfy` is one step, and one replayed event, as functions; `Engine.dfy` the engine as a class.
  `Placing.dfy` says what becomes of an order, `FillLegs.dfy` whose every fill is, `StopPrices.dfy` and
  `TrailingStops.dfy` which mark fires which stop. `EngineInvariants.dfy`, `Uncrossed.dfy`, `Triggers.dfy`, `Marks.dfy`
  and `FillFlows.dfy` prove more of every run. `TakerReplay.dfy`, `FiredReplay.dfy`, `EngineReplay.dfy` and
  `StopReplay.dfy` relate replay to the live engine, for takers, for triggered stops, for whole runs, and for stop
  orders over any run; `ReplayGaps.dfy` and `ReplayExamples.dfy` have commands and runs on which the two part.
- Ledger. `LedgerSpec.dfy` is every operation as a function, `Ledger.dfy` the class. `LedgerLaws.dfy`,
  `Conservation.dfy`, `Solvency.dfy`, `Journal.dfy` and `LedgerChecks.dfy` prove what operations are worth, what runs of
  them keep, and exactly when not, with runs that show it in `LedgerExamples.dfy`.
- Post-trade. `Positions.dfy`, `PostTradeSpec.dfy` and `PostTrade.dfy` model positions and settlement; `Profit.dfy` says
  what a list of fills earns, `PostTradeReplay.dfy` proves replay equal to live, `FundingTick.dfy` the rounding bound
  and order independence, `OpenInterest.dfy` that positions net to zero.
- `Exchange.dfy` runs engine, post-trade and log together, and boots both from the log.
- Log. `WalSegment.dfy`, `WalLog.dfy`, `WalFiles.dfy`, `WalWriter.dfy` and `WalReader.dfy` model records, segments,
  recovery, appending and reading, `Boot.dfy` the boot sequence after a crash. A crash leaves the earlier files whole
  and the last one cut at any byte.
- Ring buffer. `RingProtocol.dfy` interleaves the steps of producer and consumer, byte by byte; `RingBuffer.dfy` has
  the operations as one thread runs them.
- Arithmetic. `Decimal.dfy`, `DecimalText.dfy`, `DecimalReading.dfy` and `Margin.dfy`, over `Bits.dfy` and `Bytes.dfy`.

## Where the code falls short of its promises

- The engine's replay refuses some of its own logs, because every taker leg carries the final remainder
  (crates/exg-matching-engine/src/engine.rs:400-412): `ReplayExamples.ReplayCanFail`. `EngineReplay.BootReplaysRun`
  gives the exact condition.
- An amend that shrinks its order or changes nothing is logged as the acceptance of an order that is on the book
  (crates/exg-matching-engine/src/engine.rs:663-715), which replay refuses as a duplicate
  (crates/exg-matching-engine/src/replay.rs:54-56): an ordinary size decrease makes the log unbootable.
  `EngineReplay.InPlaceRefused`, `ReplayExamples.ShrinkRefused`.
- A stop that fires and does not trade leaves no event (crates/exg-matching-engine/src/engine.rs:815-829), so replay
  keeps it: `ReplayExamples.UnfilledStopStays`. `StopReplay.MarkStopsAgree` says exactly when the stops agree, from the
  book.
- A stop with an expiry time is listed for expiry by replay from its acceptance on
  (crates/exg-matching-engine/src/replay.rs:102-112), and by the live engine never:
  `ReplayExamples.GtdStopListedOnReplay`. `EngineReplay.BootReplaysRun` says exactly when the expiry heaps agree on the
  orders held.
- A triggered stop with a limit rests whatever its time in force, an immediate-or-cancel one included
  (crates/exg-matching-engine/src/engine.rs:815-829): `Placing.FiredOutcome` says exactly when.
- An iceberg's next slice (crates/exg-matching-engine/src/engine.rs:431-441) is lost on replay:
  `ReplayGaps.NextSliceLost`.
- An iceberg refill can rest across the spread: `Uncrossed.IcebergCrosses`; `Uncrossed.StepCrossesIff` says exactly
  when, from the book before the command.
- A futures wallet whose available balance is negative pays funding partly without a journal line
  (crates/exg-ledger/src/operations.rs:895-913): `Journal.LeakReached`; `JournalDeterminesUsers` says exactly when the
  journal is complete.
- `verify_global_invariant` does not know the profit and loss that closes journal against escrow without moving it:
  `LedgerExamples.CheckFailsSolvent`; `LedgerChecks.CheckPassesIff` says exactly when it passes.
- Closes can drive available below zero: `LedgerExamples.LossOverdraws`; `Solvency.StepSolvent` says exactly when.
- The recovered funding period can be below the live one, although a comment says it is restored exactly
  (crates/exg-clearing/src/post_trade.rs:324-335): `PostTradeReplay.PeriodCanLag`; `PeriodRestoredIff` says exactly
  when it is not, and `TickPeriodIff` which ticks cause it. No key can collide even so: `PostTradeReplayEqualsLive`
  covers runs with restarts and lost log tails.
- `try_push_batch` returns an error instead of a count when a later message is too large
  (crates/exg-ringbuffer/src/buffer.rs:202-212): `RingBuffers.LostCount`; `TryPushBatch` says exactly when.
- The parser accepts a sign inside the fraction (crates/exg-common/src/decimal.rs:439-459), which then counts for a
  tenth: `DecimalReading.SignInFraction`; `ReadAsWrittenIff` says exactly which accepted texts are read as written, and
  `AcceptedIff` which are accepted. Nothing after the eighteenth place is looked at, digit or not: `TailIsIgnored`,
  `LettersAfterPlaces`.

## Model

| member | source | states |
|---|---|---|
| OrderBooks.OrderBook.InsertOrder | crates/exg-matching-engine/src/orderbook.rs:72-105 | The order is appended to the arrival list; all four indexes (levels of both sides, order table, user lists) stay what that list determines. |
| OrderBooks.OrderBook.RemoveOrder | crates/exg-matching-engine/src/orderbook.rs:108-143 | Returns the order if it is there and removes exactly it, with its level or user list dropped when it empties. |
| OrderBooks.OrderBook.CancelAllUserOrders | crates/exg-matching-engine/src/orderbook.rs:164-199 | Removes and returns exactly the user's orders, in arrival order, and nothing else. |
| OrderBooks.OrderBook.UpdateQty | crates/exg-matching-engine/src/orderbook.rs:230-249 | Changes one order's remaining quantity, and its level total by the same difference. |
| OrderBooks.OrderBook.GetOrder | crates/exg-matching-engine/src/orderbook.rs:146-148 | The order with that id in the arrival list, if any. |
| OrderBooks.OrderBook.GetUserOrders | crates/exg-matching-engine/src/orderbook.rs:156-161 | The ids of the user's orders, in arrival order. |
| OrderBooks.OrderBook.BestPrice | crates/exg-matching-engine/src/orderbook.rs:202-209 | The price that precedes every other price of its side, if the side is not empty. |
| OrderBooks.OrderBook.AvailableQtyAtPrice | crates/exg-matching-engine/src/orderbook.rs:279-304 | The sum of the remaining quantity of every opposite order within the limit, though computed from level totals up to the first level beyond it. |
| OrderBooks.OrderBook.TotalOppositeQty | crates/exg-matching-engine/src/orderbook.rs:307-312 | The sum of the remaining quantity of every opposite order. |
| OrderBooks.IndexesDetermined | crates/exg-matching-engine/src/orderbook.rs:47-69 | Two books with the same arrival list have the same levels, order table and user lists: the indexes carry no information of their own. |
| OrderBooks.LevelsRemove | crates/exg-matching-engine/src/orderbook.rs:108-143 | Removing an order from its level leaves every level what the shortened arrival list determines, including the level that disappears. |
| OrderBooks.LevelsSetQty | crates/exg-matching-engine/src/orderbook.rs:230-249 | Resizing an order leaves every level what the changed arrival list determines. |
| OrderBooks.ReachableByLevels | crates/exg-matching-engine/src/orderbook.rs:279-304 | Stopping at the first level out of reach loses nothing: the totals of the levels visited are the per-order sum over all reachable orders. |
| EngineInvariants.EachOrderOnce | crates/exg-matching-engine/src/orderbook.rs:72-143 | Each live order is once in the one level of its side and price and in no other, and once in its owner's list and in no other. |
| EngineInvariants.LevelsAndListsExact | crates/exg-matching-engine/src/orderbook.rs:72-249 | No level or user list is empty, each lists live orders of its own side, price or user only, and each level total is the positive sum of its orders' remaining. |
| Priority.QueueSorted | crates/exg-matching-engine/src/orderbook.rs:263-271 | Flattened by insertion, a side is in price-then-arrival order and has exactly that side's orders. |
| Priority.QueueByPrice | crates/exg-matching-engine/src/orderbook.rs:263-271 | Walking levels in price order and each level front to back visits that same queue. |
| Matcher.MatchLevel | crates/exg-matching-engine/src/matcher.rs:94-150 | The inner loop over one level performs the next part of the walk over the flat queue and leaves the rest of the walk to the levels after it. |
| Matcher.MatchAgainst | crates/exg-matching-engine/src/matcher.rs:94-207 | Both nested loops together produce exactly the walk over the flat opposite queue, and change the book by exactly its fills. |
| Matcher.MatchOrder | crates/exg-matching-engine/src/matcher.rs:37-91 | Post-only, fill-or-kill and plain orders come out as the specification says: fills, taker, rejection and book. |
| MatchTheorems.WalkShape | crates/exg-matching-engine/src/matcher.rs:94-207 | The fills are a prefix of the crossing makers in order, each positive, at the maker's price and at most its quantity; every one but the last is consumed whole; the walk ends with the taker empty or no crossing maker left. |
| MatchTheorems.MatchRefinesQueue | crates/exg-matching-engine/src/matcher.rs:94-207 | The book after matching is the queue with those makers taken off its front; taker decrease, fill total and maker decrease are equal; a taker with something left crosses nobody. |
| MatchTheorems.FokAllOrNothing | crates/exg-matching-engine/src/matcher.rs:51-73 | Fill-or-kill is rejected exactly when the reachable quantity is too small, and then changes nothing; otherwise it ends with nothing remaining. Limit and market alike. |
| MatchTheorems.PostOnlyNeverTakes | crates/exg-matching-engine/src/matcher.rs:40-50 | Post-only never fills or changes the book, and is rejected exactly when some opposite order would cross it. |
| MatchTheorems.MatchKeeps | crates/exg-matching-engine/src/matcher.rs:37-207 | Ids stay distinct and quantities positive, and orders change only in quantity. |
| Engine.MatchingEngine.ProcessCommand | crates/exg-matching-engine/src/engine.rs:63-135 | One command does to the state, and emits, exactly what the step specification says; the sequence number advances by one. |
| Engine.MatchingEngine.HandleNewOrder | crates/exg-matching-engine/src/engine.rs:142-349 | Validation order, rejections, parking of conditional orders, matching and resting of a new order. |
| Engine.MatchingEngine.PlaceOrder | crates/exg-matching-engine/src/engine.rs:351-490 | Match, emit, then cancel, refill or rest what is left. |
| Engine.MatchingEngine.EmitFillEvents | crates/exg-matching-engine/src/engine.rs:967-1049 | Three events a fill: maker leg, taker leg, trade, with the remaining quantities recorded for each. |
| FillLegs.StepLegs | crates/exg-matching-engine/src/engine.rs:967-1049 | Every leg any command emits names an order held before it, or the command's own, and is booked to that order's owner on its side; a maker's at the price it rests at, a taker's within its limit; and the legs come in threes with the trade between their buyer and seller. |
| FillLegs.StepMovesPositions | crates/exg-clearing/src/post_trade.rs:412-471 | So every user's position moves by exactly the fills of his own orders, each signed by its order's side. |
| Placing.RefusedOutcome | crates/exg-matching-engine/src/engine.rs:142-430 | A new order is refused exactly when, and for the reason that, its own fields and the book say: no quantity, an id on the book, no price, too small a slice, post-only that would take, fill-or-kill that cannot; and then nothing changes. |
| Placing.WaitingOutcome | crates/exg-matching-engine/src/engine.rs:280-349 | A conditional order waits as it came, a trailing one with its peak at the mark of that moment. |
| Placing.ArrivalOutcome | crates/exg-matching-engine/src/engine.rs:351-490 | Any other order takes what the book offers within its limit, up to what it shows. It rests exactly when something is left, it is a limit or iceberg order, and it is Gtc, Gtd or post-only; else the last event cancels exactly what is left. An iceberg shows its next slice, and slice and hidden part are what is unfilled. |
| Placing.NeverRests | crates/exg-matching-engine/src/engine.rs:443-480 | Immediate-or-cancel, fill-or-kill and market orders never rest. |
| Placing.FiredOutcome | crates/exg-matching-engine/src/engine.rs:791-833 | A fired stop takes what is offered and rests exactly when it has a limit, is not blocked and something is left, whatever its time in force; a market one's remainder is dropped. |
| Placing.AmendedOutcome | crates/exg-matching-engine/src/engine.rs:581-661 | An amended order is matched again at its new price and size and rests with what is left behind all others, or is gone if it is blocked. |
| Placing.InPlaceOutcome | crates/exg-matching-engine/src/engine.rs:663-715 | An amend that only shrinks, or changes nothing, leaves every order its place in every level and changes the one quantity. |
| Placing.CancelOutcome | crates/exg-matching-engine/src/engine.rs:492-546 | A cancel by the owner takes off exactly the order and reports what was left of it; any other takes nothing. |
| Placing.CancelAllOutcome | crates/exg-matching-engine/src/engine.rs:719-757 | A cancel-all takes off exactly the user's orders, on the book in any symbol and waiting in the one named, and reports each with what was left of it. |
| Engine.MatchingEngine.HandleCancelOrder | crates/exg-matching-engine/src/engine.rs:492-546 | Cancel by owner on the book or among stops; a wrong owner on the book re-queues the order at the back of its level. |
| Engine.MatchingEngine.HandleAmendOrder | crates/exg-matching-engine/src/engine.rs:549-717 | A pure decrease keeps priority; anything else is cancel and replace with the same id. |
| Engine.MatchingEngine.HandleCancelAll | crates/exg-matching-engine/src/engine.rs:719-757 | All of a user's resting orders, then the stop sweep. |
| Engine.MatchingEngine.SweepStops | crates/exg-matching-engine/src/engine.rs:913-964 | The swap-remove loop keeps and takes what the sweep specification says, in its order. |
| Engine.MatchingEngine.UpdateTrailingPeaks | crates/exg-matching-engine/src/engine.rs:889-910 | Each trailing order's peak moves to the mark if that is more extreme; other stops are untouched. |
| Engine.MatchingEngine.TriggerAndMatchStops | crates/exg-matching-engine/src/engine.rs:791-833 | The swept orders are promoted and matched one after the other. |
| EngineInvariants.FundingUpdate | crates/exg-matching-engine/src/engine.rs:838-851 | The funding command changes the rate alone and announces it: within its bounds, the nearest to premium plus interest, the premium exact to a raw unit, or to the interest alone for a zero index; and a higher mark never lowers it. |
| EngineInvariants.StepSound | crates/exg-matching-engine/src/engine.rs:63-135 | Every command with a fresh id keeps: distinct positive orders of plain limit types on the book, stops apart from it and conditional. |
| EngineInvariants.RunSound | crates/exg-matching-engine/src/engine.rs:63-135 | So does every run. |
| Uncrossed.StepUncrossed | crates/exg-matching-engine/src/engine.rs:142-833 | No command but an iceberg order leaves a resting bid at or above a resting ask: through amends, triggered stop-limits and failed cancels. |
| Uncrossed.RunUncrossed | crates/exg-matching-engine/src/engine.rs:142-833 | After every run without iceberg orders the book is neither crossed nor locked. |
| Uncrossed.BestBidBelowBestAsk | crates/exg-matching-engine/src/orderbook.rs:202-209 | On such a book, the best bid is below the best ask whenever both exist. |
| Uncrossed.ArrivalCrossesIff | crates/exg-matching-engine/src/engine.rs:362-490 | Judged by the book before it: placing an order crosses the book exactly when it is a resting iceberg (Gtc or Gtd) with a hidden part, and more than its visible slice can be reached at its limit. |
| Uncrossed.StepCrossesIff | crates/exg-matching-engine/src/engine.rs:63-135 | The same for every command: none crosses the book but a new order that passes the checks and is of that kind. |
| Uncrossed.LeftInReach | crates/exg-matching-engine/src/matcher.rs:94-207 | After matching, an order the taker could trade with is left exactly when its limit reached further than its size. |
| Uncrossed.RestReachable | crates/exg-matching-engine/src/matcher.rs:94-207 | What a taker leaves within reach is what was within reach less its fills. |
| Uncrossed.IcebergCrosses | crates/exg-matching-engine/src/engine.rs:431-441 | Two commands from the empty engine after which the book is crossed. |
| Triggers.SweepSplits | crates/exg-matching-engine/src/engine.rs:913-964 | The swap-remove sweep splits the stops exactly by the condition: nothing lost, nothing doubled, no kept stop satisfies it. |
| TrailingStops.MarkSweepComplete | crates/exg-matching-engine/src/engine.rs:771-833 | After a mark update no stop is left whose condition is true, and each taken one's was. |
| StopPrices.MarkReaches | crates/exg-matching-engine/src/engine.rs:913-940 | After a mark no stop or take-profit waits whose price it reached, each in its own direction by type and side, and every one whose price it did not reach still waits. |
| StopPrices.StopLife | crates/exg-matching-engine/src/engine.rs:771-964 | Over any run that leaves it alone, a stop-loss sell or take-profit buy is gone exactly when some mark fell to its price, a stop-loss buy or take-profit sell when some mark rose to it, and otherwise waits unchanged. |
| TrailingStops.PeakIsExtreme | crates/exg-matching-engine/src/engine.rs:889-910 | The peak is the maximum (sell) or minimum (buy) of its first value and all marks since. |
| TrailingStops.TrailingStopLife | crates/exg-matching-engine/src/engine.rs:771-964 | Over any run that leaves it alone, a trailing stop is gone if some mark retraced its delta from the extreme so far, and otherwise is there with exactly that extreme as peak. |
| FillFlows.StepBalanced | crates/exg-matching-engine/src/engine.rs:967-1049 | The fills of one command buy as much as they sell in every symbol, are positive, and come without clearing facts. |
| Engine.MatchingEngine.ApplyEvent | crates/exg-matching-engine/src/replay.rs:35-252 | Replaying one event does to the state, or refuses with, exactly what the replay specification says. |
| TakerReplay.ReplayFills | crates/exg-matching-engine/src/replay.rs:128-157 | The fills of a taker placed whole before them: replay accepts them exactly when nothing remains of it in the end or each later fill fits its final remainder, and then leaves every maker reduced by its own fill and the taker at its remainder. |
| FiredReplay.FiredReplays | crates/exg-matching-engine/src/replay.rs:158-235 | The fills of a fired stop, which replay promotes at the first of them: accepted exactly when it became a market order or each later fill fits its final remainder, and then the book is the live one and the stop is gone. |
| FiredReplay.TriggersReplay | crates/exg-matching-engine/src/replay.rs:158-235 | The same for all stops one mark fires, in turn, if each trades at least once: the book is the live one and exactly those stops are gone. |
| FiredReplay.SweepDrops | crates/exg-matching-engine/src/engine.rs:913-964 | Taking out the swept stops one by one with swap-remove, in the order they were swept, leaves what the sweep kept, in its order. |
| FiredReplay.StopCancelsReplay | crates/exg-matching-engine/src/replay.rs:114-127 | Replaying the cancels of swept stops takes exactly those away. |
| EngineReplay.StepMirrors | crates/exg-matching-engine/src/replay.rs:35-252 | For one command, all kinds and all their branches but those named under Left out: replaying its events on a mirror of the state before succeeds exactly when the later fills of every taker, arriving, triggered or amended, fit and nothing is amended in place, and then mirrors the state after; stops stay in the same order unless a cancel moved some. |
| EngineReplay.ReplayEqualsLive | crates/exg-matching-engine/src/replay.rs:35-252 | The same for every run from any mirrored state. |
| EngineReplay.BootReplaysRun | crates/exg-matching-engine/src/replay.rs:35-252 | The same from an empty engine: book, stops with peaks, mark, index and rate are equal. The expiry heaps agree on every order still held exactly when none of those was accepted as a stop with an expiry time. |
| EngineReplay.ExpiryAgreesIff | crates/exg-matching-engine/src/replay.rs:102-112 | On every mirrored state, extra expiry entries are all of orders no longer held exactly when no stop with an expiry time is held, waiting or triggered; a held one always has one. |
| EngineReplay.RepriceMirrors | crates/exg-matching-engine/src/engine.rs:581-661 | An amend that is matched again: replay accepts it exactly when it is rejected or its later fills fit, and then has the live book. |
| EngineReplay.InPlaceRefused | crates/exg-matching-engine/src/engine.rs:663-715 | The events of every amend that shrinks its order or changes nothing are refused by replay as a duplicate. |
| StopReplay.StepHolds | crates/exg-matching-engine/src/replay.rs:35-252 | Any command whatever: if its log is accepted, every stop order that is still held live is held on replay, as it was accepted and with the same peak. |
| StopReplay.BootHoldsStops | crates/exg-matching-engine/src/replay.rs:35-252 | The same for every run from the empty engine whose new orders take no id of a waiting stop. |
| StopReplay.MarkStopsAgree | crates/exg-matching-engine/src/engine.rs:791-833 | For any mark whose log is accepted, both sides hold the same stops exactly when each fired stop trades by the book it finds at its turn, or rests and is within reach of one that fires later. |
| StopReplay.OneStopAgrees | crates/exg-matching-engine/src/engine.rs:791-833 | For a mark that fires one stop: exactly when that trades by the book before the mark. |
| Reach.TradesIff | crates/exg-matching-engine/src/matcher.rs:37-207 | A match fills something exactly when the order may take (not post-only; fill-or-kill within reach whole) and something is within its limit, by the book before. |
| Reach.MatchTakesFrom | crates/exg-matching-engine/src/matcher.rs:94-207 | It takes from exactly the makers that cross and have less in front of them in the queue than the taker wants. |
| ReplayGaps.NextSliceLost | crates/exg-matching-engine/src/engine.rs:431-490 | An iceberg whose whole slice is within reach: live rests its next slice and replay has none, or the next slice is canceled and replay refuses that. |
| ReplayGaps.WrongOwnerMoves | crates/exg-matching-engine/src/engine.rs:498-506 | A cancel of a resting order by someone else is accepted and changes nothing on replay, so the books agree exactly when the order is the last arrival. |
| ReplayExamples.ReplayCanFail | crates/exg-matching-engine/src/replay.rs:128-157 | Three commands from the empty engine whose log the engine cannot replay: the constant final remainder of engine.rs:400-412 is at fault. |
| ReplayExamples.UnfilledStopStays | crates/exg-matching-engine/src/engine.rs:815-829 | A stop that fires on an empty book leaves no event: live drops it, replay keeps it. |
| ReplayExamples.GtdStopListedOnReplay | crates/exg-matching-engine/src/replay.rs:102-112 | A dated stop that fires and rests has an expiry entry after replay and none live. |
| ReplayExamples.ShrinkRefused | crates/exg-matching-engine/src/engine.rs:663-692 | Two commands from the empty engine, an order and a decrease of its size, whose log the engine cannot replay. |
| LedgerObject.LedgerBook.Deposit | crates/exg-ledger/src/operations.rs:93-129 | Exact new ledger: checks in order, balance, journal line. |
| LedgerObject.LedgerBook.Withdraw | crates/exg-ledger/src/operations.rs:132-181 | Exact new ledger and answer; insufficient funds give the key back. |
| LedgerObject.LedgerBook.Transfer | crates/exg-ledger/src/operations.rs:184-236 | Exact new ledger and answer, also between a wallet and itself. |
| LedgerObject.LedgerBook.FreezeForOrder | crates/exg-ledger/src/operations.rs:239-289 | Exact new ledger and answer. |
| LedgerObject.LedgerBook.UnfreezeOrder | crates/exg-ledger/src/operations.rs:292-342 | Exact new ledger and answer. |
| LedgerObject.LedgerBook.OpenPosition | crates/exg-ledger/src/operations.rs:345-424 | Exact new ledger and answer: frozen to margin, fee out of frozen to the fee pool. |
| LedgerObject.LedgerBook.ClosePosition | crates/exg-ledger/src/operations.rs:431-595 | Exact new ledger and answer; the key is given back or kept branch by branch as in the source, also when the user is his own counterparty. |
| LedgerObject.LedgerBook.ClosePositionSettled | crates/exg-ledger/src/operations.rs:603-739 | Exact new ledger and answer; the escrow pool is named in the journal and not moved. |
| LedgerObject.LedgerBook.Liquidate | crates/exg-ledger/src/operations.rs:746-864 | Exact new ledger and answer, and exactly when it aborts. |
| LedgerObject.LedgerBook.SettleFunding | crates/exg-ledger/src/operations.rs:871-969 | Exact new ledger and answer: available first, then margin. |
| LedgerObject.LedgerBook.SettleFundingChecked | crates/exg-ledger/src/operations.rs:978-1012 | The settlement under its structured key; says whether margin fell. |
| LedgerObject.LedgerBook.SettleRealizedPnlCapped | crates/exg-ledger/src/operations.rs:1047-1129 | Exact new ledger and the signed amount moved, a debit capped at what is available. |
| Conservation.StepConserves | crates/exg-ledger/src/operations.rs:93-1129 | No operation, successful or refused, changes the difference between what users and pools hold and what the journal says came in. |
| Conservation.RunConserves | crates/exg-ledger/src/operations.rs:93-1129 | After every run users and pools together hold deposits minus withdrawals plus the profit and loss journaled against the escrow pool. |
| LedgerLaws.TakenKeyDoesNothing | crates/exg-ledger/src/operations.rs:93-1129 | A call under a key already taken leaves the ledger as it is and answers that nothing moved, or refuses its arguments. |
| LedgerLaws.RefusedCalls | crates/exg-ledger/src/operations.rs:93-1129 | Bad arguments change nothing, an unknown user costs the key, and what is not covered is refused with the key free again. |
| LedgerLaws.CoveredCallsSucceed | crates/exg-ledger/src/operations.rs:93-739 | A sensible call on a fresh key by a user who is there and can cover it goes through. |
| LedgerLaws.OncePerKey | crates/exg-ledger/src/operations.rs:93-1129 | Anywhere in a run: once a call has succeeded, no later call under its key does anything. |
| LedgerLaws.OperationGains | crates/exg-ledger/src/operations.rs:93-1129 | What each operation is worth to every user, over all wallets and fields, and to every pool; a failed one is worth nothing to anyone. |
| LedgerLaws.RoundOfTrading | crates/exg-ledger/src/operations.rs:239-739 | Margin frozen, put into a position and released: what remains of the round is the profit less both fees, available. |
| LedgerLaws.FreezeUndone | crates/exg-ledger/src/operations.rs:239-342 | Unfreezing undoes freezing. |
| LedgerLaws.DepositUndone | crates/exg-ledger/src/operations.rs:93-181 | Withdrawing undoes depositing. |
| LedgerLaws.TransferUndone | crates/exg-ledger/src/operations.rs:184-236 | Transferring back undoes transferring. |
| LedgerLaws.FundingPaidFrom | crates/exg-ledger/src/operations.rs:871-969 | A funding payment comes out of what is available first, then out of margin, and is refused if both fall short. |
| LedgerLaws.CloseBetween | crates/exg-ledger/src/operations.rs:431-595 | A close between two users: margin released with the profit to the one, the profit out of the other's margin, or refused with neither changed. |
| LedgerLaws.LiquidationSeizes | crates/exg-ledger/src/operations.rs:746-864 | When a liquidation goes through, and the margin it seizes. |
| LedgerLaws.JournalNumbered | crates/exg-ledger/src/operations.rs:15-90 | After any run the journal's lines are numbered from one without a gap. |
| LedgerLaws.JournalGrows | crates/exg-ledger/src/operations.rs:93-1129 | The journal only grows at its end, by lines under the call's own key and time. |
| Solvency.StepSolvent | crates/exg-ledger/src/operations.rs:93-1129 | From a ledger without negative balances, an operation leads to one exactly when it is not a close whose net credit overdraws available or whose user is his own counterparty without margin for both. |
| Solvency.RunSolvent | crates/exg-ledger/src/operations.rs:93-1129 | No balance is negative throughout a run exactly when no close of the run overdraws in that sense. |
| Journal.StepPosts | crates/exg-ledger/src/operations.rs:93-1129 | The exact effect of every operation on the difference between any balance or pool and the journal: none, except that a funding payment taken from a negative available balance moves that shortfall unposted. |
| Journal.RunPosts | crates/exg-ledger/src/operations.rs:93-1129 | After every run every user balance is the fold of the journal plus what so leaked into that user's futures wallet. |
| Journal.JournalDeterminesUsers | crates/exg-ledger/src/operations.rs:93-1129 | The journal determines every user balance exactly when no such funding payment occurred in the run. |
| Journal.RunPools | crates/exg-ledger/src/operations.rs:93-1129 | After every run every system pool is the fold of the journal, but for the funding pool, which lacks exactly what leaked. |
| Journal.RunFundingSafe | crates/exg-ledger/src/operations.rs:132-1129 | No run ever overdraws a funding wallet. |
| Journal.LeakReached | crates/exg-ledger/src/operations.rs:895-913 | A concrete run of six calls that ends in such a payment. |
| LedgerChecks.VerifyGlobalInvariant | crates/exg-ledger/src/invariant.rs:22-66 | Passes exactly when users plus pools equal deposits minus withdrawals. |
| LedgerChecks.VerifyAccountInvariant | crates/exg-ledger/src/invariant.rs:69-97 | Passes exactly when the account exists and no field of it is negative; otherwise names a wallet that is. |
| LedgerChecks.VerifyAllInvariants | crates/exg-ledger/src/invariant.rs:100-117 | Passes exactly when both hold for every account and the three protected pools are not negative, in whatever order accounts come. |
| LedgerChecks.CheckPassesIff | crates/exg-ledger/src/invariant.rs:22-117 | After any run, the check passes exactly when nothing is negative and the profit and loss settled against escrow cancels out. |
| LedgerExamples.CheckFailsSolvent | crates/exg-ledger/src/invariant.rs:22-66 | Five calls, the last a close with a profit of 3, after which nothing is negative, every unit is accounted for, and the check fails. |
| LedgerExamples.LossOverdraws | crates/exg-ledger/src/operations.rs:603-739 | Five calls, the last a close at a loss, after which a wallet is overdrawn. |
| Positions.PositionManager.OpenOrIncreasePosition | crates/exg-clearing/src/position.rs:37-78 | New size times new entry is old size times old entry plus quantity times price, margin grows by the notional over the leverage, both but for a stated rounding; no other position is touched. |
| Positions.PositionManager.ReduceOrClosePosition | crates/exg-clearing/src/position.rs:84-123 | The profit is the gain from entry to exit times the quantity to a raw unit, positive for a long above its entry and for a short below; the margin that leaves is its share; size zero removes the position; or the error. |
| Positions.EntryIsBetween | crates/exg-clearing/src/position.rs:61-67 | The new entry lies between the old one and the fill price, but for rounding. |
| Profit.FillPnlIsExact | crates/exg-clearing/src/post_trade.rs:412-471 | Of every fill: no profit when it opens or adds; when it reduces, closes or flips, what the part that leaves gained, to a raw unit, and with that sign. |
| Profit.ProfitIsWorth | crates/exg-clearing/src/post_trade.rs:412-471 | Over any list of fills, for any position and at any price: profit realized plus what the open position would bring is what the fills are worth there, but for a stated rounding a fill. |
| Profit.RoundTripProfit | crates/exg-clearing/src/post_trade.rs:412-471 | From no position to no position, profit is what was sold for less what was bought for. |
| Profit.PnlIntoWallet | crates/exg-clearing/src/post_trade.rs:242-294 | A profit is credited to the funding wallet whole, a loss debited up to what is there, the pool takes the other side, and the logged amount is what moved. |
| Positions.MarginShare | crates/exg-clearing/src/position.rs:110-123 | A reduction keeps side and entry and releases margin by the share that leaves, to the unit; the position goes exactly when all of it leaves. |
| Positions.FillMovesSignedSize | crates/exg-clearing/src/post_trade.rs:412-471 | However a fill is booked (increase, reduce, exact close, flip), the signed size of its position moves by exactly the signed fill and no other moves. |
| Positions.FillMovesOpenInterest | crates/exg-clearing/src/post_trade.rs:412-471 | So the net open interest of its symbol moves by the signed fill. |
| OpenInterest.BatchMovesOpenInterest | crates/exg-clearing/src/post_trade.rs:63-90 | A batch moves net open interest by what its fills net to. |
| OpenInterest.BatchKeepsFlat | crates/exg-clearing/src/post_trade.rs:63-119 | After a complete engine batch the signed sizes sum to zero in every symbol. |
| PostTrade.PostTradeProcessor.Consume | crates/exg-clearing/src/post_trade.rs:63-119 | State and facts after a batch are the specification's, for some walk of the position map at each funding tick; the ledger check never fails. |
| PostTrade.PostTradeProcessor.ApplyFillToPosition | crates/exg-clearing/src/post_trade.rs:412-471 | The position map and the profit after a fill; the reduction it calls cannot fail. |
| PostTrade.PostTradeProcessor.SettleRealizedPnl | crates/exg-clearing/src/post_trade.rs:242-294 | Profit or capped loss under the given sequence number; a loss against an empty wallet takes no key. |
| PostTrade.PostTradeProcessor.SettleFunding | crates/exg-clearing/src/post_trade.rs:127-209 | A tick over every open position once, skipped without mark; the invariant check after it passes. |
| PostTrade.PostTradeProcessor.HandleAdminCredit | crates/exg-clearing/src/post_trade.rs:213-231 | The deposit under the caller's key and its fact; cannot fail for a positive amount. |
| PostTrade.PostTradeProcessor.ApplyEvent | crates/exg-clearing/src/post_trade.rs:305-406 | Replay of one event: positions from fills, money from facts only. |
| PostTradeSafety.ReplayVerifies | crates/exg-clearing/src/post_trade.rs:305-406 | Replaying any list of events whatever, so any prefix of a log, leaves the ledger check passing. |
| PostTradeSafety.SettleCannotFail | crates/exg-clearing/src/post_trade.rs:271-279 | A capped settlement for an opened account cannot fail. |
| PostTradeReplay.SettleReplays | crates/exg-ledger/src/operations.rs:1047-1129 | What was moved under the cap live is moved on replay without capping it further, and what moved nothing leaves no trace but its key. |
| PostTradeReplay.PnlReplays | crates/exg-clearing/src/post_trade.rs:84-109 | One live profit settlement and its replayed fact keep both sides equal, counters and keys included. |
| PostTradeReplay.RowsReplay | crates/exg-clearing/src/post_trade.rs:155-193 | The same for all rows of a funding tick, in any order. |
| PostTradeReplay.BatchReplays | crates/exg-clearing/src/post_trade.rs:63-119 | The same for a batch: live interleaves fills and settlements, replay takes the facts alone. |
| PostTradeReplay.PostTradeReplayEqualsLive | crates/exg-clearing/src/post_trade.rs:63-406 | For every run of batches, admin credits and restarts that lose any tail of the log, replaying the log gives equal positions, mark, sequence counter, journal entry for entry, pools and balances; the period is at most the live one and the keys are among the live ones. |
| PostTradeReplay.ReplayNumbers | crates/exg-clearing/src/post_trade.rs:305-406 | A state rebuilt from any log holds no key its own counters do not bound, so it never gives one out twice. |
| PostTradeReplay.PeriodRecovered | crates/exg-clearing/src/post_trade.rs:395-404 | The recovered period is at least every recorded one. |
| PostTradeReplay.PeriodRestoredIff | crates/exg-clearing/src/post_trade.rs:324-335 | After every legal run the recovered period is the live one exactly when none was counted or the log holds a payment of the latest. |
| PostTradeReplay.TickPeriodIff | crates/exg-clearing/src/post_trade.rs:127-209 | From equal periods, a tick that is not skipped keeps them equal exactly when some row, at its turn, receives money or pays out of a wallet that is not empty. |
| PostTradeReplay.PeriodCanLag | crates/exg-clearing/src/post_trade.rs:324-335 | A legal run that ends with different periods: the comment there claims otherwise. |
| FundingTick.PaymentError | crates/exg-clearing/src/post_trade.rs:155-166 | One payment misses its exact value by less than 1.0075 raw units. |
| FundingTick.PaymentsNearlyCancel | crates/exg-clearing/src/post_trade.rs:127-166 | Over net-flat positions all payments together come to at most 1.0075 raw units a position. |
| FundingTick.TickPool | crates/exg-clearing/src/post_trade.rs:127-209 | A tick changes the funding pool by minus the uncollected shortfall, to within 1.0075 raw units a position, for any order. |
| FundingTick.OrderDoesNotMatter | crates/exg-clearing/src/post_trade.rs:127-209 | With at most one position a user, every order leaves the same balances and pools. |
| FundingRate.RateIsClamped | crates/exg-risk-engine/src/funding.rs:59-64 | No rate within plus or minus 0.0075 is nearer to premium plus interest. |
| FundingRate.PremiumIsFraction | crates/exg-matching-engine/src/engine.rs:839-843 | The premium misses the exact fraction by less than one raw unit, does not fall when the mark rises, and is zero at the index. |
| Exchange.StepHealthy | crates/exg-server/src/lib.rs:436-470 | One command through engine, post-trade and log keeps: sound engine state, zero net open interest, a passing ledger check, the same mark on both sides, and a log from which post-trade can be rebuilt. |
| Exchange.RunHealthy | crates/exg-server/src/lib.rs:436-470 | So does every run. |
| Marks.RunMarks | crates/exg-matching-engine/src/engine.rs:762-790 | After a run the engine's mark is the last one given. |
| Marks.StepMarked | crates/exg-clearing/src/post_trade.rs:63-119 | What a command's events do to post-trade's mark is what it did to the engine's. |
| Exchange.FundingCommandMovesPool | crates/exg-server/src/lib.rs:436-470 | On any reachable state the funding command moves the pool within the rounding bound. |
| Exchange.BootRecovers | crates/exg-server/src/lib.rs:300-378 | Booting from the whole log of a run: post-trade always comes back; the engine comes back exactly when the fills of every taker fit, triggered and amended ones included, and nothing was amended in place. |
| Exchange.BootHoldsStops | crates/exg-server/src/lib.rs:300-378 | For every legal run, whatever its commands: an engine that accepts the log holds every stop order the live one held, with its peak. |
| WalSegment.EncodeRecord | crates/exg-wal/src/segment.rs:64-72 | The buffer begins with the record's bytes and is otherwise unchanged. |
| WalSegment.DecodeEncoded | crates/exg-wal/src/segment.rs:76-105 | Decoding an encoded record gives it back, whatever follows it. |
| WalSegment.DecodeTorn | crates/exg-wal/src/segment.rs:76-105 | A record torn at any byte decodes as incomplete, never as corrupt. |
| WalSegment.DecodeDamaged | crates/exg-wal/src/segment.rs:76-105 | A record whose payload was changed is refused under its number unless the checksum is the same. |
| WalLog.DamageIsReported | crates/exg-wal/src/writer.rs:182-228 | Recovery reports a changed record as corrupt under its number. |
| WalFiles.WalDirectory.ListSegments | crates/exg-wal/src/segment.rs:33-51 | The list has every segment file once, sorted by first sequence number. |
| WalFiles.ListsUnique | crates/exg-wal/src/segment.rs:33-51 | There is only one such list. |
| WalWriters.WalWriter.Open | crates/exg-wal/src/writer.rs:30-88 | Fails exactly when recovery does; after a crash at any byte it does not fail, and continues the log that survived, in the last segment or a new one. |
| WalWriters.WalWriter.RecoverState | crates/exg-wal/src/writer.rs:170-232 | The scanning loops compute the recovery specification. |
| WalWriters.WalWriter.ScanRecords | crates/exg-wal/src/writer.rs:182-228 | The inner loop stops at the end, at a torn record, at a gap or at a corrupt record, as specified. |
| WalWriters.WalWriter.Append | crates/exg-wal/src/writer.rs:91-123 | The record is added to the log under the next number; a new segment is begun exactly when the open one is not empty and the record would take it past its size; too large a payload is refused and nothing changes. |
| WalWriters.WalWriter.RotateSegment | crates/exg-wal/src/writer.rs:144-158 | The log is unchanged and goes on in a new segment named after the next record. |
| WalLog.CrashRecovers | crates/exg-wal/src/writer.rs:170-232 | Cut the last segment of any log at any byte: recovery reports neither corruption nor a gap, but the count of whole records and where the torn one begins. |
| WalLog.AfterCrashIsLog | crates/exg-wal/src/writer.rs:30-88 | What survives is again a contiguous log, and a prefix of the one before. |
| WalLog.FlushedSurvives | crates/exg-wal/src/writer.rs:126-131 | Records wholly before the cut survive. |
| WalReader.CrashLosesOnlyUnflushed | crates/exg-wal/src/writer.rs:118-131 | At most the records not yet flushed are lost, the last ones. |
| WalReader.CrashLeaves | crates/exg-wal/src/writer.rs:30-88 | A file cut at a byte is a log cut at that byte. |
| WalReader.FindStart | crates/exg-wal/src/reader.rs:46-50 | Binary search finds the last segment that begins at or before the number asked for. |
| WalReader.ReadFrom | crates/exg-wal/src/reader.rs:31-96 | On a stored log the callback is given exactly the records from that number on, in order, until it declines. |
| WalReader.ReadAll | crates/exg-wal/src/reader.rs:52-93 | The two reading loops compute the reading specification, failures included. |
| WalReader.ReadBack | crates/exg-server/src/lib.rs:388-394 | Reading from s gives one record for each number from s to the end with the payload appended under it, so reading from zero counts the writer's next number. |
| WalLog.ReadsExactly | crates/exg-wal/src/reader.rs:31-96 | Starting at the segment found loses no record and adds none. |
| Boot.CrashBoot | crates/exg-wal/src/writer.rs:30-88 | After a crash the surviving events are a prefix of those written, they determine what is replayed, and the ledger rebuilt from them passes its check. |
| Boot.BootServer | crates/exg-server/src/lib.rs:300-394 | Open, read from zero, replay engine and post-trade record by record, check the ledger, compare the count with the next number: after a cut at any byte this fails exactly when the engine refuses a surviving event; else both are what the survivors replay to and the log goes on after them. |
| Boot.ReplayRecords | crates/exg-server/src/lib.rs:300-365 | The loop over the records stops at the first gap, undecodable or refused event, and otherwise leaves engine and post-trade as the records replay. |
| RingBuffers.RingBuffer.New | crates/exg-ringbuffer/src/buffer.rs:66-92 | Accepts exactly the powers of two. |
| RingBuffers.RingBuffer.TryPush | crates/exg-ringbuffer/src/buffer.rs:156-186 | Queue append, with the two refusals. |
| RingBuffers.RingBuffer.TryPop | crates/exg-ringbuffer/src/buffer.rs:222-248 | Queue head, cut at the buffer. |
| RingBuffers.RingBuffer.Peek | crates/exg-ringbuffer/src/buffer.rs:263-287 | The same without consuming. |
| RingBuffers.RingBuffer.TryPushBatch | crates/exg-ringbuffer/src/buffer.rs:202-212 | Appends the longest prefix of items that are small enough and fit the free slots. An error exactly when the next item is too large, or the ring was full from the start. |
| RingBuffers.LostCount | crates/exg-ringbuffer/src/buffer.rs:202-212 | A batch whose first message is in the ring although an error is returned. |
| RingBuffers.RingBuffer.TryPopBatch | crates/exg-ringbuffer/src/buffer.rs:291-331 | The first messages, as many as asked for and there. |
| RingProtocol.StepKeeps | crates/exg-ringbuffer/src/buffer.rs:156-287 | Every step of either party keeps the invariant, in any interleaving. |
| RingProtocol.PoppedIsPrefix | crates/exg-ringbuffer/src/buffer.rs:156-248 | Over every interleaving, popped messages are pushed ones in order, each cut at most at its buffer; with buffers of the largest payload, a prefix of what was pushed. |
| RingProtocol.WriterAndReadersApart | crates/exg-ringbuffer/src/buffer.rs:156-287 | The slot being written holds no unread message, so none is overwritten and none is read half-written. |
| RingProtocol.CountersTellOccupancy | crates/exg-ringbuffer/src/buffer.rs:163-171 | The wrapped difference of the stored counters is the true number of unread messages, across the wrap at 2^64. |
| Bits.MaskedIndex | crates/exg-ringbuffer/src/buffer.rs:67-80 | Masking a wrapped counter gives the message number modulo the slot count. |
| Bits.WrappedDifference | crates/exg-ringbuffer/src/buffer.rs:167-169 | Wrapping subtraction of two wrapped counters is their true difference. |
| Decimals.ProductExact | crates/exg-common/src/decimal.rs:195-217 | High and low word together are the whole 256-bit product, carries included. |
| Decimals.DivU256ByU128 | crates/exg-common/src/decimal.rs:224-270 | The truncated quotient if it fits a word, and the largest word otherwise. |
| Decimals.LongDivide | crates/exg-common/src/decimal.rs:243-269 | The shift-subtract loop with its overflow bit computes the exact quotient. |
| Decimals.WideMulDiv | crates/exg-common/src/decimal.rs:161-192 | The truncation of a*b/d exactly when it fits, the smallest word included. |
| Decimals.CheckedMul | crates/exg-common/src/decimal.rs:101-108 | The truncation of a*b/10^18 exactly when it fits, on both paths. |
| Decimals.CheckedDiv | crates/exg-common/src/decimal.rs:112-124 | The truncation of a*10^18/b exactly when it fits and b is not zero, on both paths. |
| Decimals.NeverSmallest | crates/exg-common/src/decimal.rs:116-121 | The fast division cannot meet the smallest word divided by minus one. |
| DecimalText.Display | crates/exg-common/src/decimal.rs:358-383 | The printing loops compute the printing specification. |
| DecimalText.FromStr | crates/exg-common/src/decimal.rs:398-471 | The parsing steps compute the parsing specification, error by error. |
| DecimalText.PrintParse | crates/exg-common/src/decimal.rs:358-471 | Printing then parsing is the identity, except that the smallest value is reported out of range. |
| DecimalText.TrimThenPad | crates/exg-common/src/decimal.rs:376-379 | Trimming trailing zeros and padding to 18 digits undo each other. |
| DecimalText.PaddedFraction | crates/exg-common/src/decimal.rs:376-377 | The zero-padded fraction has 18 digits and the fraction's value. |
| DecimalText.ParsedFits | crates/exg-common/src/decimal.rs:466-469 | The negation after the range check cannot leave the word. |
| DecimalReading.NumeralIsRead | crates/exg-common/src/decimal.rs:401-470 | Of every text that is digits around at most one dot, behind at most one sign: the number written, cut to 18 places, or an error exactly when that does not fit; which error depends on whether the integer part alone fits a word. |
| DecimalReading.FractionIsCut | crates/exg-common/src/decimal.rs:440-459 | The 18 digits padded or cut from a fraction are the fraction in raw units, rounded down. |
| DecimalReading.AcceptedIff | crates/exg-common/src/decimal.rs:401-470 | Exactly which texts are accepted: integer part and first 18 places are digits or empty, a sign allowed before each, and the number fits. |
| DecimalReading.ReadAsWrittenIff | crates/exg-common/src/decimal.rs:440-459 | Of every accepted text, its fraction cut to 18 places: the value is the one its digits write exactly when the fraction does not begin with a sign or is zero; behind a sign the fraction counts for a tenth. |
| DecimalReading.TailIsIgnored | crates/exg-common/src/decimal.rs:440-449 | Behind 18 characters of fraction anything may stand, digits or not: the text parses as if it ended there. |
| DecimalReading.LettersAfterPlaces | crates/exg-common/src/decimal.rs:440-449 | A one with 18 zeros behind its dot and then letters is accepted as one. |
| DecimalReading.SignInFraction | crates/exg-common/src/decimal.rs:440-459 | The texts 1.+5, 1.-5 and a lone dot parse to 1.05, 0.95 and 0. |
| Margin.ClosedFormIsBracketSum | crates/exg-risk-engine/src/margin.rs:14-27 | For every schedule that starts at zero, is contiguous and carries its amounts, the closed form is the truncation of the exact bracket-by-bracket sum, past the last cap too. |
| Margin.MarginGrows | crates/exg-risk-engine/src/margin.rs:14-27 | So it is never negative and never falls as the notional grows, across tier boundaries and past the last cap. |
| Margin.ShippedIsSchedule | crates/exg-config/src/lib.rs:244-293 | The shipped schedule is one. |

## Left out

- Engine.MatchingEngine.ProcessCommand: trade ids and fees are not part of events, and an order's trading fields that
  no step reads (client id, reduce-only) are carried only in the event that accepts it. A mark update asks for stops
  and book to have disjoint ids, which every run keeps (`EngineInvariants.RunSound`).
- Engine.MatchingEngine.EmitFillEvents: trade ids and fees are left out of the events; nothing that is modelled reads
  them.
- EngineInvariants.RunSound: order ids are fresh across book and stops, as the id generator makes them, and lot sizes
  are positive, as configuration validation requires.
- EngineReplay.BootReplaysRun: leaves out runs with a command that its events do not tell in full: an iceberg that shows
  its next slice (`ReplayGaps.NextSliceLost`); a cancel by the wrong owner that moves an order to the back
  (`ReplayGaps.WrongOwnerMoves`); a stop that fires and gets no fill; an order whose visible quantity is more than its
  size, or differs from its size without being an iceberg, because the event gives it as what remains; and an accepted
  new price or larger size of an order with an expiry time, which the event dates anew, of one in another symbol, or of
  one whose visible quantity is not its new size. Of those, `StopReplay.BootHoldsStops` still shows the waiting stop
  orders. Trade ids and the sequence number are not rebuilt by the source and not compared.
- OrderBooks.OrderBook.InsertOrder: asks for an id that is not in the book; the engine checks that before.
- LedgerObject.LedgerBook.Liquidate: the state at the abort is not described, because the process ends there.
- Journal.RunPosts: users are not user 0, which stands for the system in the journal.
- Exchange.BootRecovers: fills and balances are unbounded integers; overflow of a 128-bit decimal aborts the source.
- WalWriters.WalWriter.Append: the next sequence number is below 2^64.
- RingBuffers.RingBuffer.New: asks for slots of at least four bytes and fewer than 2^32, because a slot must hold its
  header and a length must fit the header; the constructor accepts others, and what the ring then does is left out.
- RingProtocol.StepKeeps: asks the same of the slots.
- RingProtocol.StepKeeps: memory order beyond acquire and release is not modelled, nor the spinning of the blocking
  forms.
- DecimalText.FromStr: text is trimmed of ASCII white space only and taken as one byte a character.
- Positions.PositionManager.ReduceOrClosePosition: the abort when nothing is taken from a position of size zero is left
  out.
- Positions.PositionManager.OpenOrIncreasePosition: margin mode, unrealized profit and accumulated funding are constant
  in the positions post-trade keeps and are left out.
- Expiry of dated orders: `check_expirations` is not called by the server.
- Snapshots of the engine, the log and the clearing service.
- The clearing service's liquidation and deleveraging flows, which keep a ledger of their own.
- Conversions of decimals from and to floating point and serialized forms.
- Impact prices, liquidation prices and margin ratios: single expressions without state.
- HTTP, authentication, the database, wallets, order service, market data and the web front ends.
- The shutdown drain of the server: its empty check comes before its flag read, so a push can fall between them.
