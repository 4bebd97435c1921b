# Verified model of the trading core

This project models three parts of the trading system and proves what they
keep: the simulated exchange, the execution engine, and the bounded windows
and tables that market data and logging rest on.

**The simulated exchange.** `Matching` defines greedy matching over a ladder of
levels and proves it optimal, invisible to order splitting and symmetric in
buying and selling. `OrderBooks` holds the book itself, its two maps consumed
in place by loops proved against that definition; `OrderBookLaws` carries the
laws over to the stored maps. `Vwap` and `OrderRecords` do the saturating
128-bit average arithmetic, bound its drift and say exactly when there is none.
`SimulatedBroker` ties books to
orders, and `BrokerRuns` proves conservation, id freshness and limit protection
over every run of requests. `BrokerAnswers` says what each single request takes,
reports and changes, in terms of the book and the order alone.

**The execution engine.** `OrderTracker` is the per-order state machine,
`FillReports` turns cumulative reports into per-fill quantities and prices,
`Retry` is the bounded retry loop, `AdapterStatistics` and `Router` the
failover window and switch. `EngineSteps` says what each engine operation makes
of the engine's state, `ExecutionEngine` is the object that does it, and
`EngineAnswers` says what each
operation answers and announces in terms of the order and the broker's answers
alone, and `EngineRuns` proves what holds after any run of operations one at a
time.
`RouterInterleaving`, `TokenSafety` and `FillInterleaving` take the router,
`submit` and `on_fill` apart into atomic steps and prove what holds under every
interleaving of concurrent callers; each also proves that its atomic steps, run by
one caller alone, are the serial operation.

**Windows, interner and breadth.** `RingWindows`, `LogRings` and
`AdapterStatistics` are three ring buffers, each proved against "the last N
items"; `Interner` is the concurrent symbol table; `Breadth` pools return
windows and computes their variance in one pass.

## How the model reads the code

- Objects whose methods update their fields are classes here, with the same
  fields and loops. Each method is proved equal to a function of the old state,
  and the laws are proved of those functions over all runs.
- Integers have their widths: saturating, clamping and truncating operations are
  written out, and plain `+`, `-` and negation wrap, as in a release build.
- A book's `BTreeMap` is a map together with its sorted keys.
- A broker adapter is an arbitrary function from slot, order and attempt to an
  answer. Token verification is an arbitrary predicate over the token, the
  intent, the size, the timestamp and the sequence number.
- Clocks, jitter and elapsed time are parameters. Sleeping is the list of waits.
- Floats are exact reals in `Breadth` and `Retry`; the p99 rank is the integer
  ceiling of 99n/100.
- Error variants are kept, their message texts are not.

## Where the code and its comments disagree

The model follows the code.

- `crates/hedge-broker-simulated/src/lifecycle.rs:77-78` says the running average
  never loses precision. It does (`OrderRecords.DriftHappens`). The next batch is
  averaged exactly if and only if the stored average times the quantity is still
  the whole notional (`OrderRecords.StaysExactIff`), and the loss is bounded
  (`OrderRecords.DriftBounded`). The broker applies one batch to each order
  (`crates/hedge-broker-simulated/src/lib.rs:246-247`), so its own records are
  always exact (`BrokerRuns.RunWellFormed`); only direct callers of `apply_fills`
  meet the drift.
- `crates/hedge-broker-simulated/src/orderbook.rs:82-83` says negated keys give
  descending prices. A bid at the least `i64` keeps its own key and is visited
  first, although it is the worst price; `OrderBookLaws.SellsMatchBestIff` and
  `OrderBookLaws.SellsMirrorBuysIff` say exactly when that matters, and
  `OrderBookLaws.LeastBidReachable` builds such a book.
- `crates/hedge-exec/src/lifecycle.rs:222-228` lets the raw transition reach
  `Filled` with quantity outstanding (`OrderTracker.RawTransitionKeepsLawIff`).
- `crates/hedge-exec/src/engine.rs:308-310` says a fill event carries the per-fill
  delta. The prior values are read under one lock and the report is taken under
  another, so racing reports can emit one quantity twice, even beyond the request
  (`FillInterleaving.RaceOverReports`); the emitted quantities are right if and
  only if no accepted report was overtaken (`FillInterleaving.FillsExactIff`).
- `crates/hedge-exec/src/engine.rs:351-354` narrows the per-fill price to `i64`, which
  can wrap, and a repeated quantity may carry a new average that no event reports;
  `FillReports.KeepsRebuiltIff` says exactly which reports are safe.
- `crates/hedge-exec/src/engine.rs:473-475` means to reject the order that failed,
  but a correlation id used again shares the old tracker, so the failure can
  reject an order that is live, and a new acknowledgement can be lost
  (`EngineRuns.ReusedOrderOutcome`).
- `crates/hedge-exec/src/retry.rs:7-8` lists only transient errors as retried;
  network errors are retried too.
- `crates/hedge-market-data/src/interner.rs:52-53` says an id is allocated once per
  symbol. Racing callers burn ids (`Interner.RacersBurn`); it is once per symbol if
  and only if no call lost a race (`Interner.OneAllocationEachIff`). After 2^32
  allocations the counter hands out the reserved id 0 (`Interner.AllocatesZeroIff`).

## Model

| member | source | states |
|---|---|---|
| Matching.FillsTotal | crates/hedge-broker-simulated/src/orderbook.rs:135-168 | On a best-first ladder the fills total exactly the smaller of the quantity asked for and the liquidity the limit allows |
| Matching.GreedyIsOptimal | crates/hedge-broker-simulated/src/orderbook.rs:135-207 | No other allocation of the same quantity over eligible levels costs a buy less or earns a sell more |
| Matching.GreedyIsCheapest | crates/hedge-broker-simulated/src/orderbook.rs:135-168 | The exchange argument: buying more than the greedy fills pays at least the floor price for every extra unit |
| Matching.LimitExact | crates/hedge-broker-simulated/src/orderbook.rs:146-151 | Every fill is at the limit or better, and an order stops short only when nothing at its limit or better is left |
| Matching.PricePriority | crates/hedge-broker-simulated/src/orderbook.rs:142-166 | An eligible level trades exactly what the better levels could not supply, up to its own quantity; an ineligible one nothing |
| Matching.FillsTakeWholeLevels | crates/hedge-broker-simulated/src/orderbook.rs:152-166 | Every fill but the last takes its level whole, so at most one level is left partly consumed |
| Matching.FillsAndRest | crates/hedge-broker-simulated/src/orderbook.rs:135-168 | At every price, what filled and what is left make up what was there |
| Matching.SplitInvisible | crates/hedge-broker-simulated/src/orderbook.rs:135-168 | Filling q1 and then q2 under one limit leaves the same ladder and fills the same quantity per price as q1 + q2 at once |
| Matching.SellMirrorsBuy | crates/hedge-broker-simulated/src/orderbook.rs:173-207 | A sell's fills are those of a buy on the negated ladder under the negated limit, prices negated |
| OrderBooks.OrderBook.AddBid | crates/hedge-broker-simulated/src/orderbook.rs:78-86 | The bid quantity at the price grows, saturating, every other price is unchanged, and no empty level appears |
| OrderBooks.OrderBook.AddAsk | crates/hedge-broker-simulated/src/orderbook.rs:89-95 | The ask quantity at the price grows, saturating, every other price is unchanged, and no empty level appears |
| OrderBooks.OrderBook.FromLevels | crates/hedge-broker-simulated/src/orderbook.rs:66-75 | Each side holds, at every price, the saturated sum of the levels given at that price, and no empty level |
| OrderBooks.OrderBook.ConsumeAsks | crates/hedge-broker-simulated/src/orderbook.rs:135-168 | The loop returns the greedy buy fills of the old asks and leaves the asks lowered by exactly those fills, emptied levels gone |
| OrderBooks.OrderBook.ConsumeBids | crates/hedge-broker-simulated/src/orderbook.rs:173-207 | The loop over negated keys returns the greedy sell fills of the old bids and leaves the bids lowered by exactly those fills |
| OrderBookLaws.BuysMatchBest | crates/hedge-broker-simulated/src/orderbook.rs:135-168 | On every stored book, a buy of any quantity and limit gets all it may at the least total cost |
| OrderBookLaws.SellsMatchBestIff | crates/hedge-broker-simulated/src/orderbook.rs:78-86 | Sells are optimal on a stored book if and only if no bid at the least `i64` shares it with another bid |
| OrderBookLaws.LeastBidReachable | crates/hedge-broker-simulated/src/orderbook.rs:66-86 | Two bids, at the least `i64` and at 100, build a book on which selling is not optimal |
| OrderBookLaws.SellsMirrorBuysIff | crates/hedge-broker-simulated/src/orderbook.rs:173-207 | Consuming bids equals consuming the same map as asks with limit and prices negated, and leaves the same map, if and only if no bid is at the least `i64` |
| OrderBookLaws.OrderConserves | crates/hedge-broker-simulated/src/orderbook.rs:152-166 | At every price, what rested before an order is what it took plus what rests after it |
| OrderBookLaws.DepletedLadder | crates/hedge-broker-simulated/src/orderbook.rs:157-166 | Reading the stored side back after an order gives exactly the rest of the ladder, with no empty level |
| OrderBookLaws.SplitOrder | crates/hedge-broker-simulated/src/orderbook.rs:135-207 | Splitting an order leaves an identical stored side and the same quantity filled at every price |
| OrderBookLaws.LevelOrderIrrelevant | crates/hedge-broker-simulated/src/orderbook.rs:63-75 | Any rearrangement of the levels a side is built from gives the same side |
| Vwap.VwapPaise | crates/hedge-broker-simulated/src/orderbook.rs:219-244 | The loop returns the saturated quantity and clamped average, which is the exact average whenever the quantity fits `u64` |
| Vwap.NothingSaturates | crates/hedge-broker-simulated/src/orderbook.rs:219-244 | For quantities that fit `u64` no `i128` saturation and no `i64` clamp changes the average |
| Vwap.VwapBetween | crates/hedge-broker-simulated/src/orderbook.rs:219-244 | The average lies in every band that holds all fill prices |
| OrderRecords.OrderRecord.ApplyFills | crates/hedge-broker-simulated/src/lifecycle.rs:67-117 | A batch updates quantity, average, state, fills and timestamp to those of the specified record |
| OrderRecords.AfterFillsExact | crates/hedge-broker-simulated/src/lifecycle.rs:77-107 | While the quantity fits `u64`, the new average is the old average as a notional plus the batch, divided once and never saturated |
| OrderRecords.BatchMovesState | crates/hedge-broker-simulated/src/lifecycle.rs:68-116 | After any batch the order is `Filled` exactly when its request is reached and `Submitted` exactly when nothing filled of a positive one; an empty batch only submits a new order |
| OrderRecords.FirstBatchIsVwap | crates/hedge-broker-simulated/src/lifecycle.rs:77-107 | The first batch sets the exact average of its fills |
| OrderRecords.DriftStep | crates/hedge-broker-simulated/src/lifecycle.rs:79-107 | One batch moves the lost notional by less than one paisa per unit filled, and never down for non-negative prices |
| OrderRecords.DriftBounded | crates/hedge-broker-simulated/src/lifecycle.rs:67-107 | After k non-empty batches the quantity is exact and the average is less than k paise from the exact one |
| OrderRecords.NeverAboveExact | crates/hedge-broker-simulated/src/lifecycle.rs:67-107 | With batches of non-negative notional the average is never above the exact one |
| OrderRecords.StaysExactIff | crates/hedge-broker-simulated/src/lifecycle.rs:77-107 | Every next batch is averaged exactly if and only if the stored average times the quantity is the whole notional; the converse needs room for two more units |
| OrderRecords.FullRecordHidesDrift | crates/hedge-broker-simulated/src/lifecycle.rs:88-107 | A concrete full record one paisa off that no batch that fits can expose, so the room is needed |
| OrderRecords.DriftHappens | crates/hedge-broker-simulated/src/lifecycle.rs:77-78 | A concrete order whose reported average differs from the exact one |
| OrderRecords.OrderRecord.ApplyModification | crates/hedge-broker-simulated/src/lifecycle.rs:122-149 | Quantity and limit change as asked unless the order has ended or the quantity is below what filled; then nothing changes |
| OrderRecords.OrderRecord.ApplyCancel | crates/hedge-broker-simulated/src/lifecycle.rs:152-162 | An order that has not ended becomes `Cancelled`; one that has is refused and unchanged |
| SimulatedBroker.SimulatedBroker.SetBook | crates/hedge-broker-simulated/src/lib.rs:142-145 | Only the symbol's book is replaced |
| BrokerAnswers.SubmitAccepted | crates/hedge-broker-simulated/src/lib.rs:219-254 | A ready broker with a book acknowledges the order under the id it is recorded under; the record has the intent and exactly the greedy fills of the whole quantity under the order's own limit, with their total, exact average and state; nothing else changes but the side it took from |
| BrokerAnswers.SubmitMatchesBest | crates/hedge-broker-simulated/src/lib.rs:236-247 | The recorded fills total the smaller of the quantity and what the limit allows, at the best total over all allocations: for every buy, and for a sell unless a bid at the least `i64` shares the book |
| BrokerAnswers.SubmitRefused | crates/hedge-broker-simulated/src/lib.rs:214-235 | A submission is refused exactly when the broker is not ready or has no book, and then at most the id counter moves |
| BrokerAnswers.CancelAnswers | crates/hedge-broker-simulated/src/lib.rs:273-287 | A cancellation ends exactly a known order that has not ended, on a ready broker, changing its state and time alone; the refusal says which condition failed |
| BrokerAnswers.ModifyAnswers | crates/hedge-broker-simulated/src/lib.rs:257-271 | A modification sets exactly the quantity and limit asked for, of a known order that has not ended, unless the quantity is below what filled |
| SimulatedBroker.SimulatedBroker.DoSubmit | crates/hedge-broker-simulated/src/lib.rs:209-255 | Books, orders, id counter and result are those of the specified submission, on every path |
| SimulatedBroker.SimulatedBroker.DoModify | crates/hedge-broker-simulated/src/lib.rs:257-271 | Only the named order changes, and only when the broker is ready and knows it |
| SimulatedBroker.SimulatedBroker.DoCancel | crates/hedge-broker-simulated/src/lib.rs:273-287 | Only the named order changes, and only when the broker is ready and knows it |
| SimulatedBroker.SimulatedBroker.DoStatus | crates/hedge-broker-simulated/src/lib.rs:289-307 | The order's status, also while disconnected but not under a configuration error |
| BrokerRuns.SubmittedRecordOk | crates/hedge-broker-simulated/src/lib.rs:236-247 | An accepted order never over-fills, reports the exact average of its fills and is `Filled` exactly when all filled |
| BrokerRuns.StatusTruthful | crates/hedge-broker-simulated/src/lib.rs:289-307 | After any requests, a status is given exactly for the orders on record unless misconfigured, with the asked id, the quantity its fills add up to, within the request, and their exact average |
| BrokerRuns.LimitProtection | crates/hedge-broker-simulated/src/lib.rs:229-247 | A filled limit buy averages at most its limit, a limit sell at least its limit, and the average is within the fill prices |
| BrokerRuns.RunWellFormed | crates/hedge-broker-simulated/src/lib.rs:142-287 | After any requests no book holds an empty level and every record has a minted id, its exact average and a state that fits its fills |
| BrokerRuns.MintedIdFresh | crates/hedge-broker-simulated/src/lib.rs:219-221 | Before the counter saturates a minted id is no earlier order's |
| BrokerRuns.OrderIdInjective | crates/hedge-broker-simulated/src/lib.rs:221 | Different counter values give different id strings |
| BrokerRuns.FailureKeepsState | crates/hedge-broker-simulated/src/lib.rs:209-287 | A failed request changes nothing but the id counter, and that only on a submission |
| BrokerRuns.RunConserves | crates/hedge-broker-simulated/src/lib.rs:209-287 | After any requests since a symbol's book was set, the quantity seeded at each price is what still rests there plus what the orders since then took there |
| BrokerRuns.SubmitConservesIff | crates/hedge-broker-simulated/src/lib.rs:219-253 | The total over all orders survives an accepted submission if and only if its id replaces no order that had taken there, which only a saturated counter can cause |
| BrokerRuns.ModifyKeepsFilledIff | crates/hedge-broker-simulated/src/lifecycle.rs:133-148 | After a modification `Filled` still means all filled if and only if the new quantity is not the quantity already filled |
| OrderTracker.OrderLifecycleTracker.PartialFill | crates/hedge-exec/src/lifecycle.rs:169-206 | Cumulative values and state are updated together or, on a regression, an overfill or an illegal move, not at all |
| OrderTracker.OrderLifecycleTracker.TransitionNoFill | crates/hedge-exec/src/lifecycle.rs:230-247 | State and broker id move and one event is emitted, or the tracker is unchanged and the illegal move is reported |
| OrderTracker.PartialFillAnswers | crates/hedge-exec/src/lifecycle.rs:169-206 | A report is taken if and only if it neither shrinks nor over-fills the order and the order is `Submitted` or `PartiallyFilled`; then exactly the reported values are held and announced, `Filled` exactly when all is filled; otherwise nothing changes and the error says why |
| OrderTracker.MoveAnswers | crates/hedge-exec/src/lifecycle.rs:158-166 | Submitting succeeds exactly from `New`, cancelling from `Submitted` or `PartiallyFilled`, rejecting from `Submitted`; only state and id change, and the event says so |
| OrderTracker.TraceIsLegal | crates/hedge-exec/src/lifecycle.rs:158-286 | Whatever is called in any order, the emitted states are a prefix of Submitted, partial fills and one end, or Submitted and Rejected, ending in the tracker's state |
| OrderTracker.CallKeepsTrackerOk | crates/hedge-exec/src/lifecycle.rs:158-217 | Every call keeps fills within the request and `Filled` equivalent to all filled, never shrinks fills, and changes nothing when it fails |
| OrderTracker.RunKeepsTrackerOk | crates/hedge-exec/src/lifecycle.rs:158-217 | The same over any sequence of calls |
| OrderTracker.RawTransitionKeepsLawIff | crates/hedge-exec/src/lifecycle.rs:222-228 | A raw transition keeps that law if and only if its target is not `Filled` |
| FillReports.QuantitiesAddUp | crates/hedge-exec/src/engine.rs:343-363 | For any reports in sequence, the emitted quantities sum to what the tracker filled and never exceed the request |
| FillReports.PriceExactIff | crates/hedge-exec/src/engine.rs:351-354 | A per-fill price is within one paisa of the true one if and only if that price fits `i64` |
| FillReports.ReportsRebuild | crates/hedge-exec/src/engine.rs:311-365 | The average rebuilt from the emitted fills is strictly within one paisa of the broker's cumulative average, for any number of reports |
| FillReports.KeepsRebuiltIff | crates/hedge-exec/src/engine.rs:343-363 | An accepted report keeps every rebuilt history within one paisa if and only if a repeated quantity repeats its average and a new quantity's price fits `i64` |
| FillReports.RedeliveryCanMisprice | crates/hedge-exec/src/engine.rs:345-350 | A concrete run where a repeated quantity with another average emits no fill and breaks the rebuilt average |
| FillReports.PriceCanWrap | crates/hedge-exec/src/engine.rs:351-354 | A concrete accepted report whose per-fill price wraps to -2 and breaks the rebuilt average |
| FillInterleaving.FillsExactIff | crates/hedge-exec/src/engine.rs:331-363 | Under any interleaving of fills, submissions, cancellations and rejections of an order, the tracker never over-fills, the emitted quantities are what it filled plus what stale readings missed, and they are exact if and only if the order never grew between the two locks of an accepted report |
| FillInterleaving.AloneIsSerial | crates/hedge-exec/src/engine.rs:331-363 | The two locks taken in a row are the serial report |
| FillInterleaving.AcceptEmits | crates/hedge-exec/src/engine.rs:337-363 | An accepted report emits the tracker's growth and, once more, what its reading missed |
| FillInterleaving.RaceOverReports | crates/hedge-exec/src/engine.rs:333-340 | A concrete execution: two deliveries of 6 of an order of 10 emit 12 while the tracker holds 6 |
| Retry.ScheduleExact | crates/hedge-exec/src/retry.rs:63-89 | Without jitter the saturating schedule is min(cap, base * 2^min(attempt - 1, 31)) over the naturals |
| Retry.ScheduleMonotone | crates/hedge-exec/src/retry.rs:63-89 | Without jitter the schedule never decreases |
| Retry.BackoffCapped | crates/hedge-exec/src/retry.rs:76-88 | No jitter, finite or not, takes a wait beyond the cap |
| Retry.JitterExact | crates/hedge-exec/src/retry.rs:76-88 | With jitter the wait is the schedule moved by the unit's share of `jitterBps` ten-thousandths of it, rounded down, kept between 0 and the cap |
| Retry.JitterMonotone | crates/hedge-exec/src/retry.rs:76-88 | A larger jitter unit never shortens the wait |
| Retry.CallsStopFirst | crates/hedge-exec/src/retry.rs:222-243 | The loop ends at the first success or fatal error, or else uses the whole budget |
| Retry.RetryWithBackoff | crates/hedge-exec/src/retry.rs:210-252 | The loop returns that outcome, runs at most max(1, maxAttempts) times, waits exactly once less often, each wait as scheduled and their sum within (calls - 1) * cap |
| AdapterStatistics.AdapterStats.Record | crates/hedge-exec/src/router.rs:144-163 | The ring holds the last `capacity` samples |
| AdapterStatistics.AdapterStats.ErrorRate | crates/hedge-exec/src/router.rs:166-175 | The error rate of the ring is that of its window wherever the ring starts |
| AdapterStatistics.AdapterStats.P99LatencyMs | crates/hedge-exec/src/router.rs:178-199 | The p99 of the ring is that of its window wherever the ring starts |
| AdapterStatistics.P99IsLargest | crates/hedge-exec/src/router.rs:178-199 | Below a hundred samples the nearest-rank p99 is the largest measured latency, 0 if none |
| AdapterStatistics.FailuresCounted | crates/hedge-exec/src/router.rs:166-175 | The failures are the number of samples that failed |
| AdapterStatistics.MeasuredAre | crates/hedge-exec/src/router.rs:178-199 | The measured latencies are those of the samples, without the not-measured mark |
| AdapterStatistics.ErrorRateReachesIff | crates/hedge-exec/src/router.rs:166-175 | The rounded rate reaches a threshold if and only if failures * 10000 reach threshold * length |
| Router.BrokerRouter.RecordOutcome | crates/hedge-exec/src/router.rs:357-417 | Active slot, both windows and the event are those of the specified outcome |
| Router.ActiveWindow | crates/hedge-exec/src/router.rs:357-417 | The active window is the last 64 outcomes since the last failover |
| Router.FailoverIff | crates/hedge-exec/src/router.rs:370-416 | After any outcomes, the next switches if and only if that window has `minSamples` entries and its failures or its largest latency reach a threshold |
| Router.FailoverMade | crates/hedge-exec/src/router.rs:383-416 | After any outcomes the active slot is the parity of the events so far, and the next outcome either switches to the other slot, announced with both slots and the breaching window's rate and largest latency, that window kept and the other empty, or changes no slot and only extends the active window |
| Router.EventsAlternate | crates/hedge-exec/src/router.rs:392-413 | The i-th event of any run leaves the slot of parity i for the other |
| Router.CannotFlap | crates/hedge-exec/src/router.rs:357-417 | n outcomes cause at most n / max(1, minSamples) failovers |
| RouterInterleaving.StepHolds | crates/hedge-exec/src/router.rs:383-416 | An atomic step adds an event only with a swap its thread made, and returns only the event its thread held |
| RouterInterleaving.AloneIsSerial | crates/hedge-exec/src/router.rs:357-417 | The atomic steps of one uninterrupted call leave the router, the swap and the returned event of the serial call |
| RouterInterleaving.FailoversAlternate | crates/hedge-exec/src/router.rs:357-417 | Under any interleaving, swaps alternate from primary to backup and back, the active slot is their parity, each saw a threshold reached, and each event is returned once |
| EngineSteps.TranslationKeeps | crates/hedge-exec/src/engine.rs:506-528 | Exactly the intents some order stands for translate, and only the quantity changes, to the sized one |
| ExecutionEngine.ExecutionEngine.Submit | crates/hedge-exec/src/engine.rs:182-301 | Tokens, trackers, router and result are those of the specified submission on every path; the adapter is called exactly as often as the retry loop says and never before the checks pass |
| ExecutionEngine.ExecutionEngine.HandleSubmitOk | crates/hedge-exec/src/engine.rs:423-456 | An acknowledgement moves the order and the router together, or, on an illegal move, neither |
| ExecutionEngine.ExecutionEngine.HandleSubmitErr | crates/hedge-exec/src/engine.rs:458-499 | An error rejects the order through `Submitted` and reports a failure only when it counts toward failover |
| ExecutionEngine.ExecutionEngine.OnFill | crates/hedge-exec/src/engine.rs:311-365 | With both locks taken in a row, only the order's tracker changes, with a fill event exactly for a grown quantity |
| ExecutionEngine.AcceptReport | crates/hedge-exec/src/engine.rs:337-363 | The second lock and the event, whatever the tracker held when the prior values were read |
| ExecutionEngine.ExecutionEngine.Cancel | crates/hedge-exec/src/engine.rs:368-405 | The active adapter is asked with the tracker's broker id, and only an agreed cancellation changes the order |
| EngineAnswers.SubmissionRefused | crates/hedge-exec/src/engine.rs:222-267 | `InvalidToken` exactly when the token does not verify, `DuplicateToken` exactly when it verifies and is spent, the translation error exactly otherwise before any broker; what each leaves behind |
| EngineAnswers.SubmissionAcknowledged | crates/hedge-exec/src/engine.rs:423-456 | An acknowledged order still new is announced `Submitted` with its id, broker, quantities, broker id and time, then the switch exactly when the active slot changed; one further on fails with the illegal move |
| EngineAnswers.SubmissionFailed | crates/hedge-exec/src/engine.rs:269-297 | The error is the last broker error with broker and attempt, or that the budget ran out when it was transient or from the network |
| EngineAnswers.AttemptsMade | crates/hedge-exec/src/engine.rs:269-283 | Attempts go on exactly through transient and network errors, within the budget |
| EngineAnswers.ErrorFolded | crates/hedge-exec/src/engine.rs:458-499 | The error event, then the moves that reject an order not past `Submitted`, then the switch exactly when the active slot changed |
| EngineAnswers.FillAnswers | crates/hedge-exec/src/engine.rs:311-365 | A report of a known order is taken if and only if it fits and the order is live; then only that order changes, its state is announced and a fill of exactly what is new; otherwise nothing changes |
| EngineAnswers.CancelAnswers | crates/hedge-exec/src/engine.rs:368-405 | A cancellation succeeds if and only if the adapter agreed and the order is live, changing its state alone; a refusal returns the adapter's error under the order's broker and changes nothing |
| EngineRuns.LoopEnds | crates/hedge-exec/src/engine.rs:269-283 | The submission's outcome in terms of the adapter's answers: all but the last are retryable errors, and exhausting the budget hides the last one |
| EngineRuns.NewOrderOutcome | crates/hedge-exec/src/engine.rs:285-301 | A new order that reaches a broker ends `Submitted` or `Rejected` as the last answer decides, no other order changes, and the router hears at most one outcome: success on an acknowledgement, failure exactly on a final refusal or HTTP error |
| EngineRuns.ReusedOrderOutcome | crates/hedge-exec/src/engine.rs:255-301 | With an order id used again, the acknowledgement is recorded if and only if the old order was `New`, and a failure rejects the old order if and only if it was `New` or `Submitted` |
| EngineRuns.RunGrows | crates/hedge-exec/src/engine.rs:182-405 | From any point of any run of operations one at a time on, no order vanishes, changes its terms, loses fills, over-fills or leaves an end state, and no token is unconsumed |
| EngineRuns.TokenReachesOnce | crates/hedge-exec/src/engine.rs:237-246 | Of two submissions of a run with one token, the later never reaches a broker once the earlier was admitted |
| EngineRuns.FillsConserved | crates/hedge-exec/src/engine.rs:311-365 | Over any run of operations one at a time, on any orders, the fills emitted for an order sum to what its tracker holds, within its request |
| EngineRuns.FailoversCostTokens | crates/hedge-exec/src/engine.rs:451-497 | With operations one at a time, the router hears at most one outcome per consumed token, so failovers times max(1, minSamples) never exceed the tokens consumed |
| TokenSafety.StepKeepsInv | crates/hedge-exec/src/engine.rs:222-283 | Every atomic step of any thread keeps: one live holder per token, its contacts numbered attempts of one verified call |
| TokenSafety.AloneIsSerial | crates/hedge-exec/src/engine.rs:222-283 | The atomic steps of one uninterrupted submission consume the token as the serial one does and contact the active broker exactly as often as the retry loop says, never when refused |
| TokenSafety.TokensAreSafe | crates/hedge-exec/src/engine.rs:222-283 | Under any interleaving, every broker contact carries exactly the order its verified token approved, equal tokens never come from two calls, and a contact follows another under one token only after a retryable error |
| TokenSafety.TokenBudget | crates/hedge-exec/src/retry.rs:222-243 | Under any interleaving, one token causes at most max(1, maxAttempts) broker contacts |
| Interner.StepRefines | crates/hedge-market-data/src/interner.rs:55-64 | Each atomic step keeps the invariant and either does nothing visible or interns one symbol as a single atomic call would |
| Interner.InternAgrees | crates/hedge-market-data/src/interner.rs:55-64 | Under any interleaving, up to 2^32 - 1 allocations, all calls for a symbol return one id for ever, never 0, never another symbol's and at most the number of allocations |
| Interner.AloneInterns | crates/hedge-market-data/src/interner.rs:55-64 | An uninterrupted call returns a known symbol's id and allocates nothing, or takes the next id for a new one |
| Interner.OneAllocationEachIff | crates/hedge-market-data/src/interner.rs:52-64 | Under any interleaving, every allocated id is in the table, still held by its thread or burnt; at rest there is one allocation per symbol if and only if no call found its symbol inserted after allocating |
| Interner.RacersBurn | crates/hedge-market-data/src/interner.rs:56-63 | A concrete execution of two calls for one symbol that burns one id |
| Interner.AllocatesZeroIff | crates/hedge-market-data/src/interner.rs:61 | An allocation hands out 0 if and only if the allocations before it are one less than a multiple of 2^32 |
| RingWindows.RingWindow.Push | crates/hedge-core/src/window.rs:87-104 | The contents become the last N of the old contents and the new value |
| RingWindows.RingWindow.Latest | crates/hedge-core/src/window.rs:114-123 | The newest element, none when empty |
| RingWindows.RingWindow.Oldest | crates/hedge-core/src/window.rs:126-132 | The oldest element, none when empty |
| RingWindows.RingWindow.Iter | crates/hedge-core/src/window.rs:140-151 | The two slices are the contents, oldest first |
| RingWindows.RingWindow.IterRecent | crates/hedge-core/src/window.rs:159-163 | The last k of the contents, oldest first |
| RingWindows.WindowIsLastN | crates/hedge-core/src/window.rs:87-110 | After any pushes and clears, the contents are the last min(pushes, N) values since the last clear |
| LogRings.BoundedRingLogBuffer.Push | crates/hedge-obs/src/degraded.rs:186-206 | The entry is appended, and the oldest is displaced and returned exactly when the ring is full |
| LogRings.BoundedRingLogBuffer.Drain | crates/hedge-obs/src/degraded.rs:209-223 | The loop returns the contents in order and leaves the ring empty |
| LogRings.NothingLost | crates/hedge-obs/src/degraded.rs:186-223 | Over any run, everything displaced or drained in time order, followed by the contents, is everything ever pushed |
| Breadth.BreadthAggregator.OnTick | crates/hedge-market-data/src/breadth.rs:207-234 | Only the tick's symbol changes, as specified, and the pooled variance is published exactly on a batch boundary |
| Breadth.BreadthAggregator.ComputeVolatility | crates/hedge-market-data/src/breadth.rs:282-309 | The one-pass loop over every window, in any order, returns the two-pass population variance and the sample count |
| Breadth.PoolAnyFirst | crates/hedge-market-data/src/breadth.rs:289-296 | Any symbol may be pooled first, so the order of the map does not matter |
| Breadth.OnePassIsTwoPass | crates/hedge-market-data/src/breadth.rs:297-301 | The mean of squares less the squared mean is the two-pass variance, so it is never negative |
| Breadth.VolatilityIsLeast | crates/hedge-market-data/src/breadth.rs:297-301 | No other centre has a smaller mean squared deviation, so the pool's mean is its true one |
| Breadth.ReturnIsRelative | crates/hedge-market-data/src/breadth.rs:211-214 | The return is the one number that takes the previous price to the new one as a fraction of it |
| Breadth.WindowsHoldLastReturns | crates/hedge-market-data/src/breadth.rs:207-218 | After any ticks, a symbol is known if it ticked, and holds the last 60 returns of its own prices, skipping those from a price of 0 |

## Left out

- AdapterStatistics.AdapterStats.P99LatencyMs: stated for windows below 100 samples, where the nearest rank does not depend on float rounding; the router always uses 64.
- Breadth.BreadthAggregator.ComputeVolatility: gives the variance; the square root, the narrowing to `f32` and the saturation of the sample count at `u32` are not modelled.
- Retry.RetryWithBackoff: `f64` products are exact reals and the jitter source is any function of the attempt; its pseudo-random generator is not modelled.
- OrderBookLaws.SplitOrder: the two quantities need not fit `u64` together; a caller of the code can only ask for one that does.
- FillReports.ReportsRebuild: needs a repeated quantity to repeat its average and every per-fill price to fit `i64`; `KeepsRebuiltIff` shows that this is exactly what each report must do.
- OrderRecords.StaysExactIff: above `u64::MAX - 2` filled units only one direction holds; `FullRecordHidesDrift` shows why.
- EngineRuns.FillsConserved: operations one at a time; `FillInterleaving` treats calls for one order that overlap.
- EngineRuns.FailoversCostTokens: operations one at a time, since the windows are reset only after the swap; `RouterInterleaving` treats callers that overlap.
- ExecutionEngine.ExecutionEngine.OnFill: takes the two locks in a row; `AcceptReport` is the second one alone and `FillInterleaving` the general case.
- Interner.InternAgrees: stops at the wrap of the 32-bit counter; `AllocatesZeroIff` says what happens there.
- Sector breadth, best bid and ask, level totals, `clear`, `get`, `len` and the other plain accessors: easy members.
- `pick_for_intent` with a broker hint and `force_primary`: they move the slot without an event; the engine never passes a hint.
- Per-fill prices when calls of `on_fill` overlap; their quantities are treated.
- The events a failed `submit` has collected and then drops: the code returns only the error.
- Signature computation, broker REST clients, message bus, metrics, latency records, tracing, replay mode, configuration and the JSON front end.
