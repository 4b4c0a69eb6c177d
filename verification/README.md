# Trade surveillance engine: verified model

A Dafny model of the engine in `cpp/`: the bounded queue between the feed and the consumer, the order
book and the per-instrument pipeline above it, the streaming detectors, the machine-learning scoring
path, and the text codecs. Objects the program updates in place are classes here, with the program's
fields; each of their methods is proved against a function on values, and what the program is for is
then proved about those functions for all inputs, all runs, or all interleavings.
`dafny verify dfyconfig.toml` checks everything.

How the files fit together:

- **The queue.** `SpscRing` is `push` and `pop` cut into their atomic steps, with the compare-and-swap
  free to fail spuriously; `SpscRingSafety` proves the invariant of every interleaving,
  `SpscRingTheorems` what it means, `SpscRingProgress` that no push is ever stuck, `SpscRingRetries` how
  often one can retry under any schedule, `SpscRingExtremes` that the bounds are reached, and
  `SpscRingAlone` what a pop does undisturbed. `CellIndex` justifies the bit masks. `RingDrain` adds the
  feeder and the `run` loop that three classes share, and `RingDrainProgress` that the loop ends.
  `SpscRingBuffer` is the code on its own arrays, used by one thread at a time.
- **The book.** `BookModel` is the reference: one list of live orders in priority order, each with a
  stamp of when it gained its place and a mark if it has lost its index entry. `OrderBookState` relates
  that list to levels, index and list nodes, and `OrderBook` is the program's class. `BookProperties`,
  `BookOutcomes` and `DepthSnapshots` prove priority, conservation, what each event leaves behind, and
  snapshot faithfulness of the reference.
- **The pipeline and its consumers.** `PipelineModel`, `LivePipeline`, `ConsumerModel`, `LiveConsumer`,
  `LiveBookRegistry`, `MlScoringWorker`; `ReplayEvents` for the merged input of a replay and
  `ReplayRuns` for what becomes of it: books reject some events, the detectors are shown the rest.
- **Detectors.** `SpoofingScore`, `SpoofingModel`, `SpoofingLayering`, `SpoofingCounts`, with
  `SpoofingSignals` and `SpoofingVerdicts` for what the score and a verdict mean; `Holdings`,
  `CouplingState`, `Coupling`, `CouplingRuns` and `SpoofingInPipeline` for the agreement between the
  spoofing detector's own copy of the resting orders and the books, in a pipeline with any number of
  detectors; `Accounts`, `AccountGroups`, `CloseVolumes`, `CloseRuns`, `CloseVerdicts` and
  `MarkingTheClose`; `RollingWindow`, `FrontRunning` and `FrontRunningVerdicts`; `StatisticalBaseline`;
  `MlWindow` and `MlRequests`.
- **Shortfalls.** `Shortfalls` holds concrete received inputs for the places where the code falls short.
- **Codecs.** `Text`, `PgTextArray`, `CsvLine`, `FlatJson`, `FlatJsonParser`, `EventCodec`, and
  `CodecTexts` for the exact texts.

Prices, scores and features are exact real numbers; quantities, timestamps and counters are unbounded
integers. An exception is an error value (`ok == false` or `None`). Keys the program builds by joining
ids with `|` are tuples.

Where the code falls short of what its comments promise, the code is modelled as it is, and a lemma
says exactly when the promise holds:

- `spsc_ring_buffer.hpp:111-114` says that `push` never blocks and discards the oldest element if the
  buffer was full. It waits while the consumer sits between its CAS and its store on the wanted cell; only
  then, and as often as its own CAS fails spuriously, can it retry without bound (`PushSpinsOnlyWaiting`).
  It can discard up to capacity - 1 elements (`PushDropBound`), and from a buffer that is not full. One
  run for every capacity shows the wait and the drops (`DropBoundIsReached`).
- A Replace that keeps its place takes over the index entry of any order that already has the new id
  (`order_book.cpp:81-85`); three events from an empty book are enough (`TheftHappens`). Index and levels
  stay in bijection if and only if that does not happen (`IntactIffNoTheft`, `BijectionIffNothingLost`).
  The reference marks the order that lost its entry, so that it describes the program after such an
  event as well: the lost orders are exactly those whose ids were taken (`LostAreStolen`), and each stays
  in its queue for ever, shown and counted, where no event finds it (`LostForEver`). No pointer dangles
  (`ValidIsSound`). A replay never contains such an event (`ReplayStealsNoId`).
- A Replace that loses its place removes the original before the duplicate check can throw
  (`order_book.cpp:71-74`), so a rejected Replace can lose an order (`RejectedReplaceCanLoseAnOrder`,
  `RejectionLeavesOrders`).
- The spoofing detector's counters are exact after an event if and only if the event tracks no id that
  is already tracked (`CountsStayExactIff`), and it agrees with the books if and only if the event is
  coherent (`CoupledIffCoherent`). Two events are enough to break either: the same id used on two
  instruments (`SameIdOnTwoInstruments`), or a Cancel that names an order of another instrument
  (`CancelOnTheWrongInstrument`).
- `evaluation.hpp:120-133` says that the interval before a triggering timestamp always contains the
  scored window. Timestamps may fall back inside a window without a reset, and then it does not
  (`ReachCanMissACountedOrder`, carried to a wrong verdict on a submitted window); an order counted in the
  window is in the interval exactly when it is not later than the trigger (`ReachIsOneSided`).

The results the rest leads up to are the invariant of every interleaving and what follows from it
(`RunKeepsInv`, `Conservation`, `PushDropBound`, `PushSpinsOnlyWaiting`, `DrainIsBounded`); the book and
pipeline objects against their references for every event (`ApplyEvent`, `Process`, `RunProjects`,
`LostAreStolen`, `QuantityIsConserved`, `SnapshotIsFaithful`); sequential results under every schedule
(`ReplayIsSequential`, `WorkerAccounts`); the agreement of detector and books (`CoupledIffCoherent`,
`DisciplinedRunStaysInStep`); what each detector reports, against descriptions of their own
(`ScoreIsAsDescribed`, `CancelIsJudged`, `AlertIffConcentrated`, `EveryVictimIsReported`,
`RequestIffDue`); grouping and silence (`SameRootIffConnected`, `OneAlertPerGroup`); the windows
(`WindowHoldsSurvivors`, `ReplayedReactionsAreExact`, `ReplayedAbuseIsPositive`); the running statistics
(`WelfordIsTwoPass`); and the round trips of the codecs. Other rows are the steps these rest on, or
facts about a single step that a caller may want, such as `PartialFillKeepsPlace`, `ReplacePriority` and
`RejectionLeavesOrders`.

## Model

| member | source | states |
|---|---|---|
| SpscRing.SameCellFarApart | cpp/ingestion/spsc_ring_buffer.hpp:120-120 | two logical indices that share a cell are at least a whole lap apart |
| CellIndex.MaskIsSlot | cpp/ingestion/spsc_ring_buffer.hpp:99-120 | for a power of two, masking an index with capacity - 1, bit by bit, picks the cell left after all whole laps |
| CellIndex.SharesNoBitIffPowerOfTwo | cpp/ingestion/spsc_ring_buffer.hpp:100-102 | the bit test of the constructor holds exactly of the powers of two |
| SpscRingSafety.StepKeepsInv | cpp/ingestion/spsc_ring_buffer.hpp:115-208 | every atomic step of either thread, with the other anywhere, keeps the protocol invariant |
| SpscRingSafety.RunKeepsInv | cpp/ingestion/spsc_ring_buffer.hpp:115-208 | every interleaving of any length keeps it |
| SpscRingSafety.SeenPublished | cpp/ingestion/spsc_ring_buffer.hpp:181-184 | a cell that reads `pos + 1` to a claimer, at or behind the head, is published and nothing else |
| SpscRingSafety.HoldersApart | cpp/ingestion/spsc_ring_buffer.hpp:194-199 | the two claimers never hold the same element nor two elements of one cell |
| SpscRingTheorems.CellIsInOneState | cpp/ingestion/spsc_ring_buffer.hpp:119-141 | in every reachable state each cell is exactly one of vacated, published, or claimed and not yet freed |
| SpscRingTheorems.CellHasOneOwner | cpp/ingestion/spsc_ring_buffer.hpp:63-68 | the two threads are never both entitled to touch one cell's data |
| SpscRingTheorems.ClaimerTakesItsIndex | cpp/ingestion/spsc_ring_buffer.hpp:184-193 | whoever claims logical index i takes exactly the i-th pushed value |
| SpscRingTheorems.Conservation | cpp/ingestion/spsc_ring_buffer.hpp:124-145 | pushed = popped + dropped + claims in flight + resident, at every moment of every run; at most a capacity of elements is unclaimed |
| SpscRingTheorems.PoppedInPushOrder | cpp/ingestion/spsc_ring_buffer.hpp:145-148 | popped and dropped indices partition the claimed prefix, and the popped values are a strictly increasing subsequence of the pushes |
| SpscRingTheorems.PopFailsOnlyWhenEmpty | cpp/ingestion/spsc_ring_buffer.hpp:200-201 | `pop` answers false only if nothing published was unclaimed at its sequence load |
| SpscRingAlone.PopAlone | cpp/ingestion/spsc_ring_buffer.hpp:148-208 | with the queue to itself and whatever its CAS does, a pop that answers has removed and handed out the oldest element, or nothing if the queue was empty |
| SpscRingAlone.EmptyPopAnswersFalse | cpp/ingestion/spsc_ring_buffer.hpp:176-201 | on an empty queue with no push under way a pop answers false after two loads and changes nothing |
| SpscRingAlone.FullPopAnswersTrue | cpp/ingestion/spsc_ring_buffer.hpp:176-199 | on a queue that is not empty a pop left alone answers true after five steps |
| SpscRingTheorems.PushDropBound | cpp/ingestion/spsc_ring_buffer.hpp:115-143 | one push discards at most capacity - 1 elements under any schedule, and answers true iff it discarded none |
| SpscRingExtremes.DropBoundIsReached | cpp/ingestion/spsc_ring_buffer.hpp:111-136 | for every capacity a reachable buffer that is not full, from which one push has to wait for the consumer and discards capacity - 1 elements |
| SpscRingTheorems.DroppedIsOlder | cpp/ingestion/spsc_ring_buffer.hpp:132-135 | what a push discards was pushed before what it adds |
| SpscRingTheorems.OneCellLosesAnElement | cpp/ingestion/spsc_ring_buffer.hpp:82-97 | with one cell, a concrete run of two pushes overwrites an element without counting a drop |
| SpscRingTheorems.SafeIffTwoCells | cpp/ingestion/spsc_ring_buffer.hpp:82-102 | no reachable state overwrites an unclaimed element iff the capacity is at least two |
| SpscRingRetries.PushSpinsOnlyWaiting | cpp/ingestion/spsc_ring_buffer.hpp:115-208 | under every schedule of both threads one push takes, outside waiting, at most 26 + 3 * capacity steps plus two per spurious CAS failure, and it waits for at most two steps of the consumer: it can spin only while the consumer sits between its CAS and its store on index pos - capacity |
| SpscRingProgress.PushFinishesAlone | cpp/ingestion/spsc_ring_buffer.hpp:119-143 | from every state that is not waiting, some schedule of at most 13 producer steps completes the push, with the drops that were due |
| SpscRingProgress.PushCannotFinishWaiting | cpp/ingestion/spsc_ring_buffer.hpp:124-136 | while the consumer sits between its CAS and its store on index pos - capacity, no producer steps finish the push |
| SpscRingProgress.PushCanAlwaysFinish | cpp/ingestion/spsc_ring_buffer.hpp:111-143 | from every reachable state some schedule finishes the push: no deadlock |
| SpscRingProgress.ProducerAloneKeepsDues | cpp/ingestion/spsc_ring_buffer.hpp:115-143 | in every schedule of producer steps alone, spurious CAS failures included, drops made and drops still due add up to the same number |
| SpscRingProgress.PushAloneDropsOneIffFull | cpp/ingestion/spsc_ring_buffer.hpp:111-114 | with no consumer claim in flight and no consumer steps, every schedule that completes a push, whatever its CAS outcomes, discards exactly one element if the queue is full and none otherwise |
| SpscRingProgress.PushAloneCompletes | cpp/ingestion/spsc_ring_buffer.hpp:119-143 | from every such state some such schedule of at most 13 steps completes the push |
| SpscRingBuffers.SpscRingBuffer.Create | cpp/ingestion/spsc_ring_buffer.hpp:98-106 | tests the capacity on its bits; a buffer is made, empty, iff the capacity is a power of two and at least two |
| SpscRingBuffers.SpscRingBuffer.TryClaimFront | cpp/ingestion/spsc_ring_buffer.hpp:176-208 | removes and returns the oldest element iff there is one |
| SpscRingBuffers.SpscRingBuffer.Push | cpp/ingestion/spsc_ring_buffer.hpp:115-143 | appends; a full queue loses exactly its oldest element and counts it |
| SpscRingBuffers.SpscRingBuffer.Pop | cpp/ingestion/spsc_ring_buffer.hpp:148-148 | first in, first out |
| RingDrain.ScheduleKeepsInv | cpp/pipeline/live_consumer.cpp:26-42 | every schedule of feeder and run loop keeps the drain invariant |
| RingDrain.DrainAccountsForEverything | cpp/pipeline/live_consumer.cpp:26-42 | once the loop has exited, every pushed event was popped, in push order, or counted as dropped |
| RingDrainProgress.DrainIsBounded | cpp/pipeline/live_consumer.cpp:26-42 | once the feeder is done the loop exits: under every schedule it takes at most 13 * capacity + 15 steps, and two more for each spurious CAS failure |
| RingDrainProgress.DrainCanAlwaysExit | cpp/pipeline/live_consumer.cpp:26-42 | from every state of every run some schedule leads to the exit |
| RingDrain.RoomForAllMeansNoDrops | cpp/harness/replay_runner.cpp:128-138 | with at least as many cells as pushes no schedule drops anything, at any moment |
| RingDrain.RingBufferCapacityFor | cpp/harness/replay_runner.cpp:134-138 | the least capacity a buffer accepts that is at least n and 1024 |
| BookModel.IntactIffNoTheft | cpp/orderbook/order_book.cpp:53-87 | a book whose orders can all be found stays so iff no place-keeping Replace takes a resting order's id |
| BookModel.EventKeepsWellFormed | cpp/orderbook/order_book.cpp:89-135 | whatever the event, thefts included, stamps stay strictly ordered and no two orders are found under one id |
| BookProperties.LostAreStolen | cpp/orderbook/order_book.cpp:81-85 | after any events the orders that cannot be found are exactly those whose ids were taken, one per theft, and all are still queued |
| BookProperties.LostForEver | cpp/orderbook/order_book.cpp:42-135 | a lost order stays in the book unchanged whatever events follow |
| BookModel.RunWellFormed | cpp/orderbook/order_book.cpp:89-135 | hence after any events |
| BookProperties.QueuesInInsertionOrder | cpp/orderbook/order_book.hpp:25-34 | after any events from an empty book every queue is strictly increasing in insertion stamps, whatever the timestamps |
| BookProperties.EventsOnlyAppend | cpp/orderbook/order_book.cpp:89-135 | each event keeps the surviving orders in their relative order (their old positions strictly increase), with stamp, side and price, and puts at most one order behind them all |
| BookProperties.OthersAreUntouched | cpp/orderbook/order_book.cpp:21-135 | no event, accepted or rejected, removes or changes an order it cannot find under the id it names, unless it takes that order's own id |
| BookProperties.PartialFillKeepsPlace | cpp/orderbook/order_book.cpp:129-134 | a partial fill changes one quantity and nothing else |
| BookProperties.ReplacePriority | cpp/orderbook/order_book.cpp:61-87 | an accepted Replace keeps stamp and position iff price is unchanged and quantity not raised, otherwise the order is last with a new largest stamp; either way its new id finds it |
| BookProperties.RejectionLeavesOrders | cpp/orderbook/order_book.cpp:53-127 | a rejected event leaves the orders alone iff it is not a requeueing Replace with a duplicate id; the sequence number still advances unless the instrument is wrong |
| BookOutcomes.AcceptedIff | cpp/orderbook/order_book.cpp:21-135 | an event is accepted iff it is for the instrument and a New brings an unused id, an Execution names a resting order and no more than its quantity, a Replace names a resting order and, if it must requeue it, no other order's id |
| BookOutcomes.NewIsQueuedAsSent | cpp/orderbook/order_book.cpp:21-29 | an accepted New adds one order behind all others, with the id, account, side, price, quantity and time sent |
| BookOutcomes.ReplaceIsAsSent | cpp/orderbook/order_book.cpp:61-87 | after an accepted Replace the order under the new id has the price and quantity sent; requeued it is in all respects as sent, kept in place it has its old side, account and time |
| BookOutcomes.CancelTakesOut | cpp/orderbook/order_book.cpp:42-51 | a Cancel removes the order it names, if it rests, and leaves the rest in place |
| BookOutcomes.ExecutionLeavesTheRest | cpp/orderbook/order_book.cpp:110-135 | an accepted Execution removes the order iff nothing is left, and otherwise leaves it with the remainder |
| BookOutcomes.EveryEventIsCounted | cpp/orderbook/order_book.cpp:89-127 | sequence number and last timestamp follow every event of the instrument, rejected or not, and no other |
| Shortfalls.RejectedReplaceCanLoseAnOrder | cpp/orderbook/order_book.cpp:66-74 | three events from an empty book, the last a rejected Replace after which an order is gone |
| Shortfalls.TheftHappens | cpp/orderbook/order_book.cpp:81-85 | three events from an empty book, the last an accepted Replace after which two orders queue under one id, and one of them stays in the book whatever is received later |
| BookProperties.QuantityIsConserved | cpp/orderbook/order_book.cpp:89-135 | over any events, resting quantity = entered - executed - cancelled remainders + Replace changes |
| BookProperties.RemovalLeavesOppositeBest | cpp/detectors/spoofing_layering_detector.hpp:82-89 | removing an order never moves the best price of the other side |
| OrderBooks.OrderBook.ValidIsSound | cpp/orderbook/order_book.cpp:21-87 | in every state, each index entry points at the node with that id, queued at that side and price; every queued node exists; no level is empty and no queue repeats a node |
| OrderBooks.OrderBook.BijectionIffNothingLost | cpp/orderbook/order_book.cpp:21-40 | index and levels are in exact bijection iff no order has lost its index entry |
| OrderBooks.OrderBook.LostIsUnreached | cpp/orderbook/order_book.cpp:81-85 | no index entry points at the node of a lost order |
| OrderBooks.OrderBook.InsertNew | cpp/orderbook/order_book.cpp:21-29 | appends to the order's level, or rejects a duplicate id and changes nothing |
| OrderBooks.OrderBook.RemoveResting | cpp/orderbook/order_book.cpp:31-40 | takes one order out of queue, level and index |
| OrderBooks.OrderBook.Cancel | cpp/orderbook/order_book.cpp:42-51 | removes the order if it rests, otherwise changes nothing |
| OrderBooks.OrderBook.Replace | cpp/orderbook/order_book.cpp:53-87 | refines the reference Replace in both branches, whoever has the new id |
| OrderBooks.OrderBook.ApplyOrder | cpp/orderbook/order_book.cpp:89-108 | refines the reference for every order event in every state |
| OrderBooks.OrderBook.ApplyEvent | cpp/orderbook/order_book.cpp:89-135 | any event in any state refines the reference and leaves no pointer dangling; a bijection survives iff no id is taken |
| OrderBooks.OrderBook.ApplyExecution | cpp/orderbook/order_book.cpp:110-135 | fills in place or removes, or rejects an unknown order or an overfill |
| OrderBooks.OrderBook.QtyAtPrice | cpp/orderbook/order_book.cpp:167-174 | the sum over the reference level |
| OrderBooks.OrderBook.OrderCountAtPrice | cpp/orderbook/order_book.cpp:176-180 | the length of the reference level |
| OrderBooks.OrderBook.BestPrice | cpp/orderbook/order_book.cpp:182-186 | the best price of the reference book |
| OrderBooks.OrderBook.Snapshot | cpp/orderbook/order_book.cpp:150-165 | the snapshot of the reference book |
| DepthSnapshots.SnapshotIsFaithful | cpp/orderbook/order_book.cpp:137-165 | bids strictly fall, asks strictly rise, each level is non-empty and shows exactly the orders at its price, and no order is missing |
| DepthSnapshots.SnapshotShowsQueues | cpp/orderbook/order_book.cpp:137-165 | each level shows the orders at its side and price in the order in which they gained their places, with id, account and quantity, and their total; the counters are the book's |
| DepthSnapshots.BestIsUnbeaten | cpp/orderbook/order_book.cpp:182-186 | a best price is offered by some order of the side and beaten by none |
| PipelineModel.RunProjects | cpp/pipeline/live_pipeline.cpp:32-65 | after any events each book is what its own events alone would build, the skip counter is the number of rejections, each detector has seen exactly the accepted events in order with the book after each, and the alerts are what they then reported |
| LivePipelines.LivePipeline.Process | cpp/pipeline/live_pipeline.cpp:32-65 | any event in any state: the book objects refine the step on values |
| LivePipelines.LivePipeline.BookFor | cpp/pipeline/live_pipeline.cpp:27-30 | the instrument's book, or nothing before its first event |
| ConsumerModel.ConsumerProjects | cpp/pipeline/live_consumer.cpp:7-24 | processed counts the events, skipped counts the rejections, and the pipeline behind is the sequential run |
| ConsumerModel.ConsumerAccounts | cpp/pipeline/live_consumer.cpp:26-42 | under every schedule processed + dropped = pushed, and the alerts are those of one thread over the popped events |
| ConsumerModel.ReplayIsSequential | cpp/harness/replay_runner.cpp:191-257 | with a cell for every event, as a replay has, every schedule yields the sequential run's alerts and drops nothing |
| LiveConsumers.LiveConsumer.ProcessOne | cpp/pipeline/live_consumer.cpp:7-24 | any popped event on the objects |
| LiveConsumers.LiveConsumer.Run | cpp/pipeline/live_consumer.cpp:26-42 | with the producer done, empties the queue and processes all of it in order |
| LiveBookRegistries.RecentEventsAreTheLast | cpp/api/live_book_registry.cpp:105-112 | a query returns the last min(limit, 200) events of the instrument's whole history, accepted or not |
| LiveBookRegistries.FeedIsTailOfHistory | cpp/api/live_book_registry.cpp:50-55 | each feed is the last 200 events of its instrument |
| LiveBookRegistries.RowShowsEvent | cpp/api/live_book_registry.cpp:13-48 | a row shows the event's kind, side, price, quantity, ids and time |
| LiveBookRegistries.LiveBookRegistry.RecordEvent | cpp/api/live_book_registry.cpp:50-55 | append and trim on the map of feeds |
| LiveBookRegistries.LiveBookRegistry.ProcessOne | cpp/api/live_book_registry.cpp:57-78 | any event: the consumer's step, and the feed whether or not it was skipped; feeds and consumer are those of all events recorded so far |
| LiveBookRegistries.LiveBookRegistry.Snapshot | cpp/api/live_book_registry.cpp:98-103 | the snapshot of the instrument's book, or nothing |
| LiveBookRegistries.LiveBookRegistry.RecentEvents | cpp/api/live_book_registry.cpp:105-112 | the last min(limit, 200) events of the instrument's whole history, read from the object |
| MlScoringWorkers.WorkerAccounts | cpp/ml_client/ml_scoring_worker.cpp:18-60 | under every schedule and for any answers scored + failed + dropped = submitted, and the alerts are exactly those due |
| MlScoringWorkers.EveryRequestIsScored | cpp/ml_client/ml_scoring_worker.cpp:18-60 | with room for all, no request is dropped and all are answered in order |
| ReplayRuns.EveryReplayedRequestIsScored | cpp/harness/replay_runner.cpp:172-236 | with a cell for every event of the run, whatever the detector submits fits, because an accepted event leads to at most one request: none is dropped and all are answered in order |
| MlScoringWorkers.TallyCounts | cpp/ml_client/ml_scoring_worker.cpp:18-42 | scored + failed = processed, failures are the missing answers, alerted = number of alerts <= scored |
| MlScoringWorkers.DueAreAlarming | cpp/ml_client/ml_scoring_worker.cpp:18-42 | there is one alert for each score that reaches the threshold, in order, about the request it answers |
| MlScoringWorkers.MlScoringWorker.ProcessOne | cpp/ml_client/ml_scoring_worker.cpp:18-42 | one answer moves the counters and the sink accordingly |
| ReplayEvents.MergeIsOrdered | cpp/harness/replay_runner.cpp:86-97 | the merge holds every order and execution once, by time, ties in listed order with orders first |
| ReplayEvents.OrdersComeFirst | cpp/harness/replay_runner.cpp:75-78 | an order precedes every execution and every later-listed order that is not earlier in time |
| ReplayEvents.ToIngestionEvents | cpp/harness/replay_runner.cpp:79-111 | converts the merge, or fails on an execution of an unknown order |
| ReplayEvents.ReplayNeverGoesBack | cpp/harness/replay_runner.cpp:79-111 | one event per order and execution, with timestamps that never fall |
| ReplayEvents.OrderIsReplayed | cpp/harness/replay_runner.cpp:33-48 | a simulated order is replayed as itself, as the Cancel of its own id if it was cancelled |
| ReplayEvents.ItemIsReplayed | cpp/harness/replay_runner.cpp:50-111 | an execution is replayed as itself with its order's side, and fails iff no order has its id |
| ReplayEvents.SidesAre | cpp/harness/replay_runner.cpp:79-84 | the side under an id is that of the last order listed with it |
| ReplayRuns.ReplayStealsNoId | cpp/harness/replay_runner.cpp:33-48 | no event of a replay can take the id of a resting order, whatever the book |
| ReplayRuns.ReplayedReactionsAreExact | cpp/harness/replay_runner.cpp:75-111 | in a replay whose books reject any of the events, the reactions to each accepted New are exactly those a scan of all accepted News before it finds |
| ReplayRuns.ReplayedAbuseIsPositive | cpp/harness/evaluation.hpp:120-133 | in a replay, a window that counted an abusive order is judged positive by the ground truth of all simulated orders, though the detector was shown only the accepted ones |
| SpoofingScore.ScoreFallsWithDwell | cpp/detectors/spoofing_layering_detector.cpp:145-223 | the score is in [0, 1] and an order pulled sooner never scores lower |
| SpoofingScore.ScoreConstantWhenSlow | cpp/detectors/spoofing_layering_detector.cpp:165-188 | past the slow limit dwell no longer matters |
| SpoofingScore.OwnSamplesDoNotMatter | cpp/detectors/spoofing_layering_detector.cpp:192-212 | an account's own concurrency samples never influence its score |
| SpoofingScore.ScoreRisesWithConcurrency | cpp/detectors/spoofing_layering_detector.cpp:213-223 | with a non-negative bonus weight more concurrent orders never lower the score |
| SpoofingSignals.ScoreIsAsDescribed | cpp/detectors/spoofing_layering_detector.cpp:145-223 | the score is the one number got from depth, speed, move and layering as they are described without division or clamping: a third each of the first three and the weighted bonus |
| SpoofingSignals.ScoreRisesWithMove | cpp/detectors/spoofing_layering_detector.cpp:152-158 | the further the ask rises against a Buy, or the bid falls against a Sell, the higher the score |
| SpoofingSignals.MoveIsWorthAThird | cpp/detectors/spoofing_layering_detector.cpp:175-221 | on an otherwise quiet opposite side a favorable move is worth a third before clamping, any other nothing |
| SpoofingSignals.ScoreRisesWithDepth | cpp/detectors/spoofing_layering_detector.cpp:150-150 | a larger part of its level never scores lower |
| SpoofingSignals.ScoreFallsWithChurn | cpp/detectors/spoofing_layering_detector.cpp:175-189 | more recent moves on the opposite side never score higher |
| SpoofingSignals.ForeignAre | cpp/detectors/spoofing_layering_detector.cpp:200-212 | the samples averaged are exactly those of other accounts |
| SpoofingLayering.SpoofingLayeringDetector.UpdateAmbientSide | cpp/detectors/spoofing_layering_detector.cpp:30-63 | one side's window after an event: move noted, both windows pruned by a full scan, last best kept |
| SpoofingLayering.SpoofingLayeringDetector.TrackNew | cpp/detectors/spoofing_layering_detector.cpp:66-88 | the new order is tracked, counted and sampled |
| SpoofingLayering.SpoofingLayeringDetector.EraseTracked | cpp/detectors/spoofing_layering_detector.cpp:90-102 | the order is forgotten and its counter lowered, never kept at zero |
| SpoofingLayering.SpoofingLayeringDetector.HandleExecution | cpp/detectors/spoofing_layering_detector.cpp:109-116 | the remaining quantity falls, and a finished order is forgotten |
| SpoofingLayering.SpoofingLayeringDetector.HandleCancel | cpp/detectors/spoofing_layering_detector.cpp:125-242 | retires the order and alerts iff its timing is sane and its score reaches the threshold |
| SpoofingVerdicts.CancelIsJudged | cpp/detectors/spoofing_layering_detector.cpp:125-242 | over any calls, a Cancel of an untracked order, or from before its placement, reports nothing; any other is reported iff its score, in the market the calls so far have shown, reaches the threshold, with the order, account and times it concerns |
| SpoofingVerdicts.TrackingStep | cpp/detectors/spoofing_layering_detector.cpp:66-116 | what each event does to every tracked order; a placed one is remembered with its part of its level and the opposite best price |
| SpoofingVerdicts.TrackedWerePlaced | cpp/detectors/spoofing_layering_detector.cpp:66-88 | after any calls everything tracked is remembered from the call that placed it |
| SpoofingVerdicts.OnlyCancelsReport | cpp/detectors/spoofing_layering_detector.cpp:244-273 | no other event reports anything |
| SpoofingLayering.SpoofingLayeringDetector.Evaluate | cpp/detectors/spoofing_layering_detector.cpp:244-273 | a whole call refines the transition on values |
| SpoofingCounts.CountsStayExactIff | cpp/detectors/spoofing_layering_detector.cpp:66-116 | each counter is the number of tracked orders with its key, none at zero, after an event iff the event overwrites no tracked id |
| SpoofingCounts.OverwriteBreaksCounts | cpp/detectors/spoofing_layering_detector.cpp:78-79 | overwriting a tracked id leaves the counter of its old key one too high |
| SpoofingCounts.SamplesAreTheWindow | cpp/detectors/spoofing_layering_detector.cpp:28-88 | over any calls, a sample window is the rolling window of the instrument's events |
| SpoofingCounts.MovesAreTheWindow | cpp/detectors/spoofing_layering_detector.cpp:28-64 | over any calls, a move window is the rolling window of the moves of the instrument's best price |
| SpoofingVerdicts.LastBestIs | cpp/detectors/spoofing_layering_detector.cpp:30-63 | the price a move is measured from is the last one the instrument's book has shown on that side |
| SpoofingCounts.SampleRetainedIff | cpp/detectors/spoofing_layering_detector.cpp:52-62 | a sample is kept iff every later event of the instrument was within the window of it |
| RollingWindow.WindowHoldsSurvivors | cpp/detectors/spoofing_layering_detector.cpp:37-62 | on any stream an entry survives iff no later event was too far from it, in either direction |
| RollingWindow.ForwardStreamIsFrontTrimmed | cpp/detectors/spoofing_layering_detector.cpp:37-51 | over any stream whose time never falls and whose entries carry their event's time, the contents under the full scan equal those under front-only trimming |
| SpoofingCounts.WindowsAreFrontTrimmed | cpp/detectors/spoofing_layering_detector.cpp:28-88 | so while an instrument's timestamps never fall, both of its windows, of samples and of moves, are front-trimmed ones |
| Coupling.CoupledIffCoherent | cpp/detectors/spoofing_layering_detector.cpp:66-123 | with the spoofing detector in any place among any number of detectors, its orders and quantities agree with all books, and its counters are exact, after an event iff the event is coherent |
| Coupling.MixedHosts | cpp/harness/replay_runner.cpp:113-126 | such a pipeline can be had by placing the spoofing detector among any others |
| Shortfalls.SameIdOnTwoInstruments | cpp/detectors/spoofing_layering_detector.cpp:66-88 | two accepted events after which the detector is out of step and its counters are wrong |
| Shortfalls.CancelOnTheWrongInstrument | cpp/detectors/spoofing_layering_detector.cpp:118-123 | two accepted events after which the detector has forgotten an order that still rests |
| CouplingRuns.CoherentRunStaysInStep | cpp/pipeline/live_pipeline.cpp:32-65 | hence over every coherent run, beside any other detectors |
| CouplingRuns.DisciplinedRunStaysInStep | cpp/pipeline/live_pipeline.cpp:32-65 | fresh ids, Cancels on the right instrument, and Replaces that keep account and side are enough for every run, beside any other detectors |
| SpoofingInPipeline.SnapshotAnswers | cpp/orderbook/order_book.cpp:150-186 | a snapshot gives the same best prices and level quantity as the book's own queries |
| SpoofingInPipeline.SnapshotsSuffice | cpp/detectors/spoofing_layering_detector.cpp:125-242 | a detector that only asks the snapshot does what the spoofing detector does on the book |
| SpoofingInPipeline.ProcessInStep | cpp/pipeline/live_pipeline.cpp:32-65 | a call of the pipeline object, with any detectors, leaves its spoofing detector in step with its book objects iff the event is coherent |
| Accounts.RelatedSymmetric | cpp/detectors/account_registry.cpp:17-40 | relatedness is symmetric even if only one side declares the link |
| Accounts.RelatedNotTransitive | cpp/detectors/account_registry.cpp:17-40 | it is not transitive |
| Accounts.RelatedIff | cpp/detectors/account_registry.cpp:12-40 | accounts are related iff they are one, both registered to the same known owner, or one declares a link to the other |
| Accounts.AccountRegistry.Add | cpp/detectors/account_registry.cpp:7-10 | from then on a lookup of the account finds the new entity, every other lookup finds what it did before, and no relation between two other accounts changes |
| Accounts.AccountRegistry.Lookup | cpp/detectors/account_registry.cpp:12-15 | whatever was added, finds the last entity given for the account, or nothing iff none was |
| AccountGroups.SameRootIffConnected | cpp/detectors/marking_the_close_detector.cpp:17-45 | two seen accounts have one representative iff a walk of related seen accounts joins them |
| AccountGroups.ComponentIsRootClass | cpp/detectors/marking_the_close_detector.cpp:38-45 | a component is the set of seen accounts with one representative |
| MarkingTheClose.MarkingTheCloseDetector.FindGroup | cpp/detectors/marking_the_close_detector.cpp:30-36 | ends, returns the representative, and path compression keeps the forest and every representative |
| MarkingTheClose.MarkingTheCloseDetector.RegisterAndGroup | cpp/detectors/marking_the_close_detector.cpp:17-28 | after adding an account the representatives are again those of the components |
| MarkingTheClose.MarkingTheCloseDetector.GroupMembers | cpp/detectors/marking_the_close_detector.cpp:38-45 | exactly the account's component, each member once |
| MarkingTheClose.MarkingTheCloseDetector.SumGroup | cpp/detectors/marking_the_close_detector.cpp:64-73 | the members' sums equal the group's volume counted trade by trade, and the ids have the same multiplicities |
| MarkingTheClose.MarkingTheCloseDetector.CheckAccount | cpp/detectors/marking_the_close_detector.cpp:47-97 | alerts iff no member of the component has triggered and all bars are cleared, with the component's accounts, trades and capped share |
| MarkingTheClose.MarkingTheCloseDetector.Credit | cpp/detectors/marking_the_close_detector.cpp:109-117 | total, per-account volume and trade ids are those of the trades so far |
| MarkingTheClose.MarkingTheCloseDetector.HandleExecution | cpp/detectors/marking_the_close_detector.cpp:99-131 | nothing outside the closing window; inside it, the account and then a distinct counterparty are judged; the call and its checks join the record, and the alerts are those of the new checks |
| MarkingTheClose.MarkingTheCloseDetector.ValidIsRun | cpp/detectors/marking_the_close_detector.cpp:99-131 | whatever has been handled, the checks on record, with everything seen, triggered and alerted at each, are a run over the handled executions |
| CloseRuns.TriggeredGroupStaysSilent | cpp/detectors/marking_the_close_detector.cpp:54-62 | in every run, once a check has alerted, no later check of an account that is by then connected alerts for that instrument, whatever accounts, trades and merges come between |
| CloseRuns.OneAlertPerGroup | cpp/detectors/marking_the_close_detector.cpp:54-97 | over any list of executions, two alerts for one instrument come from accounts not connected when the later was raised |
| CloseRuns.TriggeredAreAlerted | cpp/detectors/marking_the_close_detector.cpp:54-62 | at every moment of a run the accounts marked as triggered are exactly those whose check raised an alert |
| CloseRuns.SeenAreChecked | cpp/detectors/marking_the_close_detector.cpp:17-28 | at every moment of a run the accounts seen are exactly those checked |
| CloseRuns.ScoreIsCappedShare | cpp/detectors/marking_the_close_detector.cpp:75-86 | the score is the share of the window, between zero and one |
| CloseVerdicts.AlertIffConcentrated | cpp/detectors/marking_the_close_detector.cpp:47-82 | with anything traded, a check alerts iff no account of the component has triggered, both quantity bars are met, and the component has at least the threshold's part of the total |
| CloseVerdicts.AlertIsAccurate | cpp/detectors/marking_the_close_detector.cpp:82-97 | an alert names exactly the component, the window and the trade, and scores the component's part of the total, so no less than the threshold unless it is one |
| CloseVerdicts.AlertOnZeroTotal | cpp/detectors/marking_the_close_detector.cpp:75-80 | what a check decides when the total is zero |
| CloseVerdicts.CreditedIff | cpp/detectors/marking_the_close_detector.cpp:99-107 | a trade is credited iff it was handled and lies between window start and close of a known instrument |
| CloseVerdicts.PartiesAreChecked | cpp/detectors/marking_the_close_detector.cpp:118-131 | the accounts checked on a trade are its parties, each once, the account first |
| CloseVerdicts.VolumesAre | cpp/detectors/marking_the_close_detector.cpp:64-75 | a group's volume is the sum of quantity times the number of its members that are parties, the total the plain sum |
| CloseVolumes.OneMoreMember | cpp/detectors/marking_the_close_detector.cpp:64-73 | counting by member and counting by trade agree: one party once, two distinct members twice |
| CloseVolumes.GroupAtMostTwiceTotal | cpp/detectors/marking_the_close_detector.hpp:53-58 | with non-negative quantities a group has at most twice the total volume |
| FrontRunning.FrontRunningDetector.HandleNew | cpp/detectors/front_running_detector.cpp:20-102 | prunes the key's window, reports against what is left in arrival order, then joins it |
| FrontRunning.VisibleIsCandidates | cpp/detectors/front_running_detector.cpp:20-65 | while a key's timestamps never fall, pruning loses nothing that is within the lookback |
| FrontRunning.AlertsAreExact | cpp/detectors/front_running_detector.cpp:66-102 | the alerts are then exactly the brute-force ones over the whole history, in arrival order |
| FrontRunningVerdicts.EveryVictimIsReported | cpp/detectors/front_running_detector.cpp:20-102 | while a key's timestamps never fall, a New is reported against exactly the earlier large orders of other related accounts on its side and instrument, within the lookback, that it is small next to, each once and in order |
| FrontRunningVerdicts.EveryReportIsJustified | cpp/detectors/front_running_detector.cpp:20-102 | on any stream nothing else is reported |
| FrontRunning.AlertSpansAreBounded | cpp/detectors/front_running_detector.cpp:66-102 | on any stream every alert spans between zero and the lookback |
| FrontRunning.RememberedIff | cpp/detectors/front_running_detector.cpp:20-65 | on any stream an order is remembered iff every later New of its key was within the lookback of it |
| StatisticalBaseline.WelfordIsTwoPass | cpp/detectors/statistical_baseline_detector.cpp:13-19 | after any values the count, `mean * count` = sum and `m2` = sum of squared deviations |
| StatisticalBaseline.M2NonNegative | cpp/detectors/statistical_baseline_detector.cpp:21-23 | `m2` and the variance are never negative |
| StatisticalBaseline.VarianceIsTwoPass | cpp/detectors/statistical_baseline_detector.cpp:21-23 | the variance times count - 1 is the sum of squared deviations from the mean; fewer than two values have none |
| StatisticalBaseline.ScoreWithoutThreshold | cpp/detectors/statistical_baseline_detector.cpp:42-42 | under a threshold of zero every score is one, under a negative one zero |
| StatisticalBaseline.ZTestIsSquareTest | cpp/detectors/statistical_baseline_detector.cpp:35-39 | the test on the z-score, for whatever the standard deviation is, is the test on squares used here |
| StatisticalBaseline.StatisticalBaselineDetector.Evaluate | cpp/detectors/statistical_baseline_detector.cpp:25-59 | each New is judged by the strict prefix of its key, with whatever root the library answers, and only then joins it; the alert carries the clamped score |
| StatisticalBaseline.ScoreIsCappedZ | cpp/detectors/statistical_baseline_detector.cpp:39-43 | every alert scores between one half and one; it scores one iff the deviation reaches twice the threshold, and below that in proportion to the z-score |
| MlWindow.MlAnomalyDetector.HandleOrder | cpp/ml_client/ml_anomaly_detector.cpp:13-71 | the counters are those of the key's current window over all orders handled, and a request is submitted exactly when due |
| MlRequests.RequestIffDue | cpp/ml_client/ml_anomaly_detector.cpp:40-71 | a request is due iff the New orders of the window are enough and a multiple of the interval, and its features describe exactly the window's New and Cancelled orders |
| MlRequests.WindowBegan | cpp/ml_client/ml_anomaly_detector.cpp:15-42 | the window holds every countable order since the last one that could not join the window before it |
| MlRequests.OrdersForAre | cpp/ml_client/ml_anomaly_detector.cpp:13-15 | a key's windows are made of exactly the handled orders of its account and instrument |
| MlWindow.ReachIsOneSided | cpp/harness/evaluation.cpp:159-164 | on any stream a counted order is never older than the interval, and in it iff not later than the trigger |
| MlWindow.ReachCoversWindow | cpp/harness/evaluation.hpp:120-133 | on timestamps that never fall the interval contains every counted order |
| MlWindow.ReachCanMissACountedOrder | cpp/harness/evaluation.hpp:120-133 | three orders whose last timestamp falls back: their window is submitted and judged negative although it has counted an abusive order |
| MlWindow.SortedTimesAre | cpp/harness/evaluation.cpp:140-151 | the ground truth of a key is sorted and holds exactly the abusive timestamps |
| MlWindow.LowerBound | cpp/harness/evaluation.cpp:162-162 | the first position not below the bound |
| MlWindow.WindowIsPositive | cpp/harness/evaluation.cpp:153-165 | positive iff some abusive timestamp of the key lies in the interval |
| MlWindow.CountedAbuseIsPositive | cpp/harness/evaluation.hpp:120-133 | on timestamps that never fall, any window that counted an abusive order is judged positive, whatever further orders the ground truth holds |
| PgTextArray.RoundTrip | cpp/db/alert_store.cpp:27-74 | every list of strings survives encoding and decoding |
| PgTextArray.MixedRoundTrip | cpp/db/alert_store.cpp:23-26 | so does any mixture of quoted and plain unquoted elements |
| CodecTexts.ArrayElement | cpp/db/alert_store.cpp:27-40 | an element stands in quotes, with a backslash before each quote and backslash |
| CodecTexts.ArrayOfTwo | cpp/db/alert_store.cpp:27-40 | braces around, commas between |
| PgTextArray.ToPgTextArray | cpp/db/alert_store.cpp:27-40 | the loops write the array literal |
| PgTextArray.FromPgTextArray | cpp/db/alert_store.cpp:42-74 | the cursor loops read what the decoding function reads |
| CsvLine.RoundTrip | cpp/simulator/serialization/csv_writer.cpp:11-61 | parsing a line gives back every non-empty list of fields |
| CsvLine.EmptyListIsLost | cpp/simulator/serialization/csv_writer.cpp:27-61 | no line stands for no fields |
| CodecTexts.CsvField | cpp/simulator/serialization/csv_writer.cpp:11-23 | a field is quoted iff it holds a comma, quote or line break, and its quotes are doubled |
| CodecTexts.CsvTwo | cpp/simulator/serialization/csv_writer.cpp:11-23 | fields are joined by commas |
| CsvLine.CsvEscape | cpp/simulator/serialization/csv_writer.cpp:11-23 | the loop writes the field, quoted when it must be |
| CsvLine.ParseCsvLine | cpp/simulator/serialization/csv_writer.cpp:27-61 | the index loops read what the parsing function reads |
| FlatJson.ObjectInverts | cpp/ingestion/event_codec.cpp:13-72 | parsing a written object gives every key its last value, for all string contents |
| FlatJsonParsers.FlatJsonParser.ParseObject | cpp/ingestion/event_codec.cpp:44-117 | the parser with its cursor computes the parsing function, failing exactly when it fails |
| EventCodec.RoundTrip | cpp/ingestion/event_codec.cpp:127-198 | decoding an encoded event gives the event, for every event whose price survives printing |
| EventCodec.Decode | cpp/ingestion/event_codec.cpp:163-198 | decoding on the parser object |
| EventCodec.EscapeJson | cpp/ingestion/event_codec.cpp:13-25 | the loop writes the three escapes |
| EventCodec.IntRoundTrip | cpp/ingestion/event_codec.cpp:127-198 | an integer's decimal text is a numeral that reads back as the integer |
| EventCodec.NamesAreExact | cpp/fix/types.cpp:7-49 | a name decodes to a value iff it is that value's own name |
| CodecTexts.NamesAre | cpp/fix/types.cpp:7-49 | the names themselves |
| CodecTexts.OrderKeys | cpp/ingestion/event_codec.cpp:127-144 | an order travels under these keys, each with the field it names |
| CodecTexts.ExecutionKeys | cpp/ingestion/event_codec.cpp:146-161 | and an execution under these |
| CodecTexts.JsonString | cpp/ingestion/event_codec.cpp:13-25 | exactly quotes, backslashes and line breaks are escaped, and how |
| CodecTexts.JsonOfTwo | cpp/ingestion/event_codec.cpp:27-30 | the punctuation of an object |
| CodecTexts.Decimal | cpp/ingestion/event_codec.cpp:127-161 | integers are written in decimal |

## Left out

- C++ memory orderings: the steps of `push` and `pop` are sequentially consistent.
- Wrap-around of 64-bit counters and of `head_` and `tail_`.
- `size_approx`, latency samples, cache-line alignment, and the mutex of the book registry.
- Kafka, the database's SQL, HTTP and FIX sessions; a replayed topic is an order-preserving list, and a scoring call returns any optional result.
- IEEE effects: rounding, infinities, NaN prices, and the printing of prices, which `EventCodec` takes as a parameter. A score from a division by zero is one here, also where the program's is not a number (nothing traded out of nothing, a z-score of zero against a threshold of zero); a rate over a window of no length is absent.
- Evidence text and the model version on alerts.
- SpscRingBuffers.SpscRingBuffer.Push: one thread at a time; interleavings, and spurious failures of the compare-and-swap, are in `SpscRing` only.
- LiveConsumers.LiveConsumer.Run: the loop after the done flag is set, with no other thread inside the queue; every other schedule is in `RingDrain`.
- LivePipelines.LivePipeline.Process: a detector is a transition function on the book's depth snapshot; calls into unknown detector code are not modelled.
- StatisticalBaseline.StatisticalBaselineDetector.Evaluate: the square root is a parameter, any non-negative root of the variance.
- MlWindow.MlAnomalyDetector.constructor: asks for a non-zero submission interval, by which the program takes an integer remainder.
- ReplayEvents.ToIngestionEvents: the library's stable sort is a stable insertion here.
- `WashTradeDetector`, confusion matrices and threshold sweeps, JSON output, the random generators, and the simulator's scenarios: only easy members.
- The CSV files as a whole: lines are split before fields are parsed, so a field with a line break does not survive a file, and prices are printed to eight digits.
- The Python scoring service, the calibration scripts and the dashboard.
