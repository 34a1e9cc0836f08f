# Swarm ranging: a verified model

The repository simulates a swarm of drones that measure their distances from radio timestamps. Every drone broadcasts
messages through a control center. A message carries the sending times of the sender's last three messages and, for up
to three neighbours, the times at which their last three messages were received. From those pairs each drone computes
the time of flight to every neighbour: first a classic double-sided estimate, then a recurrence that turns the sum of two
flight times, T12, into the next one, T23.

The model follows the code layer by layer, in the configuration as shipped (`CLASSIC_TOF_ENABLE` on,
`DYNAMIC_RANGING_FREQUENCY_ENABLE` off), and proves what each layer promises to the one above it.

| layer | files | what is proved |
|---|---|---|
| arithmetic of `ranging_struct.c` | `TofMath.dfy` | intervals across the clock's wrap-around, the sharp 64-bit bound, the recurrence as the solution of an equation for all inputs, its error contraction and exactness, the classic estimate as a weighted mean |
| rings of `ranging_struct.c` and `modified_ranging.c` | `RangingList.dfy`, `RangingBuffer.dfy`, `SendHistory.dfy` | each ring, walked backward modulo its size, refines the sequence of everything ever stored; what each search returns; which record `calculateTof` uses, and when it retries |
| both calculations on any link | `MovingLinks.dfy` | what `calculateTof` and `initializeCalculateTof` store in terms of the true times of three flights |
| one drone (`modified_ranging.c`) | `Node.dfy`, `RangingTable.dfy`, `RangingTableSet.dfy` | generating and processing a message, as functions of the drone's state and as methods over the tables; both agree |
| one drone over whole runs | `Phases.dfy`, `MessageEffects.dfy`, `PriorityQueue.dfy`, `QueueReports.dfy`, `ClockOffset.dfy`, `LossTolerance.dfy`, `ExactlyOnce.dfy`, `Pairing.dfy`, `StaleRecords.dfy`, `Exactness.dfy`, `Progress.dfy` | buffer phases, the effect of a message in closed form, what is reported over a run, when the priority queue stays fair and whom a drone reports to, invariance under clock offsets, what survives lost messages, truth of the stored pairs, exact results and progress on a static link |
| any number of drones | `Protocol.dfy`, `ProtocolProof.dfy`, `ProtocolTheorems.dfy` | every interleaving of generating, sending, delivering, losing and processing keeps one invariant; pairing, exactly-once and loss tolerance follow |
| the sum that all neighbours share | `SharedSum.dfy`, `SharedSumExample.dfy` | over every run of any number of drones on static links the sum is what all initializations contributed; the exact condition under which the average taken from it is right, and a run of three drones in which it is wrong |
| two drones | `TwoDrones.dfy`, `Conversation.dfy`, `Alternation.dfy` | over a whole run of a half-duplex static link every estimate and every reported distance is exact; taking turns without loss initializes both drones after five messages each, and every later message reports the distance and stores new records |
| task queue (`lock.c`) | `TaskQueue.dfy` | over all interleavings of three threads and two mutexes: FIFO, mutual exclusion, nobody is stuck, every accepted task can be processed |
| control center (`center_control.c`) | `Center.dfy` | total-order broadcast, the base time and swap-removal under any connects and disconnects |

Rings are specified by everything ever pushed into them: the code's slot of the i-th entry is `i % size` (`(i + 1) % size`
for the local sends, whose ring starts at top = 0), and a window function says which entries the ring still remembers. The
classes keep the code's arrays, tops and lengths, and their methods are proved against the functions of the
specification; the results about runs are then proved of those functions.

The protocol is a step system: generate a message, take the time and send it (drone.c:18-44), deliver it to another drone
with the time of its arrival (drone.c:60-108), lose it (on the channel or at a full queue), process the oldest queued
message. Besides what the code stores, a state carries history: when each message was heard, what each message's
sender knew when it generated it, and whether an initialization ever met a stale record. Every drone has its own clock.

Five results show where the code falls short, each with its exact condition and an input on which it fails.

- `updatePriority` does not keep the priority queue a permutation. A drone's queue names every neighbour once throughout
  a run if and only if each message comes from a new neighbour, from the one registered last, or from one registered
  before the neighbour heard before (`PriorityQueue.QueueTheorem`). With two neighbours it fails as soon as the first is
  heard twice in a row (`PriorityQueue.HeardTwiceInARow`).
- Nor does it only push the neighbour to the tail, as its comment says: the others keep their order if and only if the first
  entries of the queue are, apart from that neighbour, the tables before it in order (`PriorityQueue.PushesToTailIff`). Even
  a fair queue loses its order when the neighbour registered last is heard (`PriorityQueue.LastOneReorders`).
- The sum of the initial estimates is shared by all neighbours. On static links it is exactly the delay of each neighbour,
  once for every pair that its initialization stored (`SharedSum.SumTheorem`). So the average that ends the initialization
  with one neighbour is right if and only if every other neighbour has no delay or has not stored a pair yet
  (`SharedSum.AverageIsExactIffFirst`); both endings of the code are covered. A run with two neighbours
  in which the second initialization ends with a wrong average is `SharedSumExample.AverageFails`.
- A reception in a reused slot shows the Tx time of the record before it, and passes for full. An initialization that
  stores a pair stores true pairs if and only if the receive record it used has its own Tx time
  (`StaleRecords.InitializationTrueIff`); after three losses in a row it can have an old one
  (`StaleRecords.StaleTimeIsStored`). Losses after the initialization do no harm (`ProtocolTheorems.CleanTheorem`).
- The distance before, from which a report is compensated, is one global as well. A distance is reported as it is if and
  only if it is the first or equal to the last distance of whatever neighbour was heard before
  (`MessageEffects.ReportLaw`); an exact 10 ticks after a neighbour at 20 are reported as 3.82
  (`MessageEffects.OtherNeighbourCounts`).

Where the code and its comments differ, the model follows the code: an accepted distance may be 0 or 1000 (the warning
says "out of range(0,1000)"); `updatePriority` does not only move a neighbour to the tail, it also resets the entries
before it; `MAX_INITIAL_CALCULATION` counts successful initializations, not calls; and the queue's mutex does not protect
the local send buffer, which `send_to_center` writes after `QueueTaskTx` has released it
(`TaskQueueThreads.SendingOverlapsProcessing`).

## Model

| member | source | states |
|---|---|---|
| TofMath.Interval | ranging_struct.c:273-292 | the wrapping uint64 difference reduced modulo 2^40 is the difference modulo 2^40 |
| TofMath.IntervalAcrossWrap | ranging_struct.c:273-292 | for true times less than 2^40 apart the interval of their 40-bit residues is their true distance, across any wrap-around |
| TofMath.IntervalShift | ranging_struct.c:459-462 | moving both ends by the same constant modulo 2^40 leaves an interval unchanged |
| TofMath.NumeratorIsEven | ranging_struct.c:303-309 | the sum of four products is 2(Ra Rb - Da Db) |
| TofMath.HalfIsExact | ranging_struct.c:309-312 | the integer halving in the recurrence loses nothing |
| TofMath.NoOverflowBelow31Bits | ranging_struct.c:303-321 | with all intervals below 2^31 no product, partial sum or denominator leaves int64 |
| TofMath.OverflowAt31Bits | ranging_struct.c:303-321 | the bound is sharp: at 2^31 the sum of products overflows |
| TofMath.EstimateUndefinedIff | ranging_struct.c:299-321 | the exact inputs on which the code divides zero by zero |
| TofMath.BranchesInIntegers | ranging_struct.c:301-308 | for positive Da, Db the float tests decide Ra < Da, Rb < Db and which ratio is smaller |
| TofMath.RecurrenceOnDriftFreeLink | ranging_struct.c:307-314 | what either branch returns from an arbitrary T12 when the true sums are T12* and T23* |
| TofMath.ErrorContracts | ranging_struct.c:299-314 | on a static link the T23 error is exactly minus the smaller ratio times the T12 error, hence strictly smaller unless zero |
| TofMath.ChainContracts | ranging_struct.c:299-314 | after k steps the error is exactly the product of the chosen ratios times the first error, and the product is below one |
| TofMath.NotBothRatiosBelowOne | ranging_struct.c:301-308 | for a non-negative sum at most one ratio is below one |
| TofMath.MovingLink | ranging_struct.c:307-314 | moving link, exact T12: the Db branch is exact, the Da branch goes the chosen ratio of the way from the true T12 to the true T23; both lie between them |
| TofMath.ClassicIsWeightedMean | ranging_struct.c:358-359 | twice the classic estimate is the weighted mean of the two true sums and lies between them |
| TofMath.FallbackNearClassic | ranging_struct.c:316-321 | the integer fallback differs from twice the classic estimate by less than one |
| TofMath.BranchTests | ranging_struct.c:301-308 | for all intervals, zero included, the float tests decide Ra < Da, Rb < Db and Ra Db < Rb Da |
| TofMath.EstimateSolves | ranging_struct.c:299-321 | for every four intervals and every T12, when there is a T23 and the equation it solves in each branch; the fallback is the quotient without its fraction |
| TofMath.ClassicSolves | ranging_struct.c:358-359 | the classic estimate times the sum of the intervals is Ra Rb - Da Db, and it has its sign |
| TofMath.StaticLinkExact | ranging_struct.c:307-359 | static link, exact T12: every branch, the fallback included, returns the true sum |
| RangingListSpec.Search | ranging_struct.c:69-98 | among the records the ring remembers, the full one with the greatest local time below the bound, the newest among equals; NULL_INDEX exactly if there is none |
| RangingListSpec.Nearest | ranging_struct.c:76-96 | the backward walk finds the nearest eligible record of any stretch of the log |
| RangingListSpec.NearestIsUnique | ranging_struct.c:69-98 | that description determines the result |
| RangingListSpec.LooksFullBeforeFilled | ranging_struct.c:30-39 | a reception in a reused slot passes for full before its Tx half came exactly if the replaced record had a Tx time |
| RangingListSpec.FindInMeaning | ranging_struct.c:101-118 | the newest record that answers decides between done, found and missing |
| RangingListSpec.FindInHit | ranging_struct.c:107-115 | a record that answers, with none newer answering, is what the lookup returns |
| RangingListSpec.FindInMiss | ranging_struct.c:107-117 | the lookup misses if no record answers |
| RangingLists.RangingList.constructor | ranging_struct.c:19-24 | an empty list |
| RangingLists.RangingList.AddRx | ranging_struct.c:28-39 | the ring after the Rx half refines the log with a new record that keeps the stale Tx time of the reused slot |
| RangingLists.RangingList.FillRx | ranging_struct.c:42-48 | the Tx half goes to the named record and to no other |
| RangingLists.RangingList.AddFull | ranging_struct.c:51-64 | a full record is appended and its slot returned |
| RangingLists.RangingList.Search | ranging_struct.c:69-98 | the modular walk over all ten slots returns the slot of the record the specification names |
| RangingLists.RangingList.FindLocalSeqIndex | ranging_struct.c:101-118 | the modular walk returns the slot, NULL_DONE_INDEX or NULL_INDEX the specification names |
| RangingBufferSpec.SearchBuffer | ranging_struct.c:217-242 | among exactly the valid ring entries, the newest with the greatest key strictly below seq; NULL_INDEX if and only if there is none |
| RangingBufferSpec.SearchIsMonotone | ranging_struct.c:217-242 | a search that succeeds keeps succeeding for a greater seq, with a key at least as great |
| RangingBufferSpec.EstimateHasDenominator | ranging_struct.c:339-359 | whenever there is an estimate the classic denominator is positive |
| RangingBufferSpec.CalculateIsAtomic | ranging_struct.c:339-419 | a call stores exactly one node with a distance of half its sum times VELOCITY, within [0, 1000], and a non-negative sum, or changes nothing; the `last` lookup never fails, on the retry path neither |
| RangingBufferSpec.CalculateDecides | ranging_struct.c:248-426 | for every buffer and new record: the nearest record is used if and only if its distance is in [0, 1000]; the one nearest below it if and only if the first is defined and out of range and the second in range; otherwise nothing is stored; both distances and every field of the stored node |
| RangingBufferSpec.RetryStores | ranging_struct.c:340-346 | an input whose nearest record is rejected, with 9400/690 from the one before it stored and reported |
| RangingBufferSpec.NearestCausalTriple | ranging_struct.c:428-451 | A3 precedes B2 precedes A1 on the local clock with no full remembered record in between; no triple exactly when a search has nothing eligible |
| MovingLinks.CalculationOnMovingLink | ranging_struct.c:255-321 | without drift, from a true T12 of the first two of three flights: the true sum of the last two in the Db branch, between the two sums in the Da branch, the whole part of their weighted mean in neither |
| MovingLinks.InitializationStores | ranging_struct.c:428-556 | for all timestamps with a triple: stored if and only if the intervals are not all zero and Ra Rb >= Da Db; the sum, every field of both nodes and the half each goes to; the total grows by the whole part of half the sum |
| MovingLinks.InitializationOnMovingLink | ranging_struct.c:428-556 | without drift the stored sum is the mean of the two true sums weighted with the measured times, and stored if and only if that is not negative |
| RangingBuffers.RangingBuffer.constructor | ranging_struct.c:162-172 | two empty rings |
| RangingBuffers.RangingBuffer.AddRangingBuffer | ranging_struct.c:175-211 | the ring of the status gains the node, the other one stays |
| RangingBuffers.RangingBuffer.Push | ranging_struct.c:177-191 | top and length advance so that the ring holds the newest entries of the log |
| RangingBuffers.RangingBuffer.Walk | ranging_struct.c:220-228 | the backward walk over the valid entries finds the closest key |
| RangingBuffers.RangingBuffer.SearchRangingBuffer | ranging_struct.c:217-242 | the slot of the entry the specification names |
| RangingBuffers.RangingBuffer.CalculateTof | ranging_struct.c:248-426 | search, intervals, estimate, range test, one retry and store do to the rings what CalculateDecides describes |
| RangingBuffers.RangingBuffer.InitializeCalculateTof | ranging_struct.c:428-556 | triple, estimate, both stores and the truncating sum do to the rings what InitializationStores describes |
| SendHistories.SendHistory.constructor | modified_ranging.c:24-31 | an empty local send buffer |
| SendHistories.SendHistory.AddLocalSendBuffer | modified_ranging.c:59-65 | the ring that starts at top = 0 refines the log of all sends |
| SendHistories.SendHistory.FindLocalSendBuffer | modified_ranging.c:68-79 | the modular walk, which stops at a null slot, returns the slot of the send the specification names |
| SendHistories.SendHistory.NewestTxStamps | modified_ranging.c:239-259 | the newest sends, newest first, as long as none of them has a null timestamp, then nulls |
| NodeSpec.FindSendIffRecent | modified_ranging.c:68-79 | after any number of sends a sequence number is found if and only if it is one of the last ten, with its own send |
| NodeSpec.FindNeighbour | modified_ranging.c:82-89 | the first table with the address, NULL_INDEX if and only if there is none |
| NodeSpec.Register | modified_ranging.c:40-57 | a known neighbour keeps its table, a new one gets an empty table at the end, never more than ten |
| NodeSpec.UpdatePriorityIsPermutation | modified_ranging.c:92-108 | whatever the queue held before, the call leaves a permutation if and only if the entries behind position i are distinct tables behind i |
| NodeSpec.NewestReportDecides | modified_ranging.c:370-416 | of several accepted calculations in one body the one for the newest report counts |
| NodeSpec.UnitTo | modified_ranging.c:366-369 | the first body unit addressed to this drone, and none if there is none |
| NodeSpec.ProcessKeepsReady | modified_ranging.c:267-464 | processing keeps at most ten neighbours, every queue entry a valid table and every receive list non-empty |
| RangingTables.RangingTable.constructor | modified_ranging.c:14-20 | an unused table |
| RangingTables.RangingTable.NewestRxStamps | modified_ranging.c:212-225 | the report lists the newest receptions of the neighbour, newest first, then nulls |
| RangingTables.RangingTable.AverageSendSlot | modified_ranging.c:344-349 | the RECEIVER initialization ends by overwriting one slot of the send ring |
| RangingTables.RangingTable.AverageReceiveSlots | modified_ranging.c:397-404 | the SENDER initialization ends by overwriting every slot of the receive ring |
| RangingTables.RangingTable.CalculateReceiver | modified_ranging.c:342-355 | initialize below six nodes, calculate from then on, as the specification says |
| RangingTables.RangingTable.CalculateSender | modified_ranging.c:395-409 | the same for a pushed record |
| RangingTables.RangingTable.ProcessTxStamp | modified_ranging.c:318-361 | one iteration of the header loop: skip, done, fill and calculate, or missed |
| RangingTables.RangingTable.ProcessHeader | modified_ranging.c:318-361 | the header loop from the oldest stamp to the newest |
| RangingTables.RangingTable.ProcessRxStamp | modified_ranging.c:370-416 | one iteration of the body loop: skip, done, push and calculate, or missed |
| RangingTables.RangingTable.ProcessUnit | modified_ranging.c:370-416 | the body loop from the oldest report to the newest |
| RangingTables.RangingTable.FindUnit | modified_ranging.c:366-369 | the loop over the body units stops at the first one addressed to this drone |
| RangingTables.RangingTable.ProcessMessage | modified_ranging.c:313-435 | the whole effect of a message on the table of its sender and the distance it yields |
| RangingTableSets.RangingTableSet.constructor | modified_ranging.c:22-37 | ten unused tables that share no memory; the initial node |
| RangingTableSets.RangingTableSet.FindRangingTable | modified_ranging.c:82-89 | the index of the neighbour's table |
| RangingTableSets.RangingTableSet.RegisterRangingTable | modified_ranging.c:40-57 | registers a new neighbour and changes nothing else |
| RangingTableSets.RangingTableSet.MoveToTail | modified_ranging.c:96-101 | the inner loop of swaps and the final store |
| RangingTableSets.RangingTableSet.UpdatePriority | modified_ranging.c:92-108 | the whole new queue, for a known and for an unknown address |
| RangingTableSets.RangingTableSet.GenerateUnits | modified_ranging.c:206-227 | the units that UnitsFollowQueue describes; units without a neighbour keep what the memory held; the number of units written |
| RangingTableSets.RangingTableSet.GenerateRangingMessage | modified_ranging.c:198-265 | the generated message, with the unwritten units as they were, the number of units that msgLength counts, and that only the sequence number moves |
| RangingTableSets.RangingTableSet.AddLocalSendBuffer | modified_ranging.c:59-65 | the stamp carries the number of the message generated last |
| RangingTableSets.RangingTableSet.ProcessTable | modified_ranging.c:310-435 | only the sender's table and the shared sum change |
| RangingTableSets.RangingTableSet.Report | modified_ranging.c:437-452 | compensation by the last distance, which is replaced |
| RangingTableSets.RangingTableSet.ProcessRangingMessage | modified_ranging.c:267-464 | the whole state after a message and the reported distance |
| Phases.PairsBeforeCalculation | modified_ranging.c:342-409 | below six nodes a calculation adds a pair to both halves at once or nothing; calculateTof runs only when both halves hold six |
| Phases.EveryRunIsSound | modified_ranging.c:342-409 | over every run with any messages the lengths agree, nothing stored is negative and no buffer shrinks |
| MessageEffects.BodyLoopIsPushing | modified_ranging.c:370-416 | the body loop pushes its new records one after the other, the oldest first, each with its calculation |
| MessageEffects.MessageClosedForm | modified_ranging.c:313-435 | the whole effect of a message without loops: reception, at most one fill with its calculation from the sends known before, then the pushes; the distance is that of the header, of the body or the mean of both |
| MessageEffects.AverageSendChanges | modified_ranging.c:344-349 | one sum of the send half becomes a third of the total, and nothing else changes |
| MessageEffects.AverageReceiveChanges | modified_ranging.c:397-404 | every sum of the receive half does, and nothing else changes |
| MessageEffects.ReportLaw | modified_ranging.c:437-452 | over every run: no report without a distance, the first as it is, every later one beyond its value by 0.618 of its difference from the last uncompensated distance of any neighbour |
| MessageEffects.OtherNeighbourCounts | modified_ranging.c:437-452 | a distance of 10 ticks after one of 20 is reported as 3.82 |
| PriorityQueue.FairIffFalling | modified_ranging.c:92-108 | from a fair queue on, the queue names every table once after each event of a run if and only if the order of the senders is falling |
| PriorityQueue.QueueTheorem | modified_ranging.c:92-108 | so does the queue of a drone that starts, judged from the senders alone |
| PriorityQueue.HeardTwiceInARow | modified_ranging.c:92-108 | processing messages of a, b, a leaves the queue [1, 0], and one more of a leaves [0, 0] |
| PriorityQueue.UpdateShape | modified_ranging.c:92-108 | the first entries are reset, the entries behind the table move up in their order, the table follows, nothing beyond changes |
| PriorityQueue.PushesToTailIff | modified_ranging.c:92-108 | the exact condition under which the call only pushes the neighbour to the tail |
| PriorityQueue.LastOneReorders | modified_ranging.c:92-108 | a fair queue on which it does not |
| QueueReports.UnitsFollowQueue | modified_ranging.c:206-227 | the i-th unit is addressed to the neighbour the queue names at i and lists its newest three receptions; units beyond the neighbours are null |
| QueueReports.QueueReportsInTurn | modified_ranging.c:92-227 | over every run: while the queue is fair, a message reports to the neighbours at its head, to three different ones, and with more than three never to the one just heard |
| QueueReports.LeavesOutTheFirst | modified_ranging.c:92-227 | after messages of a, b, c, d and a the drone reports to b, c and d |
| ClockOffset.SameCalculation | ranging_struct.c:248-426 | a calculation on moved remote timestamps takes the same decisions and stores the same sum |
| ClockOffset.SameInitialization | ranging_struct.c:428-556 | so does an initialization |
| ClockOffset.SameProcess | modified_ranging.c:267-464 | so does the processing of a whole message |
| ClockOffset.OffsetInvariance | modified_ranging.c:267-464 | over any run, moving each neighbour's clock by its own constant changes no decision, no stored sum and no reported distance |
| LossTolerance.GeneratedHeader | modified_ranging.c:239-259 | message m names the sends m-1, m-2, m-3 |
| LossTolerance.HeaderLoopClosedForm | modified_ranging.c:318-361 | the header loop fills at most the record that was the newest, and makes at most one calculation |
| LossTolerance.ReceptionKeepsTolerance | modified_ranging.c:315-361 | each reception keeps: filled if and only if the next received number is at most three later |
| ExactlyOnce.GeneratedReport | modified_ranging.c:212-225 | a report lists the last three receptions |
| ExactlyOnce.BodyLoopPushes | modified_ranging.c:382-393 | a pushed record pairs the local send time with the reported reception time of the same message |
| ExactlyOnce.RepeatedReport | modified_ranging.c:378-381 | a report already covered is not pushed again, although the ring forgets |
| ExactlyOnce.ReportAfterReport | modified_ranging.c:366-419 | after a later report the pushes are increasing, all old ones stay, and every new one is new |
| Pairing.ProcessKeepsListsTrue | modified_ranging.c:315-419 | a true message keeps both lists true pairs of sending and reception times |
| Pairing.InitializationTrue | ranging_struct.c:428-556 | initialization stores true pairs only, unless a record that is neither filled nor the newest shows a stale Tx time |
| Pairing.CalculationTrue | ranging_struct.c:378-419 | so does an accepted calculation |
| Pairing.ProcessKeepsBufferTrue | modified_ranging.c:315-419 | both halves of every calculation record stay true pairs: during the initialization if no record is stale, afterwards whatever is lost |
| StaleRecords.ReceptionShowsOlder | ranging_struct.c:28-39 | every reception keeps: an open record shows a time older than its own Tx time |
| StaleRecords.InitializationTrueIff | ranging_struct.c:428-556 | an initialization that stores something stores true pairs if and only if the receive record of its triple is filled |
| StaleRecords.StaleTimeIsStored | ranging_struct.c:28-39 | after three losses in a row message 11 looks full with the Tx time of message 1, and initialization stores that pair |
| Exactness.InitializationExact | ranging_struct.c:428-556 | on a static link an initialization succeeds exactly if there is a causal triple, and estimates exactly the delay |
| Exactness.CalculationExact | ranging_struct.c:248-426 | on a static link a calculation succeeds exactly if the search finds a record, and gives the delay times VELOCITY in whichever branch runs |
| Exactness.ProcessIsExact | modified_ranging.c:267-464 | processing a message keeps every record exact and yields exactly the delay times VELOCITY |
| Exactness.ProcessAlwaysReports | modified_ranging.c:318-435 | once initialized, every message at most three sends after the newest one heard yields the delay times VELOCITY |
| Progress.HeaderAddsPair | modified_ranging.c:318-361 | the header of a message in reach adds a pair if the last push followed the reception before the newest |
| Progress.BodyAddsPair | modified_ranging.c:366-419 | a body that pushes something adds a pair if an earlier send precedes the newest filled reception |
| Progress.MessageAddsPairs | modified_ranging.c:315-419 | a message in reach that pushes something adds one pair, or two to a table woven so far, and leaves the table woven |
| Progress.MessageAddsRecords | modified_ranging.c:315-419 | once initialized, on a static link, a message in reach stores one record in the receive half and one in the send half for each record it pushes |
| Protocol.TableAfterProcess | modified_ranging.c:287-313 | processing replaces the table of the sender and touches no other; without room it does nothing |
| ProtocolProof.GenerateReports | modified_ranging.c:198-227 | a generated report consists of the newest receptions with their true times |
| ProtocolProof.ProcessPushes | modified_ranging.c:366-419 | at the system level, a processed report pushes only receptions not covered before |
| ProtocolProof.StepKeepsInv | modified_ranging.c:198-464 | every step of any number of drones keeps the invariant of the protocol |
| ProtocolProof.ReachableInv | drone.c:18-108 | it holds in every reachable state |
| ProtocolTheorems.PairingTheorem | modified_ranging.c:287-419 | every send record and every filled receive record of every reachable state holds the true times of one and the same message |
| ProtocolTheorems.BufferPairingTheorem | ranging_struct.c:370-419 | both halves of every calculation record are true pairs as well, unless the initialization met a stale record |
| ProtocolTheorems.CleanTheorem | ranging_struct.c:28-39 | it met none if at most two messages in a row were ever lost, or if no slot was reused; and once the initialization is over it never will, whatever is lost |
| ProtocolTheorems.ToleranceTheorem | modified_ranging.c:315-361 | in every reachable state a reception of n followed by m is Tx-filled if and only if m - n <= 3; the newest never is |
| ProtocolTheorems.FillTheorem | modified_ranging.c:315-361 | a step fills at most the newest record: each at most once and in increasing order |
| ProtocolTheorems.ExactlyOnceTheorem | modified_ranging.c:366-419 | over any run the numbers pushed for a neighbour are strictly increasing and none is pushed twice |
| ProtocolTheorems.ReportedIsPushed | modified_ranging.c:366-419 | a reported reception is missed only if its send has left the local send buffer |
| SharedSum.ProcessForMoves | modified_ranging.c:342-409 | on a static link a message moves the shared sum by exactly the delay for every pair it adds, in the header and in the body |
| SharedSum.EndingAverages | modified_ranging.c:344-349 | the message that completes the buffer leaves the average in one send slot if its header did so, and in every receive slot if its body did |
| SharedSum.EndingIsExactIffOthersVanish | modified_ranging.c:397-404 | either ending is exact if and only if every other table has no delay or no pair |
| SharedSum.SumTheorem | modified_ranging.c:342-409 | in every reachable state of any number of drones with static links the sum is the total of the delays times the pairs stored |
| SharedSum.AverageIsExactIffFirst | modified_ranging.c:342-409 | in every reachable state: the message that ends an initialization leaves one value in all slots its ending overwrites, and it is twice the delay if and only if no other neighbour with a delay has stored a pair before the message |
| SharedSumExample.AverageFails | modified_ranging.c:342-409 | a reachable state of three drones, on static links without loss, where it is not |
| TwoDrones.DisciplineMeansNoCrossing | drone.c:18-108 | on a half-duplex link no two messages cross |
| TwoDrones.PushesFollowPrevious | modified_ranging.c:366-419 | what a message pushes was sent after the previous message arrived |
| TwoDrones.StepKeepsTwoInv | modified_ranging.c:198-464 | every step of the half-duplex static link keeps both drones exact |
| TwoDrones.WholeRunExactness | ranging_struct.c:248-556 | over every such run in which the initialization met no stale record: all stored sums are twice the delay, the initial estimates sum to the delay each, and the last distance is the true one |
| TwoDrones.WholeRunReports | modified_ranging.c:267-464 | in every state such a run reaches, what the next message reports is exactly the delay times VELOCITY, and an initialized drone reports it for every message at most three sends after the newest one heard |
| Conversation.HearsNext | modified_ranging.c:267-464 | in any system: a message that covers one more own message keeps the conversation going, with two more pairs |
| Alternation.BothAreInitialized | drone.c:18-108 | two drones that take turns without loss are both initialized after ten turns, five messages of each |
| Alternation.EveryTurnReports | drone.c:18-108 | and from then on every message reports exactly the delay times VELOCITY |
| Alternation.EveryTurnStores | drone.c:18-108 | and stores a new record in both halves |
| Alternation.AlternationExists | drone.c:18-108 | such runs exist for every delay in range, every non-negative offset and every number of turns before the clock wraps |
| Alternation.AlternationIsReached | drone.c:18-108 | and they are runs of the half-duplex static link |
| TaskQueueSpec.Store | lock.c:60-69 | storing behind the window extends it by one task |
| TaskQueueSpec.Drop | lock.c:100-103 | clearing the first slot drops the oldest task |
| TaskQueueSpec.AcceptAppends | lock.c:46-73 | the section of QueueTaskRx appends a non-empty task while there is room, and otherwise changes nothing |
| TaskQueueSpec.HandOverTakesOldest | lock.c:90-103 | the section of processFromQueue takes the oldest task |
| TaskQueues.QueueTaskLock.constructor | lock.c:8-18 | an empty queue |
| TaskQueues.QueueTaskLock.QueueTaskRx | lock.c:46-73 | does to the ring what the section Accept says: appended unless it is empty or the queue is full |
| TaskQueues.QueueTaskLock.ProcessFromQueue | lock.c:90-103 | does to the ring what the section HandOver says: hands over and removes the oldest task |
| TaskQueueThreads.StepKeepsInv | lock.c:21-107 | every step of the three threads keeps the invariant of locks and ring, inside the critical sections as well |
| TaskQueueThreads.SectionsAreAtomic | lock.c:46-107 | under any interleaving the sections of the threads are the sections of the class: the queue changes only by Accept and HandOver, each at one step, and the processed task is the one handed over |
| TaskQueueThreads.SettledIsReal | lock.c:46-107 | whenever nobody holds countMutex that queue is the real ring |
| TaskQueueThreads.ProcessedIsPrefix | lock.c:46-107 | the processed tasks are a prefix of the accepted ones, in order, none lost or repeated |
| TaskQueueThreads.RingIsWindow | lock.c:46-107 | outside countMutex: tail == (head + count) % 3 and exactly the window's slots hold tasks |
| TaskQueueThreads.MutualExclusion | lock.c:21-107 | generating and processing never overlap, and countMutex has one holder |
| TaskQueueThreads.DropsOnlyWhenFull | lock.c:53-57 | a message is dropped if and only if three accepted ones are waiting |
| TaskQueueThreads.SendingOverlapsProcessing | lock.c:33-36 | recording the send time can overlap processing |
| TaskQueueThreads.NobodyIsStuck | lock.c:21-107 | whichever thread is blocked, steps of the others alone unblock it |
| TaskQueueThreads.EveryTaskIsProcessed | lock.c:76-107 | from every reachable state some continuation processes everything accepted so far |
| CenterSpec.RemoveKeepsOthers | center_control.c:71-79 | swap-removal drops the node with the socket, puts the last one in its place and keeps every other where it was |
| Centers.ControlCenter.constructor | center_control.c:4-7 | no node registered |
| Centers.ControlCenter.Register | center_control.c:31-55 | the first node sets the base time and is told it; later ones are told that time while there is room; the eleventh is rejected and changes nothing |
| Centers.ControlCenter.BroadcastToNodes | center_control.c:9-17 | one send to each registered socket, in table order |
| Centers.ControlCenter.RemoveNode | center_control.c:71-80 | the loop with its swap and break is swap-removal |
| CenterRuns.SendAllReaches | center_control.c:11-15 | a broadcast reaches each registered connection exactly once and no other |
| CenterRuns.StepKeepsInv | center_control.c:19-84 | every step of any number of connection threads keeps the invariant |
| CenterRuns.TotalOrderBroadcast | center_control.c:9-80 | every accepted socket gets the base time and then one contiguous stretch of the single broadcast log |
| CenterRuns.BaseTimeIsOpening | center_control.c:31-44 | in every reachable state the base time is the time of the registration that last found the table empty, and an accepted node is told exactly that |
| CenterRuns.SameBaseTime | center_control.c:31-44 | over every run in which the table does not get empty, all nodes that join are told one time |
| CenterRuns.SenderOrder | center_control.c:57-69 | the log keeps each sender's order, with none of its messages lost or repeated |
| CenterRuns.ActiveNodesAgree | center_control.c:31-69 | nodes registered together share one base time, and the later one has received exactly what the earlier one received since |
| CenterRuns.RegisteredOnce | center_control.c:31-80 | exactly the active connections are registered, each once, never more than ten |

## Left out

- Coordinates and the true distance computed from them: payload that no decision depends on.
- IEEE rounding: `float` is modelled by `real`.
- TofMath.Estimate: has no result where the code divides zero by zero (its exact inputs: TofMath.EstimateUndefinedIff); the code would go on with a NaN, which passes the range test, or trap.
- RangingBufferSpec.CalculateIsAtomic: on those inputs nothing is stored, while the code would store a node with a NaN.
- RangingBuffers.RangingBuffer.CalculateTof: likewise.
- RangingBuffers.RangingBuffer.InitializeCalculateTof: likewise where all four intervals are zero; and it makes the NULL_INDEX test on B2 before B2 is read, while the code reads slot -1 first and ignores what it read.
- Results about ratios require Da > 0 and Db > 0; two timestamps of one exchange are equal otherwise.
- Sequence numbers are unbounded: fewer than 65536 sends per drone.
- Drone addresses are distinct and not the null address, as if no two node ids had the same hash.
- NodeSpec.Generate: the messages of the step systems start from blank memory, as if `malloc` cleared the units that are not written (NodeSpec.GenerateInto has them as they were).
- RangingTableSets.RangingTableSet.GenerateRangingMessage: returns the number of units that msgLength counts, not the size in bytes.
- ProtocolTheorems.BufferPairingTheorem: not claimed if a message was processed, during the initialization, while a record other than the newest showed a stale Tx time; whether such a record is then used decides (StaleRecords.InitializationTrueIff).
- TwoDrones.WholeRunExactness: for one neighbour only, because the sum of initial estimates is shared (SharedSum.AverageIsExactIffFirst); for initializations without stale records, messages that do not cross and 40-bit clocks that do not wrap within the run.
- Alternation.AlternationExists: for offsets that are not negative, that is, with drone 0 on the clock that is behind.
- Protocol.Transmitted: taking the time, recording it and sending are one step, although the code records outside the mutex.
- Printing, logging, sockets, partial reads, `malloc` failure and failing sends.
- The message loss rate, the sleep that imitates the flight time, the movement simulation and the alignment rounds: any loss and any arrival time is allowed instead.
- The dynamic ranging frequency, which is not compiled in.
- A run of `processFromQueue` on an empty queue sleeps and retries; the class covers the part from PROCESS on, the threads cover the retry.
- Debug output, plotting and `data_process.py`.
