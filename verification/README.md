# Verified model of the Binance market data aggregator

The service reads trade messages, buckets trades per symbol into exchange-time windows, and writes
one line of statistics per symbol and window. This project models its core in Dafny and proves what
the design promises of it:

- **Nothing is lost or counted twice.** In every interleaving of submitters, parser, aggregation
  threads, writer and `stop()`, the lines written for a bucket merge to exactly the aggregate of the
  valid trades among the messages whose submission succeeded, late trades included.
- **Sharding and scheduling do not show**, unless a flush overtakes a trade. In every run the output is
  the one canonical text, whatever the shard count, hash, capacities, interleaving and flush schedule,
  if and only if no trade was overtaken: added to a window that starts no later than one already
  written, or added behind a flush in progress that then writes a window starting no earlier. A trade
  that is not late is never overtaken; a late one may go unnoticed.
- **`stop()` terminates.** Once the raw queue is shut down every step makes progress and some step is
  always possible, even with full shard queues.
- **Every wake-up arrives** in the bounded queue, for any number of threads: without new calls only a
  bounded number of steps is possible, and whoever still waits then has reason to.
- **Decimals and the output text can be read back**, exactly.
- **Reconnecting does not resume after stop**, and the returned backoff is the documented one under an
  exact condition. It is stated exactly at which points of the loop and of the client's run a stop
  request is never lost, and at which it never even waits; where it is not lost, `stop()` returns after
  a bounded number of steps, and where it is, it may never return.

## How the model is organised

| file | content |
|---|---|
| `Decimals.dfy`, `DigitStrings.dfy`, `DecimalText.dfy` | fixed-point arithmetic, parsing and printing |
| `Statistics.dfy` | trades, window statistics, the commutative monoid of partial results |
| `Aggregator.dfy` | the aggregator class with its nested map, updated in place |
| `Ordering.dfy`, `Snapshots.dfy` | output order, the one-shot reference, grouping and sorting into blocks |
| `Flushing.dfy` | one uninterrupted flush over the shards' aggregator objects |
| `Serializer.dfy` | the text of lines, blocks and the whole sink, and its unique decoding |
| `BoundedQueue.dfy` | the queue's operations, the class that performs them in place, and the protocol of its threads and condition variables |
| `Pipeline.dfy` | the pipeline as a transition system |
| `PipelineHistory.dfy` | submissions, clock readings and late trades, read off the events of a run |
| `PipelineControl.dfy`, `PipelineContents.dfy`, `PipelineOrder.dfy` | the parts of its invariant |
| `PipelineTheorems.dfy`, `PipelineProgress.dfy`, `LateTrades.dfy` | what follows for every run |
| `Reconnect.dfy`, `NetworkStage.dfy` | the backoff policy, and the reconnect loop with the client's run against `stop()` |

Threads are modelled as interleaved steps, one per critical section. The pipeline's queue operations
are those of `BoundedQueues.Queue`, taken when they need not wait; that a waiting operation whose
predicate stays true does not stay waiting is what `WakeUps.WaitersSettle` proves of the queue itself.
The network thread's state holds the policy value that the policy class updates in place. The hash of a
symbol, the message parser, the clock readings and the end of a connection are arbitrary. A symbol is a
sequence of characters, each standing for one byte.

Where the code and its comments differ the model follows the code:

- a connection resets the backoff when it ends in the Read stage, not only after a message was read;
- the delay is computed unsigned and returned signed, so a promise of 2^63 ms or more is not kept;
- resetting the policy also clears its stop flag, so `stop()` of the network stage can be left waiting
  for a full backoff;
- starting a client clears the client's stop flag, and the client's `stop()` closes only a socket that is
  already open, so a request before the last socket is open can be lost for good.

## Model

| member | source | states |
|---|---|---|
| PipelineTheorems.Lossless | app/src/runtime/MarketDataPipeline.cpp:65-96 | after `stop()`, in every run, late trades included, the lines written for any bucket merge to the aggregate of exactly the valid trades of that bucket among the messages the run's events submitted with success |
| PipelineHistory.AcceptedIsSubmitted | app/src/runtime/MarketDataPipeline.cpp:93-96 | in every run the messages the pipeline has accepted are those of its successful submissions, all of them and in order |
| PipelineTheorems.CanonicalIffNotOvertaken | app/src/runtime/MarketDataPipeline.cpp:134-205 | in every run, late trades included, the final output is the one-shot output of the submitted messages if and only if no trade was overtaken by a flush |
| PipelineTheorems.LateFreeIsCanonical | app/src/runtime/MarketDataPipeline.cpp:98-205 | a run without late trades overtakes none, and leaves exactly the blocks of the one-shot aggregate of the submitted valid trades |
| PipelineHistory.LateMeaning | app/src/runtime/MarketDataPipeline.cpp:134-157 | in every run a step records a late trade exactly if it adds a trade to a shard that a flush, begun when the trade's window was over, has already extracted |
| PipelineTheorems.FlushTakesDue | app/src/runtime/MarketDataPipeline.cpp:136-151 | in every run, when a flush extracts a shard exactly the windows over at the flush's clock reading (start + window <= now) go into its result, and exactly the others stay, all unchanged |
| PipelineTheorems.FlushedIsDue | app/src/runtime/MarketDataPipeline.cpp:134-157 | at every point before the final write, every line in the sink or collected is of a window that was over when some flush began; the window in progress is withheld |
| PipelineTheorems.CanonicalIffAscending | app/src/runtime/MarketDataPipeline.cpp:134-205 | in every run the final output is the one-shot output if and only if the block starts strictly increase |
| PipelineTheorems.OutputIndependentOfSharding | app/src/runtime/MarketDataPipeline.cpp:190-204 | two runs in which no trade was overtaken, with different shard counts, hashes, capacities and schedules, that had the same trades submitted in any order write the same text |
| PipelineTheorems.WriteIsDetermined | app/src/runtime/MarketDataPipeline.cpp:177-205 | in every reachable state any ordered grouping of the collected windows is the one the write step appends, so the sort's freedom cannot show |
| PipelineTheorems.NothingLostOnTheWay | app/src/runtime/MarketDataPipeline.cpp:103-120 | at every point of every run, per shard, added, in hand, queued, held and unparsed trades concatenate in order to the shard's share of the submitted messages, and no push of the parser was refused |
| PipelineTheorems.WrittenInOrder | app/src/runtime/MarketDataPipeline.cpp:134-157 | at every point of a run in which no trade was overtaken the written window starts strictly increase across all flushes, clock steps included |
| PipelineTheorems.PrintedInOrder | app/src/output/StatsSerializer.cpp:11-20 | in such a run, for windows of at least 1000 ms, the printed seconds strictly increase as well |
| PipelineTheorems.WholeSecondsIff | app/src/output/StatsSerializer.cpp:13 | distinct window starts print as increasing seconds if and only if the window is at least 1000 ms |
| PipelineTheorems.TextDeterminesSink | app/src/output/StatsSerializer.cpp:24-48 | for windows of at least a second, equal sink texts of any two reachable states mean equal blocks |
| PipelineTheorems.TextDeterminesAggregates | app/src/output/StatsSerializer.cpp:30-47 | the text left by a stopped pipeline determines the aggregate of every bucket of the submitted messages, late trades included |
| PipelineTheorems.OnlyAppends | app/src/runtime/MarketDataPipeline.cpp:200-203 | in every run the blocks and the text of the sink at any point are the beginning of those at any later point |
| PipelineTheorems.StepInv | app/src/runtime/MarketDataPipeline.cpp:65-175 | every step of every thread keeps control, hand-off, contents and order |
| LateTrades.LateTradeSplitsWindow | app/include/agg/aggregation/MarketDataAggregator.hpp:19-24 | for every single-shard configuration and valid message there is a run that writes its window twice, so canonical output does not hold of all runs |
| LateTrades.LateTradeUnnoticed | app/src/runtime/MarketDataPipeline.cpp:134-157 | for the same configurations and messages there is a run with a late trade that no flush overtook, whose output is canonical, so lateness is not the exact condition |
| PipelineControl.StepControl | app/src/runtime/MarketDataPipeline.cpp:65-91 | every step respects the shutdown order: queues are closed only after their producers exited, threads exit only drained, queues stay within capacity |
| PipelineControl.StepHandOff | app/src/runtime/MarketDataPipeline.cpp:103-120 | every step keeps the per-shard concatenation of added, in-hand, queued and unparsed trades equal to the accepted ones |
| PipelineContents.StepContents | app/src/runtime/MarketDataPipeline.cpp:134-205 | every step keeps, for every bucket, written lines, collected lines and the shard's bucket summing to the trades added |
| PipelineOrder.StepOrder | app/src/runtime/MarketDataPipeline.cpp:134-157 | every step keeps `overtaken` equivalent to the blocks not ascending or something awaited starting no later than something written, although a flush is not atomic across shards |
| PipelineProgress.StopTerminates | app/src/runtime/MarketDataPipeline.cpp:76-90 | once the raw queue is shut down any run has a bounded number of steps, and where none is possible `stop()` has returned |
| PipelineProgress.StageStepDecreases | app/src/runtime/MarketDataPipeline.cpp:103-120 | every step of parser or aggregators strictly decreases the work queued and in hand |
| PipelineProgress.StopNeverStuck | app/src/runtime/MarketDataPipeline.cpp:65-91 | until `stop()` returns some step other than a submission is possible, full shard queues included |
| PipelineProgress.BackPressureResolves | app/src/runtime/MarketDataPipeline.cpp:103-120 | from any state, running or stopping, parser and aggregators by themselves take a bounded number of steps and stop only when nothing is queued or in hand, so a submission waiting on a full queue gets its place |
| PipelineProgress.WriterStops | app/src/runtime/MarketDataPipeline.cpp:122-132 | after the stop request the writer takes a bounded number of steps, however many submissions go on |
| PipelineProgress.JoinsDrain | app/src/runtime/MarketDataPipeline.cpp:76-88 | after the joins the queues before them and the threads' hands are empty |
| PipelineProgress.MemoryBound | app/src/runtime/MarketDataPipeline.cpp:39-45 | in every reachable state at most cap + max(cap, n) + 1 + n items are queued or in hand |
| Pipeline.ShardSizes | app/src/runtime/MarketDataPipeline.cpp:39-40 | one shard per thread and at least one; the shard queues together have the configured capacity up to less than one place per shard, or one place each |
| Pipeline.Routing | app/src/runtime/MarketDataPipeline.cpp:98-101 | a symbol's shard is its hash up to a multiple of the shard count |
| Snapshots.WriteWindows | app/src/runtime/MarketDataPipeline.cpp:177-205 | the blocks are a permutation of the windows, ascending by start and ordered by symbol; with distinct keys they depend only on which windows there are |
| Snapshots.WriteUnique | app/src/runtime/MarketDataPipeline.cpp:190-204 | with distinct keys any ordered grouping is the canonical one, so neither shard order nor an unstable sort can show |
| Flushing.FlushCompletedWindows | app/src/runtime/MarketDataPipeline.cpp:134-157 | an uninterrupted flush writes every completed window of every shard once, in canonical order, and leaves the others in place |
| Ordering.SymbolLessMeaning | app/src/runtime/MarketDataPipeline.cpp:195-198 | the symbol order is lexicographic: the first difference decides, a proper prefix comes first |
| Ordering.SortedUnique | app/src/runtime/MarketDataPipeline.cpp:191-198 | sorted outputs with equal merged contents are equal |
| Ordering.OneShotMeaning | app/src/aggregation/MarketDataAggregator.cpp:12-42 | the one-shot reference is sorted and holds the aggregate of every bucket |
| Ordering.OneShotPermutation | app/include/agg/runtime/MarketDataPipeline.hpp:34-38 | the one-shot reference does not depend on the order of the trades |
| BoundedQueues.BoundedQueue.PushSection | app/include/agg/runtime/BoundedQueue.hpp:36-49 | performs in place the push the protocol and the pipeline reason about: appends when open and not full, is refused once shut down, waits otherwise |
| BoundedQueues.BoundedQueue.PopSection | app/include/agg/runtime/BoundedQueue.hpp:53-67 | performs in place their pop: takes the oldest item, reports drained only when shut down and empty, waits otherwise |
| WakeUps.ClosedDrains | app/include/agg/runtime/BoundedQueue.hpp:69-80 | from a call of `shutdown` on, in every run, every push is refused, no pop waits, a pop reports drained only once everything ever pushed was handed out, and what was pushed before is handed out in order or still queued |
| WakeUps.WaitersAreCovered | app/include/agg/runtime/BoundedQueue.hpp:36-80 | in every run of any number of threads, queued items and free places are covered by notifications in flight or threads awake, and after a call of `shutdown` waiting threads by a pending notify_all |
| WakeUps.WaitersSettle | app/include/agg/runtime/BoundedQueue.hpp:36-80 | from any state of any run, without new calls and spurious wake-ups, the number of steps is bounded by a potential of the threads, and where no thread is active the remaining waits are justified |
| WakeUps.ActiveCanMove | app/include/agg/runtime/BoundedQueue.hpp:36-80 | an active thread always has such a step, so the bounded run can only end with no thread active |
| WakeUps.QuietIsJustified | app/include/agg/runtime/BoundedQueue.hpp:17-21 | when no thread can move, consumers wait on an empty open queue, producers on a full open one, and not both |
| WakeUps.Fifo | app/include/agg/runtime/BoundedQueue.hpp:36-67 | what callers were told was pushed is what pops handed out followed by what is queued, and the capacity is never exceeded |
| WakeUps.RunQueue | app/include/agg/runtime/BoundedQueue.hpp:36-80 | over any run from any state, queued plus pushed equals popped plus queued, in order, and the queue is closed exactly if it was or `shutdown` was called |
| Aggregation.MarketDataAggregator.AddTrade | app/src/aggregation/MarketDataAggregator.cpp:12-42 | the nested map changes exactly in the trade's bucket, and stays sound: matching keys, multiples of the window, count = buys + sells >= 1, min <= max, no empty symbol |
| Aggregation.MarketDataAggregator.WindowStatsFor | app/src/aggregation/MarketDataAggregator.cpp:44-58 | the lookup returns the sound bucket of its key, or nothing if there is none |
| Aggregation.MarketDataAggregator.ExtractAll | app/src/aggregation/MarketDataAggregator.cpp:60-73 | every bucket is returned once and none is left |
| Aggregation.MarketDataAggregator.ExtractCompleted | app/src/aggregation/MarketDataAggregator.cpp:75-99 | the map is split exactly into the returned windows before the watermark and the kept ones, unchanged |
| Aggregation.SplitSymbol | app/src/aggregation/MarketDataAggregator.cpp:82-89 | erasing while iterating takes exactly a symbol's windows before the watermark |
| Statistics.AggregateMeaning | app/src/aggregation/MarketDataAggregator.cpp:12-42 | after any trades a bucket exists exactly if it has a trade, and its statistics summarise its trades: count, volume, min, max, buy and sell split |
| Statistics.TallyMeaning | app/src/aggregation/MarketDataAggregator.cpp:20-41 | merged partial statistics of a bucket describe exactly the bucket's trades |
| Statistics.AddAllPermutation | app/include/agg/runtime/MarketDataPipeline.hpp:34-38 | any permutation of the trades gives the same aggregator state |
| Statistics.TallyPermutation | app/include/agg/runtime/MarketDataPipeline.hpp:34-38 | merging partial results does not depend on their order |
| Statistics.ExtractTally | app/src/aggregation/MarketDataAggregator.cpp:75-99 | extraction moves statistics without changing what they add up to |
| Statistics.TallyVolumeError | app/src/util/Decimal.cpp:95-114 | over N trades the volume is within N * (10^8 - 1) of the exact scaled sum, and never above it for non-negative inputs |
| Decimals.TruncDiv | app/src/util/Decimal.cpp:110 | the quotient is truncated toward zero |
| Decimals.Wrap64 | app/src/util/Decimal.cpp:110 | the cast reduces modulo 2^64 into the signed range |
| DigitStrings.DigitMeaning | app/src/util/Decimal.cpp:28 | the digit characters in their order stand for 0 to 9, in both directions |
| DecimalText.Parse | app/src/util/Decimal.cpp:8-67 | the parsing loops compute the specified outcome, each error case and overflow included |
| DecimalText.ParseAccepts | app/src/util/Decimal.cpp:8-67 | a text parses to a value if and only if it is an optional sign, digits and optionally a dot with one to eight digits, of exactly that scaled value in range |
| DecimalText.ToString | app/src/util/Decimal.cpp:69-93 | the printing loops compute the specified text, for every value whose negation fits |
| DecimalText.PrintParse | app/src/util/Decimal.cpp:8-93 | print then parse is the identity on (-2^63, 2^63), without overflow |
| DecimalText.ParsePrint | app/src/util/Decimal.cpp:8-93 | parse then print gives the text back if and only if the text was canonical |
| DecimalText.PrintAlike | app/src/util/Decimal.cpp:8-93 | two accepted texts print alike if and only if they denote the same number |
| DecimalText.PrintedIsCanonical | app/src/util/Decimal.cpp:69-93 | the printed text has no superfluous sign or zero and denotes the value |
| DecimalText.CanonicalIsPrinted | app/src/util/Decimal.cpp:69-93 | every canonical numeral is the printed form of its value |
| Serializer.Serialize | app/src/output/StatsSerializer.cpp:24-48 | the loop builds the block text, empty for an empty snapshot |
| Serializer.BlockShape | app/src/output/StatsSerializer.cpp:24-48 | a block is the label and stamp of the whole second its window starts in, its lines, and a blank line |
| Serializer.SerializeLine | app/src/output/StatsSerializer.cpp:33-40 | the concatenation of labels and values is the sequence of fields that the decoding results are about |
| Serializer.LineDecodable | app/src/output/StatsSerializer.cpp:33-40 | a line can be read off the front of any text in one way only: all its values and the rest of the text are determined |
| Serializer.SinkDecodable | app/src/output/StatsSerializer.cpp:24-48 | the concatenated text determines each block's second and every symbol, count and decimal in it |
| Serializer.StandardIsGood | app/src/output/StatsSerializer.cpp:33-40 | the program's numbers and decimals are distinguishable and free of separators |
| Reconnect.ReconnectPolicy.BaseDelayForAttempt | app/src/net/ReconnectPolicy.cpp:12-23 | the doubling loop with its 64-bit wrap-around and the signed result: the documented delay exactly if that is below 2^63 |
| Reconnect.DelayIff | app/include/agg/net/ReconnectPolicy.hpp:22-26 | for each attempt the returned delay is min(initial * 2^attempt, max) if and only if that is below 2^63 |
| Reconnect.BaseDelayIff | app/include/agg/net/ReconnectPolicy.hpp:22-26 | it is so for every 32-bit attempt if and only if the maximum is below 2^63 or the initial backoff is zero |
| Reconnect.NegativeDelay | app/src/net/ReconnectPolicy.cpp:22 | with both backoffs at 2^63 ms the returned delay is -2^63 ms |
| Reconnect.DelayMonotone | app/src/net/ReconnectPolicy.cpp:12-23 | the returned delay never shrinks with the attempt while the promise is below 2^63, and stays at the maximum once there |
| Reconnect.ReconnectPolicy.FinishWait | app/src/net/ReconnectPolicy.cpp:40-53 | performs in place the end of a wait the network model reasons about: interrupted exactly if the stop flag is set, advancing the 32-bit counter otherwise |
| NetworkStages.DelayFormula | app/src/runtime/NetworkStage.cpp:48-87 | in every run, before every attempt, the delay is min(initial * 2^k, max) exactly if that is below 2^63, k the waits among the run's events since a connection ended in the Read stage, modulo 2^32 |
| NetworkStages.StagesInOrder | app/src/net/BinanceWebSocketClient.cpp:61-136 | in every run a message is read only after lookup, connect, TLS and WebSocket handshake, each once and in order, and an error is reported for the stage that follows those completed, the host name setting aside |
| NetworkStages.NoResumedConnecting | app/src/runtime/NetworkStage.cpp:31-87 | in every interleaving after the stop flag is set at most one client is created, and only, and possibly, if the flag was set between test and creation |
| NetworkStages.StopNoticedIff | app/src/runtime/NetworkStage.cpp:31-87 | a stop request is never lost, in any interleaving, if and only if the loop is outside the client, neither creating one nor about to reset the policy, or inside it with the last socket open |
| NetworkStages.StopPromptIff | app/src/net/BinanceWebSocketClient.cpp:61-150 | `stop()` never waits for a name lookup or a push either if and only if the loop is at such a point outside the client |
| NetworkStages.LostStop | app/src/net/BinanceWebSocketClient.cpp:61-150 | for each point excluded, before the client's start, in the lookup, before the stream, before the socket, with endpoints left to try and before a reset, an interleaving that loses the request |
| NetworkStages.HeldUpByPush | app/src/net/BinanceWebSocketClient.cpp:121-136 | from each safe point inside the client an interleaving in which `stop()` waits for a push into the raw queue |
| NetworkStages.NoticedStopReturns | app/src/runtime/NetworkStage.cpp:31-46 | after a request at a safe point, once all requests are made, any run has a bounded number of steps and ends with `stop()` returned |
| NetworkStages.LostRunsOn | app/src/net/BinanceWebSocketClient.cpp:121-150 | after a request lost to an open socket there are runs of any length in which `stop()` has not returned |

## Left out

- TLS, DNS and sockets as such: lookup, connect, handshakes, reads and pushes take arbitrarily long and end arbitrarily; that closing an open socket ends the operation blocked on it is assumed.
- JSON parsing of messages and configuration: message parsing is an arbitrary function to an optional trade; a positive window and a capacity of at least one are preconditions.
- Jitter, the random generator and wall-clock accuracy: only base delays, and watermarks of arbitrary clock readings.
- Calendar formatting: the time stamp is an arbitrary function of the whole second; decoding needs it injective and free of newlines.
- Sink errors and exceptions escaping threads: the sink is a growing list of blocks.
- The item of a push in the queue's thread protocol belongs to its critical section; that a push keeps its item while it waits is not part of the protocol's state.
- Repeated `start()`, `start()` after `stop()` and concurrent callers of `stop()`.
- `Decimals.Plus`: signed overflow of a volume sum is undefined in C++; the model reduces modulo 2^64. The error bound assumes the sum fits.
- `Statistics.WindowStats`: the 64-bit trade counters are natural numbers; wrap-around after 2^64 trades is not modelled.
- `Flushing.FlushCompletedWindows`: the final flush as a loop over objects is not repeated; it is the pipeline's `FinalExtract` and `FinalWrite` steps.
- Command line, logging, connection error classification, stream target construction and deployment: straight-line code without state of its own.
