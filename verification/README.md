# Verification of the metric collector

This project models the metric collector daemon and proves properties of the model with Dafny 4.11.
`dafny verify dfyconfig.toml` checks all of it.

The daemon reads node metrics at every tick of a ticker, sends them through a router to sinks, keeps the last
intervals in a cache for aggregation, and on a signal closes its parts in a fixed order. Three groups of code are
modelled.

**The pipeline and its shutdown.** `Ticker`, `Manager` and `Router` are the goroutines as labelled transition systems:
a program counter per goroutine, an action per channel operation, the branches of each `select`. `Pipeline` composes
them with the cache goroutine, the shutdown handler, the startup of `mainFunc`, the receivers and the sinks. A send on
an unbuffered channel and its receive are one step, buffered channels are sequences of any capacity, and a `default`
branch is open only if no case is ready. `PipelineInvariant` proves the invariant of every reachable state,
`ManagerRounds` proves what every tick makes the manager do, `PipelineProperties` draws conclusions, `Schedules` speaks
of whole schedules, `Shutdown` proves deadlock freedom and a rank that every step decreases, `Liveness` concludes that
every run shuts down if the receivers run out of messages, and `FairShutdown` that every fair run does even if they
never do. `StaleTick` is a concrete run in which time stamps go back, `LostMessage` one in which a message is lost at
the shutdown.
`MetricCache` is the ring of intervals as a class, with the whole history of intervals as ghost state.

**Counters to rates.** `Rapl`, `Infiniband` and `Gpfs` are classes updated in place, read against arbitrary patterns of
failing reads; their theorems, those of the last two in `InfinibandEvents` and `GpfsEvents`, are about what whole runs
send.

**Lists, topology and sums.** `Text` and `CpuList` (two parsers of the list format of cpuset(7), section Formats),
`SortedLists` and `Topology`, `CpuInfo`, `RealSums`, `Likwid`, `Slurm`, `Evaluables` (the memo of compiled expressions
under interleaving) and `Aggregations`. `Common`, `Arithmetic` and `Sequences` hold what several modules share.

Proofs hide the definitions they do not need, which keeps each of them cheap.

Where the code differs from its documentation the model follows the code:

- `GetPeriod` does not wrap around the ring (`MetricCache.LookupExact`), and a tick passes it an absolute slot number,
  so only some ring sizes hand over the interval that ended (`MetricCache.HandOverExact`). With one record the start
  time handed on is the tick that ended the interval, not its beginning (`MetricCache.Cache.Tick`).
- Messages waiting in the router's inputs when it accepts the stop request are lost
  (`PipelineProperties.NothingLostExactly`, `LostMessage.MessageLost`).
- Serial collectors are never closed (`PipelineProperties.NothingAfterClose`).
- A buffered tick can be older than the start of the router (`StaleTick.StampsGoBackwards`).
- `gpfs_closes_rate` is computed from the counter of opens (`Gpfs.ClosesRateExact`).
- `getCpuListOfType` reports an error for every hwthread and knows no die (`Topology.GetCpuListOfType`).
- LIKWID results are keyed by CPU id but stored by thread id, so the collector panics unless the CPU ids are 0..n-1
  (`Likwid.ThreadIdsHavePlaces`).
- `cpufreq` runs past its records if the file has more frequency lines at Read than complete sections at Init
  (`CpuInfo.PanicsExactly`).
- The two parsers of CPU lists differ on the empty text, on a piece with two dashes and on white space inside the text
  (`CpuList.ParsersAgreeExactly`).

## Model

| member | source | states |
|---|---|---|
| PipelineProperties.ReadsExclusive | collectors/collectorManager.go:149-178 | in every reachable state the wait group counts the parallel Reads in flight (plus the one about to start), no collector is read twice at a time, a serial Read is alone, nothing has been closed while a Read runs |
| PipelineProperties.NothingAfterClose | collectors/collectorManager.go:129-138 | once Close of the manager has returned, every parallel collector has been closed exactly once and no serial one, every Read has ended, and no continuation of the run changes the manager: no Read starts, no message is sent |
| PipelineProperties.EveryCollectorRead | collectors/collectorManager.go:149-165 | in every reachable state in which the manager waits for a tick: for every tick so far each parallel collector has been read exactly once, and that Read is over |
| Schedules.StopHeeded | collectors/collectorManager.go:146-187 | in every schedule, once the handler waits to stop the manager no serial Read begins any more and at most one parallel one, which the manager had already decided on |
| PipelineProperties.SerialAfterParallel | collectors/collectorManager.go:166-180 | and then each serial collector once, in order, each Read beginning after the one before has returned, the first after all parallel Reads for that tick |
| PipelineProperties.EveryMessageSent | collectors/collectorManager.go:159-178 | a Read that has returned has sent every message it had to send, in order |
| ManagerRounds.StepInv | collectors/collectorManager.go:143-180 | every step of the manager or a reader keeps: the Reads started for each tick, the turns of the serial collectors, the order of the log, the messages each Read has sent and has still to send |
| PipelineProperties.EndToEnd | internal/metricRouter/metricRouter.go:243-319 | in every reachable state what the collectors (receivers) sent is what the router consumed of them followed by the channel content; each sink together with its channel has a prefix, and between forwards all, of the processed messages that were not dropped, in consumption order; the cache has been given every processed collector message |
| PipelineProperties.CacheFed | internal/metricRouter/metricRouter.go:243-287 | in every reachable state the cache has been handed the processed messages of the collectors, each one and in order, dropped ones as nothing, none of the receivers and none of its own; the last one may still be on its way; without a cache nothing |
| PipelineProperties.OutputsInStep | internal/metricRouter/metricRouter.go:250-252 | two outputs differ by at most the one message being sent, and the earlier one is ahead |
| PipelineProperties.BatchBounds | internal/metricRouter/metricRouter.go:302-318 | a visit to an input takes at least one message and, beyond the first, at most max_forward of that input alone; fewer than max_forward only if the input was then empty |
| PipelineInvariant.InnerReceiveStep | internal/metricRouter/metricRouter.go:304-306 | the receive inside a batch loop never blocks: every step keeps the input it reads from non-empty |
| PipelineProperties.TicksFanOut | pkg/multiChanTicker/multiChanTicker.go:41-50 | every channel receives a contiguous run of the ticks from its registration on; an earlier channel is never behind a later one that has had a tick, and at most one tick ahead |
| Schedules.TicksAreFired | pkg/multiChanTicker/multiChanTicker.go:36-45 | the ticks taken, and the one waiting, are the times at which the timer fired, all of them, in order |
| Schedules.AggregatesAccounted | internal/metricRouter/metricCache.go:108-121 | every aggregate the evaluations have produced has been taken by the router, found it away from its select, or waits; the router takes no other |
| PipelineProperties.StampedAfterItsTick | internal/metricRouter/metricRouter.go:245-247 | with interval stamps the i-th collector message consumed is the i-th one sent, and is stamped no earlier than the tick that triggered its Read |
| PipelineProperties.StampsDecreaseExactly | internal/metricRouter/metricRouter.go:298-300 | stamps on collector and receiver messages decrease from one message to a later one if and only if the first was stamped before any tick arrived and the tick the second carries is older than the router's start |
| PipelineProperties.StampsNeverDecrease | internal/metricRouter/metricRouter.go:298-300 | none decreases if the router has had no tick, or its first tick is not older than its start |
| StaleTick.StampsGoBackwards | internal/metricRouter/metricRouter.go:229-234 | a concrete reachable run in which that happens: the ticker's buffered tick is older than the router's start |
| PipelineProperties.CollectorStampsOrdered | internal/metricRouter/metricRouter.go:243-247 | stamps on collector messages alone never decrease |
| PipelineProperties.InputsFrozen | internal/metricRouter/metricRouter.go:291-302 | once the router has accepted the stop request, in every continuation of the run nothing more is sent to it and it consumes nothing |
| PipelineProperties.NothingLostExactly | internal/metricRouter/metricRouter.go:291-302 | in a state with a finished handler every message sent has been consumed if and only if both inputs were empty when the router accepted the stop request; what they held then is still there |
| PipelineProperties.LossBounded | cc-metric-collector.go:209-223 | in every reachable state, and so after every shutdown, no more messages are sent but not consumed than the two input channels hold |
| LostMessage.MessageLost | internal/metricRouter/metricRouter.go:291-302 | a concrete reachable run in which a collector's message is lost that way: the select takes done while the input holds it |
| Shutdown.NeverStuck | cc-metric-collector.go:71-101 | deadlock freedom: in every state with the invariant (all reachable ones have it) after the signal, some step of the program or a sink is enabled until the shutdown handler has finished |
| Shutdown.SomebodyWants | collectors/collectorManager.go:129-180 | from the stop of the ticker to the close of the receivers, startup, ticker, manager, its readers or the handler can take a step, or could if the collectors' channel had room |
| Shutdown.RankStep | cc-metric-collector.go:82-101 | after the ticker has been told to stop, every step of any component or of the environment decreases a lexicographic rank: phase, messages the receivers still have, Reads and sends left, work of router and cache, messages buffered; only a further message of receivers without a bound does not |
| Liveness.ShutdownTerminates | cc-metric-collector.go:72-101 | if the receivers send finitely many messages, every endless run in which the ticker does not for ever ignore the ready stop request reaches a finished handler |
| Liveness.FinishesOnceStopped | cc-metric-collector.go:83-101 | from the ticker's handshake on (from the close of the receivers on, if these have no bound), every run finishes, with no fairness at all |
| FairShutdown.ShutdownTerminatesFairly | cc-metric-collector.go:72-101 | with receivers that may send for ever until they are closed: every run reaches a finished handler that is weakly fair to each goroutine and in which the router does not pass over for ever a collector message it can take again and again |
| FairShutdown.ReceiversClose | cc-metric-collector.go:83-92 | in every such run the handler gets past the close of the receivers |
| FairShutdown.SomebodyCarries | cc-metric-collector.go:82-90 | in every such run, before that, a step of startup, ticker, manager, readers or handler comes again and again |
| FairShutdown.RouterSelects | internal/metricRouter/metricRouter.go:291-319 | in every such run a busy router comes back to its select: outputs get drained and batches end |
| Schedules.ShutdownInOrder | cc-metric-collector.go:80-101 | in every schedule the handler goes through ticker, manager, receivers, router, cache if there is one, and sinks, in this order and leaving none out; when it has finished each goroutine has ended |
| Liveness.StoppedSoon | pkg/multiChanTicker/multiChanTicker.go:60-65 | the stop request is taken by the time fairness names, from any select of the ticker |
| PipelineInvariant.ReachableInv | cc-metric-collector.go:236-243 | the invariant of the whole system holds in every reachable state |
| PipelineInvariant.StepInv | cc-metric-collector.go:72-101 | every step of any goroutine keeps the invariant |
| PipelineInvariant.CollConservedStep | internal/metricRouter/metricRouter.go:302-306 | no step loses, duplicates or reorders a message between collectors and router |
| PipelineInvariant.RecvConservedStep | internal/metricRouter/metricRouter.go:308-312 | the same between receivers and router |
| PipelineInvariant.OutsConservedStep | internal/metricRouter/metricRouter.go:250-252 | the same between router and sinks, within the channel capacity |
| PipelineInvariant.StagesStep | cc-metric-collector.go:82-99 | every step keeps the link between the phase of the shutdown handler and what each goroutine may still be doing |
| PipelineInvariant.CausalStep | internal/metricRouter/metricRouter.go:298-300 | every step keeps: when a collector message is stamped, the router has already had the tick of its round |
| Ticker.StepInv | pkg/multiChanTicker/multiChanTicker.go:36-50 | every step of the ticker keeps contiguous delivery, the order among channels and the position in the fan-out |
| Manager.StepInv | collectors/collectorManager.go:143-180 | every step of the manager keeps the wait-group count, the round and exclusiveness of Reads and the closed counts |
| Manager.InFlightZero | collectors/collectorManager.go:131-134 | the wait group is at zero exactly if no Read is in flight |
| Router.StepInv | internal/metricRouter/metricRouter.go:291-321 | every step of the router keeps outputs and cache equal to the processed log, the batch bounds and the stamps |
| MetricCache.Cache.constructor | internal/metricRouter/metricCache.go:54-78 | numPeriods + 1 empty records, first interval open |
| MetricCache.Cache.Add | internal/metricRouter/metricCache.go:131-147 | the metric is appended to the current interval and its time noted there; every record again holds the metrics, counts and times that the history of intervals prescribes |
| MetricCache.Cache.Rotate | internal/metricRouter/metricCache.go:91-102 | ends the current interval and opens the next one at the time of the tick, in the next record of the ring; every record as prescribed |
| MetricCache.Cache.GetPeriod | internal/metricRouter/metricCache.go:160-180 | for 0 <= index <= curPeriod the record index places before the current one, with the times at which the interval index rotations back was opened and last noted; otherwise an empty list and the present time |
| MetricCache.Cache.Tick | internal/metricRouter/metricCache.go:110-121 | one tick: the list and the times handed to the aggregator, as functions of the history, for every numPeriods; with one record the start time is the tick itself |
| MetricCache.SlotElement | internal/metricRouter/metricCache.go:134-144 | metric j of a record is metric j of the latest interval of that record which had more than j |
| MetricCache.SlotSize | internal/metricRouter/metricCache.go:139-144 | a record is as long as the largest interval it ever held |
| MetricCache.SlotPrefix | internal/metricRouter/metricCache.go:134-138 | the latest interval of a record is a prefix of its list |
| MetricCache.LookupExact | internal/metricRouter/metricCache.go:160-180 | GetPeriod(index) begins with the interval index rotations back if and only if that interval is in the current lap of the ring or is empty; the wrap the documentation promises fails otherwise |
| MetricCache.LookupMisses | internal/metricRouter/metricCache.go:164-176 | the smallest failing case: two records, the third interval just begun |
| MetricCache.HandOverOneRecord | internal/metricRouter/metricCache.go:110-118 | with numPeriods 1 every tick hands over a list beginning with the interval just ended, and equal to it exactly if no earlier interval was larger |
| MetricCache.HandedOverSlot | internal/metricRouter/metricCache.go:112-114 | which record a tick hands over for every numPeriods, since an absolute slot number is passed where a distance is expected |
| MetricCache.HandOverFails | internal/metricRouter/metricCache.go:114 | for every other size and slot a history in which the interval just ended is not handed over |
| MetricCache.HandOverExact | internal/metricRouter/metricCache.go:114 | the hand-over of the interval just ended is right for all histories if and only if numPeriods is 1, or at least 3 and the ended record is number 1 |
| Rapl.RaplCollector.Read | collectors/raplMetric.go:223-256 | the samples and the new state of every zone; a failed reading changes nothing |
| Rapl.EnergyConserved | collectors/raplMetric.go:233-252 | in any run of Reads with any pattern of failing readings, the samples published for a zone are one for each successful reading, at its time, and their power times the time since the reading before adds up to the true energy less maxEnergyRange for every whole range missed |
| Rapl.MissedRangesZero | collectors/raplMetric.go:235-241 | no whole range is missed exactly if every two successive successful reads are less than one range apart |
| Rapl.EnergyExact | collectors/raplMetric.go:233-252 | these samples account for all of the energy if and only if that holds |
| Infiniband.ReadCounter | collectors/infinibandMetric.go:225-293 | one counter: new state, events, scaled value and rate, for read failure, first read and later reads |
| Infiniband.ReadPort | collectors/infinibandMetric.go:216-331 | one port: every counter steps, events and totals in order, total rates only if some counter contributed |
| Infiniband.InfinibandCollector.ReadPorts | collectors/infinibandMetric.go:216-332 | all ports, each from its own states |
| Infiniband.InfinibandCollector.Read | collectors/infinibandMetric.go:203-333 | one Read with the time difference to the previous Read, whatever failed then |
| Infiniband.LastStateIsLatest | collectors/infinibandMetric.go:209-214 | lastStateAvailable exactly if the counter was read at lastTimestamp, and then lastState is its value modulo 2^64 |
| Infiniband.RateExact | collectors/infinibandMetric.go:264-273 | rate times time difference is the scaled traffic modulo 2^64 units, and equals the true scaled traffic if and only if fewer than 2^64 units passed, across wraparound |
| Infiniband.AbsoluteModulo | collectors/infinibandMetric.go:247-250 | the scaled absolute value is four times the true count modulo 2^64 |
| InfinibandEvents.PortTotals | collectors/infinibandMetric.go:279-331 | what a port sends as totals: the byte total, the sum modulo 2^64 over the counters marked addToTotal that were read, the packet total over those marked addToTotalPkgs alone, and a rate of each exactly if a member has one, which times the time is the traffic of those members |
| InfinibandEvents.TrafficConserved | collectors/infinibandMetric.go:203-333 | in any run of Reads of all ports, with failed reads and wraparounds, the rates sent for a counter times the time add up to the true scaled traffic of exactly the intervals with a read at both ends, less 2^64 units for every whole turn of the counter within one of them |
| InfinibandEvents.TrafficExact | collectors/infinibandMetric.go:203-333 | they are all of it if and only if in each of these intervals fewer than 2^64 units passed |
| InfinibandEvents.AbsolutesSent | collectors/infinibandMetric.go:245-258 | with absolute values a Read sends the true scaled count modulo 2^64 of every counter it can read, once |
| Gpfs.NewState | collectors/gpfsMetric.go:549-587 | measured counters that parse and the three totals, each present exactly if one of its parts is |
| Gpfs.AddTotal | collectors/gpfsMetric.go:560-587 | one total is the sum of its parsed parts |
| Gpfs.GpfsCollector.Publish | collectors/gpfsMetric.go:588-641 | the events of one filesystem from old state, new state and time difference |
| Gpfs.GpfsCollector.PublishAndStore | collectors/gpfsMetric.go:541-647 | those events with the difference to the stored time stamp, then state and time stamp replaced together unless the new state is empty |
| Gpfs.GpfsCollector.ReadLine | collectors/gpfsMetric.go:498-647 | one line, with every way in which it is skipped and what is still written to the maps then |
| Gpfs.GpfsCollector.Read | collectors/gpfsMetric.go:478-648 | all lines in order |
| Gpfs.StateBelongsToTimestamp | collectors/gpfsMetric.go:643-647 | after any lines the stored counters and the stored time stamp of a filesystem are those of its newest accepted line, and nothing is stored before one |
| Gpfs.StoredIfUseful | collectors/gpfsMetric.go:643-647 | a new state is stored exactly if some measured counter parsed |
| Gpfs.NothingNegative | collectors/gpfsMetric.go:604-627 | no published difference or rate is negative, in any run |
| Gpfs.TotalDifference | collectors/gpfsMetric.go:560-615 | when all parts parse, the difference of a total is at most the sum of the differences of its parts, and equal if and only if no part shrank or no part grew |
| Gpfs.SumOfDifferences | collectors/gpfsMetric.go:604-610 | before clamping the total: at most the sum of the clamped part differences, equal exactly if no part shrank |
| GpfsEvents.CounterIs | collectors/gpfsMetric.go:549-558 | a measured counter that parses is stored under its own name as it is |
| GpfsEvents.TotalsAre | collectors/gpfsMetric.go:560-587 | the totals are bytes read and written, reads and writes, and opens, closes, directory reads and inode updates, each the sum of what is there |
| GpfsEvents.AbsolutesPublished | collectors/gpfsMetric.go:588-601 | in any run of lines, each accepted line of a filesystem publishes its value of the counter at its time |
| GpfsEvents.DifferencesAddUp | collectors/gpfsMetric.go:602-612 | in any run of lines, the differences published for a counter that does not fall add up to its growth from the first to the last accepted line of the filesystem |
| GpfsEvents.RatesTimesTimeIsGrowth | collectors/gpfsMetric.go:613-627 | so do the rates times the seconds between the lines |
| GpfsEvents.MissingIsUnchanged | collectors/gpfsMetric.go:598-627 | a counter missing from a line is published as an unchanged one would be |
| GpfsEvents.FallenIsUnchanged | collectors/gpfsMetric.go:604-620 | so is one that has fallen, as difference or rate |
| Gpfs.ClosesRateExact | collectors/gpfsMetric.go:191-197 | gpfs_closes_rate reads the counter of opens: what is published is the rate of closes if and only if both counters or none were known before and both grew by the same clamped amount; a counter missing from the line or no time passed count as no growth |
| Gpfs.ClosesRateWrong | collectors/gpfsMetric.go:191-197 | ten opens and five closes in a second: a wrong rate |
| CpuList.ParseCPUs | collectors/slurmCgroupMetric.go:80-112 | the loops compute the list the piece-by-piece reading of the text defines, or an error for one bad piece |
| CpuList.FileToList | pkg/ccTopology/ccTopology.go:79-109 | the same for the other parser, which trims the whole text and skips pieces with several dashes |
| CpuList.ParsersAgreeExactly | collectors/slurmCgroupMetric.go:80-112 | on any text the two parsers give the same list, or both an error, if and only if the text is not empty and either both or none of them finds a piece of the trimmed text it refuses: ParseCPUs two dashes or something that is no number between spaces, fileToList something that is not exactly a number beside at most one dash |
| CpuList.ParsersAgreeOnFormat | collectors/slurmCgroupMetric.go:80-112 | on texts without white space, as the list format has them: if and only if the text is not empty and no piece has two dashes, or some piece is malformed |
| CpuList.InnerSpaceDiffers | pkg/ccTopology/ccTopology.go:79-100 | a space after a comma is an error for fileToList only |
| CpuList.ZeroOneTwo | pkg/ccTopology/ccTopology.go:87-104 | 0-1-2 is an error for ParseCPUs and an empty list for fileToList |
| CpuList.ParseRendered | pkg/ccTopology/ccTopology.go:70-110 | both parsers turn a rendered list of ranges back into its CPUs |
| CpuList.RoundTrip | collectors/slurmCgroupMetric.go:80-112 | parsing the range-compressed rendering of a list of naturals gives the list back, by both parsers; the empty list is an error to fileToList |
| CpuList.CompressMaximal | pkg/ccTopology/ccTopology.go:66-69 | for an ascending list the rendered ranges are maximal: a gap lies between any two |
| Text.JoinSplits | collectors/likwidMetric.go:142 | joining pieces without the separator and splitting again gives the pieces |
| Text.AtoiDecimal | pkg/ccTopology/ccTopology.go:86 | Atoi reads the decimal notation of a number back to that number, or fails if it does not fit |
| Text.AtoiSigned | pkg/ccTopology/ccTopology.go:86 | so it does with a sign |
| Text.TrimPadded | collectors/slurmCgroupMetric.go:92-96 | TrimSpace takes off the white space on both sides and nothing else |
| Topology.FillColumns | pkg/ccTopology/ccTopology.go:184-227 | one table entry and one element of every column per hardware thread, die falling back to socket |
| Topology.SortAndCompact | pkg/ccTopology/ccTopology.go:229-245 | strictly increasing with the same set as the column |
| SortedLists.SortCompact | pkg/ccTopology/ccTopology.go:229-230 | sorting and compacting gives the distinct elements in ascending order |
| Topology.Cache.constructor | pkg/ccTopology/ccTopology.go:184-246 | every id list is strictly increasing and has the same set as its column of CpuData |
| Topology.Cache.GetHwthreads | pkg/ccTopology/ccTopology.go:394-439 | the CPUs of the entries whose field has the given id, in table order |
| Topology.Cache.GetHwthread | pkg/ccTopology/ccTopology.go:347-391 | the field of the first entry of a CPU, -1 if there is none |
| Topology.MembershipAgrees | pkg/ccTopology/ccTopology.go:295-311 | GetTypeHwthreads, GetTypeId and GetHwthread* agree on which group a hardware thread is in, for every type |
| Topology.GroupsPartition | pkg/ccTopology/ccTopology.go:277-293 | for every type the groups over its type list partition the hardware thread list: each thread in exactly one, none repeated, no other CPU in any |
| Topology.DistinctFound | pkg/ccTopology/ccTopology.go:184-190 | distinct CPU ids found give a table with distinct CPU ids |
| Topology.AnswersAreSysfs | pkg/ccTopology/ccTopology.go:193-226 | GetHwthread* answers for every hardware thread found what sysfs says about it, the socket for a missing die; the SMT number is its position among the CPUs of its core |
| Topology.GroupsAreSysfs | pkg/ccTopology/ccTopology.go:277-293 | the CPUs of a group are those found for which sysfs names the group, for every type |
| Topology.GetCpuListOf | internal/metricAggregator/metricAggregatorFunctions.go:283-336 | the aggregator's own groupings return the same lists as GetHwthreads; an empty list for an argument of another type |
| Topology.GetCpuListOfType | internal/metricAggregator/metricAggregatorFunctions.go:346-377 | for any arguments which list the combined function returns, when it reports an error (always for hwthread), and when it runs out of arguments |
| Likwid.GenEventString | collectors/likwidMetric.go:128-142 | counters sorted, each once; splitting the event string at the commas gives at every position the event and the counter at that position, joined by a colon |
| Likwid.PieceReadBack | collectors/likwidMetric.go:138 | an event and a counter without commas and colons are read back from their piece |
| Likwid.Eventset.constructor | collectors/likwidMetric.go:143-162 | zeroed results for every hardware thread, the metric names among them, and empty metrics |
| Likwid.LikwidCollector.constructor | collectors/likwidMetric.go:237-243 | the id maps: position in the list, core and socket of each CPU, first CPU of a socket or 0 |
| Likwid.MapThreads | collectors/likwidMetric.go:240-243 | CPU id to thread id is the position in the list |
| Likwid.MapSockets | collectors/likwidMetric.go:339-348 | socket id to thread id, 0 for a CPU that is not listed |
| Likwid.MapGroups | collectors/likwidMetric.go:350-363 | CPU id to core, or to itself without a core list, and to socket |
| Likwid.ThreadIdsHavePlaces | collectors/likwidMetric.go:531-541 | every thread id has an entry in the results, which are keyed by CPU id, if and only if the CPU ids are 0..n-1 |
| Likwid.OfflineCpu | collectors/likwidMetric.go:240-243 | with CPU 1 of three offline a thread id has no entry |
| Likwid.OwnCoreAndSocket | collectors/likwidMetric.go:350-363 | then every value is counted in the core and the socket of its own CPU |
| Likwid.StoreForAll | collectors/likwidMetric.go:533-546 | a value stored for every thread id, or a panic exactly if one has no entry |
| Likwid.LikwidCollector.StoreCounters | collectors/likwidMetric.go:530-546 | a panic exactly if a thread id has no entry; otherwise the entries of exactly the thread ids change, by the results of their own thread in the order of the events and then the time |
| Likwid.StoredInPlace | collectors/likwidMetric.go:530-541 | that puts under each counter the result at its position in the event string and leaves every other name alone |
| Likwid.LikwidCollector.ResultInPlace | collectors/likwidMetric.go:530-546 | so each counter of a thread gets its own last result, zero for an invalid one if so configured, and the time its own |
| Likwid.LikwidCollector.SendDomains | collectors/likwidMetric.go:596-631 | the value of every domain is stored and one message goes out for each that is a number |
| Likwid.LikwidCollector.DomainMessage | collectors/likwidMetric.go:591-631 | that is: for a domain a message goes out exactly if the metric is published and its formula gives a number for the thread of the domain (0 if it fails, or if it is invalid and so configured), and carries that number |
| Likwid.LikwidCollector.CalcMetric | collectors/likwidMetric.go:586-735 | messages per domain, per core, per socket and for the node: one per group with a number, carrying the sum over its members |
| Likwid.SumGroups | collectors/likwidMetric.go:634-644 | the accumulation loop gives for every group with a member the sum over its members, in whatever order the map is visited |
| Likwid.SumNode | collectors/likwidMetric.go:706-715 | the node total is the sum of the published values, in whatever order |
| Likwid.SendTotals | collectors/likwidMetric.go:646-667 | one message for every entry and no other |
| Likwid.GroupsConserve | collectors/likwidMetric.go:633-715 | however the values are grouped, the group totals add up to the sum of the values |
| Likwid.TotalsAgree | collectors/likwidMetric.go:633-735 | for any id maps the messages per core or per socket add up to the same sum as those per domain, which is the node total |
| Slurm.SlurmCgroupCollector.ReadJobData | collectors/slurmCgroupMetric.go:188-263 | files that cannot be read or parsed leave zeros and an empty CPU set; percentages only if time was used |
| Slurm.SlurmCgroupCollector.Read | collectors/slurmCgroupMetric.go:265-439 | the messages are a function of this Read's jobs and the online CPUs alone: nothing carries over; none at all if the directories cannot be listed |
| Slurm.SlurmCgroupCollector.Send | collectors/slurmCgroupMetric.go:290-368 | the messages of one CPU, excluded metrics left out |
| Slurm.SlurmCgroupCollector.Distribute | collectors/slurmCgroupMetric.go:287-372 | each CPU of a job gets its share of every metric and is marked as used |
| Slurm.SlurmCgroupCollector.FillIdle | collectors/slurmCgroupMetric.go:375-438 | zeros for exactly the online CPUs that no job lists |
| Slurm.JobValuesConserved | collectors/slurmCgroupMetric.go:287-305 | the values sent for a metric add up to the values of all jobs with a non-empty CPU set |
| Slurm.FilesConserved | collectors/slurmCgroupMetric.go:188-305 | which are those in the files: memory.current, memory.peak and memory.max, and user and system time in percent of the usage, for the jobs whose cpuset.cpus names CPUs |
| Slurm.NoStat | collectors/slurmCgroupMetric.go:227-243 | a name that cpu.stat does not have counts as zero |
| Slurm.StatIsLast | collectors/slurmCgroupMetric.go:229-243 | of several lines of cpu.stat with one name the last counts |
| Slurm.CpuReceives | collectors/slurmCgroupMetric.go:287-438 | how often a CPU gets a metric: as often as jobs list it, otherwise as often as it is online, never if excluded |
| Slurm.CpuShares | collectors/slurmCgroupMetric.go:295-305 | what a CPU gets of a metric adds up to its shares in the jobs, zero if none lists it |
| Slurm.EveryCpuOnce | collectors/slurmCgroupMetric.go:375-438 | every online CPU gets every metric that is not excluded, exactly once if and only if no online CPU is listed twice by the jobs |
| CpuInfo.CPUFreqCpuInfoCollector.Init | collectors/cpufreqCpuinfoMetric.go:62-133 | nothing once initialised; otherwise the records assembled line by line, an error without any |
| CpuInfo.CPUFreqCpuInfoCollector.Read | collectors/cpufreqCpuinfoMetric.go:136-188 | published frequencies, an early end at a number that does not parse, a panic past the last record |
| CpuInfo.ValuesPlain | collectors/cpufreqCpuinfoMetric.go:72-87 | values of two-part lines contain no colon |
| CpuInfo.LinesRead | collectors/cpufreqCpuinfoMetric.go:72-87 | a line made of one of the four keys, a colon and a value, with any white space around the colon, is read as that key with that value |
| CpuInfo.OtherLine | collectors/cpufreqCpuinfoMetric.go:72-87 | a line with any other key is passed over |
| CpuInfo.KeyInjective | collectors/cpufreqCpuinfoMetric.go:95 | so the joined key identifies package and core |
| CpuInfo.RecordsInStep | collectors/cpufreqCpuinfoMetric.go:90-117 | one record per section of the file, in order, marked as sibling exactly if an earlier section names the same core of the same package |
| CpuInfo.FrequenciesInStep | collectors/cpufreqCpuinfoMetric.go:161-184 | the i-th frequency line is that of the i-th section |
| CpuInfo.PanicsExactly | collectors/cpufreqCpuinfoMetric.go:166-182 | Read ends early at the first frequency of a first thread that is not a number; without one it runs past the records if and only if there are more frequency lines than records |
| CpuInfo.PanicsWithOneMoreThread | collectors/cpufreqCpuinfoMetric.go:166-182 | a concrete file: one hardware thread more than at Init |
| CpuInfo.InitAndReadLineUp | collectors/cpufreqCpuinfoMetric.go:158-184 | for any files made of sections: Read publishes exactly the first thread of every core, with its ids at Init and its frequency now, section by section until the file or the sections of Init end or a number cannot be read |
| CpuInfo.OneFirstPerCore | collectors/cpufreqCpuinfoMetric.go:98-110 | every (package, core) pair has exactly one first thread |
| Evaluables.StepInv | internal/metricAggregator/metricAggregator.go:358-398 | every interleaved step keeps: each entry is the compiled normalised text; entries are never removed or changed |
| Evaluables.RunInv | internal/metricAggregator/metricAggregator.go:358-398 | the same over whole runs of any number of callers |
| Evaluables.CachedAgrees | internal/metricAggregator/metricAggregator.go:358-398 | under any interleaving of callers of both evaluators every finished call returns what evaluating the text without the memo returns, its single quotes turned into double ones and its percent signs into backslashes |
| Evaluables.StoredExactly | internal/metricAggregator/metricAggregator.go:366-374 | the condition of a finished call is stored exactly if it compiles; nothing stored fails to compile |
| Evaluables.FoundLater | internal/metricAggregator/metricAggregator.go:359-362 | a condition once stored is found with the same program by every later look-up |
| Aggregations.MetricAggregator.AddAggregation | internal/metricAggregator/metricAggregator.go:291-329 | replaces the first aggregation of the name in place or appends; nothing changes if a text does not compile |
| Aggregations.MetricAggregator.DeleteAggregation | internal/metricAggregator/metricAggregator.go:331-344 | removes the first aggregation of the name, an error exactly if there is none |
| Aggregations.AddedHolds | internal/metricAggregator/metricAggregator.go:306-328 | adding keeps names unique and leaves exactly the new aggregation under its name, all others kept |
| Aggregations.DeletedHolds | internal/metricAggregator/metricAggregator.go:331-344 | deleting keeps names unique, leaves nothing under the name and all others |
| Aggregations.AddDelete | internal/metricAggregator/metricAggregator.go:291-344 | deleting undoes adding a new name |
| Aggregations.AddAdd | internal/metricAggregator/metricAggregator.go:306-328 | adding twice under one name is adding the second |

## Left out

- Goroutine code is a transition system on values, not classes with fields: Ticker, Manager, Router and Pipeline do not
  capture aliasing of channels or slices, only which steps are possible in which order.
- Memory-level races: each block under a lock is one step. The unlocked test of the current period in `Add` and the
  slice shared with `Eval` after the lock is released are not modelled; the hand-over is a snapshot.
- The ticker's copy of its channel list and the take of the tick are one step; `time.Ticker` is a buffer of one tick.
- Shutdown.NeverStuck: sinks are an environment that keeps taking messages, and each Read sends finitely many.
- Liveness.ShutdownTerminates: receivers send finitely many messages; FairShutdown.ShutdownTerminatesFairly does without
  and assumes fairness of the goroutines instead, in which the manager and its readers count as one party.
- The message processor, the expression language and the LIKWID library are not part of this model: functions
  handed in, with failure as an outcome. Receive and sink managers close without a model of their own.
- Aggregates on their way back to the router may be lost, since that send does not block; only that is used.
- Metrics without a time in `Add` of the cache (the processor's answer for a dropped message) are not modelled.
- Floating-point numbers are reals; NaN is a separate value, rounding and infinities are not modelled, and a division by
  a zero time difference gives no rate.
- 64-bit overflow in RAPL and GPFS is not modelled; the wraparound of InfiniBand's uint64 is.
- Gpfs: lines of the command that are empty or have a key without a value, on which the source panics; the choice of
  definitions in Init; the command itself.
- CpuInfo.InitAndReadLineUp: files whose sections name each of the four keys once; other files are covered only by
  the contracts of Init and Read.
- Likwid: global metrics, the time parameters of an event set, the lock file, access daemons and signal handling.
- Discovery of zones, ports, job directories and CPUs in file systems; JSON configuration; logging.
- Evaluation of aggregations over an interval, among it the median and the copied tags, and the other collectors are not
  modelled.
