# NetBotPRO backend: models and proofs

This project models the packet-analysis pipeline of the NetBotPRO backend in Dafny and proves
what it keeps on every input, every run and every interleaving. `dafny verify dfyconfig.toml`
checks it; nothing here is executed.

The concurrent parts are step systems: one `Action` is one atomic access to shared state (a lock
section or one queue operation), threads have a program counter between accesses, and `Reachable`
means reached by some legal interleaving. Beside each system stands the object itself, a class whose
methods update its fields in place and are proved against the same `Perform` function the system is
made of. Purely sequential objects (engine, detectors, caches, registry) are classes whose methods
are proved against a function of the whole history. `hide` statements only keep function bodies away
from the solver where a proof does not need them.

| module | repository |
|---|---|
| `FlowWorkerPool`, `FlowWorkerPoolSafety`, `FlowWorkerPoolClose`, `FlowWorkerPoolLaws`, `FlowWorkerPoolObject`, `DispatchKey`, `DispatchKeyLaws` | flow-sharded worker lanes, four overflow policies, shutdown handshake |
| `BatchPersistence`, `BatchPersistenceSafety`, `BatchPersistenceResults`, `BatchPersistenceDrops`, `BatchPersistenceTriggers`, `BatchPersistenceObject` | write-behind queue, buffers with size, urgency and time triggers, retrying writes, flush commands |
| `EventAggregator`, `EventAggregatorSafety`, `EventAggregatorOrder`, `EventAggregatorLaws`, `EventAggregatorObject` | timer-driven batching with separate append, schedule and flush sections |
| `TlsClientHello`, `TlsRoundTrip`, `TlsFingerprints`, `TlsLaws` | ClientHello parser, a writer for it, JA3 and JA4 |
| `FlowRisk`, `FlowRiskLaws`, `FlowEngine`, `FlowEngineObject`, `FlowEngineResults`, `FlowEngineLaws`, `FlowEngineTimeline` | incremental flow index, conversations, risk score |
| `FlowSnapshots`, `FlowSnapshotsObject`, `FlowSnapshotsLaws` | coalescing snapshot writer and its upserts |
| `Windows`, `SignatureIds`, `SignatureIdsLaws` | pruned sliding windows and the signature detectors |
| `RateLimiter`, `RateLimiterLaws` | rate limiter with stale-key eviction |
| `HistoryCache`, `HistoryCacheObject`, `HistoryCacheLaws` | expiring caches that hand out copies |
| `PcapReader`, `PcapRoundTrip`, `PcapLaws` | classic PCAP reader, DNS names, and writers for both |
| `DisplayFilter`, `DisplayFilterLaws` | display-filter compiler from tokens on |
| `AgentRegistry`, `AgentRegistryLaws` | agent registry in JSONL mode and its reload |
| `Sequences`, `Maps`, `Values`, `Text`, `TextLaws`, `Bytes` | shared vocabulary |

The `...Laws` modules say what the models compute in terms of raw inputs - fields, bytes, flags, configured
numbers - and not of the functions the models are written with.

Where the code does not do what one would hope, the model keeps the code, names an input and says exactly
when the property holds:

- once `close` has its answer, true or not, the pool can still lose a job behind an exited worker if and
  only if some submit may still put (`CloseLosesAJobIff`); `close` can answer true in such a state
  (`TrueAnswerBeforeAPut`), and never does if no submit was in flight as it began (`CloseTrueMeansDone`);
- `drop_oldest` of the batch writer counts the incoming unit, not the evicted one: over any run the drop
  counter differs from the losses by the evicted sizes less the sizes put after making room
  (`DropCounterLaw`, per overflow `OneOverflowAmongOthers`), and an evicted flush command is signalled at
  once (`EvictedFlushReturnsTooEarly`, with the exact condition in `EvictedFlushIsABarrierWhenIdle`);
- the aggregator emits outside its lock, so batches of one category can overtake each other
  (`BatchesCanOvertake`), though each is emitted exactly once; they do not while at most one is held at a
  time (`SerialRunsEmitInOrder`), and two threads holding different ones can break the order with their
  next step (`TwoHoldersCanOvertake`, exactly: `NextEmissionKeepsOrderIff`);
- coalescing snapshots is exact if and only if first and last snapshot of a new flow agree on the
  columns the first insert fixes (`CoalescingIsExact`), which an engine reset inside a batch breaks
  (`ResetInsideABatch`);
- a flow's stored risk drops if and only if its protocol becomes cheaper by more than what its other
  indicators gained, and the cap does not hide it (`RiskDropsIff`, `StoredRiskDropsIff`): an unknown
  protocol costs 22, an uncommon outbound one 9 (`RecognisedProtocolLowersRisk`);
- stale-key eviction is harmless exactly for windows no longer than the evicting call's
  (`EvictionNeedsACommonWindow`); all call sites use 60 seconds;
- a detector dictionary pruned for one window serves no longer one (`PruningServesShorterWindows`);
- the history cache reads the persistence flag once for the key and once for the repository; a flip
  between the two poisons the key after any run (`FlippedFlagPoisonsTheKey`);
- the registry writes U+0085, U+2028 and U+2029 raw into its lines but splits at them when it reloads, and
  one broken line empties the reload: a reload equals the live registry if and only if no accepted call
  supplied such a text (`ReplayEqualsLive`); one registration is enough (`OneRegistrationIsEnough`);
- it changes memory before it appends, so after a refused append memory and log agree only under the exact
  condition of `RefusedLineDiverges`.

## Model

| member | source | states |
|---|---|---|
| FlowWorkerPoolSafety.JobsAreConserved | backend/app/services/flow_worker_pool.py:243-418 | in every reachable state: received = processed + failed + dropped + rejected + queued + in workers' hands + in submitters' hands; the pool's drop and completion counters are the sums over its lanes |
| FlowWorkerPoolSafety.FlowsStayOrdered | backend/app/services/flow_worker_pool.py:238-358 | under all four policies the started jobs of one flow key are a subsequence of its enqueued jobs, each started at most once |
| FlowWorkerPoolSafety.OneWorkerPerFlow | backend/app/services/flow_worker_pool.py:238-277 | two workers never hold jobs of the same flow key |
| FlowWorkerPoolSafety.LanesStayOrdered | backend/app/services/flow_worker_pool.py:279-358 | per lane, started then queued jobs are the enqueue log with evicted jobs deleted, and every queued job belongs to its lane |
| FlowWorkerPoolSafety.CapacitiesShareTheTotal | backend/app/services/flow_worker_pool.py:218-226 | every lane capacity is at least 1 and together they are exactly `queue_max_total` |
| FlowWorkerPoolSafety.DepthNeverExceedsTotal | backend/app/services/flow_worker_pool.py:218-313 | total queue depth never exceeds `queue_max_total` |
| FlowWorkerPoolSafety.CloseTrueMeansDone | backend/app/services/flow_worker_pool.py:395-418 | with no submit in flight when close began, a true drain answer means empty lanes, idle workers and every accepted job processed, failed or dropped, then and in all later states |
| FlowWorkerPoolSafety.NoJobOutlivesItsWorker | backend/app/services/flow_worker_pool.py:334-358 | under the same condition no lane is non-empty after its worker has exited |
| FlowWorkerPoolClose.CloseLosesAJobIff | backend/app/services/flow_worker_pool.py:243-418 | in every reachable state of an enabled pool in which close has its answer: some continuation leaves a job in the lane of an exited worker if and only if some submit may still put or such a job is there already; before the stop flag is set none is |
| FlowWorkerPoolClose.LateSubmitIsStranded | backend/app/services/flow_worker_pool.py:243-313 | whichever submit may still put once close has its answer, there is a run in which its lane's worker exits and a job stays in that lane, with the answer unchanged |
| FlowWorkerPoolClose.OnlyLateSubmitsStrand | backend/app/services/flow_worker_pool.py:334-418 | where nobody may put and nothing is stranded, no run strands a job, and when all workers have exited every job is processed, failed, dropped or rejected, or with its submitter |
| FlowWorkerPoolClose.RunOut | backend/app/services/flow_worker_pool.py:334-358 | with the stop flag set, a worker on its own empties its lane and exits |
| FlowWorkerPoolClose.TrueAnswerBeforeAPut | backend/app/services/flow_worker_pool.py:406-418 | a reachable state in which close has answered true while a submit may still put |
| FlowWorkerPoolSafety.StepConserves | backend/app/services/flow_worker_pool.py:250-358 | every single step keeps the job balance |
| FlowWorkerPoolSafety.StepKeepsUnfinishedAt | backend/app/services/flow_worker_pool.py:279-358 | every step keeps each lane's unfinished-task count equal to queued, in hand and owed `task_done` calls |
| FlowWorkerPoolSafety.StepKeepsRoutedAt | backend/app/services/flow_worker_pool.py:238-241 | every step keeps each job on the lane its key hashes to |
| FlowWorkerPoolSafety.StepKeepsShutdown | backend/app/services/flow_worker_pool.py:334-418 | every step keeps the shutdown handshake: once drained with nobody inside, the pool stays empty |
| FlowWorkerPoolObject.Pool.Submit | backend/app/services/flow_worker_pool.py:243-277 | one undisturbed submit: closed, disabled and enabled pool, each with the whole effect on counters and lane; a refused job of an enabled pool is counted once, as dropped or as rejected by policy, in pool and lane |
| FlowWorkerPoolObject.Pool.Enqueue | backend/app/services/flow_worker_pool.py:279-313 | per policy: what the lane holds afterwards, what is dropped or rejected, and that no other lane or counter moves |
| FlowWorkerPoolObject.Pool.EvictHead | backend/app/services/flow_worker_pool.py:290-295 | eviction takes exactly the head, marks it done and counts it |
| FlowWorkerPoolObject.Pool.AllDrained | backend/app/services/flow_worker_pool.py:395-404 | the loop answers true exactly when no lane has unfinished tasks |
| FlowWorkerPoolLaws.SubmitAlone | backend/app/services/flow_worker_pool.py:243-313 | in the step system, a submit that nobody disturbs leaves exactly the stated pool: counters, lane and policy effects, everybody else untouched |
| FlowWorkerPoolLaws.WorkAlone | backend/app/services/flow_worker_pool.py:334-358 | a worker takes the head of its lane, counts it once as processed or failed in lane and pool, and marks it done |
| DispatchKey.KeyIsCanonical | backend/app/services/flow_worker_pool.py:68-113 | complete packets without bars share a key if and only if protocol and unordered endpoint pair are equal (with ports for TCP and UDP), colons in addresses included |
| DispatchKey.ReplySharesKey | backend/app/services/flow_worker_pool.py:68-106 | a complete packet and its reply share a key |
| DispatchKey.CompletenessShowsInKey | backend/app/services/flow_worker_pool.py:82-106 | fallback keys never collide with complete ones |
| DispatchKeyLaws.PortKeyIsSpelled | backend/app/services/flow_worker_pool.py:68-97 | the key of a TCP or UDP packet, first or fallback fields: protocol, smaller and larger address:port in code point order |
| DispatchKeyLaws.PortKeysAgreeIff | backend/app/services/flow_worker_pool.py:68-97 | TCP and UDP packets share a key if and only if protocol and the unordered pair of address and port they carry agree |
| DispatchKeyLaws.PortlessKeysAgreeIff | backend/app/services/flow_worker_pool.py:91-97 | under any other protocol ports play no part |
| DispatchKeyLaws.UnusablePortIsZero | backend/app/services/flow_worker_pool.py:108-113 | a missing, falsy, unreadable or out-of-range port counts as 0, in first and fallback field |
| DispatchKeyLaws.FallbackAddressesStandIn | backend/app/services/flow_worker_pool.py:70-71 | the fallback addresses count exactly where the first are empty |
| DispatchKeyLaws.FallbackPortsStandIn | backend/app/services/flow_worker_pool.py:81-82 | the fallback ports count exactly where the first are missing |
| DispatchKeyLaws.FallbackProtocolsStandIn | backend/app/services/flow_worker_pool.py:72-80 | transport, then protocol, count exactly where proto is empty |
| DispatchKeyLaws.SpaceAndCaseDoNotMatter | backend/app/services/flow_worker_pool.py:70-80 | white space around a field and the case of the protocol do not change the key |
| DispatchKeyLaws.PartialKeyIsSpelled | backend/app/services/flow_worker_pool.py:95-105 | without a destination the key is partial and lists protocol, source, port, dash and port |
| DispatchKeyLaws.UnknownAreTheEmpty | backend/app/services/flow_worker_pool.py:95-105 | an incomplete packet is the unknown flow if and only if all its parts are placeholders |
| BatchPersistenceResults.BatchingPreservesTheLog | backend/app/services/batch_persistence.py:372-517 | one sequence of whole units, with the queue a subsequence of the enqueue log and all of it under drop_newest and reject_new, whose events are, type by type and in order, what is settled, being written, buffered and in hand |
| BatchPersistenceResults.EventsAreConserved | backend/app/services/batch_persistence.py:206-252 | received = written + failed + lost + queued + downstream + pending at every step; under drop_newest and reject_new lost is the drop counter plus charges under way |
| BatchPersistenceResults.BuffersStayBounded | backend/app/services/batch_persistence.py:429-517 | in every reachable state each buffer is below its batch size and exactly the non-empty ones are timed; after each round no type is older than its interval |
| BatchPersistenceTriggers.TypeLeavesIff | backend/app/services/batch_persistence.py:429-502 | in every reachable state, a round hands a type to storage, whole and in order, if and only if the unit is a flush command or holds a high or critical event, some buffer has reached its configured size (100 unless given, at least 1), or the type's oldest event is at least its configured age in ms (2000 unless given, at least 1); else it keeps it and its time |
| BatchPersistenceTriggers.OnlyRoundsTouchBuffers | backend/app/services/batch_persistence.py:429-517 | no other step changes the buffers |
| BatchPersistenceResults.FlushIsABarrier | backend/app/services/batch_persistence.py:254-262 | when flush returns true because the worker signalled it, the units put before it and not evicted are settled, in order; under drop_newest and reject_new that is every unit put before it |
| BatchPersistenceResults.EvictedFlushIsABarrierWhenIdle | backend/app/services/batch_persistence.py:372-382 | a command evicted by drop_oldest is signalled, and the barrier holds then if and only if the worker has nothing buffered, in hand or in flight |
| BatchPersistenceResults.EvictedFlushReturnsTooEarly | backend/app/services/batch_persistence.py:372-382 | a run in which flush may return true with an earlier event still unsettled |
| BatchPersistenceResults.OverflowCountsTheIncomingUnit | backend/app/services/batch_persistence.py:372-396 | an uninterrupted drop_oldest overflow loses the head and counts the incoming unit: the counter is right if and only if their sizes agree |
| BatchPersistenceResults.DropOldestCountsSingleEvents | backend/app/services/batch_persistence.py:372-396 | with single events, atomic overflow handling and no flush command, drop_oldest keeps exact books over every run |
| BatchPersistenceDrops.OneOverflowAmongOthers | backend/app/services/batch_persistence.py:372-396 | one drop_oldest overflow, whatever others do between its steps: it loses what it evicts, and the incoming unit if there is still no room, and counts the incoming unit in any case |
| BatchPersistenceDrops.DropCounterLaw | backend/app/services/batch_persistence.py:372-396 | over every run and policy: lost + put after an overflow = drop counter + charges under way + evicted; so between overflows the counter is right if and only if evicted and late-put sizes are equal |
| BatchPersistenceSafety.RoundFlushesWhatIsDue | backend/app/services/batch_persistence.py:429-502 | one round splits buffered and new events into handed-on and kept ones without loss or reordering, leaves buffers below size and in time, and empties them for a flush command |
| BatchPersistenceSafety.NotSizeDue | backend/app/services/batch_persistence.py:447-457 | if no append reached its batch size, every buffer is still below it |
| BatchPersistenceSafety.StepKeepsFifo | backend/app/services/batch_persistence.py:245-252 | popped then queued units are the enqueue log, evictions included |
| BatchPersistenceSafety.WorkerKeepsKind | backend/app/services/batch_persistence.py:429-517 | each worker step keeps the order of each type from queue to storage |
| BatchPersistenceSafety.WorkerKeepsBarrier | backend/app/services/batch_persistence.py:439-443 | a command is signalled only after everything taken before it is settled |
| BatchPersistenceSafety.StepKeepsHonest | backend/app/services/batch_persistence.py:386-396 | without drop_oldest nothing is evicted and the drop counter tracks the losses |
| BatchPersistenceObject.Writer.Enqueue | backend/app/services/batch_persistence.py:206-252 | what one undisturbed enqueue accepts, refuses, counts and leaves in the queue; on a drop_oldest overflow the head goes, an evicted flush command is signalled, and the unit is last |
| BatchPersistenceObject.Writer.HandleOverflow | backend/app/services/batch_persistence.py:372-396 | the whole new state of an undisturbed overflow, evicted flush command included |
| BatchPersistenceObject.Writer.BufferEvents | backend/app/services/batch_persistence.py:444-457 | the loop appends every event to its type's buffer and asks for a flush exactly when one is urgent or some append fills a buffer |
| BatchPersistenceObject.Writer.CollectDue | backend/app/services/batch_persistence.py:476-495 | exactly the due types leave the buffers; which those are is `TypeLeavesIff` |
| BatchPersistenceObject.Writer.FlushDue | backend/app/services/batch_persistence.py:476-517 | the due rows are counted once, as written if an attempt within the budget is accepted and as failed otherwise |
| BatchPersistenceObject.Writer.Round | backend/app/services/batch_persistence.py:429-458 | one turn of the worker loop is the pass of the step system, and a flush command is signalled after its flush |
| BatchPersistenceObject.Writer.WriteWithRetry | backend/app/services/batch_persistence.py:519-541 | at most retry_max + 1 attempts, total wait at most base·(2^retry_max − 1), success if and only if some attempt in the budget is accepted with all earlier ones failed and waited out |
| BatchPersistenceObject.Writer.WriteSynchronously | backend/app/services/batch_persistence.py:543-566 | without the worker every unit is received and then written or failed as a whole |
| BatchPersistenceObject.Writer.NextTimeout | backend/app/services/batch_persistence.py:460-468 | the sleep is between 1 and 100 ms, passes no deadline except by the 1 ms minimum, and is one of those bounds or hits a deadline |
| EventAggregatorSafety.NoEventIsStranded | backend/app/services/event_aggregator.py:122-263 | in every interleaving a non-empty buffer or slot has a live timer or a thread committed to schedule or flush it |
| EventAggregatorSafety.BatchesAreTheAppendOrder | backend/app/services/event_aggregator.py:184-253 | per category, taken batches then buffer are the append order |
| EventAggregatorSafety.NewestSummarySurvives | backend/app/services/event_aggregator.py:198-209 | the newest summary of a coalesced category is waiting or was the last one taken |
| EventAggregatorSafety.BuffersStaySmall | backend/app/services/event_aggregator.py:184-196 | a buffer has at most max − 1 events plus one per thread committed to flush it |
| EventAggregatorLaws.AppendFlushesAtSize | backend/app/services/event_aggregator.py:184-209 | an appended packet, alert or incident, flow or agent event makes its thread flush if and only if the buffer has reached packet, alert or flow maximum; a summary replaces the waiting one and is scheduled |
| EventAggregatorLaws.BuffersStayBelowSize | backend/app/services/event_aggregator.py:184-196 | the bound of every category in terms of the three configured maxima |
| EventAggregatorSafety.EventsAreConserved | backend/app/services/event_aggregator.py:87-253 | received = sent + pending + coalesced + direct + on the way; every batch taken is emitted once or is in one thread's hands |
| EventAggregatorSafety.BatchesCanOvertake | backend/app/services/event_aggregator.py:211-253 | a run in which two batches of one category are emitted in reverse order |
| EventAggregatorOrder.SerialRunsEmitInOrder | backend/app/services/event_aggregator.py:211-253 | over every run that takes no batch of a category while one is held, emitted batches followed by the held one are the taken batches |
| EventAggregatorOrder.NextEmissionKeepsOrderIff | backend/app/services/event_aggregator.py:211-253 | in every reachable state with a held batch, each holder may emit next without breaking the order if and only if the order was kept so far and all held batches of the category are equal |
| EventAggregatorOrder.TwoHoldersCanOvertake | backend/app/services/event_aggregator.py:211-253 | in every reachable state where two threads hold different batches of a category, the next step of one of them leaves the emitted batches no beginning of the taken ones |
| EventAggregatorOrder.SerialStepKeepsInStep | backend/app/services/event_aggregator.py:211-253 | each serial step keeps at most one holder, and emitted then held equal to taken |
| EventAggregatorSafety.StillCovered | backend/app/services/event_aggregator.py:122-263 | every step keeps each waiting event under a timer or a committed thread |
| EventAggregatorSafety.TimerStillServes | backend/app/services/event_aggregator.py:122-130 | a registered timer is live, or whoever fired or cancelled it will flush |
| EventAggregatorObject.Aggregator.AppendBuffer | backend/app/services/event_aggregator.py:184-196 | an undisturbed append emits the full buffer in order or leaves the event waiting under a timer |
| EventAggregatorObject.Aggregator.Coalesce | backend/app/services/event_aggregator.py:198-209 | an undisturbed coalesce replaces the waiting summary and arms its timer |
| EventAggregatorObject.Aggregator.FlushAll | backend/app/services/event_aggregator.py:113-120 | flushing all seven categories empties everything and emits the batches in category order |
| EventAggregatorObject.Aggregator.Close | backend/app/services/event_aggregator.py:122-130 | closing leaves nothing pending, no timer live, and everything emitted |
| TlsClientHello.GreaseValues | core/netbotpro_sniffer_core/tls.py:10-11 | the GREASE test accepts exactly the sixteen values of section 2 of RFC 8701 |
| TlsClientHello.ParseTlsClientHello | core/netbotpro_sniffer_core/tls.py:42-213 | the parser's loops, all offset reads checked in range, compute `Parse`; a 34-byte body is the one read past the end |
| TlsClientHello.ReadBody | core/netbotpro_sniffer_core/tls.py:63-213 | the field-by-field reading of a ClientHello body |
| TlsClientHello.ReadExtensions | core/netbotpro_sniffer_core/tls.py:118-203 | the extension loop, whose offset strictly grows |
| TlsClientHello.TrailingBytesIgnored | core/netbotpro_sniffer_core/tls.py:50-60 | bytes after a complete record never change the result |
| TlsRoundTrip.ParseInvertsWrite | core/netbotpro_sniffer_core/tls.py:42-213 | parsing any written well-formed ClientHello, whatever follows, returns its versions, ciphers, extension types, groups and supported versions minus GREASE, its point formats, host name and ALPN list |
| TlsLaws.PlainAlpnReadsBack | core/netbotpro_sniffer_core/tls.py:153-164 | non-empty ASCII ALPN names of a written hello are parsed as written, list after list |
| TlsLaws.PlainHelloReadsBack | core/netbotpro_sniffer_core/tls.py:42-213 | a written hello without GREASE is parsed as written, list by list |
| TlsLaws.AsciiKeeps | core/netbotpro_sniffer_core/tls.py:160-163 | decoding keeps exactly the bytes below 128, in order |
| TlsLaws.NoGreaseKeeps | core/netbotpro_sniffer_core/tls.py:208-210 | GREASE removal keeps exactly the other values, in order, repetitions included |
| TlsLaws.OtherPayloadsAreRefused | core/netbotpro_sniffer_core/tls.py:42-66 | too short, another record or handshake type, cut short, or a body below 35 bytes: no ClientHello |
| TlsRoundTrip.ExtensionsInvert | core/netbotpro_sniffer_core/tls.py:118-203 | reading a written extension block gathers exactly what the extensions say, in order |
| TlsRoundTrip.GatherAllCollects | core/netbotpro_sniffer_core/tls.py:124-203 | what is gathered is, field by field, an independent reading of the extension list |
| TlsFingerprints.Ja3Characterised | core/netbotpro_sniffer_core/tls.py:216-236 | two hellos share a JA3 string if and only if version and the four lists agree after GREASE removal |
| TlsFingerprints.WireJa3Characterised | core/netbotpro_sniffer_core/tls.py:42-236 | the same from bytes on the wire to the fingerprint |
| TlsFingerprints.Ja4IgnoresOrderAndGrease | core/netbotpro_sniffer_core/tls.py:239-264 | JA4's content is unchanged by permuting ciphers or extensions and by GREASE |
| TlsFingerprints.Ja4Characterised | core/netbotpro_sniffer_core/tls.py:239-264 | two hellos share JA4's content if and only if version code, host flag, ALPN part, cipher set, extension count and set of hashed extensions agree after GREASE removal |
| TlsFingerprints.WireJa4IgnoresOrderAndGrease | core/netbotpro_sniffer_core/tls.py:42-264 | two written hellos with the same GREASE-free ciphers and extensions in any order, the same GREASE-free versions, host and protocols have the same JA4 content after parsing |
| TlsFingerprints.GreaseInsertionReshuffles | core/netbotpro_sniffer_core/tls.py:239-257 | inserting GREASE anywhere in ciphers or extensions is such a change |
| TlsFingerprints.SortedSetSpec | core/netbotpro_sniffer_core/tls.py:255-257 | sorted({...}) is strictly increasing with the same members |
| TlsLaws.Ja3IsSpelled | core/netbotpro_sniffer_core/tls.py:216-236 | the JA3 string: five comma-separated fields, the version falling back to the record's, four dashed lists |
| TlsLaws.Ja4VersionIsGreatest | core/netbotpro_sniffer_core/tls.py:239-242 | JA4's version is the code of the greatest supported version, else of the client's, else of the record's |
| TlsLaws.Ja4FlagsAre | core/netbotpro_sniffer_core/tls.py:244-253 | the host flag is d exactly for names of three or more bytes with a dot; the ALPN part is the first two bytes of the first protocol, padded with zeros |
| TlsLaws.Ja4CountsAre | core/netbotpro_sniffer_core/tls.py:255-259 | the counts are of distinct ciphers and of all extensions, GREASE left out |
| FlowRisk.ScoreFlow | core/flow_risk.py:20-66 | the accumulating code computes the capped sum of the alert points and of the indicators that fire, and lists their reasons in order |
| FlowRiskLaws.ScoreIsSpelled | core/flow_risk.py:5-66 | the score is the sum, at most 100, of every indicator with its points, from raw fields; the level is its range |
| FlowRiskLaws.ReasonsAreSpelled | core/flow_risk.py:29-69 | the reasons are those of the indicators that fire, in order |
| FlowRiskLaws.OneMoreAlert | core/flow_risk.py:24-30 | one more alert adds 34, 20, 10 or 3 below two of a kind, and 10 if it is the first critical or high one |
| FlowRisk.RiskDropsIff | core/flow_risk.py:20-66 | for any later state of a flow the score drops if and only if the later uncapped sum is below 100 and the protocol got cheaper by more than the other indicators gained |
| FlowRisk.RiskNeverDrops | core/flow_risk.py:20-66 | seeing more of a flow never lowers score or level unless its protocol got cheaper |
| FlowRisk.RecognisedProtocolLowersRisk | core/flow_risk.py:31-42 | when only the protocol changes, the score drops if and only if the new one costs less and the uncapped sum stays below 100; the new score is the old sum with 22, 9 or 0 points exchanged, capped |
| FlowEngineResults.FlowTotalsAreTheHistory | core/flow_engine.py:91-280 | over all flows, packets and bytes add up to everything ingested since the last reset |
| FlowEngineResults.ConversationTotalsAreTheHistory | core/flow_engine.py:344-378 | over all conversations, packets and bytes add up to the same |
| FlowEngineResults.ConversationsPartitionFlows | core/flow_engine.py:158-159 | every flow is in exactly one conversation, and none is empty |
| FlowEngineResults.ConversationsAreUnordered | core/conversation_model.py:7-13 | packets share a conversation if and only if protocol and unordered endpoint pair agree; replies do |
| FlowEngineResults.FlowsAreConsistent | core/flow_engine.py:170-280 | bytes = sent + received, stored risk is the score of the stored flow and at most 100, timeline and samples stay bounded |
| FlowEngineResults.OneNewFlowPerDestination | core/flow_engine.py:151-156 | at most one flow per destination is flagged new |
| FlowEngineResults.FlowsOnlyGrow | core/flow_engine.py:106-182 | later packets never change a flow's origin (first_seen, conversation, new flag) nor lower what its risk counts |
| FlowEngineResults.StoredRiskDropsIff | core/flow_engine.py:170-279 | over any later packets a stored risk drops if and only if the protocol's points fell by more than the other evidence of the flow grew, and the new sum is below the cap |
| FlowEngineResults.StoredRiskNeverDrops | core/flow_engine.py:275-279 | so it never drops over later packets that leave the protocol the same or move it to one that costs no less |
| FlowEngineResults.AlertIdsAreListedOnce | core/flow_engine.py:240-245 | a flow lists every alert id raised on it exactly once |
| FlowEngineLaws.DirectionIsRead | core/flow_engine.py:32-49 | a packet's direction: its mark OUTGOING or INCOMING in any case, else the four cases of local ends |
| FlowEngineLaws.MarkedFlow | core/flow_engine.py:32-180 | a flow with a packet marked OUTGOING is outbound and has sent all its bytes, one marked INCOMING inbound and has received all |
| FlowEngineLaws.UnmarkedFlow | core/flow_engine.py:38-180 | without a mark the local ends decide the stored direction, and only an inbound flow has received bytes |
| FlowEngineLaws.BytesOfFlow | core/flow_engine.py:99-180 | bytes are the sum of the positive lengths, on one side of the flow |
| FlowEngineLaws.KeyIsRead | core/flow_engine.py:52-60 | the rest of a flow's identity, with its placeholders |
| FlowEngineLaws.NewFlagIsRead | core/flow_engine.py:151-156 | a flow is flagged new if and only if it is outbound and its first packet was the first of all to its destination |
| FlowEngineLaws.StoredFieldsAreRead | core/flow_engine.py:106-234 | first and last seen, duration, protocol, packet and DNS failure counts, first five samples, last named service |
| FlowEngineLaws.StoredMetadataIsLast | core/flow_engine.py:182 | every metadata name any packet had, with the value of the last packet that had it |
| FlowEngineLaws.StoredAlertsAreCounted | core/flow_engine.py:240-242 | alert counts by lower-case severity, low where none is given |
| FlowEngineLaws.StoredRiskIsScored | core/flow_engine.py:275-279 | the stored risk is the score of exactly the listed stored fields |
| FlowEngineLaws.ConversationIsSorted | core/conversation_model.py:7-13 | a conversation names the smaller end first |
| FlowEngineTimeline.TimelineTells | core/flow_engine.py:160-279 | the stored timeline is the last 200 events of one whose starts, protocol changes, alerts and new destinations are exactly those of the packets |
| FlowEngineTimeline.MetadataIsTold | core/flow_engine.py:212-230 | the metadata of every DNS, HTTP or TLS packet that has some is told |
| FlowEngineTimeline.ObservationsAreFresh | core/flow_engine.py:212-230 | every observation comes from such a packet and does not repeat the event before it |
| FlowEngineTimeline.PacketsAppendInOrder | core/flow_engine.py:160-273 | each packet appends start, protocol, metadata, alerts, new destination, in this order |
| FlowEngineObject.FlowIndex.Ingest | core/flow_engine.py:91-280 | after every packet the flow table, the conversations and the seen destinations are exactly those of the longer history; the `FlowEngineLaws` rows say what each stored field then is |
| FlowEngineObject.FlowIndex.RecordFlow | core/flow_engine.py:106-280 | the packet's own flow becomes what its packets describe and no other flow moves |
| FlowEngineObject.FlowIndex.RecordConversation | core/flow_engine.py:158-159 | recording the flow only at creation keeps every conversation exact |
| FlowEngineObject.FlowIndex.Reset | core/flow_engine.py:282-286 | a reset forgets everything |
| FlowEngineObject.FlowIndex.Conversations | core/flow_engine.py:344-378 | the reported sums are the group totals, and the reported risk the highest of the group |
| FlowEngineObject.Observe | core/flow_engine.py:170-280 | one packet brings a flow from the description of its packets so far to that of all of them, bounded timeline and samples included |
| FlowEngineObject.ExtendTimeline | core/flow_engine.py:160-273 | the events one packet appends, in order, with repeated metadata suppressed |
| FlowEngineObject.CountTraffic | core/flow_engine.py:170-234 | counters, service, samples, metadata and duration after one more packet |
| FlowEngineObject.NoteAlerts | core/flow_engine.py:240-261 | the alert loop tallies severities, lists ids once and appends timeline events |
| FlowEngineObject.IsNewAtOpening | core/flow_engine.py:151-156 | the flag set from the seen set at creation is the flag of the whole history |
| FlowSnapshots.CoalescingIsExact | backend/app/services/flow_service.py:99-129 | writing only each flow's latest snapshot leaves the same table if and only if, for flows new to the table, first and last snapshot agree on conversation and first_seen |
| FlowSnapshots.BatchingPreservesTheTable | backend/app/services/flow_service.py:303-330 | however an agreeing stream is cut into batches, the table is that of single upserts |
| FlowSnapshots.EngineStreamIsConstant | core/flow_engine.py:106-112 | between resets the engine's snapshots agree on the columns fixed at insert |
| FlowSnapshots.ResetInsideABatch | backend/app/services/flow_service.py:99-129 | snapshots from before and after a reset in one first batch leave a different table |
| FlowSnapshots.UpsertsLeave | backend/app/services/flow_service.py:99-129 | after upserts a row has the first snapshot's fixed and the last one's other columns |
| FlowSnapshots.LatestKeepsLast | backend/app/services/flow_service.py:320-322 | the dictionary of a batch keeps exactly the last snapshot of each flow |
| FlowSnapshotsLaws.RowIs | backend/app/services/flow_service.py:99-129 | column by column: conversation and first_seen of the old row or the key's first flow, the others of its last flow |
| FlowSnapshotsObject.SnapshotWriter.Enqueue | backend/app/services/flow_service.py:292-301 | a snapshot is accepted at the tail or, if the queue is full, dropped and counted |
| FlowSnapshotsObject.SnapshotWriter.Round | backend/app/services/flow_service.py:303-342 | one batch leaves the queue in order, a refused one writes nothing, counters count coalesced rows |
| FlowSnapshotsObject.SnapshotWriter.TableIsTheLog | backend/app/services/flow_service.py:303-342 | for an agreeing log the table is that of upserting the committed snapshots one by one; with no refusal those are all but the queued ones |
| FlowSnapshotsObject.Coalesce | backend/app/services/flow_service.py:320-322 | the loop builds the insertion-ordered dictionary |
| RateLimiter.WindowNeverExceedsLimit | backend/app/security.py:248-271 | any half-open window holds at most `limit` accepted requests per client and scope, over any run |
| RateLimiter.EvictionNeedsACommonWindow | backend/app/security.py:255-263 | evicting for window w is harmless for window v if and only if v is at most max(1, w) |
| RateLimiter.Limiter.Enforce | backend/app/security.py:248-271 | a request is let through if and only if fewer than `limit` of its client and scope were accepted in the window, whatever was evicted |
| RateLimiterLaws.VerdictsAre | backend/app/security.py:264-271 | a call of the log is let through if and only if fewer than its limit of the same client and scope were accepted less than a window before |
| RateLimiter.Limiter.EvictStale | backend/app/security.py:255-263 | from the oldest on, stale keys are forgotten until none is left or the excess is gone, and nothing else |
| RateLimiter.SparedAre | backend/app/security.py:255-263 | after eviction either no stale key is left or exactly the excess is gone |
| SignatureIds.Detector.AnalyzePacket | core/ids_signature.py:149-236 | every verdict is the one the whole history deserves: flood, port scan, SYN flood, then the custom rules, each over the packets that reached it |
| SignatureIdsLaws.FloodIff | core/ids_signature.py:168-180 | a flood is raised if and only if the source is named and has sent, this packet included, at least the threshold within the window |
| SignatureIdsLaws.PortScanIff | core/ids_signature.py:183-204 | without a flood, a scan is raised if and only if the packet is TCP or UDP to a port and its pair has probed at least the threshold of different ports within the window |
| SignatureIdsLaws.SynFloodIff | core/ids_signature.py:207-229 | only a TCP packet with S and without A raises a SYN flood; without flood and scan it does if and only if its pair has sent at least the threshold of them within the window |
| SignatureIdsLaws.OtherPacketsLeaveNoTrace | core/ids_signature.py:183-222 | other packets change no later SYN or port count |
| SignatureIdsLaws.CustomIff | core/ids_signature.py:241-301 | otherwise the first rule fires that concerns the packet and whose tries in its window (30 unless given) reach its threshold (10 unless given) |
| SignatureIds.Detector.CheckFlood | core/ids_signature.py:168-180 | the flood stage over pruned lists equals the count over the history |
| SignatureIds.Detector.CheckScan | core/ids_signature.py:183-204 | the scan stage counts the distinct ports of the window |
| SignatureIds.Detector.CheckSyn | core/ids_signature.py:207-229 | the SYN stage equals the count over the history; which packets count is `SynFloodIff` |
| SignatureIds.Detector.CheckCustomRules | core/ids_signature.py:241-301 | the rules loop fires the first rule whose in-window count reaches its threshold and tries none after it |
| SignatureIds.Detector.Cleanup | core/ids_signature.py:122-147 | cleaning forgets nothing that can still count |
| Windows.PruningIsFaithful | core/ids_signature.py:122-142 | dropping entries out of the window changes no later count |
| Windows.PruningServesShorterWindows | core/ids_signature.py:122-142 | a list pruned for one window answers for another if and only if that one is no longer |
| Windows.Clean | core/ids_signature.py:122-142 | the cleaning loop keeps exactly the in-window entries |
| HistoryCache.HitsAreFresh | backend/app/services/history_service.py:271-306 | over any run, a hit is the value of the last write of the same key, made less than the TTL ago |
| HistoryCache.HitsComeFromTheirMode | backend/app/services/history_service.py:260-269 | if every call reads the mode flag the same twice, a hit comes from the repository of its key's mode |
| HistoryCache.FlippedFlagPoisonsTheKey | backend/app/services/history_service.py:44-63 | otherwise, after any run, every reader of the key within the TTL is served the other repository's value |
| HistoryCache.NotFoundIsNeverServed | backend/app/services/history_service.py:86-100 | a cached "not found" always goes back to the repository |
| HistoryCacheLaws.ReadsAre | backend/app/services/history_service.py:271-290 | after any run a kept entry answers with the last write of its key until a TTL after it, and nothing else answers |
| HistoryCacheLaws.ReadingMoves | backend/app/services/history_service.py:271-290 | a live entry that is read goes to the end, a dead one goes, nothing else moves |
| HistoryCacheLaws.WritingPutsLast | backend/app/services/history_service.py:292-306 | a write puts its entry last, in place of an earlier one, or drops the first where the cap is reached |
| HistoryCache.SizeNeverExceedsCap | backend/app/services/history_service.py:292-306 | the cache never exceeds its cap |
| HistoryCache.EvictionIsLeastRecentlyTouched | backend/app/services/history_service.py:283-306 | what a write evicts was touched before everything it leaves |
| HistoryCache.EntriesStandByLastTouch | backend/app/services/history_service.py:271-306 | the entries always stand in the order of their last touch |
| HistoryCacheObject.Cache.ReadCache | backend/app/services/history_service.py:271-290 | a read does what the model says and returns a fresh copy |
| HistoryCacheObject.Cache.WriteCache | backend/app/services/history_service.py:292-306 | a write stores a copy of its own |
| HistoryCacheObject.GetDetail | backend/app/services/history_service.py:86-100 | hit, miss and failing repository of a detail call, and what each leaves in the cache |
| HistoryCacheObject.GetList | backend/app/services/history_service.py:44-63 | the two fields added to a list result never reach a stored entry |
| PcapReader.ReadPcap | core/offline_analyzer.py:57-145 | the record loop, errors included, computes the rows of the file |
| PcapReader.ReadFrame | core/offline_analyzer.py:79-116 | acceptance, addresses, protocol, ports, payload and query name of one frame |
| PcapReader.DecodeDnsName | core/offline_analyzer.py:43-54 | the label loop, whose offset strictly grows, decodes the name |
| PcapRoundTrip.ReadInvertsWrite | core/offline_analyzer.py:57-145 | reading a capture written in either byte order, with a remnant too short for a record, gives exactly the accepted frames' rows in order |
| PcapRoundTrip.PacketReadsBack | core/offline_analyzer.py:79-116 | any IPv4 frame with TCP or UDP, options included, is accepted with its addresses, protocol, ports and payload length |
| PcapRoundTrip.NameReadsBack | core/offline_analyzer.py:43-54 | encoding then decoding labels of 1 to 63 ASCII bytes gives the labels joined by dots |
| PcapLaws.ProtocolsAre | core/offline_analyzer.py:79-116 | protocol 6, 17 and 1 read as TCP, UDP and ICMP, every other as other; which rows have ports |
| PcapLaws.AcceptedAre | core/offline_analyzer.py:79-85 | which frames are accepted, in bytes |
| PcapLaws.QueryNameReadsBack | core/offline_analyzer.py:114-116 | a UDP packet from or to port 53 with a twelve-byte header and a written name has that name in its row, one of other ports none |
| PcapLaws.BrokenNamesAreEmpty | core/offline_analyzer.py:43-54 | a compression mark or an overrunning label empties the name; a missing zero byte at the end does not |
| PcapLaws.UnreadableFilesFail | core/offline_analyzer.py:57-70 | which files fail, by length, magic number and link type |
| PcapLaws.TcpHeaderIs | core/offline_analyzer.py:98-100 | a TCP header counts as its words, and as at least 20 bytes |
| DisplayFilter.CompileDisplayFilter | core/display_filter.py:87-148 | the parsing loop builds the groups of `Parse` or fails as it does |
| DisplayFilter.CompilerIsStandard | core/display_filter.py:87-148 | for all tokens and rows the groups have the value, or the failure, of a standard evaluator in which not binds tightest, then and, then or, and which must use every token |
| DisplayFilter.CompileInvertsPrint | core/display_filter.py:87-148 | compiling printed groups of well-formed atoms gives back those groups |
| DisplayFilter.NotEqualIsNotNegation | core/display_filter.py:63-84 | on a field of several values != is the negation of == if and only if the values are not mixed and there is one |
| DisplayFilterLaws.NotNegates | core/display_filter.py:93-127 | a test alone is true where it holds, with not before it exactly where it does not |
| DisplayFilterLaws.PrintedFilterMeans | core/display_filter.py:129-148 | a printed filter is true if and only if some group has all plain tests true and all negated ones false |
| DisplayFilterLaws.TokensAre | core/display_filter.py:97-139 | the keywords and the nine operators, in any case, and nothing else |
| DisplayFilterLaws.LoneTermIsSearched | core/display_filter.py:119-127 | a lone token that is no keyword is searched for |
| DisplayFilterLaws.ContainedTermIsSearched | core/display_filter.py:102-114 | the token after contains is searched for in lower case |
| DisplayFilterLaws.UnfinishedFiltersFail | core/display_filter.py:99-137 | what each unfinished filter lacks |
| DisplayFilterLaws.OrderingsCompareNumbers | core/display_filter.py:63-75 | the orderings compare numbers and fail where a side is none |
| DisplayFilterLaws.TextOperatorsCompareLowerCase | core/display_filter.py:76-84 | equal, different, part, beginning and end, in lower case |
| AgentRegistry.ReplayEqualsLive | backend/app/services/agent_registry.py:404-650 | after any run of register, heartbeat and telemetry calls, accepted or rejected, reloading the log rebuilds the same records and telemetry windows if and only if no accepted call supplied a text with a line end that JSON leaves raw |
| AgentRegistry.CallKeepsRecoverable | backend/app/services/agent_registry.py:404-650 | a call whose appends succeed keeps the registry recoverable if and only if it is rejected, and then changes neither log nor state, or its texts have no such line end |
| AgentRegistry.LineEndLosesEverything | backend/app/services/agent_registry.py:404-430 | an accepted call whose texts have one leaves a live registry that reloads as empty |
| AgentRegistry.OneRegistrationIsEnough | backend/app/services/agent_registry.py:404-430 | such a call: a first registration with U+2028 in a text |
| AgentRegistry.WindowIsTheLastFifty | backend/app/services/agent_registry.py:418-422 | an agent's window is the last 50 of all telemetry logged for it |
| AgentRegistry.RefusedLineDiverges | backend/app/services/agent_registry.py:427-650 | after a call of which storage took too few lines, telemetry's first line alone included, a reload agrees with memory if and only if the window was already full of this very telemetry and, with nothing written, the record was already the same, or else the written line is whole |
| AgentRegistry.UncleanRunLosesEverything | backend/app/services/agent_registry.py:404-430 | after any run with at least one accepted call of that kind the live registry has agents and a reload has none, whatever was logged before and after |
| AgentRegistry.GrantedCapabilities | backend/app/services/agent_registry.py:139-150 | exactly the safe capabilities asked for are granted, each once |
| AgentRegistryLaws.WrongTokenIsRefused | backend/app/services/agent_registry.py:432-440 | with a configured token every other one is refused and changes nothing |
| AgentRegistryLaws.RegistrationIsAcceptedIff | backend/app/services/agent_registry.py:432-445 | id, token, safe node type and no forbidden capability among the first 64: exactly then a registration goes through |
| AgentRegistryLaws.RegistrationLeaves | backend/app/services/agent_registry.py:446-491 | what it sets, and that it keeps the first registration time, telemetry and risk of a known agent and touches no other |
| AgentRegistryLaws.RegistrationGrants | backend/app/services/agent_registry.py:139-150 | the capabilities of the record are the grantable ones among the first 64 asked for |
| AgentRegistryLaws.HeartbeatLeaves | backend/app/services/agent_registry.py:562-576 | a heartbeat changes last seen and status of a known agent, and nothing otherwise |
| AgentRegistryLaws.TelemetryLeaves | backend/app/services/agent_registry.py:590-640 | telemetry becomes the newest of at most fifty and the record's, and nothing otherwise |
| AgentRegistryLaws.LineEndsAre | backend/app/services/agent_registry.py:408-430 | a text breaks its line exactly at three code points |
| AgentRegistry.NormalizeCapabilities | backend/app/services/agent_registry.py:139-150 | the loop refuses a forbidden capability among the first 64 and otherwise grants the safe ones |
| AgentRegistry.AgentStore.RegisterAgent | backend/app/services/agent_registry.py:432-497 | the checks in their order, the record, and the logged line |
| AgentRegistry.AgentStore.RecordHeartbeat | backend/app/services/agent_registry.py:562-588 | a heartbeat of a known agent updates and logs its record |
| AgentRegistry.AgentStore.RecordTelemetry | backend/app/services/agent_registry.py:590-650 | telemetry of a known agent updates window and record and logs both |
| AgentRegistry.AgentStore.Load | backend/app/services/agent_registry.py:404-425 | the loading loop computes the replay of the log |

## Left out

- Hashes (SHA-1, SHA-256, MD5), UUIDs and timestamps as text: flow and conversation ids are the tuples they are hashed from, the lane hash is any function of the key, fingerprints are compared before hashing.
- Clocks: logical and nondecreasing; the batch writer's clock counts whole milliseconds and is read once per unit and once per flush, not once per event; the PCAP reader keeps seconds and fraction instead of a formatted time.
- Environment variables, event-type, priority and policy normalisation of the batch writer: the model starts from normalised values.
- SQLite, files, network, Scapy and processes: storage is a table or a sequence of lines plus an answer that may be a failure.
- Redaction and protocol analysis: redacted texts and protocol fields are inputs.
- Latency averages, percentiles, health labels, high-water marks, pressure reasons and log messages of all components.
- TlsRoundTrip.ParseInvertsWrite: host name and ALPN names stay bytes, of which ALPN drops the non-ASCII ones; decoding bytes to text, and the length of the host name in characters in JA4's flag, are not modelled.
- TlsFingerprints.Ja4IgnoresOrderAndGrease: is about the fields JA4 prints and hashes, not about the printed text.
- DispatchKey.KeyIsCanonical: upper-casing and lower-casing are modelled for ASCII only, here and in the other modules.
- FlowWorkerPoolObject.Pool.Enqueue: describes a caller nobody disturbs; the second overflow drop, which needs another producer in between, is in the step system only.
- Worker threads' start-up, slow-job counters and `stats` of the pool.
- The mapping of event types to categories and the timers' delays of the aggregator: the category is an input.
- EventAggregatorObject.Aggregator.Close: describes an undisturbed close; interleaved closes are in the step system. The counters moved by `record_dropped` and `record_coalesced` are not modelled.
- FlowEngineObject.FlowIndex.Conversations: the order of the reported list, its first and last times and its protocols are not modelled; neither are `list_flows`, `summary` and the reports.
- The wording of timeline summaries and redaction inside them; `write_snapshots` skipping snapshots without an id; deleting old rows by retention.
- FlowSnapshotsObject.SnapshotWriter.Round: storage's final answer is an input; the retry loop is the one proved for the batch writer.
- RateLimiter.Limiter.Enforce: one window for all calls, as the call sites have it; what mixed windows break is stated separately.
- SignatureIds.Detector.AnalyzePacket: parameters and rules stay fixed; ports that are not numbers, the rules file and the alert texts are left out.
- HistoryCacheObject.GetList: copies are one level deep, as in the code; nested values are not modelled. Metrics are an input.
- PcapReader.ReadFrame: HTTP request lines and headers of TCP payloads.
- DisplayFilter.CompilerIsStandard: starts from tokens; quoting and splitting, and looking up a field in a row, are left out, and the truth of a single test is a parameter.
- AgentRegistry.ReplayEqualsLive: JSON text is a sequence of lines, each read back as written or, with a raw line end inside, as one that does not parse; text that UTF-8 cannot encode counts as a refused append; SQLite mode, demo deletion, `set_agent_last_seen`, token verification and the risk arithmetic are left out.
- The event bus, history repositories, incident and rules engines, per-protocol counters, frontend and packaging, which would only add easy variants.
