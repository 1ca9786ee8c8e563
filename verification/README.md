# Flowcore: a verified model of the flow table and the packet pipeline

Flowcore is a DPDK datapath. A dispatcher receives packets, finds or creates the flow of each
5-tuple in a lock-free hash with side arrays, stamps the packet with `(flow_idx, flow_gen)` and
hands it to one of four workers. Workers never join RCU: they validate the stamp around a copy of
the slot, fall back to parsing the packet again, and apply first-match rules. A maintenance thread
ages flows, evicts them under pressure and reclaims slots.

The project models these parts and proves what they promise.

* `FlowTypes`, `Generation`, `FlowPacket`, `RuleEngine` and `RuleReload` are the data, the slot
  generations, the parser against a byte-level frame description, and the rule engine with its
  double-buffered reload.
* `HashTable` is the contract of the hash with its deferred queue: free, mapped and deferred slots,
  two reporting threads, grace periods. `SlotSeqlock` is one slot at the level of single memory
  accesses.
* `FlowPipeline` joins dispatcher, maintenance thread and workers into one state machine in which
  any enabled step of any thread may come next. `PipelineInvariant` and `PipelineDispatch` prove
  its invariant, `PipelineTheorems` what follows for whole runs.
* `PipelineWitness` builds runs of that machine from its start, and with them shows that the one
  situation excluded by the main theorem really occurs; `Counterexamples` does the same for the
  other promises that fail.
* `AgingScan`, `FlowTableSpec`, `PressureSpec`, `FlowTableLaws` and the class `FlowTable` are aging,
  pressure eviction, the victim cache and replacement over the hot and cold arrays.
* `DispatcherSpec` and the class `DispatcherThread` are the burst loop with its `resolved_*`
  entries, `WorkerSpec` and the class `WorkerThread` the worker with its TX queue, `Maintenance`
  the maintenance tick.
* `Datapath` is the state machine with two more layers: every worker reads its rules one at a time
  while they are reloaded, and sends through a TX queue. `TransmitOrder` ties `WorkerThread` to it.

The classes are what one thread does when the others stand still; each of their methods is tied to
a function of the old state. The state machine is what all threads do together.
`SlotSeqlock.PublicationRefinesUpdate` and `DispatcherSpec.PublishIsTheRacyOne` connect the two.

## What turned out not to hold as documented

* A lookup hit can be stamped with another flow's slot. The bulk lookup runs once per burst, but a
  successful replacement reports quiescent and reclaims in the middle of it, so a slot in
  `positions[]` can be reused before its packet is handled. The exact condition is checkable by the
  dispatcher: the stamp is right if and only if `positions[i]` is not yet in
  `resolved_positions` (`PipelineTheorems.HitIsHonestIff`, `PipelineTheorems.RunHonestIff`); a
  reused entry is right if and only if it was not made by such a hit
  (`PipelineTheorems.PacketHonestIff`). Other packets are not affected.
  `PipelineWitness.ReusedHitHappens` is a reachable run in which it goes wrong.
* The comment at `src/dispatcher.c:54` says that `last_seen` publishes a slot to aging and
  replacement. Deletion does not clear it, so it guards exactly the slots that never completed a
  publication (`PipelineTheorems.UnpublishedGuardIff`). `Counterexamples.DeletedBeforePublished` is
  a reachable run in which a flow in a reused slot is deleted before its publication has stored
  anything.
* A replacement may remove several flows and counts one. The books stay exact if and only if the
  candidates it tries validly name at most one flow (`FlowTableSpec.EvictedCount`,
  `Dispatcher.DispatcherThread.EvictForReplacement`); over a whole run, if and only if no
  replacement goes on to delete a second flow (`PipelineTheorems.RunAccounting`).
  `Counterexamples.ReplacementLosesAFlow` is a reachable run that loses one.
* The batch flush deletes by key. It removes the flow that was examined if and only if the key is
  still mapped to the examined slot (`FlowTableSpec.FlushHitsExaminedFlowIff`).
  `Counterexamples.FlushOfMovedFlow` is a reachable run in which the flow has come back in another
  slot since the scan and is deleted although it was seen just now. The second look at `last_seen`
  and the deletion are two accesses; what that changes is `FlowTableSpec.FlushIsCurrentIff`, and
  `Counterexamples.FlushOfTouchedFlow` is a reachable run in which a packet touches the flow between
  the two and the flow is deleted all the same.
* Pressure eviction works on the hash's entry count, in which deleted slots awaiting reclaim are
  still contained, so a pass can take the mapped flows below the 92% target. They stay at or above
  it if and only if they were there before, and the mode is normal, or no slot awaits reclaim, or
  the visited flows that can be evicted are no more than the mapped flows above the target
  (`Maintenance.PressureTargetIff`). `Counterexamples.PressureBelowTarget` is a reachable state in
  which one tick takes them below.
* A worker overtaken by two reloads during one match can read a table that is being rewritten
  (`RuleReload.TwoReloadsDuringOneRead`); that is exactly when a load starts on a table being read
  (`RuleReload.NoOverwriteIff`).
* The repository's README (line 35) says that aging may delete flows while dispatcher and workers
  keep running because the reader threads register with QSBR and report quiescent states
  periodically. In the code only the dispatcher and the maintenance thread register. Workers read
  the slots without registering; what protects them is the generation in the stamp
  (`PipelineTheorems.SnapshotIsNeverTorn`).

## Model

| member | source | states |
|---|---|---|
| FlowTypes.KeyColdKey | src/flow_packet.c:71-82 | a key stored in a cold record and rebuilt by `candidate_load_slot` is the same key, and the other way round |
| Generation.GenAfterClosedForm | include/flow_table.h:92-101 | after n publications the 32-bit generation is ((n-1) mod (2^32-1)) + 1, so it is never 0 |
| Generation.SameStampIff | include/flow_table.h:92-101 | two publications of a slot share a generation exactly when their distance is a multiple of 2^32-1 |
| Generation.StampIsUnique | include/flow_table.h:92-101 | within one period equal generations mean the same publication |
| Generation.GenerationNext | include/flow_table.h:92-101 | the one or two add-fetch operations on the array advance one slot's generation and nothing else |
| FlowPacket.ParsesExactlyFrames | src/flow_packet.c:10-55 | the parser accepts exactly the byte layouts of unfragmented IPv4 TCP/UDP frames (any header length, options, payload) and returns exactly their 5-tuple |
| FlowPacket.SerialiseThenParse | src/flow_packet.c:10-55 | parsing a laid-out frame returns its 5-tuple |
| FlowPacket.ParseThenSerialise | src/flow_packet.c:10-55 | what the parser accepts is, byte for byte, the layout of a well-formed frame |
| FlowPacket.FieldsAtTheirOffsets | src/flow_packet.c:10-55 | the offsets written out: addresses from bytes 26 and 30, ports after the header length, protocol at byte 23, big-endian |
| FlowPacket.ReadsStayInside | src/flow_packet.c:19-43 | bytes beyond `data_len` cannot influence the outcome |
| FlowPacket.ExtractCold | src/flow_packet.c:57-69 | the worker's fallback succeeds exactly when the key parses, and carries that key |
| FlowPacket.AccountProtocol | src/flow_packet.c:84-107 | each classified packet moves exactly one counter, decided by protocol and destination port |
| RuleEngine.FirstMatchIff | src/spi_engine.c:199-212 | the verdict is an action exactly when the first matching rule has it, or none matches and it is FORWARD |
| RuleEngine.OneRuleVerdict | src/spi_engine.c:189-197 | field by field: a single rule decides about exactly the records that agree with it in every field whose flag is set |
| RuleEngine.ExactRuleDropsOneFlow | src/spi_engine.c:189-197 | a rule made from a 5-tuple with all flags set drops that flow and no other |
| RuleEngine.OneFieldRules | src/spi_engine.c:189-197 | with one flag set the verdict depends on that one field, with none it applies to everything |
| RuleEngine.RulesInOrder | src/spi_engine.c:199-212 | the first rule decides when it applies, is passed over when not, and an empty list forwards |
| RuleEngine.LoadableIff | src/spi_engine.c:121-187 | a file loads exactly when it can be read and has at most 256 lines, all of them rules |
| RuleEngine.VerdictIgnoresCreateTime | src/spi_engine.c:189-212 | the verdict depends on the 5-tuple alone |
| RuleEngine.MatchColdAgainstTable | src/spi_engine.c:199-212 | the rule loop returns the first match over the active rules; a null table forwards |
| RuleEngine.SpiRuleEngine.MatchCold | src/spi_engine.c:214-221 | the engine answers for the published table |
| RuleEngine.SpiRuleEngine.LoadRuleFile | src/spi_engine.c:121-187 | a load touches one table only and succeeds exactly for at most 256 well-formed rules, which it then holds in order |
| RuleEngine.SpiRuleEngine.Init | src/spi_engine.c:223-240 | the first load publishes version 1 or leaves the pointer as it was |
| RuleEngine.SpiRuleEngine.ReloadIfNeeded | src/spi_engine.c:257-282 | a requested reload publishes the new rules with the next version, a failed one changes no verdict, the old table is untouched, and afterwards no request is pending |
| RuleEngine.SpiRuleEngine.RequestReload | src/spi_engine.c:251-255 | whatever file the next reload check finds, it attempts the load and does not return 0; until then the published table is unchanged, and a second request adds nothing |
| RuleReload.LoadsSpareTheActiveTable | src/spi_engine.c:257-282 | a step of ReaderAnswersForItsVersion: no step of a load changes the active table; a publication raises the version by one |
| RuleReload.ReaderAnswersForItsVersion | src/spi_engine.c:199-221 | a worker interleaved with reloads answers for exactly the version it picked up, if no load starts after a publication during its read |
| RuleReload.OverwriteIff | src/spi_engine.c:266-270 | the step behind that proviso: starting a load writes the table being read exactly when the active pointer has moved away from it |
| RuleReload.NoOverwriteIff | src/spi_engine.c:257-282 | over whole runs, with no all-zero table read: no load starts on a table being read if and only if a worker's table stays, after every step, the one it picked up |
| RuleReload.TwoReloadsDuringOneRead | src/spi_engine.c:257-282 | a run in which two reloads during one read forward a packet that every version drops |
| HashTable.PartitionCovers | src/flow_table.c:283-289 | every slot is free, mapped or deferred |
| HashTable.DeferredQueueBounded | src/flow_table.c:283-289 | the deferred queue never outgrows the number of slots |
| HashTable.DelKeepsValid | src/flow_table.c:76-102 | deleting a key keeps the partition of slots and the order of tokens |
| HashTable.ReclaimKeepsValid | src/flow_table.c:571-589 | reclaiming keeps the partition and no flow changes |
| HashTable.InsertKeepsValid | src/dispatcher.c:173 | giving the oldest free slot to a new key keeps the partition |
| HashTable.AddedKeyFacts | src/dispatcher.c:170-187 | an add changes nothing when it fails and adds exactly one pair in a slot no other flow has when it succeeds |
| HashTable.AddSucceedsIff | src/dispatcher.c:173 | an add succeeds exactly for a known key, with a free slot, or when the oldest deferred slot is passed by both threads; which slot it gets is stated for each |
| HashTable.HeldSurvivesDel | src/dispatcher.c:149-238 | a looked-up slot stays its key's under any deletion |
| HashTable.HeldSurvivesReclaim | src/dispatcher.c:149-238 | it is not reclaimed before the holder reports |
| HashTable.HeldSurvivesInsert | src/dispatcher.c:149-238 | it is not given to another key |
| HashTable.HeldSurvivesOther | src/stats.c:253-290 | reports of the other thread do not end the grace period |
| HashTable.ReclaimCount | src/flow_table.c:571-589 | reclaiming stops only at its limit or when the oldest deferred slot is not yet acknowledged |
| HashTable.RoundsAreOneReclaim | src/flow_table.c:577-586 | the rounds of `flow_table_reclaim` add up to one reclaim of their total |
| HashTable.ReportsRelease | src/flow_table.c:340-352 | after a report every token drawn so far is passed by the reporter, and an offline thread delays no token at all, so in both cases reclaim waits for the other thread alone; neither ever blocks a reclaim that was possible |
| HashTable.LoneReportReleasesAll | src/flow_table.c:340-352 | with the other thread offline, one report lets reclaim empty the deferred queue |
| SlotSeqlock.WriterStepKeepsSide | src/dispatcher.c:43-55 | every single store of a publication keeps the slot invariant |
| SlotSeqlock.SecondCheckKeepsRead | src/worker.c:158-174 | passing both generation checks within one period means the copy is the complete record of the stamping publication |
| SlotSeqlock.WriterKeepsRead | src/worker.c:158-174 | a store of the dispatcher at any point of a worker's read keeps what the copy stands for |
| SlotSeqlock.RestingSlotAccepts | src/worker.c:158-159 | on a slot at rest the check accepts exactly the stamps whose distance is a multiple of 2^32-1 |
| SlotSeqlock.PublicationRefinesUpdate | src/dispatcher.c:34-57 | the stores of a publication, run without interruption, equal one update of the slot |
| PipelineInvariant.InitInv | src/flow_table.c:215-299 | the invariant holds when the threads start |
| PipelineDispatch.StepKeepsInv | src/dispatcher.c:109-239 | every step of every thread keeps the invariant |
| PipelineTheorems.RunKeepsInv | src/dispatcher.c:109-239 | the invariant holds along every run |
| PipelineTheorems.HitIsHonestIff | src/dispatcher.c:202-211 | a lookup hit is stamped with its own flow if and only if its slot is not yet in `resolved_positions` |
| PipelineTheorems.CleanHitIsHonest | src/dispatcher.c:149-211 | without a successful replacement since the bulk lookup that condition always holds |
| PipelineTheorems.StepHonestIff | src/dispatcher.c:151-221 | a step keeps all stamps right exactly when it is not such a hit |
| PipelineTheorems.RunHonestIff | src/dispatcher.c:109-239 | over a run all stamps are right if and only if no such hit occurred |
| PipelineTheorems.NoLateHitSuffices | src/dispatcher.c:75-77 | it is enough that no lookup hit follows a successful replacement in its burst |
| PipelineWitness.ReusedHitHappens | src/dispatcher.c:149-211 | such a hit is reachable from the start, with one slot and two flows |
| PipelineTheorems.VerdictOf | src/worker.c:150-202 | every classification is first-match on the stamping publication's 5-tuple or on the packet's own |
| PipelineTheorems.OwnVerdictIff | src/spi_engine.c:189-197 | what a packet's own verdict is: a single rule decides about a 5-tuple exactly when the fields it asks about agree |
| PipelineTheorems.PacketHonestIff | src/dispatcher.c:151-221 | packet by packet, over any run: a packet carries its own flow's stamp for ever if and only if it was stamped neither by a hit on a slot its burst had already resolved nor by reuse of the entry such a hit made |
| PipelineTheorems.MisstampedIsLate | src/dispatcher.c:149-211 | a packet resolved by an add, or by a hit or a reuse before any successful replacement in its burst, is never stamped so |
| PipelineTheorems.PacketGetsItsOwnVerdict | src/worker.c:150-202 | on every run, whatever happens to other packets: a packet gets the first match of its own 5-tuple, by either fallback always, by snapshot unless it carries another flow's stamp |
| PipelineTheorems.EarlyPacketGetsItsOwnVerdict | src/dispatcher.c:149-211 | in particular every packet resolved by an add, or before any successful replacement in its burst |
| PipelineTheorems.EveryPacketGetsItsOwnVerdict | src/worker.c:150-202 | a corollary: on runs without such a hit every packet does |
| Datapath.MoveKeepsInv | src/spi_engine.c:199-282 | every step of the pipeline, of a reload, of a worker's rule reading and of its TX queue keeps the invariant of the whole |
| Datapath.AnswersForItsVersion | src/spi_engine.c:199-221 | the same verdict with rules read one at a time and reloads at any point: under exactly the version the worker picked up, unless a load wrote that table during the read |
| PipelineTheorems.SnapshotIsNeverTorn | src/worker.c:158-174 | an accepted snapshot is complete and of the stamping publication, under every interleaving |
| PipelineTheorems.FlowAffinity | src/dispatcher.c:51-52 | packets of a 5-tuple, stamped with its flow, go to the worker that the hash of the 5-tuple modulo 4 names, also across deletion and re-creation |
| PipelineTheorems.StampTouches | src/dispatcher.c:156-221 | whenever a packet is stamped, its slot was last seen at the clock of the burst and no other slot changed; a hit or a new flow carries the generation and the worker its slot has then |
| PipelineTheorems.ForwardedInArrivalOrder | src/worker.c:142-208 | each worker forwards in arrival order |
| PipelineTheorems.FlowOrder | src/dispatcher.c:208-235 | two packets of one flow, both stamped with it, are processed by one worker in arrival order |
| Datapath.SentInArrivalOrder | src/worker.c:26-69 | in every reachable state what a worker has sent is in arrival order, whatever the driver takes at a time |
| Datapath.FlowLeavesInOrder | src/worker.c:118-212 | from the dispatcher to the wire: two sent packets of one 5-tuple, both stamped with their own flow, left by one worker in the order in which they arrived |
| Datapath.NothingLostBeforeExit | src/worker.c:71-116 | before its exit a worker's sent and pending packets are all those it passed on |
| TransmitOrder.SettledIsLane | src/worker.c:133-209 | at every loop boundary of the worker class, whatever was staged, partly sent and retried, its arrays are a TX queue of the datapath |
| TransmitOrder.ExitedIsLane | src/worker.c:92-116 | so they are after the exit drain, with what it dropped |
| TransmitOrder.DecisionAlike | src/worker.c:150-202 | a packet the worker class classifies with the loads made in the datapath gets the datapath's decision |
| TransmitOrder.StandingStampPasses | src/worker.c:154-172 | the two threads joined: while the enqueued stamp stands in the table, a worker that loads its slot's generation passes the first check, and the second load alone decides between copy and re-parse |
| TransmitOrder.ThreadSendsInOrder | src/worker.c:26-69 | so the worker class transmits in arrival order |
| PipelineTheorems.LookupStaysValid | src/dispatcher.c:149 | a slot from the bulk lookup is its key's until the dispatcher reports |
| PipelineTheorems.RetainedKeyStaysValid | src/flow_table.c:404-420 | a key pointer kept for a batch still names its key at the flush |
| PipelineTheorems.VictimValidIff | src/flow_table.c:76-102 | a cached pair passes validation exactly when it names the latest publication of its slot and that flow is still mapped there |
| PipelineTheorems.VictimDeletionIsExact | src/flow_table.c:101 | even with deletions in between only the validated flow can disappear |
| PipelineTheorems.UnpublishedGuardIff | src/dispatcher.c:54-55 | `last_seen` is 0 exactly for slots that never completed a publication |
| Counterexamples.DeletedBeforePublished | src/dispatcher.c:34-57 | a run in which aging retains and deletes a flow in a reused slot on its stale `last_seen`, before its publication has stored anything |
| PipelineTheorems.FlowAccounting | src/dispatcher.c:71-74 | between packets mapped plus counted deleted flows never exceed the created ones |
| PipelineTheorems.RunAccounting | src/dispatcher.c:71-74 | over a run they are equal exactly when no replacement was about to delete a still mapped victim after having removed a flow already |
| Counterexamples.ReplacementLosesAFlow | src/dispatcher.c:71-74 | a run in which a replacement removes two flows and counts one: three created, one deleted, one mapped |
| PipelineTheorems.RangesAlwaysHold | src/dispatcher.c:203-207 | index and worker ranges hold in every reachable state |
| AgingScan.ScanVisitsOccupied | src/flow_table.c:382-394 | a tick visits mapped slots only, each once, in order |
| AgingScan.CoverageInTwoPasses | src/flow_table.c:377-394 | from any cursor a slot that stays mapped is visited within two passes of 8 ticks |
| AgingScan.ScanBudget | src/flow_table.c:377-380 | eight budgets cover the table, and the budget is the least positive number that does |
| FlowTableSpec.PackExact | src/flow_table.c:44-70 | packing position and generation into a ring object is exact in both directions |
| FlowTableSpec.PressureMonotone | src/flow_table.c:129-184 | more flows never mean a milder mode, a longer idle limit or smaller budgets |
| FlowTableSpec.ModeThresholds | src/flow_table.c:425-440 | the modes begin at 92, 96 and 99 percent of the slots, rounded down |
| FlowTableSpec.EligibleIff | src/flow_table.c:104-140 | what each mode admits: published flows idle for more than half, more than a quarter, or none of the timeout |
| FlowTableSpec.BudgetIsTheExcess | src/flow_table.c:175-184 | the eviction budget is the excess over 92 percent of the slots, and nothing in normal mode |
| FlowTableSpec.ScanShares | src/flow_table.c:142-173 | a pass visits an eighth, a quarter or half of the slots, rounded up and never more than there are |
| FlowTableSpec.BudgetLandsOnTarget | src/flow_table.c:175-184 | a spent budget lands where the budget is 0, never below the target |
| FlowTableSpec.AgeAllRemovesExactly | src/flow_table.c:382-416 | aging removes exactly the visited flows that are published and idle past the timeout |
| FlowTableSpec.AgedFlowsWereIdle | src/flow_table.c:186-213 | spelled out for each flow: it goes exactly when its slot was visited, `last_seen` was not 0, and more than the timeout ago; a flow whose slot has `last_seen` 0 always stays |
| FlowTableSpec.FlushedWereIdle | src/flow_table.c:186-213 | a flushed batch removes exactly the keys of entries whose slots are then published and idle past the timeout; the others keep their slots |
| FlowTableSpec.BatchedEqualsUnbatched | src/flow_table.c:404-420 | collecting and flushing in batches deletes what deleting at every visit would |
| FlowTableSpec.FlushHitsExaminedFlowIff | src/flow_table.c:186-213 | a late flush removes the examined flow exactly when its key is still mapped to its slot |
| FlowTableSpec.FlushIsCurrentIff | src/flow_table.c:200-207 | the second look at `last_seen` and the deletion are two accesses; the outcome is that of one access exactly when the key is gone or a look at the deletion would have had the same result |
| Counterexamples.FlushOfTouchedFlow | src/flow_table.c:200-207 | a run in which a packet touches the flow between the two accesses and the flow is deleted all the same |
| Counterexamples.FlushOfMovedFlow | src/flow_table.c:186-213 | otherwise a fresh flow can be deleted: a run with three slots, two of them still awaiting the dispatcher's report when the flow is replaced |
| PressureSpec.PressureAllInv | src/flow_table.c:475-512 | a pressure pass evicts within its budget, only eligible flows, all eligible ones that nobody else gets to until the budget is spent, and caches only eligible slots |
| PressureSpec.EvictedExactly | src/flow_table.c:496-505 | the number of evictions is the number of visited flows that can be evicted, up to the budget |
| PressureSpec.CachedExactly | src/flow_table.c:475-512 | the victim cache gains exactly the eligible visited slots that come when the budget is spent, in visiting order, at most 512 and as many as the 8191 entries leave room for |
| FlowTableSpec.EvictAllExactly | src/flow_table.c:528-536 | trying candidates removes exactly the flows some candidate names validly; outdated and repeated ones remove nothing |
| FlowTableSpec.EvictedCount | src/flow_table.c:528-563 | as many flows go as there are distinct keys validly named by the candidates |
| FlowTableLaws.IdleFlowIsDeletedInTime | src/flow_table.c:362-423 | a flow cannot stay idle through two passes without being deleted, whatever else happens between ticks |
| FlowTableLaws.FreshFlowSurvivesTick | src/flow_table.c:399-416 | a flow deleted by a tick had a `last_seen` other than 0 and more than the timeout ago |
| FlowTableLaws.PressurePassRespectsLimits | src/flow_table.c:455-515 | evicted + stale + candidates <= scanned <= budget, evicted within its budget, and mapped flows stay at the target when they are the count given |
| FlowTableLaws.PressurePassByMode | src/flow_table.c:455-515 | by what the mode admits, both ways: every flow that goes was visited and admitted, every visited and admitted one that nobody else gets to goes while the budget lasts, and the next ones are cached |
| FlowTableLaws.CachedCandidateRemoves | src/flow_table.c:54-102 | where cold records agree with the hash, a popped pair removes a flow exactly when its slot is mapped, published and still at that generation |
| FlowTableLaws.PipelineColdMatches | src/flow_table.c:23-36 | they agree in every state the pipeline reaches, but for a slot being published, and always while the dispatcher replaces a flow |
| FlowTableLaws.UnpublishedIsNeverReplaced | src/flow_table.c:93-95 | replacement never removes a flow whose slot was never published |
| FlowTableLaws.CachedFlowGoes | src/flow_table.c:528-536 | a pair a replacement takes from the ring removes its flow, when that is still published at the cached generation |
| FlowTableLaws.OldestSampleGoes | src/flow_table.c:538-563 | in every sampled batch that hits a published slot, a slot no younger is tried and the flow in it goes |
| FlowTableLaws.SampledIff | src/flow_table.c:535-541 | slots are sampled exactly when the budget allows it and no cached pair names a mapped, published flow; then sixteen times four |
| FlowTable.FlowTable.constructor | src/flow_table.c:215-299 | a new table is empty with zeroed side arrays |
| FlowTable.FlowTable.CandidateDeleteIfValid | src/flow_table.c:76-102 | deletes exactly the valid candidate's key |
| FlowTable.FlowTable.FlushExpiredBatch | src/flow_table.c:186-213 | removes exactly the flows whose key an entry names whose slot is published and idle past the timeout, and counts what went |
| FlowTable.FlowTable.AgingTick | src/flow_table.c:362-423 | with batches of 1024 and a kept cursor the tick does what unbatched aging does: exactly the visited flows go whose `last_seen` was not 0 and more than the timeout ago; deleted <= expired <= scanned <= budget |
| FlowTable.FlowTable.VictimPush | src/flow_table.c:38-52 | appends the packed pair unless the ring is full |
| FlowTable.FlowTable.VictimPopBurst | src/flow_table.c:54-74 | takes the oldest pairs, at most 16, with keys rebuilt from the cold array |
| FlowTable.FlowTable.PressureMaintenance | src/flow_table.c:455-515 | the pass equals the specified one over the specified slots, with a candidate stale exactly when another thread got to its slot; normal mode does nothing |
| FlowTableSpec.OldestIsOldest | src/flow_table.c:541-554 | no published sample of a batch is older than the one chosen, and one is chosen as soon as some sample is published |
| FlowTable.FlowTable.EvictEmergency | src/flow_table.c:538-563 | sixteen batches of four samples, the oldest published slot of each tried once, in order |
| FlowTable.FlowTable.EvictForReplacement | src/flow_table.c:517-569 | the result is positive exactly when a flow was removed; exactly the popped candidates are tried, then, only if they removed nothing, the sampled ones |
| FlowTable.FlowTable.AddKey | src/dispatcher.c:173 | a known key keeps its slot, a new one gets the oldest free slot, and a full table is reclaimed once before failing |
| FlowTable.FlowTable.ReclaimRounds | src/flow_table.c:571-589 | stopping at the first idle round loses nothing: the result is that of all rounds |
| DispatcherSpec.PublishIsTheRacyOne | src/dispatcher.c:34-57 | the publication of the interleaved model, run alone, is the dispatcher's update of the arrays |
| DispatcherSpec.AgreesReuse | src/dispatcher.c:156-168 | reusing a resolved entry is what a fresh lookup would give |
| DispatcherSpec.AgreesHit | src/dispatcher.c:202-217 | a bulk-lookup hit is what a fresh lookup would give |
| DispatcherSpec.AgreesAdd | src/dispatcher.c:170-201 | a bulk-lookup miss without a resolved entry is still a miss, and adding agrees |
| DispatcherSpec.OneByOneAddsPlacedKeys | src/dispatcher.c:147-221 | a burst adds exactly the placed keys and moves no flow |
| DispatcherSpec.OneByOneStampsStand | src/dispatcher.c:159-168 | packets of one key carry one stamp, which still stands at the end of the burst |
| DispatcherSpec.RoutedPartition | src/dispatcher.c:219-221 | every packet with a flow is in exactly one worker's list |
| DispatcherSpec.BurstFate | src/dispatcher.c:147-221 | over a burst with any replacements, a flow keeps its slot to the end or leaves it at a packet before which the slot had been published |
| DispatcherSpec.BurstTouches | src/dispatcher.c:156-217 | the slot of every packet that got a flow is in range and shows the clock of the burst from then on |
| DispatcherSpec.NewFlowRecords | src/dispatcher.c:34-57 | a new flow's records field by field: the 5-tuple, the clock, the next generation, never 0, and the worker its hash modulo 4 names |
| DispatcherSpec.ReplacementReach | src/dispatcher.c:59-83 | a replacement takes up to eight pairs from the ring and samples exactly when none of them names a mapped, published flow |
| DispatcherSpec.RetrySucceedsIff | src/dispatcher.c:59-83 | in a table without free slots the retry after the grace period succeeds exactly when the maintenance thread has passed the oldest deletion |
| DispatcherSpec.RoutedPacket | src/dispatcher.c:219-221 | a packet with a flow is in its worker's list behind the earlier packets of that worker, with `flow_idx` the slot and `flow_gen` the generation of the flow and its id, length and bytes unchanged |
| DispatcherSpec.ParsableIff | src/dispatcher.c:125-145 | the packets kept are exactly those that spell an unfragmented TCP or UDP frame |
| Dispatcher.DispatcherThread.constructor | src/dispatcher.c:100-107 | the thread starts online with zero counters and no packet in flight, which is what its run requires |
| Dispatcher.DispatcherThread.FindResolvedDuplicate | src/dispatcher.c:13-25 | returns the first entry with the packet's key, or that there is none |
| Dispatcher.DispatcherThread.PublishNewFlow | src/dispatcher.c:34-57 | writes one slot of both arrays and returns its new generation and the key's worker; refuses a position beyond the arrays |
| Dispatcher.DispatcherThread.EvictForReplacement | src/dispatcher.c:59-83 | counters and table after success (deletions, report, reclaim) and failure, which leaves the hash as it was; the gap between created, mapped and deleted flows grows by the validly named flows beyond one, so it stays exactly when at most one is named |
| Dispatcher.EvictedCounters | src/dispatcher.c:59-83 | what an attempt does to each counter: one deletion and one eviction are counted however many flows went |
| Dispatcher.DispatcherThread.AddWithReplacement | src/dispatcher.c:170-187 | hash and victim ring afterwards are those of one add or, after a failed one, of one replacement with its grace period and one retry, with the counters' balance kept |
| Dispatcher.DispatcherThread.ResolvePacket | src/dispatcher.c:151-217 | in any case the first entry with the key is reused, else a hit in range is used and one beyond the arrays dropped, else the flow is added and published; without a replacement the burst stays where one-by-one handling would be |
| Dispatcher.DispatcherThread.ParseBurst | src/dispatcher.c:125-145 | keeps the parsable packets in order with their keys and frees the others once |
| Dispatcher.DispatcherThread.EnqueueAll | src/dispatcher.c:223-235 | each ring takes a prefix of its buffer, the rest is freed and counted |
| Dispatcher.DispatcherThread.Poll | src/dispatcher.c:109-239 | every burst, with or without replacements, takes table and victim ring packet by packet through reuse, hit or add, where a replacement tries the cached candidates and then sampled slots; without one it is one-by-one lookup-or-add; what a ring took of packet i is that packet with `flow_idx` its flow's slot and `flow_gen` its generation, behind the earlier packets of its worker; nothing stays in flight, and afterwards the dispatcher has passed every deletion |
| Dispatcher.DispatcherThread.Run | src/dispatcher.c:109-241 | over any run each received packet is freed or enqueued exactly once and rx = filtered + (add failures - retry successes) + ring drops + enqueued |
| Maintenance.TickDeletesOnlyIdle | src/stats.c:252-291 | a tick moves no flow, removes only flows that were published and idle past the timeout or past what the mode asks, and removes every visited one idle past the timeout |
| Maintenance.PressureTarget | src/stats.c:272-286 | eviction stops at the target for mapped plus deferred slots |
| Maintenance.PressureTargetIff | src/stats.c:272-286 | mapped flows alone end at or above the target exactly when they were before, and no pass runs, no slot is deferred, or the visited evictable flows are no more than the mapped flows above the target |
| Counterexamples.PressureBelowTarget | src/stats.c:266-286 | a reachable state with four slots in which one tick takes the mapped flows from the target to below it |
| Maintenance.TickReclaimsAllItCan | src/stats.c:288-291 | after a tick the maintenance thread has passed every deletion, and nothing is left deferred unless the dispatcher has not passed the oldest entry or the 1024 rounds ran out |
| Maintenance.MaintenanceThread.Tick | src/stats.c:252-291 | the tick is the specified sequence, mapped flows plus `flows_deleted` are unchanged by it, every deletion is in exactly one of the aging and pressure counters, and the scan, expiry and reclaim counters grow by what was visited, found idle and freed |
| WorkerSpec.ForwardsAsThePipeline | src/worker.c:158-201 | the worker forwards exactly when the interleaved model classifies its loads so |
| WorkerSpec.RecordIsValidated | src/worker.c:150-184 | the copy is used exactly when the index is in range and both loads gave the stamp's generation; otherwise the packet's bytes are |
| WorkerSpec.ReadIsTheSeqlock | src/worker.c:154-174 | the thread's decision on its loads is the slot reader's: the first check where the first load was made, the second where the last one was |
| WorkerSpec.AcceptedRecordIsTheOwners | src/worker.c:154-174 | so a record used without parsing is the complete one of the stamping publication, whatever was stored in between |
| WorkerSpec.HistoryConserves | src/worker.c:150-202 | every handled packet is forwarded or dropped exactly once |
| WorkerSpec.BooksClose | src/worker.c:210 | at exit every packet taken from the ring was sent or freed exactly once |
| Worker.WorkerThread.SendPending | src/worker.c:33-51 | for any driver: a prefix is sent, giving up needs 8 zero answers in a row, and the number of calls is bounded |
| Worker.WorkerThread.FlushTxPending | src/worker.c:26-69 | sent followed by pending is unchanged, lengths stay aligned through both moves, bytes are the sum of lengths sent |
| Worker.WorkerThread.StageTxBurst | src/worker.c:71-90 | fills the free space in order and drops the rest |
| Worker.WorkerThread.DropTxPending | src/worker.c:92-104 | frees and counts what is pending |
| Worker.WorkerThread.DrainTxPendingOnExit | src/worker.c:106-116 | only what 8 flushes could not send is lost |
| Worker.WorkerThread.ClassifyPacket | src/worker.c:150-202 | the copied record decides when index and both generations agree with the stamp; when either generation differs, or the index is out of range, the packet's own bytes do; with every counter |
| Worker.WorkerThread.LoopOnce | src/worker.c:133-209 | a turn takes a full burst of the oldest packets unless earlier ones are stuck, keeps sent followed by pending equal to the forwarded packets, and never drops one of these |
| Worker.WorkerThread.Run | src/worker.c:118-212 | over any run the packets sent, then those the exit drops, are the forwarded packets in arrival order |
| Worker.WorkerThread.BoundaryCounts | src/worker.c:133-209 | received = dropped + forwarded, forwarded = sent + TX drops + pending, checks = protocol counters |

## Left out

- Memory model: loads and stores are sequentially consistent and each hash operation is one atomic step; the orderings of the C11 atomics are not modelled.
- DPDK internals: the hash is an injective map with a FIFO of free slots and a deferred queue (no buckets, no cuckoo moves), its iterator a cursor over slots, rings are FIFOs, the driver and a full ring take any prefix, a random slot is any slot. The library's reclaim batch is a parameter. `rte_hash_count` counts every slot that is not free.
- FlowTableSpec.FlushHitsExaminedFlowIff: takes the second look at `last_seen` and the deletion as one access; FlowTableSpec.FlushIsCurrentIff says what two accesses change. In the state machine a flush needs only a `last_seen` other than 0, which no step undoes, so one step suffices there.
- FlowTable.FlowTable.AgingTick: the classes describe one thread while the others stand still; deletions and publications between the scan and the flush are covered by the state machine, by FlowTableSpec.FlushHitsExaminedFlowIff and by PipelineTheorems.RetainedKeyStaysValid.
- FlowTable.FlowTable.PressureMaintenance: which candidates another thread gets to first is an input of the pass; what that thread does to the slot is not part of the pass.
- Dispatcher.DispatcherThread.Poll: the agreement with one-by-one handling is stated for bursts without a successful replacement, as it fails otherwise; on the others table and ring after each packet are stated, up to which slots were sampled.
- HashTable.AddedKeyFacts: an add fails only for want of a free slot: src/flow_table.c:231-232 asks the library for extension buckets, so that no other shortage is left. In the state machine the add of an absent key may fail at any time.
- FlowTable.FlowTable.AddKey: the same.
- PipelineTheorems.PacketGetsItsOwnVerdict: for a snapshot, fewer than 2^32-1 republications of a slot while one of its packets is in flight, which SlotSeqlock.RestingSlotAccepts shows to be necessary. The rules are taken at one instant per packet; Datapath.AnswersForItsVersion takes them one at a time.
- Datapath.AnswersForItsVersion: a rule table is published before the workers start, as src/app_init.c:271-279 does.
- RuleEngine.SpiRuleEngine.LoadRuleFile: starts from lines already split and parsed; the text functions of src/spi_engine.c:22-119 are not part of this model, nor are rule names.
- Worker.WorkerThread.LoopOnce: what a worker's loads return is an input of the turn; which values are possible is the subject of SlotSeqlock and FlowPipeline.
- Counters are natural numbers; overflow at 2^64 is not modelled. `rte_rdtsc` readings are parameters, and the dispatcher's are positive in the state machine.
- Byte order: a field is the number its network-order bytes spell, so comparisons agree with those of the raw words.
- Initialisation and its failure paths, ports, signals, the terminal interface, rates and per-lcore variables (src/app_init.c, src/main.c, src/stats_core.c, the rest of src/stats.c).
- The scripts and traffic generators under tests/.
