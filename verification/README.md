# Verified models of the data-product platform's stateful protocols

The platform moves files and Kafka messages between organisations: a self-service
application registers data products and runs one adaptor container for each, adaptors
and extractors copy files or forward messages, and an external scheduler triggers
cycles over Kafka. The code's I/O is thin; what is hard is the state around it. This
project models that state in Dafny and proves what it keeps over whole runs.

`dafny verify dfyconfig.toml` checks everything. Clouds, brokers, clocks and
container runtimes appear as abstract state: maps of objects, append-only logs,
integers for times, and parameters that say which call fails.

| module | what it models |
|---|---|
| `Wrappers`, `Seqs`, `StableSort` | options, list comprehension, and the algebra of stable sorting, selection and "the last K" |
| `RunHistory`, `RunHistoryContents`, `RunHistoryTails` | the run-history store: retention at every write, what the store holds and shows in terms of the records' own fields, and re-reading overlapping log tails |
| `FileCopy`, `FilePool`, `FilePoolCycles` | one synchronisation cycle (slow and fast form) whose copies land at once, its worker pool interleaved with writers and with Azure's late landings, and what one pool cycle leaves to the next |
| `KafkaTrigger`, `TriggerCrash` | the control/status protocol as a class and as a crash/restart machine, and the status sensor |
| `TopicDrain`, `ConsumerWindow`, `Routing` | drain-until-idle forwarding, the bounded window, and per-message routing |
| `Lifecycle`, `Resources`, `ProductNames` | registry rows and containers on both runtimes, ownership of topics and storage, and the names involved |
| `RegistryBackup`, `TokenCache` | the registry's cloud mirror with late uploads, and the OTLP token cache |

Methods of classes follow the source's own updates and are proved against functions on
values (`Pruned`, `SlowCycle`, `HandleLog`, `Drain`, `Serve`, `Step`, ...); the lemmas
about those functions are the results. State machines (`FilePool`, `TriggerCrash`,
`Resources`, `RegistryBackup`) take one event at a time, and an event that is not enabled
changes nothing, so a theorem about every list of events is one about every interleaving.
Configured values (record cap, age, idle time, timeouts, expiry margin) are parameters.

## What the proofs found

Each of these is a lemma, and where the code's own documentation says otherwise the model
follows the code.

- Pruning at every write equals pruning once for every history exactly when the cap is not
  negative; a negative cap can drop a record that one pruning would keep (`PruneAsYouGoExactly`).
- Re-reading a log converges exactly when no evicted record has the same timestamp as the oldest one its
  stage keeps (`RereadConvergesExactly`); offered again, such a record displaces a kept one (`TiedRereadFails`).
- The fast file cycle equals the slow one exactly when no up-to-date file has a rejected key or a gate read that
  misleads file_copy (`FastEqualsSlow`); the pre-filter's comment claims agreement in all cases. Off Azure a read
  that fails misleads it; on Azure only a failed read of the target's time does, as one of the source's still counts
  as a skip.
- A file whose notification failed after its copy landed is notified later only if a file-by-file cycle on Azure
  fails to read its target's time (`FailedSendNotifiedExactly`), and never by a fast cycle (`LandedNeverNotified`).
  On Azure the copy may still be landing, or be aborted, when the next fast cycle lists: that cycle then copies it
  again and notifies, unless the copy lands before its worker reads the target's time (`UnsentNotifiedExactly`).
- After a fault-free pool cycle the files still pending are exactly those whose copy is landing or was aborted
  (`PendingIsUnlanded`); only when there are none is the next cycle idle (`NextPoolCycleIdleExactly`).
- A source write that lands during a copy, or on an unmoved clock, can leave stale bytes that the gate calls
  current (`LandingKeepsGateExactly`, `WriteKeepsGateExactly`); on Azure a path can be published before its bytes
  arrive, and without them ever arriving (`AzureCanNotifyWithoutBytes`).
- A crash between the commit and the run loses a trigger, and a control payload that is JSON but not an
  object blocks its consumer group for ever; apart from repeats of the last id, nothing else keeps an automatic
  trigger from running (`RunsEventuallyExactly`).
- A header `org_name` already on a message, or another spelling of `orgName` behind it, outranks the producer's
  stamp; nothing else does (`StampedRoutesExactly`).
- The two runtimes part exactly at a Start that finds a container in another mode than its row, as a pause
  interrupted before its restart leaves it (`HistoriesAgreeExactly`, `InterruptedPauseParts`).
- One probe that fails soft is enough for two products to share a topic or container (`GuardIsExact`), and so
  are two confirms before the first adaptor has created its resources (`EarlyConfirmShares`).
- The default names of a file product `p` and a topic product `file-p` meet in one topic (`DefaultsMeetExactly`).
- A timed-out upload may replace a newer backup later (`RecoveryIsCertainExactly`, `LateUploadReplaces`).

## Model

| member | source | states |
|---|---|---|
| StableSort.SortIsStable | service/run_history.py:119-121 | the sort used by retention is ascending and keeps records with equal timestamps in their original order, for every key |
| StableSort.SelectSort | service/run_history.py:116-121 | filtering a sorted list gives what sorting the filtered list gives, so grouping by stage and sorting commute |
| StableSort.LastNThenMerge | service/run_history.py:119-121 | cutting a sorted list to its last n before merging in more elements loses nothing that the last n of the merge needed |
| StableSort.SameTop | service/run_history.py:119-121 | the last n of a stable sort depend only on the elements at or above any bound that at least n of them reach |
| RunHistory.GroupByStage | service/run_history.py:115-117 | the stage dictionary has its keys in first-seen order and holds, per stage, exactly that stage's records in their order |
| RunHistory.CapStages | service/run_history.py:118-120 | the loop over stages sorts each stage and appends its slice, in key order |
| RunHistory.Store.WriteAll | service/run_history.py:106-124 | a write stores exactly the pruned list: age filter, per-stage cap after a stable sort, merged and re-sorted; nothing it stores is older than the maximal age |
| RunHistory.Store.RecordFromLogs | service/run_history.py:159-185 | only records whose identity tuple is not stored are appended, their number is returned, and nothing is written when there are none |
| RunHistory.Store.RecordFailure | service/run_history.py:188-217 | a failure is always appended, as one record with no run id and the current time, and the list pruned |
| RunHistory.Store.GetHistory | service/run_history.py:220-230 | the view is the stored records of the chosen product and stage, newest first, cut to the limit |
| RunHistory.WriteKeepsEachStage | service/run_history.py:108-121 | after any write each stage holds the newest of its own fresh records, so no stage evicts another's |
| RunHistory.KeptAfterKept | service/run_history.py:106-124 | a later write on an already pruned store keeps, stage by stage, what it would keep of the whole history |
| RunHistory.PruneAsYouGo | service/run_history.py:106-124 | for every sequence of writes with a non-decreasing clock, each stage holds exactly what one pruning of everything ever appended would keep |
| RunHistory.PruneAsYouGoExactly | service/run_history.py:81-121 | that holds for all histories if and only if the record cap is not negative |
| RunHistory.HistoryShowsKept | service/run_history.py:220-230 | after any run, the history of a stage, of one product or of all, is the newest-first prefix of what the whole history keeps for it |
| RunHistoryContents.NothingIsInvented | service/run_history.py:92-108 | a write stores only records it was handed, none more often, and only such as have a readable timestamp no earlier than the cutoff |
| RunHistoryContents.MissingIsOutranked | service/run_history.py:106-121 | a record that young is missing only because of the cap: its stage then holds exactly that many records, none of them older |
| RunHistoryContents.StageHolds | service/run_history.py:118-120 | each stage keeps as many of its own young records as the slice by the cap leaves, for every cap and whatever other stages hold |
| RunHistoryContents.StoredAscends | service/run_history.py:119-121 | the stored list ascends in time |
| RunHistoryContents.TiesFollowStages | service/run_history.py:115-121 | records of one instant are stored stage by stage, in the order in which the stages were first seen |
| RunHistoryContents.NewExactly | service/run_history.py:172-181 | a parsed record is new exactly when every stored one differs from it in product, stage, run id, event, operation or timestamp |
| RunHistoryContents.FailureIsStored | service/run_history.py:200-217 | a recorded failure is stored, whatever the cap, unless its stage has records from the future |
| RunHistoryContents.ViewShowsChosen | service/run_history.py:223-230 | a view shows only stored records of the chosen product and stage, none more often, as many as the limit's slice leaves |
| RunHistoryContents.ViewShowsNewest | service/run_history.py:229-230 | no chosen record left out of a view is newer than one it shows |
| RunHistoryContents.ViewDescends | service/run_history.py:229 | a view runs from the newest to the oldest, undated records last, and records of one instant stay in stored order |
| RunHistoryTails.IngestStep | service/run_history.py:159-185 | one call of record_from_logs takes the step the convergence results are about |
| RunHistoryTails.FailureStep | service/run_history.py:188-217 | a failure written between windows is the window of that one record, provided its identity is not stored yet |
| RunHistoryTails.IngestConverges | service/run_history.py:165-185 | a further window, whatever it repeats, leaves a stage as if only the first occurrences had been written, unless an evicted record that it offers again ties with the oldest one kept after it |
| RunHistoryTails.TailsConverge | ui/app.py:282-308 | any sequence of windows, none of which offers such a record again, leaves every stage as if each record had been ingested once |
| RunHistoryTails.DistinctTimesNeverTie | ui/app.py:282-308 | distinct timestamps within each stage rule such ties out for every sequence of windows |
| RunHistoryTails.RereadConvergesExactly | service/run_history.py:165-185 | offering the whole history once more leaves a stage as one ingestion would if and only if no record it evicts has the time of the oldest one it keeps |
| RunHistoryTails.TiedRereadFails | service/run_history.py:119-121 | two records of one stage and one instant under a cap of one: the second read of the log brings back the evicted record in the kept one's place |
| RunHistoryTails.RereadStageConverges | ui/app.py:282-308 | re-reading overlapping tails of an append-only log leaves each stage as reading the log once does; a log never written had only empty windows |
| RunHistoryTails.RereadLogConverges | ui/app.py:282-308 | when records of different stages never share a time, the whole store of the re-read log is the log pruned once at the last write |
| FileCopy.Pipeline.FileCopy | utils/data_transection.py:415-450 | bytes move exactly when the key is accepted, the source time is read, the target reads as absent or older and the copy does not raise; nothing is then left to copy, a copy being taken as landed when the call returns, and otherwise both containers, and always all other files, stay as they were |
| FileCopy.Pipeline.MoveAndPublish | blueprints/producer/file/adaptor/main.py:291-400 | a file is published once, under its own name, exactly when its copy moved bytes and the send did not raise; it fails exactly on a rejected key, a time that cannot be read, a copy or a send that raises |
| FileCopy.Pipeline.RunFiles | blueprints/producer/file/adaptor/main.py:464-482 | the loop carries on after a failed file and counts every file once as copied, skipped or failed |
| FileCopy.Pipeline.RunAdaptor | blueprints/producer/file/adaptor/main.py:407-482 | the producer's cycle is the file-by-file cycle over all listed files |
| FileCopy.Pipeline.RunExtractor | blueprints/consumer/file/extractor/main.py:285-297 | the consumer's cycle processes exactly the files its two listings flag, in listing order, and counts the others as skipped |
| FileCopy.SlowCycleSends | blueprints/producer/file/adaptor/main.py:464-482 | the producer's cycle publishes, once each and in listing order, exactly the files whose copy and send go through, and counts as copied those and as failed the ones that raised |
| FileCopy.FastCycleSends | blueprints/consumer/file/extractor/main.py:290-297 | the consumer's cycle publishes and counts the same way over the files its listings show without a source time or with an absent, undated or older target |
| FileCopy.SkippedExactlyWhenUndisturbed | utils/data_transection.py:549-623 | for a file the pre-filter clears, file_copy agrees that there is nothing to do exactly when its key is accepted and no gate read misleads it |
| FileCopy.FastEqualsSlow | blueprints/consumer/file/extractor/main.py:317-327 | the fast cycle gives the slow cycle's bytes, stamps, notifications and counts if and only if no cleared file is disturbed |
| FileCopy.CountsSumToDiscovered | blueprints/consumer/file/extractor/main.py:565-609 | in both cycles copied, skipped and failed add up to the files discovered, whatever fails |
| FileCopy.CleanCycleAgrees | utils/data_transection.py:568-637 | after a clean cycle whose copies have landed, from a state with a sound gate, every source file is in the target byte for byte and no longer pending |
| FileCopy.NextCycleIsIdle | blueprints/consumer/file/extractor/main.py:285-327 | the cycle after a clean one whose copies have landed changes nothing and counts every file as skipped |
| FileCopy.SettledFileNotifiedExactly | utils/data_transection.py:549-566 | over any later cycles of either program on an unchanged source, an up-to-date file is notified if and only if some file-by-file cycle on Azure fails to read its target time, and to read nothing else, and copies and sends without a raise |
| FileCopy.FailedSendNotifiedExactly | blueprints/producer/file/adaptor/main.py:464-482 | so a file whose send raised after a copy that has landed is notified later under that condition alone, and never by a fast cycle |
| FilePool.GateSoundness | utils/data_transection.py:830-878 | over all interleavings of writers, workers, landings, aborts, faults and cycles under a ticking clock, target time not before source time implies equal bytes for exactly the files that are not torn |
| FilePool.GateSoundWithoutOvertaking | utils/data_transection.py:1103-1142 | if no write with other bytes lands on a file being copied, its gate is sound in every reachable state |
| FilePool.LandingKeepsGateExactly | utils/data_transection.py:611-623 | a copy that lands leaves its file's gate sound if and only if the source is gone, undated or still has those bytes |
| FilePool.WriteKeepsGateExactly | utils/data_transection.py:592-608 | a source write keeps its file's gate sound if and only if the clock ticked, the target is older or undated, or the bytes agree |
| FilePool.OvertakenCopyFoolsGate | utils/data_transection.py:611-623 | a write during a copy ends with different bytes that the next pre-filter clears |
| FilePool.NotificationsFollowBytes | blueprints/consumer/file/extractor/main.py:460-489 | over all interleavings and failures a path is published at most once per cycle and only after its copy returned; that copy has landed if and only if it is neither landing nor aborted, off Azure always, and then the target holds the bytes it read; published equals copied exactly when no send raised |
| FilePool.AzureCanNotifyWithoutBytes | utils/data_transection.py:611-637 | on Azure a path can be published before its bytes arrive, and the copy can then be aborted |
| FilePool.SchedulesDoNotMatter | blueprints/consumer/file/extractor/main.py:586-609 | for every schedule of the workers and of Azure's landings the final target bytes, the set of published paths and the counts in submission order are those of the sequential loop |
| FilePoolCycles.CycleLeavesPendingExactly | blueprints/consumer/file/extractor/main.py:285-327 | after a pool cycle under any faults a dated file needs a copy if and only if it did before and no copy of it, of this cycle or an earlier one, landed meanwhile |
| FilePoolCycles.PublishedExactly | blueprints/consumer/file/extractor/main.py:460-489 | on every provider, under any faults, aborts and landings, a worker publishes its file if and only if its gate opened at the start of the cycle, no older copy landed before it read the target time, and neither copy nor send raised |
| FilePoolCycles.PendingIsUnlanded | utils/data_transection.py:611-637 | after a fault-free pool cycle the pending files are exactly those whose copy is landing or was aborted, and off Azure there are none |
| FilePoolCycles.NextPoolCycleIdleExactly | blueprints/consumer/file/extractor/main.py:541-586 | the pool cycle after a fault-free one can change nothing if and only if no copy is landing and none was aborted |
| FilePoolCycles.ClearedIsSettled | utils/data_transection.py:592-608 | whatever failed in a pool cycle, a file that is not pending after it equals its source byte for byte, if its gate was sound before |
| FilePoolCycles.UnsentNotifiedExactly | blueprints/consumer/file/extractor/main.py:460-489 | a file whose send raised is published by the next pool cycle, fault-free for it, if and only if no copy of it had landed at the listing, which means that it is landing or aborted, and none lands before its worker reads the target time; off Azure never |
| FilePoolCycles.LandedNeverNotified | blueprints/consumer/file/extractor/main.py:317-327 | a file the pre-filter clears, whose worker is done without having published it, is never published by later fast cycles, whatever fails, lands or is written elsewhere |
| KafkaTrigger.NextStop | utils/kafka_trigger.py:307-359 | the wait passes over every message that is read smoothly and neither matches nor raises, and stops at the first other one |
| KafkaTrigger.Backend.WaitForTrigger | utils/kafka_trigger.py:270-359 | a match is returned with its offset and all before it committed; a poll or commit that raises or a non-object payload ends it, the offset committed only if a commit was recorded; the consumer is closed on every way out |
| KafkaTrigger.Backend.ExecutePipeline | utils/kafka_trigger.py:365-452 | in-flight, duplicate, manual and executed triggers each lead to their status, last id and run, with the in-flight flag down on every way out |
| KafkaTrigger.Backend.Turn | utils/kafka_trigger.py:248-264 | one round of the loop advances the committed offset and leaves the flag down and the consumer closed |
| KafkaTrigger.Backend.Execute | utils/kafka_trigger.py:204-264 | the whole loop over a log does what the recursive account of it says, so the already-running branch is never taken from it |
| KafkaTrigger.OneStatusUnlessRaised | utils/kafka_trigger.py:386-452 | a trigger runs unless it is manual or repeats the last run id, which it then becomes; it gets exactly one status, saying what became of it, and none exactly when the sends it tried all raised |
| KafkaTrigger.HandlingIsAFold | utils/kafka_trigger.py:365-452 | with no poll, commit or send raising, statuses answer the matching triggers one to one and in order, each decided by the log alone, and the runs are the automatic triggers with repeated ids collapsed |
| KafkaTrigger.RunsExactly | utils/kafka_trigger.py:377-418 | a matching trigger runs exactly when it is automatic and its run id differs from that of the last automatic one before it, a missing id counting as unknown |
| KafkaTrigger.StatusesExactly | utils/kafka_trigger.py:386-452 | the i-th status names this backend and the i-th trigger's run id, and is skipped, failed or completed by that trigger's mode, repetition and outcome |
| KafkaTrigger.FreshIdsAllRun | utils/kafka_trigger.py:396-418 | automatic triggers whose run ids each differ from the one before all run, in order |
| KafkaTrigger.RepeatedIdDoesNotRun | utils/kafka_trigger.py:396-405 | an automatic trigger with the run id of the automatic one before it, or both without one, does not run |
| KafkaTrigger.BuiltTriggersAreHandled | utils/kafka_trigger.py:459-482 | of triggers built with distinct run ids exactly the automatic ones run, and each is answered under its own id, the manual ones as skipped |
| KafkaTrigger.MatchingMembers | utils/kafka_trigger.py:330-340 | the triggers counted as matching are exactly the log's messages that match on stage, type, role and product |
| KafkaTrigger.MatchingAscends | utils/kafka_trigger.py:307-359 | the matching triggers are listed in log order, each once |
| KafkaTrigger.BuiltTriggerReaches | utils/kafka_trigger.py:459-482 | a built trigger is matched by exactly the backends of its stage, type, role and product |
| KafkaTrigger.PollForStatus | utils/kafka_trigger.py:522-571 | the sensor returns the first status with the run id, stage and product asked for that is delivered before the deadline, having passed over only others; it times out only if none was delivered |
| KafkaTrigger.AnswerIsFound | utils/kafka_trigger.py:502-571 | when the start was probed before the statuses went out and polling reached the topic's end, the sensor ends with the first answer to the trigger from the probed start on, or from the beginning when the probe failed |
| TriggerCrash.RunsAfterCommitAndClose | utils/kafka_trigger.py:350-359 | a run starts only at an offset already committed, with the consumer closed, on a full match, and never run before |
| TriggerCrash.AtMostOnce | utils/kafka_trigger.py:248-264 | over every run with crashes at any step each control offset is run at most once, in increasing order |
| TriggerCrash.RunOnlyAdvances | utils/kafka_trigger.py:307-359 | over any run, crashes included, the committed offset never moves back and the log and the list of executions only grow |
| TriggerCrash.NoRepeatWhileUp | utils/kafka_trigger.py:396-437 | while the process stays up, two executions in a row never have the same run id; only a restart lets one run again |
| TriggerCrash.RunsEventuallyExactly | utils/kafka_trigger.py:248-264 | from any reachable state some continuation runs an offset if and only if it ran already, or is an automatic match that is in hand and no repeat, or lies ahead of the committed offset with no payload before it that raises |
| TriggerCrash.CrashAfterCommitLosesTrigger | utils/kafka_trigger.py:350-359 | a crash anywhere between a trigger's commit and its run loses it, whatever happens afterwards |
| TriggerCrash.NonObjectBlocksForever | utils/kafka_trigger.py:319-340 | a payload that is JSON but not an object is never committed, and nothing at or behind it ever runs |
| TopicDrain.Forwarder.RunDrain | utils/topic_forwarder.py:163-241 | the drain queues, commits, counts and ends as the recursive account of its polls says |
| TopicDrain.CleanDrainIsContiguous | utils/topic_forwarder.py:198-236 | a drain queues a contiguous run of offsets; unless a commit raised it is exactly the run it committed, counted by forwarded |
| TopicDrain.DrainEndsExactly | utils/topic_forwarder.py:198-241 | every drain ends exactly at the first poll that is quiet for the idle time, an error, or a message that is not queued or committed, with that reason and what it lost; all messages before it were forwarded and committed |
| TopicDrain.IdleExitWaited | utils/topic_forwarder.py:203-223 | the poll that ended an idle drain was empty and came at least the idle time after the last message, every earlier message was forwarded, and nothing later was read |
| TopicDrain.DrainsLeaveNoGap | utils/topic_forwarder.py:198-241 | over any drains every offset below the committed one was queued, in order, and the surplus in the queue is exactly the number of lost commits |
| TopicDrain.LostCommitForwardsAgain | utils/topic_forwarder.py:231-236 | a lost commit makes the next drain forward the same message again |
| ConsumerWindow.PollSession | blueprints/consumer/topic/extractor/main.py:399-443 | a session makes the polls, forwards the messages and ends as the account of its loop says |
| ConsumerWindow.PollsExactly | blueprints/consumer/topic/extractor/main.py:400-443 | every poll is made before the deadline and gets the next event; the last one, unless the deadline ended the session, is an error, a forward that raises, or quiet at least the idle time after the last forward, and no earlier poll is |
| ConsumerWindow.EndsExactly | blueprints/consumer/topic/extractor/main.py:400-466 | a session lasts exactly its polls and forwards, and ends at or past the deadline, by its last poll being quiet, or by that poll's failure |
| ConsumerWindow.IdleIsQuiet | blueprints/consumer/topic/extractor/main.py:407-424 | an idle session had been on for the idle time, and as long since each of its forwards |
| ConsumerWindow.ForwardedExactly | blueprints/consumer/topic/extractor/main.py:426-443 | exactly the consumed messages whose forward does not raise are forwarded, once each and in order |
| ConsumerWindow.RunWindow | blueprints/consumer/topic/extractor/main.py:370-490 | a bounded window makes at least one session and runs them as the account of it says, with one flush and one close for each consumer, counting its messages and forwarding them |
| ConsumerWindow.SessionsFollow | blueprints/consumer/topic/extractor/main.py:376-490 | sessions take up the events without a gap; each but the first begins the retry delay and its own opening after the close of one that failed |
| ConsumerWindow.TimeIsAccountedFor | blueprints/consumer/topic/extractor/main.py:376-490 | a window takes exactly the time of its openings, polls, forwards, flushes, closes and retry delays; it ends for idleness or because the deadline has passed |
| ConsumerWindow.WindowEndsInTime | blueprints/consumer/topic/extractor/main.py:370-490 | every window terminates no later than its deadline plus the longest opening or poll and forward, flush and close, or the retry delay |
| Routing.SanitizeIdempotent | blueprints/consumer/topic/extractor/main.py:72-77 | sanitizing a sanitized name changes nothing |
| Routing.SanitizeLowersCapitals | blueprints/consumer/topic/extractor/main.py:72-77 | sanitizing an alphanumeric name keeps every character, capitals as small letters |
| Routing.SanitizeDropsOthers | blueprints/consumer/topic/extractor/main.py:72-77 | any other character is as if it were absent, and a name of nothing else is unknown |
| Routing.SanitizeOfNothing | blueprints/consumer/topic/extractor/main.py:72-77 | a missing or empty value is unknown |
| Routing.OrdinaryMessageRoute | blueprints/consumer/topic/extractor/main.py:177-216 | a message with just an orgName and a productType goes to the consumer topic of their sanitized values, or nowhere if one is unknown |
| Routing.EnrichedRoutesSame | blueprints/consumer/topic/extractor/main.py:250-300 | a forwarded message, with its four added headers, would be routed as before |
| Routing.Forwarder.ResolveTarget | blueprints/consumer/topic/extractor/main.py:177-216 | whatever an earlier message left in the field, it ends as this message's own route, already handed to ensure_exists |
| Routing.Forwarder.Forward | blueprints/consumer/topic/extractor/main.py:233-300 | a message goes to the route of its own headers with four headers appended, or is skipped and changes nothing that was produced or ensured |
| Routing.RouteIsKnown | blueprints/consumer/topic/extractor/main.py:189-201 | no message is routed to a topic of an unknown organisation or product |
| Routing.TopicNameInjective | blueprints/consumer/topic/extractor/main.py:203-204 | distinct sanitized pairs get distinct topics |
| Routing.SameTopicSameNames | blueprints/consumer/topic/extractor/main.py:187-204 | two routed messages share a topic exactly when organisation and product agree |
| Routing.StampedNames | blueprints/producer/topic/adaptor/main.py:274-290 | whatever headers a message had, a stamped one is routed by the winning foreign value, if any, and else by the producer's sanitized name |
| Routing.StampedRoutesExactly | blueprints/consumer/topic/extractor/main.py:184-187 | a stamped message is routed by the producer's own names if and only if the winning foreign values, if any, sanitize to them |
| Routing.StampedRoutesToProducer | blueprints/producer/topic/adaptor/main.py:274-290 | in particular a stamped message without aliases and other spellings is routed by the producer's own sanitized names |
| Routing.AliasOverridesStamp | blueprints/consumer/topic/extractor/main.py:184-187 | a non-empty org_name already on a message decides the organisation, whatever else it carries |
| Lifecycle.Registry.GetProduct | service/registry.py:86-90 | the first row of that type, or none when there is no such row |
| Lifecycle.Registry.CreateProduct | service/registry.py:93-109 | a row is appended exactly when no row has its type |
| Lifecycle.Registry.SetActive | service/registry.py:112-120 | only the active flag of the first row of that type changes |
| Lifecycle.Registry.SetExecutionMode | service/registry.py:123-131 | only the mode of the first row of that type changes |
| Lifecycle.Registry.DeleteProduct | service/registry.py:134-140 | every row of that type goes, the others stay in order, and not-found means nothing changed |
| Lifecycle.ControlPlane.RuntimeLaunch | service/podman_ops.py:125-140 | podman keeps an existing container, Kubernetes patches it; both create a missing one in the row's mode |
| Lifecycle.ControlPlane.RuntimeStop | service/k8s_ops.py:285-306 | the row's container is gone afterwards and no other changed, also when it was absent |
| Lifecycle.ControlPlane.RuntimeSetExecutionMode | service/podman_ops.py:157-167 | on both runtimes the row's container runs in the row's mode afterwards |
| Lifecycle.ControlPlane.Confirm | ui/app.py:797-832 | an accepted product adds its row and launches its container; a duplicate type changes nothing |
| Lifecycle.ControlPlane.StopProduct | ui/app.py:847-857 | the container is removed before the row is marked inactive; an unknown type changes nothing |
| Lifecycle.ControlPlane.StartProduct | ui/app.py:900-910 | the container is launched before the row is marked active; an unknown type changes nothing |
| Lifecycle.ControlPlane.PauseOrResume | ui/app.py:913-944 | the row's mode changes first and the container follows only for an active product |
| Lifecycle.ControlPlane.DeleteProduct | ui/app.py:860-897 | the container goes before the row |
| Lifecycle.ControlPlane.RunNow | ui/app.py:967-999 | a run is accepted exactly for a known, active, manual product and targets its container |
| Lifecycle.RunTargetExactly | ui/app.py:967-999 | Run Now is accepted exactly when the product's first row is active and manual, and aims at that row's container |
| Lifecycle.BackendsAgree | service/k8s_ops.py:204-212 | from an in-step state podman's keep-or-recreate and Kubernetes' create-or-patch give one and the same next state |
| Lifecycle.ServeKeepsStep | ui/app.py:797-944 | every completed request keeps product types unique and containers exactly those of active rows, in their modes |
| Lifecycle.LifecycleStaysInStep | ui/app.py:797-999 | after any completed requests that holds, both runtimes agree, and an accepted Run Now finds a manual-mode container |
| Lifecycle.CrashesLeaveNoOrphan | ui/app.py:797-944 | however requests are cut short between their steps, types stay unique and no container is without a row |
| Lifecycle.BackendsAgreeExactly | service/podman_ops.py:125-167 | from any state without orphans a request ends alike on both runtimes if and only if it is not a Start that finds its container in another mode |
| Lifecycle.StartInStepExactly | service/podman_ops.py:125-140 | a started row matches its container afterwards on Kubernetes always, and on podman if and only if no container of another mode was there |
| Lifecycle.HistoriesAgreeExactly | ui/app.py:797-944 | after any cut-short requests on either runtime, completed requests take both through the same states if and only if none of them is such a Start |
| Lifecycle.InterruptedPauseParts | ui/app.py:913-944 | any change of an active product's mode that is cut short before its restart makes the next Start one |
| Lifecycle.ContainerNameInjective | service/models.py:264-274 | a container name determines pathway and product type |
| Resources.NamedExactly | ui/app.py:566-585 | a product names exactly its filled-in fields: containers in two accounts on Azure and in one elsewhere, and topics |
| Resources.DistinctExactly | ui/app.py:588-611 | the duplicate check passes exactly when no two filled-in fields hold the same value, whatever they denote |
| Resources.FindDuplicate | ui/app.py:588-611 | the first non-blank field that repeats an earlier field's value is reported, and none exactly when the values are distinct |
| Resources.FindNameCollision | ui/app.py:614-641 | the first non-blank name that a probe sees is reported, and none exactly when the probes see none of the names |
| Resources.Platform.Confirm | ui/app.py:792-814 | a product is registered exactly when its names are distinct and unseen and its type is new |
| Resources.Platform.Provision | blueprints/producer/file/adaptor/main.py:235-247 | a launched adaptor creates what its product names and nothing else |
| Resources.Platform.Teardown | ui/app.py:884-893 | the product's named resources go, save those whose deletion raised |
| Resources.Platform.Delete | ui/app.py:860-897 | deleting a known product removes its row and its resources; an unknown one changes nothing |
| Resources.OrderlyRunsStaySeparate | ui/app.py:614-641 | over every run whose confirms probe for certain after the adaptors settled, products own pairwise disjoint resources, none of them somebody else's |
| Resources.DeleteRemovesOnlyItsOwn | ui/app.py:860-897 | in such runs a delete removes exactly the product's own existing resources and leaves every other product's and everybody else's |
| Resources.LeftoversAreRefused | service/precheck.py:144-171 | a resource left by a failed deletion makes a later confirm naming it fail |
| Resources.GuardIsExact | service/precheck.py:135-188 | the guard protects every possible submission if and only if the probes see each taken resource |
| Resources.EarlyConfirmShares | ui/app.py:792-832 | two products confirmed before either adaptor ran can share every name, and one delete takes them from both |
| RegistryBackup.Registry.Backup | service/registry_backup.py:286-302 | a backup touches only the cloud and the uploads in flight, and nothing at all without credentials |
| RegistryBackup.Registry.WriteAll | service/registry.py:66-78 | the local file gets the content whatever the backup does |
| RegistryBackup.Registry.RestoreIfMissing | service/registry_backup.py:305-321 | the last backup, nothing without one or without credentials, or a raise |
| RegistryBackup.Registry.RestoreFromBackupIfMissing | service/registry.py:143-165 | an existing file is left alone and the cloud is not asked; a missing one is restored from the cloud when that answers |
| RegistryBackup.CloudIsAnEarlierWrite | service/registry_backup.py:250-302 | late threads, losses and restarts included, the cloud object and the local file are contents written earlier |
| RegistryBackup.LocalIsTheLastWrite | service/registry.py:66-78 | while the file is not lost it holds the last write, whatever became of the backups |
| RegistryBackup.LossIsRecovered | service/registry.py:143-165 | if every backup finished in time, losing the file and restarting brings back the last registry state |
| RegistryBackup.RecoveryIsCertainExactly | service/registry_backup.py:250-278 | after a successful backup, recovery is certain to bring it back if and only if no upload in flight carries another content |
| RegistryBackup.LateUploadReplaces | service/registry_backup.py:250-278 | an upload that timed out can land after a newer write and take its place in the cloud |
| RegistryBackup.UploadsAreConserved | service/registry_backup.py:250-278 | every upload given up stays in flight until its one thread lands or dies |
| RegistryBackup.RestoreNeverOverwrites | service/registry.py:143-155 | once a file exists, leaving out every restart changes nothing about a run |
| RegistryBackup.UnconfiguredHasNoMirror | service/registry_backup.py:281-320 | without credentials the cloud stays empty, nothing is in flight, and a lost file is not restored |
| TokenCache.Client.GetToken | dpn_observability_sdk/otlp_auth.py:175-182 | an unexpired token is served from the cache, a stale one is replaced, and a failed fetch leaves the cache as it was |
| TokenCache.RefreshesAreBounded | dpn_observability_sdk/otlp_auth.py:168-182 | with lifetimes of at least L above the margin, successful fetches over a span T number at most 1 + T / (L - margin) |
| TokenCache.ShortLivedTokensAlwaysRefetch | dpn_observability_sdk/otlp_auth.py:168-182 | with lifetimes no longer than the margin every call fetches |
| TokenCache.ServedTokensAreFresh | dpn_observability_sdk/otlp_auth.py:168-182 | every served token was granted in the run, and from the cache it has more than the margin left since receipt, less its transit time since issue |
| ProductNames.GrammarIsEdged | service/models.py:78-96 | words joined by single hyphens are exactly the names with alphanumeric ends and no double hyphen |
| ProductNames.AcceptedExactly | service/models.py:78-96 | a product type is accepted exactly when it is a hyphenated name of at most 44 characters |
| ProductNames.TypeLimitIsExact | service/models.py:82-95 | 44 is exactly the length up to which the adaptor's name fits a 63-character label on both pathways |
| ProductNames.DefaultsSpelledOut | service/models.py:277-321 | the proposed names of both pathways, field by field |
| ProductNames.ContainerRuleExactly | service/models.py:105-135 | the container rule accepts exactly hyphenated names of 3 to 63 characters, and those followed by one newline within that length |
| ProductNames.DefaultContainersAreAccepted | service/models.py:277-292 | the default container names of an accepted product type pass the container rule |
| ProductNames.AdaptorNameIsALabel | service/models.py:264-274 | the adaptor's container name is hyphenated words of at most 63 characters |
| ProductNames.DefaultsAreDistinct | service/models.py:277-321 | a product's default names never repeat each other |
| ProductNames.DefaultsMeetExactly | service/models.py:277-321 | default names of two products meet if and only if type and pathway agree or a topic product is called file-p beside a file product p |
| ProductNames.DefaultsBesideEachOther | ui/app.py:644-649 | beside a settled product with default names another with default names is accepted unless it is that one pair |

## Left out

- Kafka, cloud storage, Kubernetes and podman themselves: their calls are steps on abstract state that succeed or raise as a parameter says; listings that fail end a cycle before anything modelled here.
- Parsing of JSON, timestamps and log lines (`_parse_line`), and the regular expression of `_validate_object_key`: records and times are data, the key check is any predicate on names. Sort-key order and time order are taken to be the same, as all timestamps are UTC.
- RunHistory.Store.WriteAll: the file on disk is a field; atomicity of writing it is not modelled.
- FileCopy.FastEqualsSlow: is about one cycle on a source that nobody writes meanwhile; writers during a cycle are in FilePool.
- FileCopy.Pipeline.FileCopy: takes Azure's copy as landed when the call returns, and so do the results of FileCopy about cycles; copies that land later or are aborted are in FilePool and FilePoolCycles.
- FileCopy.CleanCycleAgrees: on Azure holds of copies that have landed; for others see FilePoolCycles.PendingIsUnlanded.
- FileCopy.NextCycleIsIdle: on Azure holds of copies that have landed; for others see FilePoolCycles.NextPoolCycleIdleExactly.
- FilePool.SchedulesDoNotMatter: covers schedules of any number of workers, so the pool's size limit is not a parameter; target time stamps may differ between schedules and are not compared.
- FilePoolCycles.BeginCycle: both listings of a cycle are one step. A storage service that refuses to start a second copy of a file is a copy that raises.
- FilePool.GateSoundness: both containers are stamped by one clock; clock skew between two storage accounts is not modelled. An Azure copy that is pending or aborted leaves the target as it was; the placeholder the service shows meanwhile is not modelled.
- Consumer-group rebalancing, retention of the control and status topics, and more than one partition of them.
- FileCopy.FailedSendNotifiedExactly: is about a source object that is not rewritten, as a rewritten one is a new file to the gate, and about a copy that has landed; for others see FilePoolCycles.UnsentNotifiedExactly.
- Triggers whose `execution_mode` or `run_id` is JSON null, and the trimming and lower-casing of `execution_mode`: a trigger says whether it is manual.
- TopicDrain.DrainsLeaveNoGap: is about the producer's queue. The commit precedes the producer's flush, so a process killed in between loses queued messages; delivery reports that fail are only logged.
- ConsumerWindow.RunWindow: windows without a time limit never end and are not modelled, nor is a consumer whose construction or subscription raises, which leaves the window at once. The producer adaptor's own window has the same loop and is not repeated.
- Routing.Forwarder.Forward: header bytes that are not UTF-8 raise before routing and are not modelled; that ensure_exists may itself fail, logged only, is why the contract says a topic was handed to it, not that it exists. Lower-casing is modelled on ASCII letters.
- Lifecycle.LifecycleStaysInStep: requests are served one at a time and runtime calls succeed; a runtime call that raises ends the request there, which is the cut-short request of CrashesLeaveNoOrphan. Images, networks, autoscalers, the other environment variables and the two fixed consumer pipelines are not modelled.
- Resources.OrderlyRunsStaySeparate: a topic product without a target name lets its adaptor use a fallback topic that is neither checked nor deleted; such topics are outside the model.
- TokenCache.RefreshesAreBounded: assumes whole seconds and the process lock; the HTTP exchange is a reply with an issue and a receipt time.
- RegistryBackup.Registry.Backup: whether an upload finished, failed or outlived its timeout is an outcome given to the model; durations are not.
- ProductNames.AdaptorNameIsALabel: product types are taken after strip() and lower(), which leave no trailing newline.
- Spans, metrics, logging, heartbeats, security configuration, page rendering and roles: no state that another part depends on.
