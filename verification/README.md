# Verification of the voedger core

A Dafny model of the stateful and concurrent core of the voedger engine, with proofs of what its parts promise. `dafny verify dfyconfig.toml` checks everything.

Each part has a specification (functions on values, or a transition system over an explicit state), theorems about it, and, where the program changes state in place, classes and methods with the program's loops that are proved equal to the specification step by step. Code that holds one lock for a whole action is one step; everything else interleaves freely.

| part | specification and theorems | the code in place |
|---|---|---|
| sequencer | `Sequencer`, `SequencerTheorems`, `SequencerGap`, `SequencerNumbers`, `SequencerIssue`, `SequencerLiveness` | `SequencerObject` |
| leader election | `Elections`, `ElectionsTheorems`, `ElectionsHandover` | `ElectionsObject` |
| notification broker | `Broker`, `BrokerWakeups`, `BrokerCancel`, `BrokerOffsets`, `BrokerAccounts`, `BrokerAnswers` | `BrokerObject` |
| event codec | `EventCodec`, `EventRoundTrip`, `EventVersions`, `EventRefusal` | `EventCodecObject` |
| applying CUDs | `CudApply`, `CudRefusal` | `CudApplyObject` |
| record identifiers | `IdRegeneration`, `IdRegenerationTheorems`, `IdRegenerationTree`, `IdRegenerationEvents`, `IdRefusal` | `IdRegenerationObject` |
| token buckets | `Rates`, `Buckets`, `BucketRefill`, `TakeTokens` | `RatesObject` |
| storage cache | `StorageCache`, `StorageCacheTheorems` | `StorageCacheObject` |
| control loop | `Schedule`, `ControlLoop`, `ControlLoopTheorems`, `ControlLoopProgress`, `ControlLoopItems` | `Schedule.SchedulerImp`, `ControlLoopObject` |
| compatibility check | `Compat`, `CompatErrors` | `CompatChecker` |
| BLOB storage | `Blob`, `BlobOrder`, `BlobLayout`, `BlobTheorems` | `BlobObject` |

`Bytes` and `Options` are shared helpers.

## What is assumed

- Sequencer: an event holds only numbers that its transaction was given, it is in the PLog before `Flush`, and `Actualize` follows a failed or unknown append. The numbers of a key rise with the offset in the initial PLog. The stored offset is at least 1 at the beginning. `batcher` is one step; `GapIsSafeExactlyIf` says when anything may happen between its two lock sections.
- Elections: one clock for nodes and storage, storage calls take no time (each may fail, with or without effect), timers fire when due, removing the record and cancelling its leader are one step. Durations are not negative. Nothing is assumed about the values of the nodes: the model notes who wrote a record.
- Broker: Subscribe, Unsubscribe and cleanup of one channel do not overlap. Channel identifiers are never reused.
- Codec: names and containers are modelled by the identifiers under which they are stored, and strings by their bytes. The dynobuffer encoding is a parameter that must read back the fields it is given.
- CUDs: values put into rows were accepted, so building a row does not fail by itself.
- Identifiers: the generator starts at 200001 or later, identifiers of singletons are distinct and lie in their range, and the generator has no hook.
- Token buckets: float64 is real; waits are truncated to whole nanoseconds as in the code. The default clock is used at non-decreasing times where a theorem says so.
- Storage cache: calls are sequential and read the clock once; the storage below is the in-memory driver. The cache library (fastcache) is not part of this model: by its documentation an entry whose key, value and four bytes of lengths reach 64 KiB is not stored, and the entry that its key had stays.
- Control loop: keys, serial numbers and times are numbers; channels hand messages over as their buffers allow.
- BLOB storage: the reader returns chunks of at most 102400 bytes; the partition key of the BLOB is new.

## What was found

The model follows the code. Where a promise fails, a lemma gives the input and another one says when the promise holds.

- Sequencer: between the two lock sections of `batcher` the flusher does no harm exactly if it is not signalled, or the unflushed numbers over the stored ones cover the event already (`GapIsSafeExactlyIf`). Otherwise it may copy there, and after a crash `Next` repeats numbers of the PLog (`UnsafeGapRepeatsNumber`, a run in `FlushInsideBatcherRepeatsNumber`). A single stored number may drop (`StoredNumberMayDrop`, `IncompleteEventDropsNumber`): only if a crash falls between a number and its offset, or an event lacks the last number that its transaction was given (`OrderlyNumberNeverDrops`). The second needs no crash, as the offset that `Flush` stores is that of its own event, which is scanned again. With a limit of 0 unflushed values an actualization that has an event to read never ends (`ZeroLimitBlocksActualization`); with any other limit `Start` succeeds in the end (`StartIsEventuallyAccepted`).
- Elections: a negative duration gives two leaders (`NegativeDurationGivesTwoLeaders`). An acquisition that passed the check before `cleanup` leads after it (`AcquisitionInFlightOutlivesCleanup`). A storage call whose answer is lost may leave a record without a leader, and a release whose deletion is lost keeps the key taken (`AcquiredExactlyIf`, `ReleaseFreesKeyExactlyIf`).
- Broker: cancelling a watcher that took the token loses the wakeup of a subscription for good exactly if the subscription is behind and no other wakeup of the channel comes (`CancelLosesWakeupExactlyIf`, a run in `CancelledWatcherLosesTheWakeup`). Without such a cancellation nothing is lost (`UncancelledIsUpToDate`). `Unsubscribe` does not normalize the heartbeat key (`HeartbeatNeedsTheNormalizedKey`). With `ChannelsPerSubject` 0 the quota is exceeded by the first channel (`FirstChannelIsNotChecked`).
- Codec: emptied fields of argument objects are not stored, texts of build errors are cut at 65535 bytes, and the source bytes of an invalid event with an unlogged argument are not stored. `EventReadsBack` states exactly what comes back.
- Identifiers: a synchronised create may carry the storage identifier that was just generated for an earlier create of the same event (`NextIdMayRepeatSyncId`, exact condition in `EventIdsAreDistinctExactlyIf`). A create that refers to a raw identifier of the argument object may pass validation, which collects the identifiers of both, but keeps the raw reference (`ArgumentReferenceStaysRaw`, exact condition in `NoRawRemainsExactlyIf`). The generator is not told the storage identifiers of arguments, so a later event may be given one of them (exact condition in `GeneratedIdsAreNewInRun`).
- Token buckets: the nanosecond term of the bound is needed for arbitrary rates (`NanosecondTermIsNeeded`), but not for the limiters that buckets make (`ProperWindowBound`). A bucket whose period has fewer nanoseconds than tokens grants everything (`RefillIsExact`).
- Storage cache: it is invisible exactly for usages in which every key that it can hold is safe (`InvisibleExactlyIfSafe`). Unsafe are keys with equal concatenations (`CollidingKeysMixUp`), values too large for a cache entry, for which the old one is read (`BigWriteIsNotSeen`, `BigWriteLeavesOldValue`), keys with a time to live read by `Get` (`GetReadsExpiredRecord`), and writes that fail after they took effect (`UnackedWriteIsNotSeen`).
- Schedule: an older message is scheduled again once the newer one was sent (`OlderIsScheduledAfterNewerWasSent`). The timer is late by the time that the loop waited after reading the clock (`ScheduleStaysInOrder`).
- Compatibility: a compatible step composes with all compatible steps after it exactly if it removes no node (`StepsComposeExactlyIf`). The flag for delete-only is never enforced (`CheckIsAllowed` states what is).
- BLOB storage: chunk numbers in keys are little endian, so a BLOB of more than 256 full chunks (25 MiB) is read out of order (`BigBlobIsOutOfOrder`, exact condition in `ReadBackExactlyIf`). A write that crashes after its state record and before its first chunk reads as an empty BLOB (`InterruptedWriteReads`). An error that a reader returns together with data is ignored: it is lost exactly if the later reads end without an error (`ErrorWithDataIsLostExactlyIf`), and reported if the reader repeats it (`RepeatedErrorIsReported`).

## Model

| member | source | states |
|---|---|---|
| `SequencerTheorems.NextIsFresh` | pkg/isequencer/impl.go:194-261 | Over every run with flushes, evictions, actualizations and crashes at any point, Next issues a number for exactly the known sequences, and it is greater than any number that a PLog event holds for that key and was not issued in this transaction. |
| `SequencerTheorems.StartIsDense` | pkg/isequencer/impl.go:25-61 | Over every run, a successful Start returns exactly one past the last PLog event. |
| `SequencerTheorems.StoredOffsetStep` | pkg/isequencer/impl.go:119-174 | Every single step of a reachable state keeps the stored next offset or raises it. |
| `SequencerTheorems.StoredOffsetNeverDrops` | pkg/isequencer/impl.go:270-297 | Along every run the stored next offset never drops. |
| `SequencerTheorems.StorageCoversLog` | pkg/isequencer/impl.go:119-174 | In every reachable state stored numbers cover all PLog events below the stored offset, also between the write of the batch and of the offset. |
| `SequencerTheorems.BackgroundIsInvisible` | pkg/isequencer/impl.go:119-174 | No flusher step and no eviction changes what Next answers: a written key is dropped only if it is unchanged. |
| `SequencerTheorems.CacheIsInvisible` | pkg/isequencer/impl.go:194-250 | For every schedule of evictions the outputs of a run equal those of the machine without a cache (in process, else to be flushed, else stored, else initial value minus one). |
| `SequencerGap.GapIsSafeExactlyIf` | pkg/isequencer/impl.go:315-345 | Between the two lock sections of batcher, every run of flusher steps and evictions can be followed by a crash or by the second section without harm to the coverage of the PLog, exactly if no flush is signalled or the layers cover the event already. |
| `SequencerGap.UnsafeGapRepeatsNumber` | pkg/isequencer/impl.go:326-342 | Otherwise, for each key that the layers do not cover and no later event holds, there is a run with the flusher's copy and a crash after which Next issues a number that is not above those of the PLog. |
| `SequencerTheorems.SplitBatcherIsSafeUnlessFlushed` | pkg/isequencer/impl.go:315-345 | Between the two lock sections of batcher any flusher steps and evictions, except taking a new batch, keep the invariant. |
| `SequencerTheorems.FlushInsideBatcherRepeatsNumber` | pkg/isequencer/impl.go:326-342 | A run in which the flusher takes its batch between the two sections, and Next then issues a number of the PLog. |
| `SequencerTheorems.StoredNumberMayDrop` | pkg/isequencer/impl.go:284 | A run, with a crash between batch and offset, in which a stored number drops from 2 to 1. |
| `SequencerNumbers.StoredNumberDropsExactlyIf` | pkg/isequencer/impl.go:119-174 | A step lowers the stored number of a key exactly if the flusher writes a copy that holds a smaller one. |
| `SequencerNumbers.OrderlyNumberNeverDrops` | pkg/isequencer/impl.go:119-174 | Over every run in which no crash falls between a number and its offset, and each event that holds the key holds the last number given out for it, no stored number drops, with any actualizations, evictions and repeated storage calls. |
| `SequencerNumbers.IncompleteEventDropsNumber` | pkg/isequencer/impl.go:270-297 | A run without a crash in which an event lacks the last number and the stored one drops from 2 to 1. |
| `SequencerIssue.NumberIsInitialOrSuccessor` | pkg/isequencer/impl.go:194-261 | Over every run, with crashes and actualizations anywhere, Next issues the initial number of the sequence or the successor of a number that the key had at the beginning or was issued since; a key without any gets the initial number. |
| `SequencerIssue.NumbersAreConsecutive` | pkg/isequencer/impl.go:194-297 | Until the next crash or actualization the numbers issued for a key are consecutive and follow its last one, or begin with an initial number if there is none, whatever is flushed, evicted and issued between. |
| `SequencerIssue.NewKeyCountsFromInitial` | pkg/isequencer/impl.go:239-261 | In a process that starts, a key without a number gets initial, initial + 1, and so on. |
| `SequencerLiveness.StartIsEventuallyAccepted` | pkg/isequencer/impl.go:25-61 | From every reachable state without an open transaction the steps of the flusher and the actualizer, after at most one rejected Start, lead to a state where Start succeeds with the offset after the last event. |
| `SequencerLiveness.ZeroLimitBlocksActualization` | pkg/isequencer/impl.go:315-324 | If no unflushed value is allowed, an actualization with an event to read never goes on. |
| `Sequencer.StepKeepsInv` | pkg/isequencer/impl.go:25-452 | The invariant over cache, in-process, unflushed and stored numbers, the flusher's copy and the PLog is kept by every step of every actor. |
| `SequencerObject.SequencerObject.Next` | pkg/isequencer/impl.go:194-250 | Next on the fields of the object is the Next step of the machine, output included. |
| `SequencerObject.SequencerObject.Flush` | pkg/isequencer/impl.go:270-297 | Flush, with its loop over in-process numbers, is the Flush step. |
| `SequencerObject.SequencerObject.FlusherRemove` | pkg/isequencer/impl.go:155-172 | The flusher's loop removes exactly the written keys that are unchanged. |
| `SequencerObject.SequencerObject.Batcher` | pkg/isequencer/impl.go:315-345 | batcher collects the greatest value per key of an event and merges them with the new offset. |
| `ElectionsTheorems.AtMostOneLeader` | pkg/ielections/impl.go:20-142 | In every run with any number of nodes and any pattern of storage faults at most one node leads a key. |
| `ElectionsTheorems.LeaderLivesHalfAsLongAsItsRecord` | pkg/ielections/impl.go:57-103 | A leader is within half its duration of its last acknowledged write, and its own record outlives that write by the whole duration. |
| `ElectionsTheorems.RenewalIsNeverRefused` | pkg/ielections/impl.go:79-103 | A renewal that the storage answers always succeeds and prolongs the record: nobody can have taken the key. |
| `ElectionsTheorems.ForeignRecordsAreKept` | pkg/ielections/impl.go:125-142 | No step of a node changes or removes a live record of another node. |
| `ElectionsTheorems.LedKeyIsNotAcquired` | pkg/ielections/impl.go:20-55 | Acquiring a key that is led changes no leadership and no record. |
| `ElectionsTheorems.SilentKeyIsTakenOver` | pkg/ielections/impl.go:20-55 | Once nobody writes the record of a key for the longest duration in use, the next acquisition succeeds. |
| `ElectionsTheorems.RetiredNodeNeverLeads` | pkg/ielections/impl.go:145-159 | After cleanup without acquisitions in flight a node never leads until it restarts. |
| `ElectionsTheorems.NegativeDurationGivesTwoLeaders` | pkg/ielections/impl.go:20-55 | With any negative duration there is a run with two leaders of one key. |
| `ElectionsTheorems.AcquisitionInFlightOutlivesCleanup` | pkg/ielections/impl.go:145-159 | An acquisition past the check leads after cleanup, whenever the key is free. |
| `ElectionsHandover.ReleaseFreesKeyExactlyIf` | pkg/ielections/impl.go:125-142 | In every reachable state a release, a passed deadline or cleanup ends the leadership and frees the key exactly if the deletion reaches the storage; otherwise its record stays, and live records of other keys stay in any case. |
| `ElectionsHandover.ReleasedKeyIsAcquiredExactlyIf` | pkg/ielections/impl.go:20-55 | Then a node that is not finalized leads the key at the same instant, exactly if the deletion reached the storage. |
| `ElectionsHandover.LeadershipEndsExactlyIf` | pkg/ielections/impl.go:57-103 | A leadership ends exactly by a release, by cleanup of a finalized node, by a crash, or at the deadline, which is a quarter to a half of the duration after the last acknowledged write. |
| `ElectionsHandover.AcquiredExactlyIf` | pkg/ielections/impl.go:20-55 | An acquisition ends with a leader exactly if the key is free and the storage answers, and writes the record exactly if the key is free and the call arrives. |
| `ElectionsHandover.RenewalProlongsExactlyIf` | pkg/ielections/impl.go:79-103 | A renewal prolongs the record exactly if the call arrives. |
| `ElectionsHandover.FailedRenewalIsTriedAgain` | pkg/ielections/impl.go:79-103 | An unanswered renewal is tried again exactly one second later, before the deadline, and an answer then continues the leadership with a record of full length. |
| `ElectionsObject.TtlStorage.CompareAndSwap` | pkg/ielections/impl_mockstorage.go:82-107 | The whole new content, the answer and the error, with expired records pruned first. |
| `ElectionsObject.TtlStorage.CompareAndDelete` | pkg/ielections/impl_mockstorage.go:110-130 | As above for removal. |
| `ElectionsObject.NodeElections.AcquireLeadership` | pkg/ielections/impl.go:20-55 | Without interference: acquired exactly if not finalized, the key is free and the storage answers; then the record and the leadership are those of a new leader. |
| `ElectionsObject.NodeElections.TryRenew` | pkg/ielections/impl.go:79-103 | One turn of the renewal loop is the Attempt step of the node; it gives the leadership up exactly when it says so. |
| `BrokerWakeups.NoLostWakeup` | pkg/in10nmem/impl.go:199-341 | In every reachable state a subscription behind its projection has an event or signal coming, a full slot or a watcher about to scan, unless its channel expired or a cancelled watcher dropped its token. |
| `BrokerWakeups.QuiescentIsUpToDate` | pkg/in10nmem/impl.go:223-257 | When nothing is pending every such watched subscription was told the latest offset. |
| `BrokerWakeups.Progress` | pkg/in10nmem/impl.go:298-341 | Whenever something is pending, some internal step is enabled: the full queue and full slots block nothing for ever. |
| `BrokerWakeups.InternalStepDecreases` | pkg/in10nmem/impl.go:298-341 | Every internal step decreases a well-founded measure, so they cannot go on for ever. |
| `BrokerWakeups.ClientIsEventuallyUpToDate` | pkg/in10nmem/impl.go:199-258 | From every reachable state internal steps alone lead to a state where a watched channel was told at least the offsets of now for all its subscriptions. |
| `BrokerWakeups.ReportsIncrease` | pkg/in10nmem/impl.go:223-257 | Until it is removed, the offsets reported for a subscription strictly increase, over every run. |
| `BrokerCancel.CancelLosesWakeupExactlyIf` | pkg/in10nmem/impl.go:223-257 | After a watcher with the token is cancelled, a subscription stays behind in all runs of internal steps and new watches exactly if it was behind and no other wakeup of any key of the channel was coming. |
| `BrokerCancel.UncancelledIsUpToDate` | pkg/in10nmem/impl.go:199-341 | In every run without such a cancellation a subscription that is behind has a wakeup coming, and when nothing is pending it is not behind. |
| `BrokerOffsets.OffsetIsLastUpdate` | pkg/in10nmem/impl.go:359-368 | Over every run the offset of a projection is the argument of the last Update of its key, or 0 without one. |
| `BrokerOffsets.ReportIsLastUpdate` | pkg/in10nmem/impl.go:223-257 | In every reachable state a scan reports, for exactly the subscriptions that are behind, the argument of the last Update of the key. |
| `BrokerOffsets.ClientIsToldTheLastUpdate` | pkg/in10nmem/impl.go:199-258 | From every reachable state internal steps alone lead to a state where a watched channel was told, for each subscription, the argument of the last Update, or of an earlier one that was not lower. |
| `BrokerOffsets.RisingUpdatesAreTold` | pkg/in10nmem/impl.go:359-368 | If no Update was higher than the last one, exactly its argument was told. |
| `BrokerOffsets.DeliveredWasReported` | pkg/in10nmem/impl.go:223-257 | The offset kept as delivered was reported to the client in the run. |
| `BrokerWakeups.CancelledWatcherLosesTheWakeup` | pkg/in10nmem/impl.go:223-257 | A run after which nothing is pending, the channel is watched and the client is not up to date. |
| `BrokerWakeups.HeartbeatNeedsTheNormalizedKey` | pkg/in10nmem/impl.go:147-195 | Unsubscribing with the subscribed key leaves the subscription exactly if the key was not the normalized one. |
| `BrokerAccounts.AccountsAreExact` | pkg/in10nmem/impl.go:95-123 | In every reachable state the global counter is the sum over channels and over subjects, the counts of subjects are those of live channels and subscriptions, and a cleaned channel has none. |
| `BrokerAccounts.QuotasHoldExactlyIf` | pkg/in10nmem/impl.go:32-61 | No quota is exceeded in any run exactly if ChannelsPerSubject is at least 1 or no channel is allowed at all. |
| `BrokerAccounts.FirstChannelIsNotChecked` | pkg/in10nmem/impl.go:38-48 | Otherwise a run exceeds it. |
| `BrokerAnswers.NewChannelAnswers` | pkg/in10nmem/impl.go:32-61 | In every reachable state a channel is refused exactly if so many live ones exist, in all or, unless it is the first ever, for the subject; the error says which, and nothing changes then. |
| `BrokerAnswers.SubscribeAnswers` | pkg/in10nmem/impl.go:73-145 | A subscription is refused exactly if the channel is gone or closing or so many subscriptions exist, in all or for the subject; otherwise the channel has the normalized key. |
| `BrokerAnswers.SubscribersAreExact` | pkg/in10nmem/impl.go:298-341 | When nothing is pending, the channels that the notifier signals for a projection are exactly those subscribed to it. |
| `BrokerAnswers.ChannelExpiresExactlyIf` | pkg/in10nmem/impl.go:438-444 | In every run after its creation, a watcher with the token leaves exactly if the duration of the channel has passed since then. |
| `Broker.StepKeepsInv` | pkg/in10nmem/impl.go:32-367 | Every critical section and send of clients, watchers, notifier and cleanup keeps the wakeup invariant. |
| `BrokerObject.N10nBroker.Subscribe` | pkg/in10nmem/impl.go:73-145 | Subscribe on the maps and counters is the Subscribe step with its result. |
| `BrokerObject.N10nBroker.NotifierActualize` | pkg/in10nmem/impl.go:306-341 | The notifier's critical section, with its loops over what is to be subscribed, is the merge step. |
| `BrokerObject.N10nBroker.CollectUpdates` | pkg/in10nmem/impl.go:231-257 | The watcher's loop yields exactly the subscriptions that are behind, with their offsets, and marks them delivered. |
| `EventRoundTrip.EventReadsBack` | pkg/istructsmem/event-dynobuf.go:18-360 | Loading the bytes of any valid event, whatever the iteration order of its maps and whatever follows, gives name, parameters, build error, both argument trees, creates in order and updates as a map, and leaves exactly what followed. |
| `EventRoundTrip.RowReadsBack` | pkg/istructsmem/types-dynobuf.go:158-245 | A row that fits its fields reads back without its emptied fields. |
| `EventRoundTrip.SysFieldsReadBack` | pkg/istructsmem/types-dynobuf.go:181-307 | System fields read back from mask and values. |
| `EventRoundTrip.CudReadsBack` | pkg/istructsmem/event-dynobuf.go:91-335 | A create or update reads back with its emptied fields, in any order of these. |
| `EventRoundTrip.ObjReadsBack` | pkg/istructsmem/event-dynobuf.go:110-360 | An argument tree reads back with all children in order. |
| `EventRoundTrip.UpdatesReadBack` | pkg/istructsmem/event-dynobuf.go:282-296 | Updates written in any order read back as the same map. |
| `EventRoundTrip.BuildErrorReadsBack` | pkg/istructsmem/event-dynobuf.go:45-251 | What comes back of a build error: nothing of a valid event, otherwise its text cut to size, the original name and the logged bytes. |
| `EventVersions.OldEventReadsBack` | pkg/istructsmem/event-dynobuf.go:125-335 | Any event that codec 0 or 1 could store, by encoders of their own (system fields of the kind without a mask; no emptied fields), in any order of updates and followed by anything, loads as itself without emptied fields and leaves what followed. |
| `EventVersions.OldRecordReadsBack` | pkg/istructsmem/types.go:210-229 | A record stored by codec 0 or 1 loads as itself without emptied fields. |
| `EventRefusal.TruncatedEventIsRefused` | pkg/istructsmem/event-types.go:163-179 | Whatever is cut off the end of a stored event, loading the rest fails with an unexpected end of data. |
| `EventRefusal.TruncatedRecordIsRefused` | pkg/istructsmem/types.go:210-229 | The same for a stored record. |
| `EventRefusal.LoadedEventIsKnown` | pkg/istructsmem/event-dynobuf.go:125-360 | Whatever bytes load: names, types and containers are known, emptied fields are string or bytes fields of their type, updates lie under their own identifiers, and the name of an invalid event is well formed. |
| `EventRefusal.UnknownCodecExactlyIf` | pkg/istructsmem/event-types.go:163-179 | The codec is refused as unknown exactly if the first byte is above 2. |
| `EventRefusal.ForeignRowReadsExactlyIf` | pkg/istructsmem/types-dynobuf.go:265-307 | A stored row loads in another application exactly if that knows its name, type and container; the error names the first that it does not. |
| `EventRefusal.ForeignEventIsRefused` | pkg/istructsmem/event-dynobuf.go:125-160 | An event whose stored name is not known is refused for its name. |
| `EventRefusal.IndexesReadExactlyIf` | pkg/istructsmem/event-dynobuf.go:316-331 | Indexes of emptied fields load exactly if each is that of a string or bytes field; otherwise the first that is not decides the error. |
| `EventRefusal.ShortListIsRefused` | pkg/istructsmem/event-dynobuf.go:308-316 | A list shorter than its count is refused as too short, whatever it holds. |
| `EventRefusal.UnloggedBytesAreNotStored` | pkg/istructsmem/event-dynobuf.go:45-70 | The bytes of an invalid event with an unlogged argument do not depend on the bytes it was made from, and its name is that of errors unless it is corrupted. |
| `EventCodecObject.StoreEvent` | pkg/istructsmem/event-dynobuf.go:18-30 | Storing writes the bytes of the event for some iteration orders, and a valid event reads back from them, with nothing left over. |
| `EventCodecObject.StoreCud` | pkg/istructsmem/event-dynobuf.go:91-108 | The loop over emptied fields appends their indexes in the order in which they come. |
| `EventCodecObject.StoreObject` | pkg/istructsmem/event-dynobuf.go:110-123 | The recursive writer appends exactly the bytes of the tree. |
| `EventCodecObject.LoadObject` | pkg/istructsmem/event-dynobuf.go:337-360 | The recursive reader with its loop over children consumes what the decoder consumes, and fails as it fails. |
| `EventCodecObject.LoadCud` | pkg/istructsmem/event-dynobuf.go:301-335 | As above for creates and updates, with the checks of count, index and type of emptied fields. |
| `EventCodecObject.LoadSysFields` | pkg/istructsmem/types-dynobuf.go:265-307 | As above for system fields, with the mask of the type kind in codec 0. |
| `EventCodecObject.LoadEvent` | pkg/istructsmem/event-types.go:163-179 | Loading any bytes gives the event, or the error, of the decoder. |
| `CudApply.RecoveryGivesSameRecords` | pkg/istructsmem/event-types.go:401-428 | For every valid event, applying it as read from its own bytes leaves exactly the records that the event in memory leaves, even over records that were partly written before, in any order of updates. |
| `CudApply.CrashedApplyIsCompleted` | pkg/istructsmem/impl.go:683-726 | After a crash at any number of written records, applying the event from its bytes completes what was begun. |
| `CudApply.AppliesAgain` | pkg/istructsmem/event-types.go:401-428 | Any mixture of loaded and unloaded updates gives the creates, then one row per update with its built result. |
| `CudApply.InterruptedIsPartlyApplied` | pkg/istructsmem/impl.go:588-622 | Any prefix of the writes leaves each record as before or as the event has it. |
| `CudApply.InsertsExactlyIfFresh` | pkg/istructsmem/impl.go:596-616 | At the lowest trust level all creates are written exactly if their identifiers are new and distinct, and no existing record is overwritten. |
| `CudApply.BuildIsIdempotent` | pkg/istructsmem/event-types.go:628-670 | Building the result once more changes nothing. |
| `CudApply.SameResultExactlyIf` | pkg/istructsmem/event-types.go:628-670 | An update makes the same of two records exactly if they agree in type, identifier, parent, container and all fields it does not write. |
| `CudApply.UpdateWritesItsFieldsOnly` | pkg/istructsmem/event-types.go:604-670 | A new update changes activity, written and emptied fields as told and nothing else, and is never refused. |
| `CudApply.RecordReadsBack` | pkg/istructsmem/types.go:210-229 | A stored record loads as itself without emptied fields. |
| `CudRefusal.AcceptedExactlyIfObeyed` | pkg/istructsmem/event-types.go:628-652 | An update of a known type is accepted exactly if its result has the identifier of the changes, and their parent and container where not null; the error names the first that differs, and a refused update keeps its record. |
| `CudRefusal.AcceptedUpdateIs` | pkg/istructsmem/event-types.go:654-670 | Each field of the result is emptied, has its change, or is as it was; everything but the activity stays. |
| `CudRefusal.AppliedExactlyIf` | pkg/istructsmem/event-types.go:401-428 | An event is applied exactly if every update is loaded already, or its record exists, loads and obeys the changes; otherwise the error is that of the first in the order, and nothing is written at any trust level. |
| `CudRefusal.LoggedEventIsAppliedExactlyIf` | pkg/istructsmem/event-types.go:401-428 | For an event read from the log that is checked for every update. |
| `CudRefusal.StrictlyAppliedExactlyIf` | pkg/istructsmem/impl.go:588-622 | At the lowest trust level such an event is written whole exactly if its creates are new; otherwise exactly the creates before the first one that is not stay written. |
| `CudApplyObject.UpdateRec.Build` | pkg/istructsmem/event-types.go:628-670 | build with its loops over changed and emptied fields gives the result, or the refusal, of the specification and keeps origin and changes. |
| `CudApplyObject.CudObject.ApplyRecs` | pkg/istructsmem/event-types.go:401-428 | The loop over updates in any order collects the rows of the specification, and completes each update in place. |
| `CudApplyObject.CudObject.Apply` | pkg/istructsmem/impl.go:683-726 | Nothing is written if an update is refused; otherwise the storage is the specified one. |
| `CudApplyObject.CudObject.ApplyStrictly` | pkg/istructsmem/impl.go:588-622 | The same with insertion of creates. |
| `IdRegenerationTheorems.CudIsRenamed` | pkg/istructsmem/event-types.go:540-560 | In any order of updates, regeneration fails only for an unknown singleton; otherwise every create and all changes go through one renaming of identifier, parent and references, and updates are built from their new changes. |
| `IdRegenerationTheorems.RenamingIsInjective` | pkg/istructsmem/event-types.go:470-496 | The renaming is defined exactly on the raw identifiers of the rows, is injective, and its images are not raw. |
| `IdRegenerationTheorems.NoRawRemainsExactlyIf` | pkg/istructsmem/event-types.go:498-537 | No raw identifier remains in creates and updates exactly if each one mentioned is that of a create of the same event. |
| `IdRegenerationTheorems.IdsAreDistinctExactlyIf` | pkg/istructsmem/event-types.go:470-496 | The new identifiers are distinct exactly if no storage identifier repeats a fixed one or one generated before it in the event. |
| `IdRegenerationTheorems.NextIdMayRepeatSyncId` | pkg/istructsmem/idgenerator.go:29-45 | Two creates that get the same identifier. |
| `IdRegenerationTheorems.SyncIdsBelowAreSafe` | pkg/istructsmem/idgenerator.go:41-45 | A storage identifier below the generator clashes with no generated one. |
| `IdRegenerationEvents.EventIdsAreDistinctExactlyIf` | pkg/istructsmem/event-types.go:191-202 | The identifiers of argument and creates of a regenerated event are distinct exactly if no two of its rows clash: equal fixed identifiers, or one that the generator gives to a row while another has it. |
| `IdRegenerationEvents.UnsyncedIdsAreDistinct` | pkg/istructsmem/event-types.go:191-202 | With raw identifiers only, no two rows clash: all argument rows and creates get distinct identifiers. |
| `IdRegenerationEvents.GeneratedIdsAreNewInRun` | pkg/istructsmem/idgenerator.go:29-45 | Over any run of whole events a generated identifier equals one of an earlier event exactly if that is a storage identifier of an argument, which the generator is not told, and its turn comes. |
| `IdRefusal.RegeneratedExactlyIf` | pkg/istructsmem/event-types.go:518-560 | Regeneration succeeds exactly if the singletons are known and no touched update gives its record another identifier, parent or container; otherwise the error is that of the singleton, or of the first such update. |
| `IdRefusal.CreateIdIs` | pkg/istructsmem/event-types.go:470-496 | A storage identifier stays, a singleton gets the one registered for its type, and any other create one that the generator had not given. |
| `IdRegenerationTree.ObjectIsRenamed` | pkg/istructsmem/event-types.go:783-823 | An argument tree keeps its shape and each row becomes its image under one renaming, null for what the tree does not have; no raw identifier remains. |
| `IdRegenerationTree.ObjectIdsAreDistinctExactlyIf` | pkg/istructsmem/event-types.go:783-800 | Its identifiers are distinct exactly if no row has a storage identifier among those generated. |
| `IdRegenerationTree.ArgumentReferenceStaysRaw` | pkg/istructsmem/validation.go:120-228 | A create that refers to a raw identifier of the argument keeps it, while the argument gets another. |
| `IdRegenerationObject.RegeneratePlan` | pkg/istructsmem/event-types.go:470-496 | The loop over creates gives each record its identifier in place, moves the generator and fills the plan as specified, or fails at an unknown singleton. |
| `IdRegenerationObject.RenameRow` | pkg/istructsmem/event-types.go:499-516 | The loop over the fields of a row gives its renaming, and tells whether anything changed. |
| `IdRegenerationObject.CudRecords.RegenerateIds` | pkg/istructsmem/event-types.go:540-560 | Creates and updates are changed in place to the regenerated CUDs. |
| `IdRegenerationObject.RegenerateTree` | pkg/istructsmem/event-types.go:783-823 | Two passes over the visited records in place leave the regenerated tree. |
| `Rates.WindowBound` | pkg/iratesce/rate.go:40-101 | In any window of any run at non-decreasing times the granted tokens stay below burst, plus rate times window, plus rate times one nanosecond. |
| `Rates.NanosecondTermIsNeeded` | pkg/iratesce/rate.go:124-130 | A limiter with burst 1 that grants two tokens at once. |
| `Buckets.AllowProper` | pkg/iratesce/rate.go:40-101 | For limiters with a whole number of nanoseconds per token, allowN grants exactly if the tokens are there, and takes exactly them. |
| `Buckets.ResetIsProper` | pkg/iratesce/impl.go:46-53 | Every reset makes such a limiter. |
| `Buckets.ProperWindowBound` | pkg/iratesce/rate.go:40-101 | For these the bound holds without the nanosecond. |
| `Buckets.SetStateIsReadBack` | pkg/iratesce/impl.go:150-173 | Taken tokens that were set are read back at the same time, or 0 if they exceed the burst. |
| `BucketRefill.RefillIsExact` | pkg/iratesce/impl.go:46-54 | A bucket that was reset gains exactly one token per period divided by maximum, in whole nanoseconds, up to the maximum: a later request is granted exactly if so many are there. |
| `BucketRefill.StateReadsBackExactly` | pkg/iratesce/impl.go:36-54 | A state that was set reads back its taken tokens exactly if they fit the bucket and its rate is limited, and 0 otherwise. |
| `TakeTokens.RefusalTakesNothing` | pkg/iratesce/impl.go:57-91 | A refused take leaves every existing bucket, at every later time and for every later request, as without the call, with duplicate keys and zero or infinite rates. |
| `TakeTokens.TakenExactlyIfEnough` | pkg/iratesce/impl.go:57-91 | Tokens are taken exactly if each bucket has enough for all occurrences of its key. |
| `TakeTokens.TakenFromAll` | pkg/iratesce/impl.go:57-91 | Then each bucket loses n per occurrence of its key and no other changes. |
| `TakeTokens.ReportedLimitIsTheFirst` | pkg/iratesce/impl.go:57-91 | The reported limit is that of the first key that could not be granted. |
| `TakeTokens.TakeKeepsProper` | pkg/iratesce/impl.go:57-108 | A take keeps every limiter at a whole number of nanoseconds per token, the condition of the other results, new buckets included. |
| `TakeTokens.SameAnswers` | pkg/iratesce/rate.go:40-120 | Limiters with the same tokens from a time on grant the same requests. |
| `RatesObject.BucketsObject.TakeTokens` | pkg/iratesce/impl.go:57-91 | The loop with rollback on the bucket map is the specified take. |
| `RatesObject.BucketObject.AllowN` | pkg/iratesce/rate.go:33-101 | reserveN on the fields of the limiter is the specified request. |
| `StorageCacheTheorems.CacheIsInvisible` | pkg/istoragecache/impl.go:128-426 | For a safe usage every sequential history, with evictions and storage faults anywhere, gives call by call the answers of the storage alone, except that a read that the storage fails may be answered from the cache. |
| `StorageCacheTheorems.InvisibleExactlyIfSafe` | pkg/istoragecache/impl.go:128-426 | The cache is invisible for all histories of a usage exactly if each key that it can hold has a concatenation of its own, only values that fit an entry, no time to live where Get reads it, and acknowledged writes. |
| `StorageCacheTheorems.CollidingKeysMixUp` | pkg/istoragecache/impl.go:420-426 | What is put under one of two colliding keys is read under the other. |
| `StorageCacheTheorems.BigWriteIsNotSeen` | pkg/istoragecache/impl.go:266-282 | A value too large for a cache entry is not found after the cache learnt that there was none. |
| `StorageCacheTheorems.BigWriteLeavesOldValue` | pkg/istoragecache/impl.go:266-282 | After a write of such a value over a smaller one the smaller one is read. |
| `StorageCacheTheorems.GetReadsExpiredRecord` | pkg/istoragecache/impl.go:305-346 | Get returns a record that expired. |
| `StorageCacheTheorems.UnackedWriteIsNotSeen` | pkg/istoragecache/impl.go:266-282 | After a write that took effect and failed the old value is read. |
| `StorageCacheTheorems.TtlRecordIsFoundUntil` | pkg/istoragecache/impl.go:128-243 | After an acknowledged conditional write a record is found, by cache and storage alike, exactly until its seconds have passed since the last whole millisecond before the write. |
| `StorageCacheTheorems.ExpiredEntryIsDropped` | pkg/istoragecache/impl.go:203-243 | After TTLGet found it expired, Get does not find it either. |
| `StorageCacheTheorems.ConditionalWritesDecideByReads` | pkg/istorage/mem/impl.go:66-171 | Conditional writes are done exactly if a read finds no record, or the expected one; then a read finds what was written, and other keys stay. |
| `StorageCacheTheorems.BatchIsRemembered` | pkg/istoragecache/impl.go:348-400 | After a batch was read the cache answers it, and each key of it, without the storage. |
| `StorageCache.EntryReadsBack` | pkg/istorage/utils.go:115-128 | Value and expiration time read back from a cache entry. |
| `StorageCacheObject.CachedAppStorage.Get` | pkg/istoragecache/impl.go:305-346 | Get on cache and storage is the specified step, with negative entries. |
| `StorageCacheObject.CachedAppStorage.GetBatch` | pkg/istoragecache/impl.go:348-400 | The loops over items give the answers and the cache of the specification. |
| `StorageCacheObject.CachedAppStorage.TTLGet` | pkg/istoragecache/impl.go:203-243 | TTLGet with removal of expired entries is the specified step. |
| `Schedule.AddedProperties` | pkg/ctrlloop/types.go:99-123 | Adding keeps the list sorted with one item per key, keeps all other items in order, and keeps the item with the higher or equal serial number. |
| `Schedule.ScheduleStaysInOrder` | pkg/ctrlloop/types.go:47-123 | After any run of OnIn, OnTimer and OnRepeat the list is sorted with one item per key, and the timer is set for the front item or for the retry. |
| `Schedule.NewestSerialWins` | pkg/ctrlloop/types.go:99-123 | Until it is sent a scheduled item is only replaced by one with a higher serial number. |
| `Schedule.OlderIsScheduledAfterNewerWasSent` | pkg/ctrlloop/types.go:81-84 | An older message is scheduled once the newer was sent. |
| `Schedule.SchedulerImp.AddItemToSchedule` | pkg/ctrlloop/types.go:99-123 | The removal and insertion loops give the list of the specification. |
| `Schedule.SchedulerImp.OnTimer` | pkg/ctrlloop/types.go:59-79 | OnTimer is the step of the specification and sends the front item exactly if the send succeeds. |
| `ControlLoopTheorems.ControllerIsExclusivePerKey` | pkg/ctrlloop/impl.go:49-100 | In every interleaving of dedupIn, callers and dedupOut the keys in process are those of the held messages, each held once, so no two callers have one key. |
| `ControlLoopTheorems.EveryMessageIsPassedOrRepeated` | pkg/ctrlloop/impl.go:49-67 | Each message that enters dedupIn is passed to a caller or repeated. |
| `ControlLoopTheorems.NewestMessageIsNeverLost` | pkg/ctrlloop/impl.go:18-124 | The newest message of each key is scheduled, travels or was finished. |
| `ControlLoopProgress.NoDeadlock` | pkg/ctrlloop/provide.go:17-58 | Whenever a message travels, some step of the loop itself is enabled, whatever the channels hold. |
| `ControlLoopProgress.InternalRunsAreShort` | pkg/ctrlloop/impl.go:18-124 | No run of such steps is longer than the distance of the messages to the schedule. |
| `ControlLoopProgress.NewestIsScheduledOrFinished` | pkg/ctrlloop/impl.go:18-124 | From every reachable state such steps alone lead to a state where nothing travels, no key is in process, and the newest message of each key is scheduled or finished. |
| `ControlLoopProgress.NewestCanBeFinished` | pkg/ctrlloop/impl.go:18-124 | From every reachable state there is a run, in which controllers finish what they are given, after which the newest message of every key is finished. |
| `ControlLoopItems.ItemsAreAsSaid` | pkg/ctrlloop/impl.go:49-115 | In every interleaving each message has the parameter and serial number with which it came in, and is scheduled for a time that was said: on entry, by its controller, or ten seconds after it was found in process. |
| `ControlLoopObject.ControlLoopState.DedupInStore` | pkg/ctrlloop/impl.go:49-67 | The store into the in-process map is the step of the specification. |
| `Compat.ComparedIsCompatible` | pkg/appdefcompat/impl.go:250-260 | compareNodes reports no error exactly if the trees satisfy the declarative relation, recursively. |
| `Compat.CheckIsAllowed` | pkg/appdefcompat/impl.go:272-328 | The checks of one node find no error exactly if the constraint allows the change of child names: prefix, equal sequence, subset or same set. |
| `CompatErrors.ErrorsAreExact` | pkg/appdefcompat/impl.go:250-328 | For trees of unique names an error is reported exactly if it is to be, by a relation on the names of the children: with its constraint, its kind, and the path of the changed node, or of the removed or moved child. |
| `Compat.ApplicationMayChange` | pkg/appdefcompat/impl.go:20-29 | The constraints of an application allow types to be added, fields to be appended, unique fields and packages to be reordered, nothing for keys and command types, and anything elsewhere. |
| `Compat.PackagesAreASet` | pkg/appdefcompat/impl.go:272-328 | The combined flags used for packages allow exactly the same set. |
| `Compat.SameTreeGivesNoError` | pkg/appdefcompat/impl.go:250-260 | A tree compared with itself gives no error. |
| `Compat.StepsComposeExactlyIf` | pkg/appdefcompat/impl.go:250-260 | For trees of unique names a compatible step composes with every compatible step after it exactly if it removes nothing. |
| `Compat.TwoStepsAreOne` | pkg/appdefcompat/impl.go:250-260 | The half that shows two compatible steps to be one if the first removes nothing. |
| `Compat.RemovalHidesAChange` | pkg/appdefcompat/impl.go:250-260 | The other half: for every compatible step that removes a node there is a compatible step after it such that both together are not compatible. |
| `CompatChecker.Match` | pkg/appdefcompat/impl.go:342-377 | The two loops give the matched pairs, deleted and new names, and the counts of the specification. |
| `CompatChecker.Compare` | pkg/appdefcompat/impl.go:250-260 | The recursive method gives the errors of the specification in order. |
| `BlobTheorems.FilledBuckets` | pkg/iblobstoragestg/impl.go:52-107 | After writing to a fresh key, exactly the buckets 1 to k hold chunks. |
| `BlobTheorems.SmallBlobReadBack` | pkg/iblobstoragestg/impl.go:182-234 | With at most 256 chunks reading gives the chunks in order, each once. |
| `BlobTheorems.ReadBackExactlyIf` | pkg/iblobstoragestg/impl.go:109-117 | Distinct chunks are read in order exactly if no bucket crosses a multiple of 256 chunk numbers. |
| `BlobTheorems.ReadSizeIsWrittenSize` | pkg/iblobstoragestg/impl.go:182-234 | For any number of chunks the bytes counted by the reader are those counted by the writer. |
| `BlobTheorems.CrossedBlockIsOutOfOrder` | pkg/iblobstoragestg/impl.go:109-117 | A bucket is read in order exactly if it does not cross such a number. |
| `BlobTheorems.BigBlobIsOutOfOrder` | pkg/iblobstoragestg/impl.go:52-107 | A BLOB of more than 256 full chunks is read out of order, at its third bucket. |
| `BlobObject.WriteThenRead` | pkg/iblobstoragestg/impl.go:30-237 | A failed write reads as corrupted; a completed one gives as many bytes, and the same bytes if no bucket crosses a multiple of 256. |
| `BlobObject.InterruptedWriteReads` | pkg/iblobstoragestg/impl.go:159-237 | After a crash a BLOB reads as not found without state and chunks, as corrupted with any chunk, and as empty with the state alone. |
| `BlobObject.CompletedExactlyIf` | pkg/iblobstoragestg/impl.go:52-107 | Writing completes exactly if some read has no data and end of file, all data before it is accepted, and no read without data before it has an error. |
| `BlobObject.ErrorWithDataIsLostExactlyIf` | pkg/iblobstoragestg/impl.go:52-107 | An error returned with data changes nothing of what is written; the BLOB reads as a whole one exactly if the reads end as above. |
| `BlobObject.RepeatedErrorIsReported` | pkg/iblobstoragestg/impl.go:52-107 | A reader that returns an error again without data leaves no completed BLOB. |
| `BlobObject.BStorage.WriteBLOB` | pkg/iblobstoragestg/impl.go:30-107 | The write loop on the storage is the specified write, with the state record. |
| `BlobObject.BStorage.ReadBLOB` | pkg/iblobstoragestg/impl.go:159-237 | The bucket and chunk loops return what the specification reads. |

## Left out

- Scripts, HTTP, wiring, `cmd/*`, `pkg/bus`, `pkg/ibus*`, `pkg/iservices*`, `pkg/ihttp*`, `pkg/cluster`, `pkg/btstrp`: calls into libraries.
- `pkg/appdef`, `pkg/acl`, `pkg/iprocbusmem`, `pkg/extensionpoints`: only easy members.
- `pkg/dml` and SQL parsing, `pkg/appparts`, `readLogParts`: parts of them lie in packages that are not part of this model.
- Logging, metrics, JSON, UUIDs, retry delays, contexts beyond a cancelled flag, and the shutdown order of goroutines.
- uint64 and int64 wrap-around of offsets, sequence numbers, record identifiers and counters. Integers that are stored as bytes have their widths.
- Sequencer: `cleanup` and the retry loops; a retry is a repeated step.
- Broker: shutdown, the heartbeat timer and metrics queries; channels and projections are values in maps of the broker object, so their sharing is not captured.
- Concurrent use of the storage cache: a Get that misses may overwrite a newer Put. `Read`, `TTLRead` and `QueryTTL` do not use the cache.
- Control loop: the reporter, cron expressions and the end of the loop.
- Compatibility: building the trees and the list of ignored paths. Appending to a shared path slice in the loop over deleted names is not captured.
- BLOB storage: the JSON form of the state record, the context and the size limiter (inputs of the read loop), and temporary BLOBs, which write by insertion into a fresh key.
- Codec: `clarifyJSONValue`, view rows, and the encoding of dynobuffers. A flag that tells an explicit activation from the default is not stored by the code, and not modelled.
- Identifiers: an argument tree is a fixed shape over changing records; the recursive `forEach` is the list of records in its order. Checks of values put into fields are left out.
- IdRegenerationEvents.UnsyncedIdsAreDistinct: stated for events that are not synchronised, as the others may clash; `EventIdsAreDistinctExactlyIf` says exactly when.
- BlobTheorems.ReadBackExactlyIf: requires distinct chunks, because equal chunks hide a wrong order; the other direction, `ReadBack`, does not.
