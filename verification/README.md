# Vessel tracking: delivery, storage, fan-out, enrichment

This project models the parts of the vessel tracker where several pieces of state must agree over whole runs, and
proves that they do. `dafny verify dfyconfig.toml` checks it.

Each stateful part is written twice. A class with the source's fields has methods with its branches and loops, and each
method is proved equal to a function on values. Those functions are the steps of a machine, and what the source promises
is proved over every run of the machine.

- **Stream delivery** (`Json`, `CounterKeys`, `Dispatch`, `StreamDelivery`, `NoLoss`, `BoundedRetry`, `RetryRuns`,
  `RetryLimits`, `LetterCounts`, `StaleEntries`, `LoopEnds`, `ClaimTicks`, `GroupStarts`, `Replay`). A log, one cursor
  and pending list per consumer group, retry counters and a dead-letter log. Every Redis call is one atomic step that may
  succeed, fail before or fail after taking effect. Read loops and autoclaim ticks of any number of workers interleave
  between any two calls and may crash there.
- **Storage** (`Decimal`, `Calendar`, `PartitionNames`, `HistoryPartitions`, `VesselStore`, `PartitionCoverage`,
  `MaintenanceOutcomes`, `ExactlyOnce`, `StorageRuns`, `MaintainedStorage`, `VesselNames`, `EndToEnd`). The guarded
  latest row, the idempotent history, daily partitions with their names and the Gregorian calendar under them, and the
  maintenance transaction. `EndToEnd` joins it to the delivery machine: at-least-once delivery has exactly-once effect.
- **Fan-out** (`Contracts`, `SendQueues`, `QueueRuns`, `RealtimeGateway`, `MergeReducer`, `Convergence`, `Logs`,
  `ClientFields`, `Coalescing`). The bounded, coalescing send queue, the connection that drains it and the client's
  reducers.
- **Sanctions** (`Names`, `NameWords`, `StableSort`, `Matcher`, `MatchMeaning`, `SanctionsLookup`,
  `EnrichmentRequests`, `SanctionsConvergence`, `ProcessedJobs`). Matching, the indexed lookup, the fingerprint that
  skips work, and the way of a result from the guarded row through the stream to the client.
- **Map, sampler, geo** (`FlushScheduler`, `Sampler`, `GeoCache`, `GeoValidation`).

Timestamps are parsed instants in milliseconds; coordinates and speeds are scaled integers. Clocks, row orders, lock
outcomes and faults are parameters.

## What the proofs brought to light

- `utcDayStart` goes through `Date.UTC`, which reads the years 0 to 99 as 1900 to 1999 (`PartitionNames.UtcDayIsDayOf`).
  Partition names of the years 100 to 999 parse but do not reprint, and old partitions are dropped in exactly the years
  1000 to 9999 (`StorageRuns.DroppedExactly`).
- Daily partitions beyond the window are never removed, so the window is tiled exactly only if there were none at first.
- Two payloads for one vessel and time leave the latest and the history table in disagreement.
- A worker dispatches every entry of a batch it has fetched, even one that another worker has settled meanwhile. Each
  such stale entry is one dispatch beyond the limit, exactly (`RetryLimits.LimitPlusStaleDispatches`), and at limit one
  also one dead letter more, without any fault (`LetterCounts.OneLetterPerDispatch`); a run that does so is
  `StaleEntries.StaleEntryIsDeadLetteredAgain`.
- An acknowledgement that throws outside the `try` ends the read loop for good, in exactly the cases of
  `LoopEnds.EscapesExactly`. Its message stays pending if the call never reached the server, and is acknowledged if only
  the reply was lost; the rest of the batch stays pending for the autoclaim tick, which no exception ends
  (`ClaimTicks.TickEndsExactly`), but a group without another loop reads nothing new.
- The reducer merges every row of a snapshot with the vessel as it was before, so a vessel's last row decides, even when
  it is older. It does harm exactly under `Convergence.SnapshotShowsNewestExactly`; the server's own snapshot query reads
  one row per vessel.
- Queued statics overtake positions, and a position without a name supersedes one with: names may differ or get lost,
  unless the messages meet the condition of `Coalescing.CoalescingKeepsNames`.
- The profile hash forgets spelling, but the indexed lookup by name compares it: a vessel whose name is only respelled
  is skipped although its lookup would change (`EnrichmentRequests.RespelledNameIsSkipped`).
- A newer snapshot row replaces a vessel's sanctions status but not its matches, so it may be shown clear with the
  matches of an older check (`ClientFields.RowKeepsOldMatches`).
- A map frame that finds no source drops its change until the store changes again; the two early returns of the frame
  callback are never taken.
- An emitted position without a navigation status makes the next known status count as a change, and a stored time that
  is no date silences a vessel until its status changes.
- A cached verdict answers for the whole rounding cell, coordinates just out of range included.

## Model

| member | source | states |
|---|---|---|
| `NoLoss.NoDeliveredMessageIsLost` | src/shared/bus/redis-streams.event-bus.ts:115-295 | In every run of publishes, reads, claims, trims, crashes, counter expiries and faults at any await, with any number of groups and workers, each delivered message is still pending in its group, or its handler returned, or a dead letter that carries its payload, stream, group and id was appended, or it had no usable `data` field, or it had been trimmed before it was claimed |
| `NoLoss.NoMessageIsSkipped` | src/shared/bus/redis-streams.event-bus.ts:115-147 | What lies between a group's first position and its read cursor was delivered to the group or trimmed |
| `NoLoss.RecordsAreOfDeliveries` | src/shared/bus/redis-streams.event-bus.ts:188-295 | Handled, dead-lettered and pending entries are all of deliveries that took place |
| `NoLoss.FreshMessagesHaveNoCounter` | src/shared/bus/failure-handler.ts:54-61 | No group ever holds a retry counter for an id that has not been published yet |
| `NoLoss.StepKeepsBooks` | src/shared/bus/redis-streams.event-bus.ts:188-295 | One awaited call, whatever its outcome, acknowledges at most its own message, only once that message is settled, and writes only records that describe it truly |
| `NoLoss.ClaimKeeps` | src/shared/bus/redis-streams.event-bus.ts:168-186 | An autoclaim tick, with or without its reply, keeps every delivered message accounted for, trimmed entries included |
| `NoLoss.ReadKeeps` | src/shared/bus/redis-streams.event-bus.ts:115-147 | A group read, with or without its reply, keeps every delivered message accounted for |
| `StreamDelivery.FinishIsOneDispatch` | src/shared/bus/redis-streams.event-bus.ts:188-254 | Letting a worker finish undisturbed changes the store as one whole dispatch of its message does, and it goes on to the next entry of its batch exactly when that dispatch returns; when it throws a read loop has ended and a tick is idle |
| `LoopEnds.EscapesExactly` | src/shared/bus/redis-streams.event-bus.ts:188-254 | An exception escapes a dispatch in exactly two cases: the acknowledgement of a message without usable `data` throws; or handler or acknowledgement throw, the failure reaches the limit and is recorded in full, and the acknowledgement after it throws |
| `LoopEnds.LoopEndsExactly` | src/shared/bus/redis-streams.event-bus.ts:115-147 | In every run a read loop has ended exactly when it crashed or an acknowledgement outside every `try` threw in it |
| `LoopEnds.DeadLoopDoesNothing` | src/shared/bus/redis-streams.event-bus.ts:115-147 | A loop that has ended never reads, claims or dispatches again, whatever happens |
| `LoopEnds.DeadGroupReadsNothing` | src/shared/bus/redis-streams.event-bus.ts:115-147 | When every loop that would read for a group has ended, its cursor never moves again |
| `LoopEnds.EndingAck` | src/shared/bus/redis-streams.event-bus.ts:188-254 | The acknowledgement that ends a loop leaves its message pending exactly when the call never reached the server, and every other entry, those of its own batch included, pending as it was |
| `LoopEnds.UnusableMessageEndsLoop` | src/shared/bus/redis-streams.event-bus.ts:190-199 | One message without usable `data` and one failed acknowledgement end the loop, the message pending afterwards or not |
| `StreamDelivery.NextIdsSkipNothing` | src/shared/bus/redis-streams.event-bus.ts:115-147 | A read returns a contiguous run of the live entries of its stream |
| `ClaimTicks.TickEndsExactly` | src/shared/bus/redis-streams.event-bus.ts:149-166 | In every run a tick has ended exactly when it crashed: no exception ends it |
| `ClaimTicks.EscapedTickClaimsAgain` | src/shared/bus/redis-streams.event-bus.ts:154-162 | The exception that ends a read loop leaves a tick idle: its message is pending exactly when the call never reached the server, every other entry is as it was, and the next claim takes up whatever of the claimed ids is still pending and not trimmed |
| `ClaimTicks.ClaimTakesUp` | src/shared/bus/redis-streams.event-bus.ts:168-186 | An idle tick takes up exactly those of the claimed ids that are pending and not trimmed, in the order claimed, and starts on the first with its own fields; they stay pending and the trimmed ones leave the list |
| `ClaimTicks.ReadTakesUp` | src/shared/bus/redis-streams.event-bus.ts:118-145 | An idle loop reads the next ten live entries of its stream or all there are, in order; they become delivered and pending with or without the reply, the cursor passes the last, and with the reply they are its batch |
| `ClaimTicks.BatchesFit` | src/shared/bus/redis-streams.event-bus.ts:118-176 | In every run a read loop has at most ten messages in hand and a tick at most fifty |
| `GroupStarts.GroupGetsLaterMessages` | src/shared/bus/redis-streams.event-bus.ts:105-113 | In every run a group is given no message from before it was created, and of those published on its stream afterwards each that its cursor has passed was delivered or trimmed |
| `GroupStarts.LiveExactly` | src/shared/bus/redis-streams.event-bus.ts:52-64 | In every run a message is live exactly until an approximate trim of its own stream reaches it |
| `Dispatch.BodySpelledOut` | src/shared/bus/redis-streams.event-bus.ts:188-211 | A message is read by the value after its first `data` field: the payload it parses to, or malformed when it does not parse; it is unusable exactly when there is no such value |
| `Dispatch.Consumer.DispatchMessage` | src/shared/bus/redis-streams.event-bus.ts:188-254 | Under any weather the method leaves the store, and throws or returns, exactly as the run of the modelled calls does; the acknowledgement at line 225 counts as part of the handler's `try` |
| `Dispatch.Consumer.DeadletterMalformed` | src/shared/bus/redis-streams.event-bus.ts:256-295 | Appends the invalid-JSON record, then acknowledges; a fault in either leaves the message pending and is swallowed |
| `Dispatch.Consumer.OnHandlerError` | src/shared/bus/failure-handler.ts:51-113 | Counts, stamps and decides: the store and the returned action are those of the modelled calls, cut short at the first fault |
| `Dispatch.Consumer.StampAndDecide` | src/shared/bus/failure-handler.ts:59-69 | The stamps, the expiry and the limit test after the increment |
| `Dispatch.Consumer.DeadLetterExhausted` | src/shared/bus/failure-handler.ts:71-112 | At the limit: read the stamps, append the record, then delete the counter |
| `RetryRuns.LettersBoundedByFaults` | src/shared/bus/redis-streams.event-bus.ts:168-254 | In every run, with faults, crashes, expiries and all traffic between any two calls: the records of one message are at most one, plus the faults met on it, plus its dispatches begun when it was no longer pending, plus those begun while another worker was on it; the one is missing while it is pending with nobody on it |
| `RetryRuns.SecondLetterNeedsStaleEntry` | src/shared/bus/redis-streams.event-bus.ts:182-185 | Without faults and overlapping dispatches a second record needs a dispatch of a message already settled |
| `RetryLimits.LimitPlusStaleDispatches` | src/shared/bus/failure-handler.ts:57-112 | In every run without faults on it, expiry of its counter, or two workers on it while pending: a message whose handler never returns is, once no longer pending, dispatched exactly limit times plus once per entry taken up after it was settled, hence exactly limit times if and only if there was no such entry; it then has at least one record and at most one more per such entry; while pending there is none |
| `RetryLimits.ExactlyLimitDispatches` | src/shared/bus/failure-handler.ts:57-112 | The case without such entries: dispatched exactly limit times, pending until then with as many attempts as dispatches and no record, and afterwards acknowledged with exactly one |
| `LetterCounts.OneLetterPerDispatch` | src/shared/bus/failure-handler.ts:57-112 | With limit one such a message has exactly one record plus one per entry taken up after it was settled, so a second record if and only if there was such an entry |
| `RetryLimits.DispatchesWithinLimit` | src/shared/bus/failure-handler.ts:57-69 | Under the same conditions every message, whatever its handler does, is dispatched at most limit times plus once per entry taken up after it was settled |
| `BoundedRetry.PotentialFalls` | src/shared/bus/failure-handler.ts:57-69 | Without faults, the sum over pending messages of the dispatches they have left (limit minus attempts, but one where an earlier fault has used them up) falls with every dispatch of a pending message, whatever the handler does |
| `RetryLimits.DrainBound` | src/shared/bus/redis-streams.event-bus.ts:188-254 | From any reachable state with nobody at work, whatever faults led there, a run of interleaved calls without faults, expiries and overlapping dispatches begins at most as many dispatches as the pending messages have left, at most limit times their number, at most limit more for each new delivery, and one for each entry taken up after its message was settled |
| `StaleEntries.StaleEntryIsDeadLetteredAgain` | src/shared/bus/redis-streams.event-bus.ts:141-145 | Such a run: with limit one, no fault and no overlap, the loop dispatches from its batch what the tick has dead-lettered and acknowledged, and writes a second record |
| `BoundedRetry.LettersCostFaults` | src/shared/bus/failure-handler.ts:87-96 | A dispatch that writes a record and still leaves its message pending has met a fault after writing it |
| `BoundedRetry.DispatchIsolates` | src/shared/bus/failure-handler.ts:54-61 | A dispatch leaves every other delivery's counter, pending entry and records untouched |
| `CounterKeys.CounterKeyInjective` | src/shared/bus/failure-handler.ts:54 | A counter key determines its stream, group and message id |
| `CounterKeys.EncodedHasNoColon` | src/shared/bus/failure-handler.ts:54 | Percent-encoding (section 2.1 of RFC 3986) leaves no colon |
| `CounterKeys.EncodeInjective` | src/shared/bus/failure-handler.ts:54 | Percent-encoding of UTF-8 is injective |
| `Replay.ReplayRepublishesTheOriginal` | src/admin/deadletter.controller.ts:77-98 | Replaying any handler-failure record of any run publishes exactly the payload that failed, to its stream, under a fresh id for which no group holds a counter, and changes nothing else |
| `Replay.InvalidJsonIsNeverReplayed` | src/admin/deadletter.controller.ts:109-125 | Of the two kinds of record exactly the handler-failure ones are replayable |
| `Replay.LetterIsToldExactly` | src/shared/bus/failure-handler.ts:71-96 | The document written for a record names its message, stream, group, payload, attempts and times, and those of no other record of its kind |
| `EndToEnd.DrainedWhenSettled` | src/shared/bus/redis-streams.event-bus.ts:188-295 | A group with nothing pending, dead-lettered, unusable or trimmed has had every delivery handled |
| `EndToEnd.DrainedWritesAll` | src/shared/bus/redis-streams.event-bus.ts:222-226 | A drained group's handlers wrote exactly the delivered positions, repeats aside |
| `EndToEnd.AtLeastOnceGivesExactlyOnce` | src/storage/vessels.repository.ts:134-237 | However the storage group was driven there, once it is drained its latest and history tables equal those of a database to which each delivered position was applied once, in stream order, when positions are retained and covered as they are applied and one slot carries one payload |
| `EndToEnd.ExactlyOnceAcrossMaintenance` | src/storage/vessels.repository.ts:134-237 | The same while partitions come and go, from any database in working order: a storage run that makes what the drained group wrote, with refusals, stale drops, repeats and maintenance in between, and one that makes each delivered position once, with the same last cutoff, leave the same history and the same latest row of every vessel with history left |
| `MaintainedStorage.SameTablesAcrossMaintenance` | src/storage/history-partition-maintenance.service.ts:59-104 | Any two runs of upserts and maintenance, from one database in working order and with the same last cutoff, that persisted the same positions from it on leave the same history, and the same latest rows where history is left |
| `ExactlyOnce.SameTables` | src/storage/vessels.repository.ts:181-237 | Two deliveries of the same slots, in any order and with any repeats, leave identical latest and history tables |
| `ExactlyOnce.ExactlyOnceEffect` | src/storage/vessels.repository.ts:134-237 | The same through the retention guard and the partition routing, when every call is accepted |
| `ExactlyOnce.ConflictingPayloads` | src/storage/vessels.repository.ts:202-235 | With two payloads for one fresh slot the history keeps the first and the latest row the second, so the tables agree exactly when the payloads do |
| `ExactlyOnce.NamesStay` | src/storage/vessels.repository.ts:163-169 | A vessel's name, once set, survives every later position |
| `VesselNames.NamesAfter` | src/storage/vessels.repository.ts:152-179 | After any deliveries a vessel is known exactly when it was or has a position among them; its name is the one it had, otherwise the first that one of its positions carries, otherwise none |
| `VesselNames.NamesAcrossMaintenance` | src/storage/vessels.repository.ts:152-179 | The same over every run of upserts and maintenance, for the positions that the run persisted |
| `VesselNames.ReturnedName` | src/storage/vessels.repository.ts:134-150 | The name that an accepted upsert returns is the vessel's by that rule, the new position included |
| `VesselStore.Database.UpsertPosition` | src/storage/vessels.repository.ts:134-150 | Guard, then three writes that all happen or, when no partition takes the row, none; what the writes amount to is in the rows on names, latest positions and history above |
| `VesselStore.Database.RunMaintenance` | src/storage/history-partition-maintenance.service.ts:59-104 | The whole database after a run is that of lock, list, plan, create and drop; an overlapping create undoes everything, a held lock changes nothing |
| `StorageRuns.CoverageAfterMaintenance` | src/storage/history-partition-maintenance.service.ts:59-104 | In every run of upserts and maintenance from only daily partitions, under a nondecreasing clock, each maintenance run removes exactly the rows from before today - retention - safety, and leaves partitions that tile the days from there to today + precreate without gap or overlap, one for each, if and only if no daily partition beyond that end was there at first; today is the UTC day of the run's clock |
| `StorageRuns.PositionsLandExactly` | src/storage/vessels.repository.ts:134-150 | While partitions tile, a position is dropped as stale exactly when it is from before today - retention - safety, refused for want of a partition exactly when it is past their end, and otherwise persisted, in exactly one partition; a position dropped or refused changes nothing |
| `MaintenanceOutcomes.MaintenanceEnds` | src/storage/history-partition-maintenance.service.ts:59-104 | Whatever partitions there are: a run does nothing exactly when it is not given the lock; it fails, and changes nothing, exactly when some day of its window has no partition of its own and another partition lies across it; otherwise it reports retention + safety + precreate + 1 creations and as many drops as there are listed daily partitions from before the cutoff |
| `StorageRuns.MaintenanceIsIdempotent` | src/storage/history-partition-maintenance.service.ts:83-90 | A second run at the same time changes nothing and plans no drop |
| `StorageRuns.LatestIsNewestSurvivor` | src/storage/vessels.repository.ts:181-237 | In every run that also drops partitions, from any database in working order, a vessel with surviving history has as its latest row exactly its history row of greatest time |
| `StorageRuns.LaterYearsAreNeverDropped` | src/storage/history-partitions.ts:90-106 | A partition of the year 10000 or later is never planned for dropping |
| `StorageRuns.DroppedExactly` | src/storage/history-partitions.ts:130-143 | Of the days whose partitions are listed, exactly those before the cutoff in the years 1000 to 9999 are planned for dropping |
| `PartitionCoverage.MaintainDaily` | src/storage/history-partition-maintenance.service.ts:83-90 | A run that gets the lock never fails on daily partitions and removes exactly the rows outside the retention |
| `PartitionCoverage.PlannedDrops` | src/storage/history-partitions.ts:138-143 | The drops planned are exactly the daily partitions from before the cutoff |
| `HistoryPartitions.HistoryPartitionWindow` | src/storage/history-partitions.ts:67-79 | The loop lists each day from cutoff to last future day once, retention + safety + precreate + 1 of them |
| `HistoryPartitions.PlanHistoryPartitionMaintenance` | src/storage/history-partitions.ts:130-157 | The drop list is sorted by day and holds exactly the listed names that parse to a day before the cutoff |
| `PartitionNames.ParseInvertsPrint` | src/storage/history-partitions.ts:85-106 | Parsing a printed name gives back the day for exactly the years 1000 to 9999, and nothing otherwise |
| `PartitionNames.PrintInvertsParse` | src/storage/history-partitions.ts:85-106 | An accepted name reprints to itself exactly when its year is at least 1000 |
| `PartitionNames.ParseAcceptsExistingDates` | src/storage/history-partitions.ts:90-106 | Accepted are exactly the names of the pattern whose date exists in a year from 100 on |
| `PartitionNames.RolloversRejected` | src/storage/history-partitions.ts:97-104 | Day or month 00, month 13 and rollovers such as February 30 are rejected |
| `PartitionNames.NamesAreInjective` | src/storage/history-partitions.ts:85-88 | Days of four-digit years share their name with no other day |
| `PartitionNames.UtcDayIsDayOf` | src/storage/history-partitions.ts:40-42 | The day start of an instant is its own day except in the years 0 to 99, which `Date.UTC` moves to 1900 to 1999 |
| `Calendar.MakeDayOfFields` | src/storage/history-partitions.ts:40-42 | Making a day of a day's year, month and date gives that day (section 21.4.1 of ECMA-262) |
| `Calendar.FieldsAgreeExactlyOnExistingDates` | src/storage/history-partitions.ts:97-104 | The three comparisons accept exactly the dates of the Gregorian calendar |
| `Calendar.DatesAdvance` | src/storage/history-partitions.ts:40-42 | Day 0 is 1970-01-01, and every day's date is followed by the next of its month or the first of the next, with the month lengths and leap years of the Gregorian calendar |
| `PartitionNames.EpochName` | src/storage/history-partitions.ts:85-88 | The name of day 0, character by character |
| `SendQueues.SendQueue.Put` | src/realtime/send-queue.ts:30-66 | The new queue and the result for each branch: supersede in place, append, evict the first slot, or refuse |
| `SendQueues.SendQueue.Drain` | src/realtime/send-queue.ts:69-75 | Returns statics and enrichments in order, then the positions in slot order, and empties the queue |
| `QueueRuns.Conservation` | src/realtime/send-queue.ts:20-75 | Over every run from empty: the size stays within the cap, drained plus queued non-positions are the accepted ones in order, accepted positions = drained + superseded + evicted + queued, and each queued position is the last accepted one of its vessel |
| `QueueRuns.EvictsEarliestOpened` | src/realtime/send-queue.ts:38-48 | The victim is the vessel whose slot was opened earliest, superseding notwithstanding |
| `QueueRuns.LosesOnlyWhenFull` | src/realtime/send-queue.ts:30-66 | In every run a position is evicted exactly when the queue is full, its vessel has no slot and another has one; a message is refused exactly when the queue is full and it neither has a slot nor can take one; a slot is superseded exactly when the vessel has one |
| `RealtimeGateway.Connection.EnqueueMessage` | src/realtime/realtime.gateway.ts:85-100 | Queue, counters, sent messages and registration after each branch, the overflow disconnect included |
| `RealtimeGateway.Connection.FlushQueue` | src/realtime/realtime.gateway.ts:102-111 | Nothing while the socket is closed or its buffer full; otherwise everything queued is sent and counted |
| `RealtimeGateway.CountersBalance` | src/realtime/realtime.gateway.ts:85-111 | Over every run of a connection, the time between closing and removal included: each accepted position was sent, counted as superseded or overflow, or is queued; one further overflow counts the refusal, if there was one; the connection is removed exactly by a refusal or by its socket's end; the other messages sent are the accepted ones in order, followed by the refusal error exactly when the socket was still open |
| `Coalescing.CoalescingPreservesMeaning` | src/realtime/send-queue.ts:30-75 | Without eviction, with each vessel's positions in nondecreasing times, a client of the drained stream ends with the same vessels and fields, names aside, as one given every accepted message in order, whatever it showed before |
| `Coalescing.CoalescingKeepsNames` | src/realtime/send-queue.ts:30-75 | Names included: the two clients are equal in every field when no position without a name supersedes a queued one with a name and no static event comes with another name than the one queued for its vessel |
| `Coalescing.NameSafeIsExact` | src/realtime/send-queue.ts:30-75 | For two messages that condition is exact: every client ends alike exactly when it holds |
| `Coalescing.NamesMayDiffer` | src/realtime/send-queue.ts:69-73 | A position and a static event with different names end with different names when drained |
| `Coalescing.SupersededNameIsLost` | src/realtime/send-queue.ts:34-36 | A position without a name that supersedes one with a name loses the name |
| `Coalescing.SupersededLeavesNoTrace` | web/src/store/mergeReducer.ts:118-141 | A position is invisible behind a later one of its vessel |
| `MergeReducer.ApplySnapshotRows` | web/src/store/mergeReducer.ts:58-96 | The loop merges each row with the vessel as it was before the snapshot |
| `MergeReducer.SnapshotMergesLastRow` | web/src/store/mergeReducer.ts:63-65 | Of several rows of a vessel only the last has an effect |
| `MergeReducer.PruneStaleVessels` | web/src/store/mergeReducer.ts:198-214 | Keeps exactly the vessels whose last known activity is recent enough or unknown, unchanged |
| `Convergence.ClientShowsNewest` | web/src/store/mergeReducer.ts:58-141 | After any mix of snapshots with one row per vessel, positions, statics, enrichments and details, the six position fields of a vessel are, field by field, those of the event or row of greatest time, or empty when there was none |
| `Convergence.ClientsConverge` | web/src/store/mergeReducer.ts:37-41 | The same reports in any order, with any repeats, among any other updates, give the same position |
| `Convergence.ResyncIsHarmless` | web/src/store/mergeReducer.ts:58-96 | A snapshot of rows heard of anyway changes no position, wherever it falls |
| `Convergence.SnapshotShowsNewestExactly` | web/src/store/mergeReducer.ts:58-96 | With any rows, several of a vessel included, a snapshot leaves the newest report on show exactly when no row of the vessel is later than both its last row and what was shown |
| `Convergence.RepeatedRowsLoseTheNewer` | web/src/store/mergeReducer.ts:62-65 | An instance: a newer row followed by an older one in one snapshot shows the older, in two snapshots the newer |
| `Convergence.ClientNeverReverts` | web/src/store/mergeReducer.ts:58-196 | Timestamps never decrease and known profile fields never become unknown |
| `ClientFields.ClientShowsLastGiven` | web/src/store/mergeReducer.ts:58-196 | With any snapshots at all: the times of a vessel are the greatest heard; its position, id, profile, name, status and matches are each the last given by an update that was not older than those before it (rows count for the profile whatever their time); and it was last seen at the greatest such time |
| `ClientFields.KnownVesselsExactly` | web/src/store/mergeReducer.ts:58-196 | A client knows exactly the vessels that some update mentions, a detail row without a check time aside |
| `ClientFields.ShownMatchesInOrder` | web/src/store/mergeReducer.ts:176-186 | The matches shown are those of the two known sources, each with its fields, in their order |
| `ClientFields.RowKeepsOldMatches` | web/src/store/mergeReducer.ts:88-91 | A newer row of a snapshot changes the status shown and leaves the matches of an older check |
| `ClientFields.PrunedExactly` | web/src/store/mergeReducer.ts:54-56 | A vessel is stale exactly when the greatest time at which it was seen is too old or, when it never was, the greatest time of its profile is |
| `Names.NormalizeIsNormal` | src/enrichment/vessel/matcher.ts:41-46 | Every result is lower-case alphanumeric words joined by single spaces |
| `Names.NormalizeIsIdempotent` | src/enrichment/vessel/matcher.ts:41-46 | Normalizing twice is normalizing once |
| `NameWords.NormalizeKeepsWords` | src/enrichment/vessel/matcher.ts:41-46 | The result is the folded name's runs of letters and digits, joined by single spaces |
| `NameWords.SameNameExactly` | src/enrichment/vessel/matcher.ts:41-46 | Two names normalize alike exactly when they have the same words, and to nothing exactly when they have none |
| `NameWords.LessIsLexicographic` | src/enrichment/vessel/matcher.ts:60 | The string order is lexicographic: a proper prefix, or a smaller character in the first place that differs |
| `Matcher.ByMatchOrderIsTotalPreorder` | src/enrichment/vessel/matcher.ts:60-65 | The comparator is a total preorder and only one entity's matches tie |
| `Matcher.Match` | src/enrichment/vessel/matcher.ts:67-120 | The three stages with their shared `seen` set give the three blocks and the status |
| `Matcher.NoEntityIsListedTwice` | src/enrichment/vessel/matcher.ts:68-116 | No entity occurs twice in a result, whatever the candidates are |
| `Matcher.MatchIsCanonical` | src/enrichment/vessel/matcher.ts:67-120 | With one row per entity the result is the complete IMO block in order, then the complete MMSI block in order without the entities listed; the name block only when both are empty; and the status says which blocks there are |
| `Matcher.CanonicalIsUnique` | src/enrichment/vessel/matcher.ts:67-120 | Only one result is canonical for a set of rows |
| `Matcher.OrderAndRepeatsDoNotMatter` | src/enrichment/vessel/matcher.ts:67-120 | Permuting or repeating candidates changes nothing |
| `Matcher.TwoRowsForAnEntityShowTheOrder` | src/enrichment/vessel/matcher.ts:77-80 | Why one row per entity: with two the order of the candidates shows |
| `MatchMeaning.MatchSpelledOut` | src/enrichment/vessel/matcher.ts:67-120 | From the rows' own fields, with one row per entity: `sanctioned` exactly when some row carries the IMO number or the MMSI, `candidate` exactly when none does and some row bears the name's words; the matches are exactly those rows, field by field, an entity found by both numbers only for the first; they come by IMO number first, then in lexicographic order of source, source id and entity |
| `SanctionsLookup.MatchSanctions` | src/enrichment/vessel/enrichment.processor.ts:98-115 | The two-stage lookup over the answers of the three queries |
| `SanctionsLookup.IndexAgreesWithScan` | src/enrichment/vessel/enrichment.repository.ts:92-115 | For rows returned in any order: the lookup is `sanctioned` exactly when the scan of the whole table is; it equals the scan, order included, exactly when a row carries one of the vessel's numbers or every row that matches by normalized name is also spelled as asked; its matches are always an ordered part of the scan's |
| `SanctionsLookup.NameLookup` | src/enrichment/vessel/enrichment.processor.ts:109-114 | Without an identifier hit neither result is `sanctioned`, and the lookup lists the rows that bear the name as spelled |
| `EnrichmentRequests.HashDeterminesMatch` | src/enrichment/vessel/vessel-enrichment.requester.ts:32-35 | With an injective digest, profiles of one vessel with equal hashes match alike against any candidates |
| `EnrichmentRequests.SkippingIsSound` | src/enrichment/vessel/vessel-enrichment.requester.ts:88-97 | A request is skipped exactly when the last check has not expired and saw the same number and normalized name; matching then gives the same result |
| `EnrichmentRequests.TriggersExactly` | src/enrichment/vessel/vessel-enrichment.requester.ts:88-97 | Discovered when there was no enrichment, changed when the IMO number or the words of the name differ from the last one's, stale when they do not and its check has expired, skipped otherwise |
| `EnrichmentRequests.HashDeterminesLookup` | src/enrichment/vessel/enrichment.repository.ts:104-115 | The lookup, unlike the matcher, compares spellings: equal hashes give equal lookups exactly when a row carries one of the vessel's numbers, or no name is left, or both names are spelled by the same rows |
| `EnrichmentRequests.RespelledNameIsSkipped` | src/enrichment/vessel/vessel-enrichment.requester.ts:88-97 | A profile whose name only changed its spelling is skipped although its lookup differs |
| `ProcessedJobs.Processor.Process` | src/enrichment/vessel/enrichment.processor.ts:35-96 | A job skips, or its state is that of the first `completes` of apply, publish, cache profile and cache time, of which a result that is not newer than the row has only the first; and when one table with one row per entity answers its queries, that state is the one `JobWritesVerdict` tells |
| `ProcessedJobs.ResultIsVerdict` | src/enrichment/vessel/enrichment.processor.ts:43-68 | The result for a fingerprint, from its own fields: `sanctioned` exactly when some row of the table carries its IMO number or its MMSI, with the matches of the whole table; `candidate` exactly when none does and some row is spelled as its name; its vessel, MMSI, time and profile are the job's |
| `ProcessedJobs.JobWritesVerdict` | src/enrichment/vessel/enrichment.processor.ts:49-83 | However far a job gets: nothing changes when the row is as new as the result; otherwise the row and the published event carry that verdict, MMSI, vessel id and time, and the two cache entries the profile and the time |
| `SanctionsConvergence.AppliedTimesIncrease` | src/enrichment/vessel/enrichment.repository.ts:178-182 | In every run, accepted times of a vessel strictly increase, its row is the newest, and no two accepted results share vessel and time |
| `SanctionsConvergence.SkippedMeansPublished` | src/enrichment/vessel/enrichment.processor.ts:69-83 | In every run a request is skipped only after a result for a profile that matches alike was accepted and published |
| `SanctionsConvergence.ClientFollowsDatabase` | web/src/store/mergeReducer.ts:88-196 | In every run the client shows a status and time that the row once held, never a newer one; it shows the row's own exactly when it has been told of it by an event, snapshot or detail, in any order and with any repeats |
| `FlushScheduler.EveryRunIsSafe` | web/src/map/useVesselsLayer.ts:17-110 | In every run exactly one of timer and frame is outstanding when a flush is pending and none otherwise; panning excludes pending and a dirty mark implies panning; the map is behind the store exactly when a flush is pending, the mark is set, or the last frame found no source and nothing changed since; unforced flushes come at least 500 ms after the one before |
| `FlushScheduler.NoFrameMidPan` | web/src/map/useVesselsLayer.ts:42-47 | No frame ever runs during a pan or after disposal, so those two branches are never taken |
| `FlushScheduler.OwedChangeIsShown` | web/src/map/useVesselsLayer.ts:69-93 | From every reachable state an owed change is on the map at once when the pan ends, and otherwise at once or as soon as the last flush is 500 ms old, when the timer runs when due and the source is there |
| `FlushScheduler.MissedStaysMissed` | web/src/map/useVesselsLayer.ts:48-65 | A change dropped for want of a source is not shown until the store changes again |
| `FlushScheduler.MissHappens` | web/src/map/useVesselsLayer.ts:48-65 | Such a drop is reachable |
| `Sampler.RateBound` | src/pipeline/sampler.service.ts:49-73 | However vessels interleave and whatever was stored, a vessel whose events come in time order is emitted at most 1 + bypasses + floor((last - first emitted) / smaller window) times |
| `Sampler.WindowsFitSpeed` | src/pipeline/sampler.service.ts:65-71 | In every run, an emission that is no bypass and not the first comes at least its window after the one before it: the stationary window below the threshold, a missing speed counting as zero, the moving window otherwise |
| `Sampler.NeverStale` | src/pipeline/sampler.service.ts:49-73 | In every run, unless the store held a time that is no date, the last emission of a vessel is less than the larger window older than its last event: nothing due is suppressed |
| `Sampler.EmittedExactly` | src/pipeline/sampler.service.ts:49-73 | After any run, exactly what the next event of a vessel adds to the emissions: it is suppressed exactly when the vessel was heard of, its status is unknown or the one last emitted, and it comes less than its own window (stationary below the threshold, a missing speed counting as zero, else moving) after the last emission, or that time is no date; otherwise it is emitted as first, as a change of status or by the window |
| `Sampler.StoredState` | src/pipeline/sampler.service.ts:11-24 | A vessel has a state exactly when an object with a string as its time is stored; a status other than a number reads as none; what is written is read back |
| `Sampler.UnparsableTimeSilences` | src/pipeline/sampler.service.ts:11-24 | With a stored time that is no date a vessel is emitted in a run exactly when some event has a known status other than the stored one |
| `Sampler.BypassesAreChanges` | src/pipeline/sampler.service.ts:55-63 | After any run, the next event is the first of its vessel exactly when nothing is stored or emitted, and bypasses the window exactly when its status is known and is not the one the previous emission (or the store) carried |
| `Sampler.VesselsDoNotInterfere` | src/pipeline/sampler.service.ts:50 | What is emitted of a vessel depends on its own events and state alone |
| `Sampler.MissingStatusForgets` | src/pipeline/sampler.service.ts:68-70 | An emitted event without a status clears the stored one, so an unchanged status bypasses the window |
| `GeoCache.KeyInjective` | src/geo/geo-cache.service.ts:17-22 | A key determines version, precision and bucket, even when the version holds colons |
| `GeoValidation.GeoValidationService.ValidatePosition` | src/geo/geo-validation.service.ts:46-83 | An uninterrupted call is a run of the modelled awaits from start to answer, under any faults |
| `GeoValidation.VersionsStayApart` | src/geo/geo-validation.service.ts:46-83 | Under every interleaving of validations, activations, expiries and faults: each entry is its version's verdict for a point of its bucket, each answer that names a version is that version's verdict in the bucket asked (for the point itself unless it came from the cache), answers drop exactly for deep land or a fail-closed error, and only the last version recorded is exported |
| `GeoValidation.AnswersSpelledOut` | src/geo/geo-validation.service.ts:46-83 | In every run an answer names a version exactly when it reports the ground, and then the ground that version gives a point of the bucket inside the range (the point itself unless it came from the cache); the database refuses coordinates exactly when they are out of range; each reason has its one verdict; and it drops exactly on deep land or a fail-closed error |
| `GeoValidation.DisabledCacheIsUnused` | src/geo/geo-cache.service.ts:24-59 | A cache that is switched off is neither written nor read in any run, whatever it still holds |
| `GeoValidation.CacheIsTransparent` | src/geo/geo-cache.service.ts:24-59 | Where a bucket's points stand on the same ground, every answer naming a version is its verdict for the point asked |
| `GeoValidation.SecondCallGetsTheFirstVerdict` | src/geo/geo-cache.service.ts:24-38 | A second call in a bucket gets the first one's verdict, out of range or not, which is its own exactly when the bucket agrees on the two points |

## Left out

- Redis, Postgres, PostGIS and BullMQ beyond the atomic meaning of each command; stream ids are ordinal positions, and approximate trimming is a step that may drop any prefix of a stream at any time.
- Which idle entries an autoclaim tick gets: any subset, so the cursor and the idle threshold are not modelled. `BLOCK` and the timers are scheduling and are free as well.
- Error messages inside dead letters, metrics other than the drop and sent counters, logging, and wall-clock columns such as `last_seen_at`.
- JSON text: printing and parsing are given functions that round-trip. Unicode decomposition, SHA-1 and `toFixed` are given functions too; idempotence of normalization assumes that folding leaves normal names alone.
- `encodeURIComponent` and string comparison work on characters, not UTF-16 units, so lone surrogates (which make the original throw) and the order of supplementary characters are not modelled.
- The range limit of ECMA-262 dates (8.64e15 ms); floating-point rounding of coordinates and speeds.
- A vessel's database id stands for its MMSI in the tables and caches, as the unique index on `vessels.mmsi` gives one for the other; deletion and re-creation of vessels.
- `upsertProfile`, which has no time guard. The client's profile values, `name`, vessel id and `sanctionsMatches` depend on the order of updates, so nothing converges there; `ClientFields.ClientShowsLastGiven` says which update each comes from.
- `pruneStaleVessels` is proved on its own but is not a step of the convergence runs: a pruned vessel may come back with an older report.
- Insertion-ordered maps are sequences with one slot per key; the random visiting order of `pruneStaleVessels` stands for the map's order, on which its result does not depend.
- Subscriptions, heartbeats and sockets beyond open or closed and room or no room in the buffer.
- Concurrent `shouldEmit` calls for one vessel, which are not atomic in Redis, and expiry of the sampler state: the rate bound assumes neither.
- Cache lifetimes: an entry may expire at any step. A cache write that fails after taking effect equals one that succeeds.
- The BullMQ job id built by `request`, and the batch job that selects stale vessels.
- The delay until the next daily maintenance, SQL text and identifier quoting.
- ExactlyOnce.ExactlyOnceEffect: assumes that every call is accepted; refusals, stale drops and maintenance in between are in `MaintainedStorage.SameTablesAcrossMaintenance`.
- EndToEnd.AtLeastOnceGivesExactlyOnce: assumes fixed partitions; `EndToEnd.ExactlyOnceAcrossMaintenance` does not.
- StorageRuns.LatestIsNewestSurvivor: one vessel and time carry one payload, and the database starts in working order: only daily partitions, and latest rows that agree with the history from some time not after the cutoff on.
- MaintainedStorage.SameTablesAcrossMaintenance: says nothing of the latest row of a vessel whose history is gone, which depends on the stale positions that each run still saw in time.
- RetryLimits.LimitPlusStaleDispatches: a crash while a worker is on the message counts as a fault, and a message trimmed from its stream and discarded by a claim is excluded.
- The heartbeat of a connection: a failed one is the event that removes it.
