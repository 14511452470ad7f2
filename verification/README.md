# Idento check-in engine: a verified model

A model in Dafny of the Go backend of Idento, an event check-in system: many staff devices check the
same attendees in and out, a live monitor shows where they went, and offline devices catch up later.
Run `dafny verify dfyconfig.toml` to check everything.

| file | what it models |
|---|---|
| `Options.dfy`, `Answers.dfy`, `Text.dfy` | nullable values; how a statement ends for its caller; white space as `strings.TrimSpace` sees it |
| `Checkin.dfy` | the tables, every transaction that writes them, runs, and the references they keep |
| `CheckinHistory.dfy` | what the feed says about one attendee over every run |
| `CheckinRace.dfy` | the writer transactions statement by statement under READ COMMITTED, and why any interleaving is serial |
| `CheckinStore.dfy` | the store's and the batch handler's methods, imperative, with other transactions in between |
| `Monitor.dfy`, `Attribution.dfy`, `StartOrder.dfy` | the monitor query, its conservation law, and whether it finds the station that won |
| `Batch.dfy`, `BatchFlight.dfy` | the offline queue: replay under any failures, and several requests in flight |
| `MemBroker.dfy`, `Fanout.dfy`, `MonitorStream.dfy` | in-process broker, LISTEN/NOTIFY fan-out over replicas, and the stream handler |
| `Heartbeat.dfy` | the lock-free publish throttle |
| `LikeSearch.dfy`, `AttendeePage.dfy` | search escaping against LIKE, filter clause, paging |
| `BulkImport.dfy`, `SyncPush.dfy` | CSV import; sync push and the attendee quota |
| `TenantGate.dfy`, `Retention.dfy`, `Equipment.dfy` | tenant gate cache, retention purge, equipment registry |
| `Migrations.dfy`, `Scanner.dfy` | migration version clash; serial scanner framing |

How it is put together.  Tables are maps and sequences.  A transaction run alone is a function on
them (`Checkin.Apply`), a run is a sequence of transactions, and the run lemmas speak about every
sequence.  `CheckinRace` splits the same transactions into statements, with a row lock held after a
winning UPDATE, and `CheckinRace.Refines` carries the run lemmas over to every interleaving.  Code
that updates state is a class or a method with a loop, and its contract ties it to those functions;
what the functions do is in turn stated column by column, in the contracts or in lemmas.
Clocks, random draws, failures of single statements and the actions of other sessions are arguments.

## What does not hold

- The monitor can lose the station that won a check-in.  now() is the time a transaction started, so a check-in that begins before an undo and commits after it sorts as older; and a batch item may carry a time ahead of the server clock. An old batch item can likewise leave a zone showing that nobody is due. `Attribution.RunAttribution` holds when the station transactions on the attendee start in time, `Attribution.RunAttributedExactly` gives the exact condition for any stamps, and `StartOrder.ReachableMisattribution` runs three real transactions into a failure.
- The legacy transition clears the time and the staff member of a check-in but not its device number and point name (`CheckinHistory.TransitionLeavesScanBehind`), so the alternation and clean-column results are for the three feed-writing transactions.
- A batch item whose log INSERT fails after its check-in has committed is reported as an error and is not published, and no retry makes up for it. `CheckinStore.PGStore.BatchCheckin` and `Batch.VerdictExact` give the exact condition, `Batch.ReplayNeverPublishes` the consequence.
- The log does not stop two copies of one batch request in flight: if both look an item up before either logs it, and an undo commits in between, the item is written twice (`BatchFlight.LoggedItemWritesAgain`). `BatchFlight.SecondWrite` says what a second write needs, `BatchFlight.LoggedWritesExactly` exactly when one happens.
- The scanner appends `string(b)` for a byte, which re-encodes every byte from 0x80 on as two bytes (`Scanner.BytesKeptExactly`).  The concatenation result is about characters, one per byte.
- The neighbour scan over migration names can miss a clash of a name without an underscore, and reports a first name that starts with one (`Migrations.BareNameHidesClash`, `Migrations.EmptyVersionFalseAlarm`); `Migrations.ScanExactly` says exactly when.
- The store's paging guard looks at one side only; with the handler's page >= 1 it is exact (`AttendeePage.GuardOneSided`, `AttendeePage.GuardExact`); far below zero the offset wraps round (`AttendeePage.NegativeOverflow`).
- The gate's two reads are not one snapshot (`TenantGate.ReadingExact`, `TenantGate.FirstReadExact`, `TenantGate.LetThroughThoughAlwaysBlocked`).  The age bound is about the reading's own statements.
- The purge decides who survives before its DELETE; a membership gained in between does not save the user (`Retention.JoinDuringPurgeIsLost`); `Retention.RaceExact` says who is treated by the rule.
- A comment in `sync.go` says a pushed creation may arrive checked in; the INSERT it uses does not write the check-in columns, and the model follows the INSERT.
- A test stamp is tied to the configuration the row has when it is stamped, not to the one the printer had when the test began, so a configuration patched in meanwhile counts as tested (`Equipment.SwappedDuringTest`, and exactly when in `Equipment.StampVouchesExactly`).
- An error after a COMMIT whose answer was lost hides what went in: a purged tenant is missing from the returned list (`Retention.LostAnswerUnlisted`), a default printer has moved (`Equipment.LostAnswerMovesDefault`), a changed event is not published by a sync push (`SyncPush.SilentUpdateShows`), an imported row is counted as skipped and its keys are not tracked (`BulkImport.LostInsertDuplicates`). The methods' contracts say exactly when.
- When the listing of existing attendees fails, an import goes on without it, and only the exact, case-sensitive uniqueness of codes in the database is left; a stored email is then imported again (`BulkImport.FailedListingDuplicates`, and exactly when in `BulkImport.ClashWithStored`).
- A monitor page whose re-fetch fails keeps the old snapshot, and nothing brings it up to date until the next change of its event (`Fanout.FailedRefetchStaysStale`). That is the only way to be stale with nothing outstanding (`Fanout.NeverSilentlyStale`), and the next published change is owed to the page again (`Fanout.FailureAndRecovery`).

## Model

| member | source | states |
|---|---|---|
| `Checkin.ApplyReferential` | backend/internal/handler/checkin_stations.go:72-90 | Every transaction of the engine keeps a station's zone, and a feed row's attendee and station, inside one event, and keeps (event, name) unique. |
| `Checkin.RunReferential` | backend/internal/handler/zones.go:143-155 | The same over every run, zone deletion (which clears the stations bound to the zone) included. |
| `Checkin.UpsertTarget` | backend/internal/store/pg_store.go:755-767 | The upsert hits the station already registered under (event, name) if there is one. |
| `Checkin.ApplyExtends` | backend/internal/store/pg_store.go:883-953 | No transaction removes an attendee or a station, moves one to another event, or rewrites the feed: it only appends. |
| `Checkin.RunAppend` | backend/internal/store/pg_store.go:1088-1199 | A run cut in two is the two runs one after the other. |
| `Checkin.CommitEnacts` | backend/internal/store/pg_store.go:1018-1023 | Column by column, the row each of the three guarded UPDATEs is for, every column it leaves behind, and every column of the feed row inserted with it; nothing else changes. |
| `CheckinHistory.UnknownBalanced` | backend/internal/store/pg_store.go:1241-1256 | An attendee without rows starts balanced. |
| `CheckinHistory.StepBalanced` | backend/internal/store/pg_store.go:1036-1080 | One step keeps the attendee's feed rows and check-in columns telling the same story. |
| `CheckinHistory.RunBalanced` | backend/internal/store/pg_store.go:1088-1199 | Over every run of check-ins, undos, batch items and any other writes that leave the check-in columns alone, the rows alternate starting with checkin, the last one is a checkin exactly while checked in and carries the row's own time and staff member, and all four check-in columns are clear otherwise. |
| `CheckinHistory.RunBalance` | backend/internal/store/pg_store_batch.go:114-149 | #checkin - #undo is 1 for a checked-in attendee and 0 otherwise. |
| `CheckinHistory.FirstScanKept` | backend/internal/store/pg_store.go:1020-1023 | First-scan metadata never changes while the attendee stays checked in. |
| `CheckinHistory.ExactlyOnce` | backend/internal/store/pg_store.go:1082-1087 | Between any two winning check-ins of one attendee, from stations or batches, an undo of that attendee committed. |
| `CheckinHistory.TransitionLeavesScanBehind` | backend/internal/store/pg_store.go:968-990 | The legacy un-check leaves all four columns clear if and only if the row carried no device number and no point name. |
| `Monitor.Latest` | backend/internal/store/pg_store_monitor.go:86-91 | The row picked for an attendee is a state row that comes first under created_at DESC, id DESC. |
| `Monitor.ZoneOfExactly` | backend/internal/store/pg_store_monitor.go:86-101 | For all tables: an attendee's zone is z if and only if some check-in row of theirs in this event, at a station now in z and not older than checked_in_at, has no check-in or undo row before it under created_at DESC, id DESC. |
| `Monitor.OverwriteUnattributes` | backend/internal/store/pg_store_monitor.go:92-101 | An overwrite that moves checked_in_at past all of an attendee's check-ins and undos leaves them unattributed. |
| `Monitor.Conservation` | backend/internal/store/pg_store_monitor.go:80-119 | For any tables: the zone counts, the unattributed and the attendees whose zone lies outside the event add up to checked_in. |
| `Monitor.NoForeign` | backend/migrations/000020_checkin_loop_composite_fk.up.sql:1-40 | With references kept inside events nobody is attributed outside the event. |
| `Monitor.RunConserves` | backend/internal/store/pg_store_monitor.go:80-119 | In every state reachable through any transactions, blind overwrites, re-registrations and zone deletions, the zone counts plus unattributed equal checked_in. |
| `Monitor.ReadRows` | backend/internal/store/pg_store_monitor.go:152-172 | On rows in any order the loop keeps every zone row in order, and an unattributed and a totals row when there is one. |
| `Monitor.GetMonitorOverview` | backend/internal/store/pg_store_monitor.go:145-178 | From any row order the query allows, the loop returns every zone of the event once, under its name, unordered zones last, and the totals, all by columns: live, live and checked in, placed in the zone by a feed row, and placed in none; and they add up. |
| `Attribution.StepTracks` | backend/internal/store/pg_store_monitor.go:86-101 | A step that starts in time keeps the newest state row in line with who won the current check-in. |
| `Attribution.RunAttribution` | backend/internal/store/pg_store_monitor.go:86-101 | Over every run in which the station transactions on an attendee start after that attendee's earlier stamps, the zone shown is the current zone of the station that won the current check-in, and none exactly when there was no station or it has no zone. |
| `Attribution.WellTimedIsTimely` | backend/internal/store/pg_store.go:1020-1023 | Which is the case when the stamps of the transactions on that attendee grow in commit order and batch times are not ahead of them. |
| `Attribution.RunAttributedExactly` | backend/internal/store/pg_store_monitor.go:86-101 | Over every run with any stamps: the monitor is right about a checked-in attendee if and only if the winning check-in's row is the newest, or the newest is an undo and no zone is due, or it is a check-in at a station now in the same zone. |
| `Attribution.CheckInAttributedExactly` | backend/internal/store/pg_store_monitor.go:92-101 | The same for one winning check-in of any kind, station, station-less or batch, after any history. |
| `Attribution.StartOrderMisattributes` | backend/internal/store/pg_store.go:1020-1023 | Three transactions whose start order is not their commit order: checked in by station 2, attributed to nobody. |
| `Attribution.FutureBatchMisattributes` | backend/internal/store/pg_store_batch.go:114-136 | A batch item ahead of the server clock hides the station check-in that follows it. |
| `Attribution.OldBatchMisattributes` | backend/internal/store/pg_store_batch.go:114-136 | An old batch item after an undo that started before the check-in it undoes leaves the old station's zone showing. |
| `StartOrder.CommitOrderDisciplined` | backend/internal/store/pg_store.go:1088-1199 | The commit order of an interleaving is a run the history and attribution results apply to. |
| `StartOrder.InterleavedAttribution` | backend/internal/store/pg_store_monitor.go:86-101 | Attribution under any interleaving of statements. |
| `StartOrder.ReachableMisattribution` | backend/internal/store/pg_store.go:1088-1144 | That misattribution is the end of a valid statement-level interleaving of three transactions, each stamped by one increasing server clock. |
| `StartOrder.Finishes` | backend/internal/store/pg_store.go:1088-1144 | A started writer transaction that nobody blocks runs through to its commit, with exactly its atomic effect. |
| `CheckinRace.InvRun` | backend/internal/store/pg_store.go:1036-1080 | Under any interleaving a row lock is exclusive, and the row a winning UPDATE matched still matches when its transaction commits. |
| `CheckinRace.Refines` | backend/internal/store/pg_store.go:1088-1199 | Any interleaving of statements commits exactly what the winning transactions would have committed one after another in commit order. |
| `CheckinRace.InterleavedBalanced` | backend/internal/store/pg_store.go:1088-1199 | So rows alternate and balance under any interleaving. |
| `CheckinRace.InterleavedConserves` | backend/internal/store/pg_store_monitor.go:80-119 | So every snapshot the monitor can read adds up under any interleaving. |
| `CheckinRace.RunStory` | backend/internal/store/pg_store.go:1036-1080 | At every point of a transaction its recorded past is true. |
| `CheckinRace.OutcomesHold` | backend/internal/store/pg_store.go:1088-1144 | Exactly one feed row, and the row by columns, if this call wrote: then its UPDATE had found a row in the event, not deleted, not blocked and not checked in (checked in for an undo), and the row was still so at the commit. A written call answers "checked_in", or an error when the COMMIT's answer is lost; every other outcome wrote nothing and is true of a state read inside the call: already checked in means status set, blocked means blocked and not checked in, not found means no live row in the event, and the conflict error means two reads that both found a free row. |
| `CheckinStore.PGStore.CheckInAttendee` | backend/internal/store/pg_store.go:1088-1144 | With other transactions committing before and between the statements: it writes only if the row its UPDATE saw was in the event, not deleted, not blocked and not checked in, and then the row has status, time, staff and point name of this call and no device, and the feed ends in this call's row; an UPDATE misses exactly when the row is not free; each other outcome is true of the columns read last, a conflict of two reads. |
| `CheckinStore.PGStore.UndoCheckin` | backend/internal/store/pg_store.go:1150-1199 | The same for undo: it writes exactly on a checked-in row, leaves all four check-in columns clear and appends an undo row with its own station and staff member; otherwise it reports the live row it read, or that there is none. |
| `CheckinStore.PGStore.ApplyBatchCheckin` | backend/internal/store/pg_store_batch.go:59-201 | One item alone, under any failures: its result, the row and feed row it writes, its zone entry and its log entry, from the item, its faults and the columns found. |
| `CheckinStore.PGStore.CheckOne` | backend/internal/handler/checkins_batch.go:50-95 | One item of the batch handler: when it is answered created, already exists or error, what it writes, and when it enters the log, from the item, its faults and the columns found. |
| `CheckinStore.PublishExactly` | backend/internal/handler/checkins_batch.go:50-102 | Which items make a batch published, and which change the tables without it, from the items and the stores they find. |
| `CheckinStore.PGStore.BatchCheckin` | backend/internal/handler/checkins_batch.go:50-112 | Every item is answered and applied in turn as `Batch.VerdictAnswers` says; the batch is published if and only if some check-in is answered created, and it changes what the monitor shows without a publish if and only if some check-in commits but none with every answer arriving. |
| `CheckinStore.PGStore.FindStation` | backend/internal/store/pg_store.go:755-767 | The row the upsert conflicts with: the one under the same event and name, or none. |
| `CheckinStore.PGStore.RegisterCheckinStation` | backend/internal/handler/checkin_stations.go:45-109 | A blank name, a foreign zone or a failed lookup changes nothing; otherwise one row keyed on the trimmed name is inserted or gets the new zone, and references stay inside the event. |
| `Text.TrimmedIsBlank` | backend/internal/handler/checkin_stations.go:66-69 | The trimmed name is empty if and only if the name is blank. |
| `Text.TrimShape` | agent/internal/scanner/scanner.go:112-120 | TrimSpace removes white space at the two ends and nothing else. |
| `Batch.LoggedIsInert` | backend/internal/store/pg_store_batch.go:59-69 | A logged item never writes again and is reported as a duplicate. |
| `Batch.RemainsInPlace` | backend/internal/store/pg_store_batch.go:103-149 | What an item put in place stays until it is taken back. |
| `Batch.ReplayIsInert` | backend/internal/store/pg_store_batch.go:59-201 | If two acts of a run both write for one item, the first was not logged and what it had put in place was taken back in between. |
| `Batch.ItemsWriteOnce` | backend/internal/handler/checkins_batch.go:55-102 | Replaying batches alone, in any order and with any failures, each item writes at most once. |
| `Batch.EntriesStayUnique` | backend/internal/store/pg_store_batch.go:150-186 | Each attendee, zone and UTC day has at most one zone entry over every run. |
| `Batch.ApplyExactly` | backend/internal/store/pg_store_batch.go:59-201 | A logged item is a duplicate; a check-in is created exactly on a live row of the event that is not checked in, and reported as already checked in on one that is; a zone entry is created, or there already; the client id enters the log exactly in these cases if the log INSERT goes through. |
| `Batch.VerdictAnswers` | backend/internal/handler/checkins_batch.go:50-102 | "already_exists" exactly for an admitted item that is logged, or whose attendee is checked in and no statement fails; "created" for the other admitted ones whose statements all go through, a zone entry that is there already included; "error" exactly otherwise. |
| `Batch.SameDayExactly` | backend/internal/store/pg_store_batch.go:150-162 | Two times have one day exactly when no UTC midnight lies between them. |
| `Batch.LaterDayEnters` | backend/internal/store/pg_store_batch.go:150-186 | An item on a later day than all entries of its attendee and zone is created and adds its own entry. |
| `Batch.WithoutZone` | backend/internal/handler/zones.go:143-155 | Deleting a zone removes exactly its own entries. |
| `Batch.VerdictHonest` | backend/internal/handler/checkins_batch.go:50-102 | "created" is in place and logged, with one feed row for a check-in; "already exists" changed no table of the engine. |
| `Batch.VerdictExact` | backend/internal/handler/checkins_batch.go:50-102 | An item commits behind an error verdict if and only if it is an unlogged check-in of a live, not checked-in attendee of the event whose reads and transaction succeed and whose acknowledgement, or that of its log INSERT, does not arrive. |
| `Batch.ReplayNeverPublishes` | backend/internal/handler/checkins_batch.go:85-102 | After an item has written, and until it is taken back, no replay of it counts as created or changes the tables, so the lost publish is not made up for. |
| `BatchFlight.AloneIsApplyItem` | backend/internal/store/pg_store_batch.go:59-201 | Lookup, writes and log INSERT run one after the other are ApplyBatchCheckin, whatever fails. |
| `BatchFlight.SecondWrite` | backend/internal/store/pg_store_batch.go:59-201 | With any requests in flight: between two writes for one item it was taken back, and if it had been logged, the second request had looked it up before that. |
| `BatchFlight.CheckinHitsExactly` | backend/internal/store/pg_store_batch.go:103-149 | A write step flips a check-in if and only if its request has looked the item up and not written, and the attendee is live, in the event and not checked in. |
| `BatchFlight.ZoneEntryHitsExactly` | backend/internal/store/pg_store_batch.go:150-186 | The same for a zone entry: zone and attendee exist and the day has no entry yet. |
| `BatchFlight.LoggedWritesExactly` | backend/internal/store/pg_store_batch.go:59-69 | A logged item is written again if and only if a request that looked it up before it was logged has not written yet and the guard of its write holds. |
| `BatchFlight.LoggedItemWritesAgain` | backend/internal/store/pg_store_batch.go:60-69 | A schedule in which that happens. |
| `MemBroker.Broker.Publish` | backend/internal/broker/mem_broker.go:37-49 | Fills the slot of each subscriber of the event and touches nothing else. |
| `MemBroker.Broker.BroadcastAll` | backend/internal/broker/mem_broker.go:61-74 | Fills the slot of every subscriber of every event. |
| `MemBroker.Broker.Subscribe` | backend/internal/broker/mem_broker.go:78-86 | Adds one channel with an empty slot. |
| `MemBroker.Broker.Unsubscribe` | backend/internal/broker/mem_broker.go:88-98 | Only the first call removes the channel, and the event with its last one. |
| `MemBroker.PublishCoalesces` | backend/internal/broker/mem_broker.go:37-49 | Publishes with no read in between leave what one publish leaves. |
| `MemBroker.UnsubscribeLeavesOthers` | backend/internal/broker/mem_broker.go:88-98 | Leaving takes nobody else's subscription or pending signal along. |
| `MemBroker.SubscribeLeavesOthers` | backend/internal/broker/mem_broker.go:78-86 | Joining disturbs nobody. |
| `Fanout.InvStep` | backend/internal/broker/pg_broker.go:224-260 | Every step of the replicated system, failed re-fetches included, keeps each change published since a page's last attempt owed to that page. |
| `Fanout.NeverSilentlyStale` | backend/internal/broker/pg_broker.go:224-260 | In every reachable state, replicas started later included, a change published after a page's last attempt to re-fetch, failed or not, is still owed: a signal, frame or timer outstanding, its notification queued, or its replica's broadcast to come. A page with nothing outstanding has attempted a re-fetch since the newest published change, and shows less than that change if and only if this attempt failed and its snapshot is older; a connected replica with an empty queue holds no page that is owed anything beyond its own frame, timer or slot. |
| `Fanout.FailureAndRecovery` | panel/src/features/monitor/useMonitorStream.ts:108-117 | A failed attempt leaves a page stale with nothing outstanding if and only if its snapshot is older than the newest published change and nothing else was outstanding; the next change published for its event makes it owed again. |
| `Fanout.FailedRefetchStaysStale` | panel/src/features/monitor/useMonitorStream.ts:108-117 | A run in which a failed re-fetch leaves a page stale with nothing outstanding. |
| `Fanout.InvRebroadcast` | backend/internal/broker/pg_broker.go:322-324 | The broadcast after a reconnect discharges what the lost connection owed. |
| `Fanout.InvPage` | panel/src/features/monitor/useMonitorStream.ts:108-163 | A page may drop its outstanding work only by attempting a re-fetch, and only a successful attempt may claim to be up to date. |
| `Fanout.Reconnect` | backend/internal/broker/pg_broker.go:267-291 | Waits 1 second, then twice the last wait up to 30 seconds, and stops at the first attempt that connects and listens. |
| `Fanout.HandleNotification` | backend/internal/broker/pg_broker.go:332-345 | Forwards a valid payload and skips a malformed one. |
| `Fanout.ListenLoop` | backend/internal/broker/pg_broker.go:224-260 | A subscriber's slot is full afterwards if and only if it was full before, or the loop got to a notification of its event or to a reconnect that succeeded; the subscriptions stay. |
| `Fanout.HeardExactly` | backend/internal/broker/pg_broker.go:224-260 | The same of the specification the loop is proved against. |
| `Fanout.LoopIsReplica` | backend/internal/broker/pg_broker.go:224-260 | Whatever the loop hears, its broker is the memory that enabled notify, deliver, break, detect, re-listen and broadcast steps of the replicated system lead to, so the staleness result is about this loop. |
| `MonitorStream.GetEventMonitorStream` | backend/internal/handler/monitor_stream.go:74-103 | Hello after the subscription, then one frame per wake until the client is gone; afterwards the fan-out map is exactly as before. |
| `MonitorStream.Serve` | backend/internal/handler/monitor_stream.go:77-103 | The select loop writes the frames of the specification and stops with the first failed write or the cancellation. |
| `MonitorStream.SignalNotLost` | backend/internal/handler/monitor_stream.go:67-75 | While the stream is open every signal after the subscription is followed by an update frame or still in the slot. |
| `MonitorStream.StreamExactly` | backend/internal/handler/monitor_stream.go:77-103 | From the history alone: the stream is open until the client is gone or a write fails, the slot is full exactly while a signal is unread, and each ping and each read of a full slot writes its one frame. |
| `MonitorStream.UpdatesAreSignalled` | backend/internal/handler/monitor_stream.go:90-95 | There are never more update frames than signals. |
| `Heartbeat.Throttle.LoadOrStore` | backend/internal/handler/checkin_stations.go:180-183 | Grants the first heartbeat ever, and otherwise returns the stored time. |
| `Heartbeat.Throttle.CompareAndSwap` | backend/internal/handler/checkin_stations.go:188-190 | Grants only over the time that was read. |
| `Heartbeat.Throttle.Round` | backend/internal/handler/checkin_stations.go:179-193 | One round, with other heartbeats between the load and the swap and after a lost swap, is lost only after the stored time has risen by a throttle. |
| `Heartbeat.Throttle.ShouldPublish` | backend/internal/handler/checkin_stations.go:177-195 | With any heartbeats in between, a true result is a new grant, a false one leaves less than a throttle since the last grant, and the number of lost swaps times the throttle is at most now - last. |
| `Heartbeat.SpacedApart` | backend/internal/handler/checkin_stations.go:167-195 | Grants i and j are at least (j - i) throttles apart. |
| `Heartbeat.GrantsAreRare` | backend/internal/handler/checkin_stations.go:167-195 | Any two grants are a throttle apart, and a span T holds at most T/throttle + 1 of them. |
| `LikeSearch.EscapeIsEncode` | backend/internal/store/pg_store.go:1273-1278 | The three sequential replacements equal one per-character encoding. |
| `LikeSearch.ParseEncoded` | backend/internal/store/pg_store.go:1273-1278 | Under LIKE the escaped text reads as its own characters, literally. |
| `LikeSearch.MatchesInside` | backend/internal/store/pg_store.go:1305-1313 | %literal% matches exactly the subjects that contain the literal. |
| `LikeSearch.SearchMatchesSubstrings` | backend/internal/store/pg_store.go:1305-1313 | For every search text and subject the pattern is well formed and matches exactly the subjects that contain the text, up to case folding. |
| `LikeSearch.UnescapedOvermatches` | backend/internal/store/pg_store.go:1267-1278 | Without the escape an underscore finds other characters. |
| `AttendeePage.AttendeeFilterClause` | backend/internal/store/pg_store.go:1287-1322 | The builder with its running placeholder counter yields the clause that ClauseMeans is about. |
| `AttendeePage.ClauseMeans` | backend/internal/store/pg_store.go:1287-1322 | For every filter the placeholders are exactly $1..$n, each bound to its argument, and the clause selects exactly the rows the filter asks for. |
| `AttendeePage.ListingsAgree` | backend/internal/store/pg_store.go:1400-1420 | ORDER BY last_name, first_name, id fixes one list. |
| `AttendeePage.PagesConcatenate` | backend/internal/store/pg_store.go:1414-1430 | The first n pages in order are the first n * perPage rows of that list, with no gap and no repeat. |
| `AttendeePage.TotalIs` | backend/internal/store/pg_store.go:1403-1410 | The count equals the size of the unpaged result, which is exactly the wanted rows. |
| `AttendeePage.GetAttendeesPage` | backend/internal/store/pg_store.go:1403-1450 | For any page and size: refused exactly when the store's guard on the wrapped page says so, an error exactly when it is not refused and the size or the 64-bit offset is negative, and otherwise the slice of the wanted rows at that offset with their total; from page 1 the offset is exact and the call is refused exactly when it would overflow. |
| `AttendeePage.GuardExact` | backend/internal/handler/attendees.go:155-161 | For pages from 1 the guard refuses exactly the overflowing products. |
| `AttendeePage.NegativeOverflow` | backend/internal/store/pg_store.go:1424-1430 | A page far below zero that the guard lets through and whose offset wraps round to zero. |
| `AttendeePage.GuardOneSided` | backend/internal/store/pg_store.go:1424-1428 | For any page, what the store's guard lets through overflows if and only if the page lies too far below zero. |
| `BulkImport.LoadKeys` | backend/internal/handler/bulk_import.go:98-109 | The two key sets of the attendees the check starts from. |
| `BulkImport.DrawCode` | backend/internal/handler/bulk_import.go:177-186 | The first draw whose upper-cased text is not taken. |
| `BulkImport.BuiltExactly` | backend/internal/handler/bulk_import.go:160-186 | The row's fields with its own code upper-cased, or else with the upper-cased first draw that is neither empty nor taken. |
| `BulkImport.Build` | backend/internal/handler/bulk_import.go:126-186 | The attendee of a row: its own code upper-cased, or else the first draw not taken. |
| `BulkImport.Decide` | backend/internal/handler/bulk_import.go:188-198 | Email before code before the store. |
| `BulkImport.BulkCreate` | backend/internal/handler/bulk_import.go:90-254 | Each row is judged against the listed attendees, none if the listing fails, and the rows created before; the counters and the error list say so, created + skipped = rows, it publishes exactly when something was created, and stores without a publish exactly when only rows behind an INSERT error went in. |
| `BulkImport.CreatedExactlyWhen` | backend/internal/handler/bulk_import.go:188-243 | A row is created if and only if the store accepts it and its lower-cased email and upper-cased code clash with no listed attendee and no earlier created row. |
| `BulkImport.SkippedExactlyWhen` | backend/internal/handler/bulk_import.go:188-243 | Duplicate email if and only if the email key is taken, duplicate code if and only if the email is free and the code is taken, create failed if and only if both are free and the INSERT is not answered. |
| `BulkImport.DrawnNeverDuplicate` | backend/internal/handler/bulk_import.go:177-198 | A row without a code is never skipped for a duplicate code. |
| `BulkImport.NewKeysDistinct` | backend/internal/handler/bulk_import.go:98-243 | The keys of created rows are distinct from the listed ones and from each other. |
| `BulkImport.StoredExactlyWhen` | backend/internal/handler/bulk_import.go:188-235 | A row is in the table afterwards under the same conditions, unless its INSERT has no effect. |
| `BulkImport.ClashWithStored` | backend/internal/handler/bulk_import.go:90-109 | A row in the table has a key of an attendee stored before if and only if the listing failed and nothing else stood in its way. |
| `BulkImport.ClashAmongStored` | backend/internal/handler/bulk_import.go:225-241 | Two rows of one import in the table share a key if and only if the first was stored behind an error and nothing else stood in the way of the second. |
| `BulkImport.FailedListingDuplicates` | backend/internal/handler/bulk_import.go:90-96 | After a failed listing a stored email is imported again. |
| `BulkImport.LostInsertDuplicates` | backend/internal/handler/bulk_import.go:225-235 | Behind a lost answer one email is stored twice and counted once. |
| `BulkImport.OneErrorPerSkip` | backend/internal/handler/bulk_import.go:200-235 | Exactly one error per skipped row, with its reason, in increasing row order. |
| `Migrations.DuplicateMigrationVersion` | backend/internal/store/pg_store.go:139-149 | The loop reports the first name whose version equals its predecessor's. |
| `Migrations.SameVersionContiguous` | backend/internal/store/pg_store.go:139-149 | Names with one version are contiguous in sorted order. |
| `Migrations.NeighboursSuffice` | backend/internal/store/pg_store.go:139-149 | On sorted versioned names it reports a collision if and only if two names share a version, and then the first such neighbours. |
| `Migrations.Between` | backend/internal/store/pg_store.go:139-149 | On any sorted list, between two names of one version a name of another lies only behind a bare one, which it continues with a character below the underscore. |
| `Migrations.ScanExactly` | backend/internal/store/pg_store.go:139-149 | On any sorted list: a clash is missed if and only if no neighbours clash, some bare name is cut off like that, and the first version is not empty; a false alarm is raised if and only if the first version is empty and there is neither. |
| `Migrations.BareNameHidesClash` | backend/internal/store/pg_store.go:142-144 | Three migration file names whose clash is missed. |
| `Migrations.EmptyVersionFalseAlarm` | backend/internal/store/pg_store.go:140-146 | A first name that starts with an underscore is reported although nothing clashes. |
| `TenantGate.Gate.SweepExpiredLocked` | backend/internal/middleware/tenant_gate.go:35-41 | Keeps exactly the unexpired entries. |
| `TenantGate.Gate.Remember` | backend/internal/middleware/tenant_gate.go:77-84 | Sweeps a full cache, then stores the decision with its expiry. |
| `TenantGate.Gate.Handle` | backend/internal/middleware/tenant_gate.go:48-92 | With any requests in between, a decision at t is that of an honest uncached reading for the same tenant: its own, or one whose reads are younger than the TTL plus that reading's own read-to-store delay; errors decide and store nothing. |
| `TenantGate.SweepChangesNothing` | backend/internal/middleware/tenant_gate.go:35-41 | A sweep changes no decision from then on and leaves only unexpired entries; past the limit the cache holds only those and the new one. |
| `TenantGate.BoundedCacheRefines` | backend/internal/middleware/tenant_gate.go:29-41 | Over any run, lookups whose clock is read late included, the swept cache answers exactly as one that never forgets. |
| `TenantGate.ReadingExact` | backend/internal/middleware/tenant_gate.go:101-124 | The decision is that of the moment of the second read if and only if the status can be read then and either the subscription blocks at that moment or activity has not changed since the first read, an end date passing before the clock reading included. |
| `TenantGate.FirstReadExact` | backend/internal/middleware/tenant_gate.go:101-124 | The same for the moment of the first read. |
| `TenantGate.OneRowChanges` | backend/internal/middleware/tenant_gate.go:101-124 | The decision is one a single moment would have given whenever only one of the two rows changes between the reads and no end date passes. |
| `TenantGate.LetThroughThoughAlwaysBlocked` | backend/internal/middleware/tenant_gate.go:101-124 | When the two fall apart, a tenant blocked at every single moment can be let through. |
| `Equipment.ApplyAllowed` | backend/migrations/000023_equipment_registry.up.sql:28-35 | Every operation keeps at most one default per machine and only printers, and one that is not carried out changes nothing. |
| `Equipment.RunAllowed` | backend/internal/store/pg_store_equipment.go:145-290 | So in every reachable registry. |
| `Equipment.ApplyFrame` | backend/internal/store/pg_store_equipment.go:166-298 | A device never changes place or class; name and configuration change only by its own update, the default flag only by a create or repoint on its machine, the stamp only by its own mark or a changed configuration. |
| `Equipment.ApplyRemoves` | backend/internal/store/pg_store_equipment.go:227-243 | A device goes only by its own deletion or with its machine. |
| `Equipment.RepointExact` | backend/internal/store/pg_store_equipment.go:254-284 | Alone, a repoint succeeds exactly for a printer of that tenant and machine, makes it the only default there and changes nothing else. |
| `Equipment.RivalRejected` | backend/internal/store/pg_store_equipment.go:254-284 | With a rival default it did not see, a repoint is rejected whole. |
| `Equipment.CreateSucceeds` | backend/internal/handler/equipment.go:294-312 | A create that passes the make_default rule is stopped by no constraint but the machine's existence, and is then the only default. |
| `Equipment.FailureChangesNothing` | backend/internal/store/pg_store_equipment.go:166-298 | A call that does not succeed leaves the registry as it was if and only if its commit did not go through, or the call was one that its own guards make ineffective. |
| `Equipment.EffectiveExactly` | backend/internal/store/pg_store_equipment.go:166-298 | Those guards, operation by operation, are exact: the operation changes the registry if and only if its guard holds before the call. |
| `Equipment.LostAnswerMovesDefault` | backend/internal/store/pg_store_equipment.go:254-284 | Such a repoint does move the default. |
| `Equipment.StampMatchesConfig` | backend/internal/store/pg_store_equipment.go:192-225 | A test stamp comes from one stamping event at which the device already had the configuration it has now. |
| `Equipment.ConfigIsLastWritten` | backend/internal/store/pg_store_equipment.go:214-225 | Between two points of a run a device's configuration is the last one its own updates wrote, or the one it had. |
| `Equipment.StampVouchesExactly` | backend/internal/handler/equipment.go:571-589 | A stamp vouches for the configuration that was tested if and only if the last one written to the device since equals it. |
| `Equipment.SwappedDuringTest` | backend/internal/store/pg_store_equipment.go:287-298 | A configuration patched in during the test counts as tested. |
| `Equipment.ReadyMeans` | backend/internal/store/pg_store_equipment.go:303-313 | The readiness query says yes if and only if the sole default printer of some machine of the tenant was stamped with its present configuration. |
| `Equipment.PGStore.CreateEquipmentDevice` | backend/internal/store/pg_store_equipment.go:166-190 | Clear and insert in one transaction, whatever its COMMIT answers: the stored row has the place, class and name that were sent, the sent configuration or an empty object, and the stamp asked for; only seen defaults of its machine are cleared. |
| `Equipment.PGStore.UpdateEquipmentDevice` | backend/internal/store/pg_store_equipment.go:214-225 | Name and configuration of the tenant's own device and no other column, except that the stamp clears exactly on a changed configuration. |
| `Equipment.PGStore.DeleteEquipmentDevice` | backend/internal/store/pg_store_equipment.go:232-243 | Removes the device and promotes nobody. |
| `Equipment.PGStore.SetDefaultEquipmentPrinter` | backend/internal/store/pg_store_equipment.go:254-284 | Clear then guarded set; a refusal or a rollback leaves every device as it was. |
| `Equipment.PGStore.MarkEquipmentDeviceTestPassed` | backend/internal/store/pg_store_equipment.go:287-298 | Stamps one device of the tenant. |
| `Equipment.PGStore.TenantHasTestedDefaultPrinter` | backend/internal/store/pg_store_equipment.go:303-313 | After any run the answer is yes if and only if some event stamped the one default printer of a machine of the tenant with the configuration it has now. |
| `Retention.PurgeExact` | backend/internal/store/pg_store_retention.go:75-124 | A user is deleted if and only if the tenant is their home, they are no super admin, belong to no other tenant and have no audit rows; everybody and everything else is kept, the audit rows never block the delete, and references stay intact. |
| `Retention.PurgedExactly` | backend/internal/store/pg_store_retention.go:75-124 | Between any two snapshots: the tenant goes if and only if it is archived, was stamped more than the period before, and no user at home who was not detached has audit rows. |
| `Retention.RaceExact` | backend/internal/store/pg_store_retention.go:87-99 | With other sessions between detach and DELETE: the deleted users are those at home who were not detached; one at home in both snapshots is treated by the rule if and only if their reasons to survive agree in both. |
| `Retention.JoinDuringPurgeIsLost` | backend/internal/store/pg_store_retention.go:87-99 | A user who joins another tenant between the two statements is deleted all the same. |
| `Retention.ArchivedHasEvent` | backend/internal/store/pg_store.go:331-344 | An archived tenant was archived by one event and has stayed so, with its stamp, ever since. |
| `Retention.DeletedOnlyAfterRetention` | backend/internal/store/pg_store_retention.go:97-107 | A tenant disappears only in a purge, and only after being archived without interruption since a status change that started more than the retention period before. |
| `Retention.PGStore.UpdateTenantStatus` | backend/internal/store/pg_store.go:331-344 | archived_at is the transaction's time for archived and NULL otherwise, whatever the statement answers. |
| `Retention.PGStore.ListExpired` | backend/internal/store/pg_store_retention.go:36-57 | Exactly the archived tenants stamped more than the period ago, each once. |
| `Retention.PGStore.PurgeTenant` | backend/internal/store/pg_store_retention.go:75-124 | Commits one deletion with its audit row exactly when no statement fails, the tenant is archived past the period and no audit row blocks it, and nothing at all otherwise; no longer eligible means just that; the result says which, unless the answer to the COMMIT is lost. |
| `Retention.LostAnswerUnlisted` | backend/internal/store/pg_store_retention.go:116-124 | Then an eligible tenant is deleted and reported as a failure. |
| `Retention.PGStore.PurgeExpiredTenants` | backend/internal/store/pg_store_retention.go:29-73 | The candidates are exactly the tenants past the period; the returned list is the committed purges that were heard of, in order, and all of them if and only if no COMMIT that went through lost its answer; the errors are counted exactly and every outcome has its reason in a state on the way; nothing else of the call reaches the database. |
| `SyncPush.Handler.PushUpdate` | backend/internal/handler/sync.go:150-206 | One overwrite: the feed gets one row exactly when the guarded UPDATE flipped the status, a checkin row with the client's time or an undo row; the attendee's row by columns in every case; its event is marked for the publish exactly when its flip or its overwrite was answered, and counted as silently changed exactly when it changed behind an error. |
| `SyncPush.PushedColumns` | backend/internal/handler/sync.go:150-206 | Whatever each call answers: the attendee's row afterwards by columns, the one feed row of a flip, and nothing else. |
| `SyncPush.Handler.GroupCreations` | backend/internal/handler/sync.go:222-238 | Pending are exactly the creations whose event was found among the tenant's, as often as sent, with the number of them per event. |
| `SyncPush.Handler.BlockedEvents` | backend/internal/handler/sync.go:240-249 | An event is blocked exactly when the deciding number of the subscription is not -1 and the count fails or the entries do not grant the live count plus the creations. |
| `SyncPush.LimitByEntries` | backend/internal/store/pg_store.go:2379-2457 | The check in terms of the entries: a custom number other than 0 decides, otherwise the plan's, no entry at all is 0, -1 is no limit; a missing subscription, a custom entry that is no number, or a consulted plan entry that is none, refuses. |
| `SyncPush.Handler.CreatePending` | backend/internal/handler/sync.go:251-263 | Stores what is not blocked; marks exactly the events of the creations stored and answered, and names exactly those stored behind an error. |
| `SyncPush.SilentUpdateShows` | backend/internal/handler/sync.go:164-200 | An update whose flip or overwrite commits behind an error changes what the monitor shows and makes the loop go on without marking the event. |
| `SyncPush.SilentCreationShows` | backend/internal/handler/sync.go:251-263 | And so does a creation stored behind an error. |
| `SyncPush.Handler.SyncPush` | backend/internal/handler/sync.go:108-278 | Each event's live count ends at most at its count before or at what the entries of the subscription grant, whatever fails, and an event is blocked exactly when they do not grant its live count plus all its creations, or the count fails; an event is published exactly when some update or creation marked it in the state that item met, and only the tenant's; every event with a visible change is published if and only if each event changed behind an error is published anyway; the new state is one the engine's run lemmas cover; permitted creations are stored. |
| `SyncPush.QuotaKept` | backend/internal/store/pg_store.go:2443-2457 | The limit check for all creations of an event together bounds its final count. |
| `SyncPush.Handler.SyncPushes` | backend/internal/handler/sync.go:240-263 | Over any serial run of pushes an event stays within the larger of its first count and the highest count that the entries in force at any of them grant. |
| `SyncPush.WriteTouches` | backend/internal/handler/sync.go:164-206 | The writes of the update loop never raise a live count and stay inside one event. |
| `Scanner.Listener.FlushBuffer` | agent/internal/scanner/scanner.go:107-127 | Takes the whole buffer and emits its trim unless blank. |
| `Scanner.Listener.RunSection` | agent/internal/scanner/scanner.go:134-179 | One critical section: the idle decision, the flush it leads to, or one byte. |
| `Scanner.DataExactly` | agent/internal/scanner/scanner.go:134-179 | The data of a schedule are the bytes it reads other than CR and LF, in order. |
| `Scanner.Listener.Listen` | agent/internal/scanner/scanner.go:98-180 | For any interleaving of reader and ticker, the flushed buffers followed by the residual one are the input without CR and LF, in order; the scans are their non-blank trims. |
| `Scanner.BytesKeptExactly` | agent/internal/scanner/scanner.go:175-178 | The delivered bytes are the scanner's own if and only if all of them are ASCII. |
| `Scanner.HighByteReencoded` | agent/internal/scanner/scanner.go:175-178 | 0xE9 is delivered as C3 A9. |

## Left out

- HTTP routing, JSON decoding, authentication, logging and the database driver: input and output only.
- UUIDs: identifiers are numbers, and a collision of a generated one appears as a failed INSERT.
- Failed or timed-out publishes: the staleness result is about notifications that were sent.
- The broker after Close, and the order in which scan callbacks run.
- The monitor's rates, peaks and recent list: floating point and plain lookups.
- Case folding and collation: an arbitrary function on characters, and an arbitrary integer key; folding that changes the length of a text is not covered.
- Byte strings: Go strings are sequences of characters, except in `Scanner.Encoded`.
- The mapping of CSV headers to fields (a row whose headers differ in case only picks one by map order) and the custom fields.
- BulkImport.BulkCreate: the code generator is a finite list of draws per row, so the result also says when it is still drawing at the end of the list.
- Days: `Batch.Day` counts whole UTC days of the item's own time; the driver's conversion to DATE is taken to keep it. A retention day is 24 hours, without daylight saving of the session's time zone.
- BulkImport.BulkCreate: no concurrent writer; the listing returns live attendees only, so a soft-deleted one counts as not stored, except that a code of its own makes the INSERT fail.
- SyncPush.Handler.BlockedEvents: does not model the conversion of a configured limit beyond the 64-bit range, which depends on the platform.
- Equality of jsonb: configurations are compared as canonical texts.
- Config shapes, kinds and display names of devices: one-branch validation, so `Equipment.CreateSucceeds` is about the make_default rule only.
- In-place filling of the device struct: `Equipment.PGStore.CreateEquipmentDevice` returns the stored row.
- Equipment and retention transactions take effect at one point; what may happen between their statements appears as the devices a clearing UPDATE missed and as the users detached from an earlier snapshot.
- Rows of other tables that reference a user: a purge they block appears as a failed DELETE.
- Tables cascaded from a tenant other than users and memberships.
- SyncPush.Handler.SyncPush: no concurrent writer, as the limit check and the inserts are not one transaction.
- AttendeePage.GetAttendeesPage: the ordered list is what the database returns for the clause; how it sorts is not modelled.
- Tenant statuses other than the three the table allows: that UPDATE fails and changes nothing.
- The rows of one `UPDATE ... WHERE` statement change together, not in a loop.
- CheckinStore.PGStore.CheckOne: the handler's own reads of the attendee and the zone are not separated from the writes that follow; `BatchFlight` separates the store's statements.
- CRUD, plans, API keys, badges, printing and all user interface code: no property worth stating beyond what each statement says.
