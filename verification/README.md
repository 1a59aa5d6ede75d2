# Dafny model of agent-gather's protocols and text algorithms

The project models the parts of agent-gather that keep state under concurrency, and the text
algorithms whose output other code relies on, and proves what each of them keeps over whole runs.

- **Managed tunnel broker** (`Relay.dfy`, `Broker.dfy`, `Guards.dfy`, `RateWindows.dfy`, `Metering.dfy`,
  `QuotaBound.dfy`, `QuotaReached.dfy`, `QuotaRate.dfy`): the relay queue, the timed route life cycle
  above it, the concurrency and rate guards with their release handles, the quota ledger, and their
  composition.
- **Host-owned storage** (`WriterLock.dfy`, `RoomStore.dfy`, `SnapshotRedaction.dfy`, `JoinedHistory.dfy`,
  `JsonSize.dfy`, `JoinedRooms.dfy`, `DeleteVersusRecord.dfy`): the cross-process writer lock, the message
  log with retries and crashes, the redaction of stored text, the bounded snapshot, the joined-room
  rows, and the two-lock delete/record protocol.
- **Readers of the log and in-process guards** (`LogReads.dfy`, `RoomClient.dfy`, `WaitStream.dfy`,
  `LoopGuard.dfy`): the paging endpoint, the browser client that stitches pages and polls into one
  view, the long poll with its hub, and the loop guard with auto-continue.
- **Text algorithms** (`Mentions.dfy`, `Markdown.dfy`, `ShellQuoting.dfy`, over `JsText.dfy` and
  `Slugs.dfy`): the mention scanner, the Markdown block loop, and nested shell quoting.

Each operation has a value-level specification function that follows the source branch by branch.
Where the source changes an object in place there is also a class with the source's fields, whose
methods are proved to move its abstract state by exactly that function. Interleavings are runs: a
sequence of events, one per await point, file-system call, timer or host action, and the main
results are lemmas over every possible run.

Time is a number of milliseconds passed in where the source reads the clock (readings never go
back), and minted identifiers are parameters assumed fresh. `dafny verify dfyconfig.toml` checks
the whole project.

## What does not hold, and exactly when it does

- **Writer lock.** Mutual exclusion holds for every run if and only if neither the age-based reclaim
  of an unreadable lock nor the takeover of an abandoned reclaim file can happen
  (`WriterLock.ExclusionExactly`); for each branch there is a concrete run that puts two live
  processes inside. The step that decides is a reclaimer removing the lock file of a live creator: runs
  without it exclude, and once it can be taken the reclaimer gets in beside that creator
  (`WriterLock.RobberyExactly`).
- **Message log.** `recoverRoomState` (src/storage/room-store.ts:522-535) is called by no append
  path, so a crash between the log append and the state write lets the next post reuse an id. Ids are
  increasing if and only if nothing is appended while the counter is behind the log
  (`RoomStore.IncreasingExactly`).
- **Redacting again.** A comment (src/storage/joined-history-store.ts:248-249) calls the redaction
  idempotent, and each record redacts the stored messages once more. It is not: `token=&token=abc` becomes
  `token=[redacted-token]`, and that `[redacted-token]` (`SnapshotRedaction.NotSettled`). A second
  redaction changes nothing if and only if, behind the URL and bearer passes, no empty `token=` or
  `snapshot=` stands directly before another parameter, outside values and `tgl_` tokens and within the
  cut (`SnapshotRedaction.SettledExactly`); a text it does change never comes back
  (`SnapshotRedaction.ComesBackExactly`). While the byte cap has room for the messages, records one at a
  time therefore always leave the ids and the cursor of one record of everything, and its texts if and
  only if whatever survives from before the last one is settled (`JoinedHistory.BatchIndependence`,
  `JoinedHistory.RecordsAreOne`). What redaction is for holds of every text
  (`SnapshotRedaction.NothingIsLeft`).
- **Seat kind.** A comment (src/storage/joined-rooms-store.ts:140-141) says a refresh accepts a kind
  only for the alias it was observed for; `refreshJoinedRoomMetadata` takes whatever kind the entry
  carries. A refresh keeps every stored kind beside an alias it was observed for, after whatever
  edits, if and only if its entry carries no kind, or says it of the alias the row opens as, or the row
  has none (`JoinedRooms.KindTravelsWithAliasExactly`, with the failing two-edit run in
  `JoinedRooms.MisplacedKind`). The one caller today (src/platform/http.ts:522-529) never passes a
  kind, so the program as it stands keeps the rule (`JoinedRooms.RefreshesWithoutKindAreSafe`).
- **Markdown.** A line such as `- ` or `# ` ends a paragraph as a block start, but no block branch
  takes it, and the loop then repeats for ever. That happens if and only if such a line has an even
  number of fence lines before it (`Markdown.HangsExactly`).
- **List numbers.** `start` and `value` are `long` attributes, so an ordinal that must be carried
  there survives only below 2^31 (`Markdown.ShownIsAuthoredExactly`).
- **Tunnel responses.** A host's response is matched by request id alone: identifiers that name one
  slug's route settle a request made on another (`Broker.ResponseCrossesSlugs`). Other slugs stay as
  they were if and only if the request, if still in flight, was made on the named slug
  (`Broker.RespondStaysOnItsSlugExactly`), and a host that answers only what its own polls handed it
  never reaches another slug (`Broker.HandedRequestsStayHome`).
- **Browser sends.** A send advances the cursor to the sender's own id. For every view, the empty one
  included, the rows remain one unbroken stretch of the log ending at the cursor if and only if the
  sent message is the next of the log (`RoomClient.SendKeepsWindowExactly`). A message it overtook is
  never shown afterwards unless a poll that was under way still carries it
  (`RoomClient.OvertakenMessageIsLost`).
- **Long poll.** A turn can sleep on an undelivered message with no notify to come, for two reasons:
  append and notify both landed between its log read and its registration, or the append was never
  notified. The command line's fallback (src/cli/commands/message/transport.ts:36-41) appends
  without the server's hub, and a state write that fails after the log append
  (src/storage/room-store.ts:265-270) skips the notify, as does the retry (src/server/http.ts:606-609).
  With no notify outstanding a sleeping turn is stranded if and only if something beyond its cursor was
  appended after its log read (`WaitStream.StrandedExactly`); where every append is notified only
  the gap strands (`WaitStream.NotifiedAppendsStrandInTheGapOnly`). Nothing is lost: the hold timer
  ends the turn and its second read delivers.
- **Auto-continue.** A completion that awaited its state read can end a newer cycle and name the
  wrong agent, under every limit (`LoopGuard.StaleCompletionNamesTheWrongAlias`). It ends its own cycle,
  and then names that cycle's agent, if and only if the cycle was its own when the timer fired and no
  human post, cancellation or other completion came in between
  (`LoopGuard.CompletionEndsItsOwnCycleExactly`). The counting claims survive it.

## Model

| member | source | states |
|---|---|---|
| Relay.ExactlyOnce | src/tunnel/relay.ts:46-124 | over every run of enqueues, claims, responses, timers and closes: each queue is its unclaimed in-flight ids in enqueue order, each id is in flight or settled and never both, is settled at most once, handed over at most once, and per slug in enqueue order |
| Relay.RunKeeps | src/tunnel/relay.ts:46-124 | every run keeps the hub invariant and only extends what was settled and handed over |
| Relay.ClaimTakesHead | src/tunnel/relay.ts:62-81 | a claim on a slug with a queue always takes the earliest waiting request, at the first shift |
| Relay.FailAllKeeps | src/tunnel/relay.ts:99-113 | closing removes exactly the listed requests of the slug, keeps the invariant and rejects each as route_closed |
| Relay.CloseRouteEmpties | src/tunnel/relay.ts:99-113 | a closed route has nothing in flight or queued, every waiter was told, other slugs keep their requests unchanged |
| Relay.SettleKeeps | src/tunnel/relay.ts:83-124 | settling one request removes it everywhere, adds one settlement and keeps the invariant |
| Relay.RelayHub.Enqueue | src/tunnel/relay.ts:46-60 | moves the hub by the enqueue specification |
| Relay.RelayHub.Claim | src/tunnel/relay.ts:62-81 | the shifting loop claims exactly what the specification says and drops the emptied queue |
| Relay.RelayHub.Respond | src/tunnel/relay.ts:83-97 | unknown, oversized and accepted responses, each with its new state |
| Relay.RelayHub.CloseRoute | src/tunnel/relay.ts:99-105 | rejects every request of the slug, visiting everything in flight |
| Relay.RelayHub.Fail | src/tunnel/relay.ts:107-113 | rejects a request once, and is a no-op for one already gone |
| Relay.RelayHub.Remove | src/tunnel/relay.ts:115-124 | unlinks a request from the map and from its slug's queue |
| Broker.LifeCycle | src/tunnel/broker.ts:193-266 | in every run a route id's status moves only active to expired, active to closed or expired to closed |
| Broker.NeverPastLifetime | src/tunnel/broker.ts:193-266 | at or after created_at plus the maximum lifetime a route is never resolved, polled or heartbeat, whatever refreshed it |
| Broker.RegisterRefusedExactly | src/tunnel/broker.ts:139-151 | a well-formed registration is refused if and only if the slug's route is live and its host was seen within the grace period |
| Broker.ReplacementRejects | src/tunnel/broker.ts:152-171 | taking over a slug rejects everything in flight on it and touches no other slug |
| Broker.ReplacedIdentifiersAreDead | src/tunnel/broker.ts:418-425 | after a replacement, in every later state, the old identifiers claim, heartbeat, respond and close nothing |
| Broker.ClaimsAreYoungerThanTheRoute | src/tunnel/broker.ts:256-266 | whatever is claimed under new identifiers was enqueued after the replacement |
| Broker.RespondStaysOnItsSlugExactly | src/tunnel/broker.ts:268-272 | a response leaves every other slug's requests and queue alone if and only if the answered request, if in flight, was made on the slug its identifiers name |
| Broker.HandedRequestsStayHome | src/tunnel/broker.ts:256-272 | over every run, a response under the identifiers that claimed the request touches no other slug's requests or queue |
| Broker.ResponseCrossesSlugs | src/tunnel/broker.ts:268-272 | a run of two routes in which one host's response is accepted for, and removes, the other's request |
| Broker.RunMoves | src/tunnel/broker.ts:139-425 | every run keeps the invariant, ages routes or replaces them by new ids, and never shortens the log |
| Broker.TunnelBroker.Register | src/tunnel/broker.ts:139-185 | validates, refreshes, refuses or replaces, as specified |
| Broker.TunnelBroker.Heartbeat | src/tunnel/broker.ts:193-210 | the error cases and the refreshed route |
| Broker.TunnelBroker.CloseRoute | src/tunnel/broker.ts:212-230 | closes the named route, drops its target and rejects its requests |
| Broker.TunnelBroker.Resolve | src/tunnel/broker.ts:236-249 | refreshes and answers the route or why not |
| Broker.TunnelBroker.ClaimRelay | src/tunnel/broker.ts:256-266 | presence, idle deadline and the claimed request |
| Broker.TunnelBroker.RespondRelay | src/tunnel/broker.ts:269-272 | a response under live identifiers reaches the hub |
| Broker.TunnelBroker.TouchRoute | src/tunnel/broker.ts:387-394 | extends the idle deadline of an active route only |
| Broker.TunnelBroker.CurrentRoute | src/tunnel/broker.ts:396-412 | looks up and refreshes in place |
| Broker.TunnelBroker.FindByConnection | src/tunnel/broker.ts:418-425 | the one route carrying both identifiers, refreshed, or none |
| RateWindows.PruningDecidesTheSame | src/server/http.ts:1028-1041 | dropping elapsed buckets on every call decides every sequence of calls as never dropping any |
| RateWindows.LimitersAgree | src/tunnel/limits.ts:100-111 | the broker's and the server's fixed windows admit alike for limits of at least one |
| RateWindows.SpanBound | src/server/http.ts:1028-1041 | any span of 60 seconds admits at most 2·max(1, limit) calls per key |
| RateWindows.BoundIsReached | src/server/http.ts:1028-1041 | a run that admits exactly that many, so the bound is tight |
| RateWindows.RateBuckets.Enforce | src/server/http.ts:1028-1041 | the map loop prunes and decides as specified |
| Guards.CountersAreOpenHandles | src/tunnel/limits.ts:70-98 | over every run of enters and releases the counters equal the number of unreleased handles and stay within the limits |
| Guards.ReleaseNeverClamps | src/tunnel/limits.ts:88-98 | the first release of a handle never meets the clamp at zero |
| Guards.EnterKeeps | src/tunnel/limits.ts:70-98 | an admitted request adds exactly one open handle within the limits, a refused one none |
| Guards.ReleaseKeeps | src/tunnel/limits.ts:88-98 | a release, first or repeated, keeps counters equal to open handles |
| Guards.BrokerGuards.EnterRequest | src/tunnel/limits.ts:70-98 | the check order, the counters and the handle |
| Guards.BrokerGuards.ReleaseHandle | src/tunnel/limits.ts:88-98 | flips the flag once and lowers the counters once |
| Guards.BrokerGuards.AdmitRate | src/tunnel/limits.ts:100-111 | one fixed-window decision and the new window |
| Metering.ExceededExactly | src/platform/metering.ts:161-209 | admission refuses if and only if some counter of the current window is over its quota |
| Metering.ChargeAddsOnce | src/platform/metering.ts:138-159 | a charge adds to one counter of one subject in the window of its reading, rolling the window over, and to nothing else |
| Metering.MeteringLedger.Record | src/platform/metering.ts:138-159 | the guards, the error cases and the rewritten record |
| Metering.MeteringLedger.AssertWithinQuota | src/platform/metering.ts:178-188 | passes if and only if every counter in the window is within quota |
| QuotaBound.OvershootBound | src/tunnel/broker.ts:281-334 | over every interleaving of forwards and window rollovers no window's relay_requests counter exceeds quota plus concurrentRequestsPerRoute |
| QuotaReached.OvershootIsReached | src/tunnel/broker.ts:281-334 | whenever the per-minute limit admits quota plus concurrency many calls in the whole minutes of one quota window, some run charges exactly that many in it, so the bound is tight |
| QuotaRate.RateBound | src/tunnel/limits.ts:70-111 | over every interleaving the counter of a slug's current window is at most concurrency plus the smaller of the quota and what the per-minute limit admits in a quota window |
| QuotaRate.ShippedQuotaIsOutOfReach | src/tunnel/limits.ts:22-32 | with the shipped limits one slug's relay_requests counter never exceeds its quota |
| QuotaRate.RunPaces | src/tunnel/broker.ts:281-334 | the invariant behind it: charged plus chargeable against what was open at the window's start plus the calls admitted since |
| QuotaBound.RunKeeps | src/tunnel/broker.ts:281-334 | the invariant behind it: what is charged plus what may still be charged stays under the ceiling |
| QuotaBound.AdvanceKeeps | src/platform/metering.ts:190-197 | time passing keeps that invariant, across window boundaries too |
| WriterLock.ExclusionExactly | src/storage/lock.ts:31-204 | every run has at most one live process inside if and only if neither aged reclaim nor takeover happens |
| WriterLock.PlainRunsExclude | src/storage/lock.ts:31-137 | mutual exclusion over every interleaving of acquire, release, crash, judge and reclaim |
| WriterLock.HolderIsSpared | src/storage/lock.ts:61-137 | a live holder's lock file changes only by its own release or crash |
| WriterLock.DeadHolderIsRecovered | src/storage/lock.ts:61-137 | from a crashed holder's lock some run lets a waiting process in |
| WriterLock.AgedReclaimBreaksExclusion | src/storage/lock.ts:86-89 | a run with aged reclaim that puts two live processes inside |
| WriterLock.TakeoverBreaksExclusion | src/storage/lock.ts:143-204 | a run with takeover that puts two live processes inside: two reclaimers at once, the second removing a live holder's lock |
| WriterLock.RobberyExactly | src/storage/lock.ts:61-137 | all runs have at most one live process inside if and only if none comes to where a reclaimer can remove the lock file of a live creator |
| WriterLock.GentleRunsExclude | src/storage/lock.ts:31-204 | every run, through any branch, in which no such file is removed excludes |
| WriterLock.RobberyBreaksExclusion | src/storage/lock.ts:121-137 | after such a removal some continuation puts the remover and the robbed inside |
| DeleteVersusRecord.NoOrphanSnapshots | src/storage/joined-history-store.ts:179-243 | in every interleaving a snapshot without a row has a deleter with its removal still ahead, or since the row went its removal failed or crashed and none has succeeded |
| DeleteVersusRecord.QuietMeansNoOrphans | src/storage/joined-rooms-store.ts:295-351 | without failures, once everyone is idle, every snapshot has its row |
| DeleteVersusRecord.SnapshotsNeedActiveRows | src/platform/http.ts:577-602 | over every run, whoever makes a snapshot appear had found the room's row stored and not archived, under the snapshot's lock and holding it ever since |
| DeleteVersusRecord.RemovalLeavesNothing | src/storage/joined-history-store.ts:229-243 | removal under the lock leaves neither file nor writer about to recreate it |
| DeleteVersusRecord.StepKeepsCover | src/storage/joined-history-store.ts:179-243 | every step keeps a snapshot covered by its row, an awaiting deleter or an abandoned removal |
| JoinedRooms.RowKeyInjective | src/storage/joined-rooms-store.ts:230-233 | two targets share a key only if they are the same room and base URL |
| JoinedRooms.BulkDeleteIsEach | src/storage/joined-rooms-store.ts:295-351 | the bulk delete leaves what deleting one by one leaves |
| JoinedRooms.BulkArchiveIsEach | src/storage/joined-rooms-store.ts:192-293 | the bulk archive leaves what archiving one by one leaves |
| JoinedRooms.MissingIsExact | src/storage/joined-rooms-store.ts:254-329 | the reported missing count is the number of requested rooms without a row |
| JoinedRooms.UpsertKeepsRows | src/storage/joined-rooms-store.ts:97-157 | an upsert keeps one row per room and changes no other row |
| JoinedRooms.WithoutKeepsRows | src/storage/joined-rooms-store.ts:295-329 | a delete keeps one row per room and removes exactly the requested ones |
| JoinedRooms.RefreshKeepsIdentity | src/storage/joined-rooms-store.ts:90-95 | a refresh keeps the alias a row opens with |
| JoinedRooms.KindTravelsWithAliasExactly | src/storage/joined-rooms-store.ts:132-145 | a refresh keeps every stored kind beside an alias it was observed for, after whatever edits, if and only if its entry brings no kind, or says it of the alias the row opens as, or the row has no alias yet |
| JoinedRooms.StoredKindsWereObserved | src/storage/joined-rooms-store.ts:97-190 | over every run of imports, such refreshes and bulk edits, each stored kind of a row or seat was said of that alias in that room |
| JoinedRooms.RefreshesWithoutKindAreSafe | src/platform/http.ts:522-529 | the same for every run whose refreshes bring no kind, as the one caller's do |
| JoinedRooms.MisplacedKind | src/storage/joined-rooms-store.ts:132-145 | for every other entry, a run of two edits that stores a kind nobody said of the row's alias |
| JoinedRooms.SeatsAreAdditive | src/storage/joined-rooms-store.ts:165-190 | a known seat kind is never lost and unmentioned seats keep theirs |
| JoinedRooms.JoinedRoomsStore.Upsert | src/storage/joined-rooms-store.ts:97-157 | one row changed or added, one write |
| JoinedRooms.JoinedRoomsStore.SetArchivedMany | src/storage/joined-rooms-store.ts:254-293 | rows, write count and the counted result of one pass |
| JoinedRooms.JoinedRoomsStore.DeleteMany | src/storage/joined-rooms-store.ts:295-329 | rows and the counted result of one filtered write |
| JsonSize.SixBytesPerUnit | src/storage/joined-history-store.ts:88-97 | an escaped string takes at most six bytes per code unit |
| SnapshotRedaction.NothingIsLeft | src/storage/joined-history-store.ts:99-106 | whatever the text, none of the URL, bearer and tgl_ expressions matches in its redaction, and a token= or snapshot= left in it has only a redaction mark for a value |
| SnapshotRedaction.SettledExactly | src/storage/joined-history-store.ts:99-106 | redacting again changes nothing if and only if no empty parameter stands directly before another one where the scan sees it and the cut keeps it |
| SnapshotRedaction.NoEmptyNameSettles | src/storage/joined-history-store.ts:104 | in particular a text without token= or snapshot= directly before & or # is redacted once and for all |
| SnapshotRedaction.ComesBackExactly | src/storage/joined-history-store.ts:99-106 | the result of n >= 2 redactions equals that of one if and only if a second changes nothing |
| SnapshotRedaction.NotSettled | src/storage/joined-history-store.ts:104 | the two redactions of token=&token=abc |
| SnapshotRedaction.CleanAfter | src/storage/joined-history-store.ts:101-105 | a pass leaves no match of its own and makes none of the URL, bearer or tgl_ pass |
| JoinedHistory.BatchIndependence | src/storage/joined-history-store.ts:250-262 | without the byte cap, two or more batches one at a time keep the ids their concatenation keeps, and its texts if and only if every survivor from before the last batch is settled |
| JoinedHistory.BatchesAgreeExactly | src/storage/joined-history-store.ts:250-262 | the same for any redaction whose changes, once begun, never come back to the first result |
| JoinedHistory.TwoBatchesAreOne | src/storage/joined-history-store.ts:250-262 | two batches keep exactly what one does if and only if the survivors the second does not write are settled |
| JoinedHistory.EmptyBatchChangesText | src/storage/joined-history-store.ts:250-262 | whatever the redaction, a further record that brings nothing leaves a stored message alone if and only if redacting it again does |
| JoinedHistory.AdjacentParamsChange | src/storage/joined-history-store.ts:250-262 | it changes any message that says token=&token=abc |
| JoinedHistory.ReloadKeepsCommentsExactly | src/storage/joined-history-store.ts:266-292 | a post re-loaded without comments keeps the stored ones if and only if each was written with settled fields |
| JoinedHistory.FindInserted | src/storage/joined-history-store.ts:250-262 | after an insert the id holds the new message and every other id its old one |
| JoinedHistory.AscendingIsUnique | src/storage/joined-history-store.ts:250-262 | strictly ascending lists with the same id map are equal |
| JoinedHistory.ReloadsKeepOrder | src/storage/joined-history-store.ts:266-292 | posts stay one per redacted id and a re-load keeps the stored order |
| JoinedHistory.TrimmingExactly | src/storage/joined-history-store.ts:298-316 | the loop keeps suffixes, drops a message only after all posts, and meets the cap if and only if the one-message floor does |
| JoinedHistory.BoundedIsTrimmed | src/storage/joined-history-store.ts:298-316 | the bounded snapshot is the trimmed one and its cursor is the greatest surviving id |
| JoinedHistory.FloorFits | src/storage/joined-history-store.ts:60-97 | for any redaction that cuts at 4,000 code units, a one-message snapshot with keys of at most 17,000 fits 200,000 bytes |
| JoinedHistory.WrittenWithinCap | src/storage/joined-history-store.ts:206-227 | every snapshot written under such a redaction, the source's among them, and with such keys is within 200,000 bytes |
| JoinedHistory.RecordIsCanonical | src/storage/joined-history-store.ts:179-227 | what is written is ascending, each message a redaction of one handed in or stored, within its counts, with the greatest id as cursor |
| JoinedHistory.StoredTextIsClean | src/storage/joined-history-store.ts:250-262 | no field of a written message holds anything credential-shaped beyond a name before a mark |
| JoinedHistory.RecordKeeps | src/storage/joined-history-store.ts:206-216 | whatever the redaction, a record keeps the newest 250 of the merge, and nothing else, if and only if they fit the byte cap without posts or are a single one |
| JoinedHistory.RecordsAreOne | src/storage/joined-history-store.ts:179-227 | while each record's messages have room under the byte cap, entries one at a time leave the cursor of one record of all of them, and its messages if and only if what survives from before the last is settled |
| JoinedHistory.RecordsAgreeExactly | src/storage/joined-history-store.ts:179-227 | the same for any redaction whose changes, once begun, never come back to the first result |
| JoinedHistory.CursorNeverDecreases | src/storage/joined-history-store.ts:179-227 | over every run of records on readable files, whatever the redaction, the cursor never decreases |
| JoinedHistory.MergeMessages | src/storage/joined-history-store.ts:250-262 | the map-and-sort algorithm computes the merge specification |
| JoinedHistory.MergeForumPosts | src/storage/joined-history-store.ts:266-292 | the insertion-ordered map computes the post merge |
| JoinedHistory.Bound | src/storage/joined-history-store.ts:298-316 | the three loops compute the bounded snapshot |
| JoinedHistory.SnapshotFile.Record | src/storage/joined-history-store.ts:179-227 | what a record leaves in the file, and nothing when the room is no longer tracked |
| JoinedHistory.SnapshotFile.Delete | src/storage/joined-history-store.ts:229-243 | the file is gone |
| RoomStore.IncreasingExactly | src/storage/room-store.ts:240-305 | ids are strictly increasing in a run if and only if it never appends while the counter is behind the log |
| RoomStore.CrashThenPostRepeatsAnId | src/storage/room-store.ts:240-305 | a crash between append and state write, then a post, gives two messages one id |
| RoomStore.RecoveredRunsIncrease | src/storage/room-store.ts:517-535 | with recovery between a crash and the next append, every run has strictly increasing ids below the counter |
| RoomStore.RetriesNeverRepeat | src/storage/room-store.ts:251-274 | in every run each (from, client id) occurs at most once |
| RoomStore.RetryReturnsOriginal | src/storage/room-store.ts:251-256 | a retry returns the original message and changes nothing |
| RoomStore.LogOnlyGrows | src/storage/room-store.ts:240-305 | every run extends the log and rewrites nothing |
| RoomStore.MessageStore.AppendMessageResult | src/storage/room-store.ts:240-275 | full log, retry, fresh message and a crash before the state write |
| RoomStore.MessageStore.AppendServerMessage | src/storage/room-store.ts:277-305 | the server's append and its counter |
| RoomStore.MessageStore.RecoverRoomState | src/storage/room-store.ts:517-535 | the counter recomputed from the log |
| LogReads.OlderIsPrefix | src/server/http.ts:565-580 | on a split log the backward filter is the prefix below the id |
| LogReads.NewerIsSuffix | src/server/http.ts:582-589 | on a split log the forward filter is the suffix beyond the id |
| LogReads.ForwardReadsCompose | src/server/http.ts:582-589 | a forward page of any limit followed by a read from its next_since_id is the whole rest of the log |
| RoomClient.BackwardAnswer | src/server/http.ts:565-580 | a bounded backward page is the last messages before the split, and has_more_before says exactly whether more precede it |
| RoomClient.NeverRenderedTwice | src/browser/room.js:1274-1283 | in every run, restores, discards and sends included, each id has at most one row |
| RoomClient.ContiguousView | src/browser/room.js:1236-1308 | a cold entry under any mix of polls, earlier loads, failures and appends shows exactly the log between its oldest row and its cursor, and offers earlier exactly when an older message exists |
| RoomClient.RunKeepsWindow | src/browser/room.js:956-1020 | the window invariant with both fetches in flight, over every run |
| RoomClient.LoadingEarlierReachesTheBeginning | src/browser/room.js:956-1020 | one round per page of 50 shows the whole log up to the cursor and then offers no more |
| RoomClient.PollCatchesUp | src/browser/room.js:1236-1308 | an undisturbed poll brings the window's end to the end of the log |
| RoomClient.WholeLogIsReachable | src/browser/room.js:956-1020 | a poll and then earlier to exhaustion shows the whole log |
| RoomClient.DiscardStartsAfresh | src/browser/room.js:1111-1234 | a discarded restore is a stitched empty view whose next answer is the whole log |
| RoomClient.SendKeepsWindowExactly | src/browser/room.js:1693-1696 | for every view, empty ones included, the rows after a send are a window of the log if and only if its message is the next of the log |
| RoomClient.OvertakenMessageIsLost | src/browser/room.js:1693-1696 | a message a send overtook, unless a poll under way carries it, has no row in any later state |
| RoomClient.PassedForGood | src/browser/room.js:1087-1101 | what the cursor has passed unseen, with nothing carrying it in flight, stays unseen over every run |
| RoomClient.RoomView.SeedEntryFromBackup | src/browser/room.js:791-839 | rows, seen ids, cursor and earlier state of a restore |
| RoomClient.RoomView.BeginPoll | src/browser/room.js:1244-1261 | one poll at a time, cold page or forward read |
| RoomClient.RoomView.TakeUnseen | src/browser/room.js:1274-1283 | the loop renders the unseen ids of a batch in order |
| RoomClient.RoomView.PollArrived | src/browser/room.js:1270-1318 | rendering, cursor, earlier state and the head check of a restore |
| RoomClient.RoomView.HeadCheckArrived | src/browser/room.js:1111-1125 | keeps the restore when the head is in the answer, discards it otherwise |
| RoomClient.RoomView.DiscardRestoredHistory | src/browser/room.js:1218-1234 | what the discard resets and what it leaves |
| RoomClient.RoomView.LoadEarlier | src/browser/room.js:956-965 | the guards and the request |
| RoomClient.RoomView.EarlierArrived | src/browser/room.js:985-1020 | older unseen rows above the view, oldest id and has-more taken from the answer |
| RoomClient.RoomView.SendArrived | src/browser/room.js:1693-1696 | the own row, once, and the cursor |
| RoomClient.RoomView.AdvanceCursorTo | src/browser/room.js:1099-1101 | the cursor becomes the greater of the two |
| WaitStream.StreamIsTheLog | src/server/http.ts:614-676 | over every interleaving the responses' messages concatenate to an initial part of the log after the first cursor, and the next cursor stands exactly at the rest |
| WaitStream.StrandedExactly | src/server/wait.ts:17-30 | over every run a sleeping turn has something undelivered if and only if it was appended after the turn's log read, and with no notify outstanding is then stranded; each such append came without a notify or was notified before the turn registered |
| WaitStream.NotifiedAppendsStrandInTheGapOnly | src/server/http.ts:642-651 | where every append is notified, a stranded turn saw its empty first read, an append, a notify and its registration in this order, and nothing for it since |
| WaitStream.ResponsesAreChained | src/server/wait.ts:41-62 | over every run each response's cursor is its last message's id or the one it was asked from, never goes back, heartbeats exactly when empty on an open room, and a closed response is the last |
| WaitStream.NotifyInTheGapStrands | src/server/http.ts:642-651 | a run in which append and notify fall into the gap |
| WaitStream.UnnotifiedAppendStrands | src/cli/commands/message/transport.ts:36-41 | a run in which an append without a notify strands a turn already asleep |
| WaitStream.WakingAnswersTheTurn | src/server/http.ts:648-676 | whatever wakes it, the second reads answer with everything undelivered or with a heartbeat |
| WaitStream.ClosedRoomDeliversNothing | src/server/http.ts:923-941 | after a close no response carries messages |
| WaitStream.WaitHub.Wait | src/server/wait.ts:17-30 | adds one sleeper to its room |
| WaitStream.WaitHub.Done | src/server/wait.ts:21-27 | removes one sleeper and an emptied room |
| WaitStream.WaitHub.Notify | src/server/wait.ts:32-36 | wakes exactly the room's sleepers, once each and in order, and no other room |
| LoopGuard.PassesAreBounded | src/server/http.ts:1106-1193 | over every interleaving the posts let through for one agent number at most limit·(1 + resets of its own room) |
| LoopGuard.TheLimitIsReached | src/server/http.ts:1106-1131 | a fresh counter lets exactly its limit through in a row, so the bound is tight |
| LoopGuard.NonePassWhilePending | src/server/http.ts:1114-1118 | while a continuation is pending no agent's post passes, over any such run |
| LoopGuard.OtherRoomsAreUntouched | src/server/http.ts:1052-1056 | an event of another room changes neither this room's counters nor its pending cycle |
| LoopGuard.KeysSplitByRoom | src/protocol/validation.ts:1-13 | for separator-free room ids a prefix match finds exactly the room's own keys |
| LoopGuard.SeparatorInARoomIdLeaks | src/server/http.ts:1052-1056 | with the separator in a room id it would not |
| LoopGuard.CounterMoves | src/server/http.ts:1106-1131 | each event counts, clears or leaves one agent's counter, and when |
| LoopGuard.NeverWedged | src/server/http.ts:1133-1193 | in every run a pending room's own timer is armed or completing, and its completion opens the room whatever it finds |
| LoopGuard.OwnCycleNamesItsAlias | src/server/http.ts:1151-1193 | a completion that ends its own cycle names that cycle's agent |
| LoopGuard.CompletionEndsItsOwnCycleExactly | src/server/http.ts:1151-1193 | over every run the cycle a completion finds is its own if and only if it was at the firing and no human post, cancellation or other completion of the room came in between; then it names that cycle's agent |
| LoopGuard.StaleCompletionNamesTheWrongAlias | src/server/http.ts:1151-1193 | under every limit, a run in which a late completion ends another agent's cycle |
| LoopGuard.RoomGuards.ClearRoomLoopCounts | src/server/http.ts:1052-1056 | the key loop removes exactly the room's counters |
| LoopGuard.RoomGuards.CancelPendingAutoContinue | src/server/http.ts:1074-1079 | clears the pending entry and its timer, or does nothing |
| LoopGuard.RoomGuards.PostByAgent | src/server/http.ts:1112-1122 | refused, let through or over the limit, and the counter |
| LoopGuard.RoomGuards.PostByHuman | src/server/http.ts:1109-1113 | clears the room's counters and cancels its cycle |
| LoopGuard.RoomGuards.SchedulePendingAutoContinue | src/server/http.ts:1133-1145 | never replaces an existing cycle |
| LoopGuard.RoomGuards.CompletionStateRead | src/server/http.ts:1157-1193 | every outcome of the awaited read, and whom the approval names |
| Mentions.MaskingKeepsLayout | src/protocol/mentions.ts:52-72 | masking keeps the length and every line break |
| Mentions.MaskingMeaning | src/protocol/mentions.ts:52-89 | a character is blanked exactly when it is inside code, by parity of the fence lines and backticks before it |
| Mentions.MaskedAt | src/protocol/mentions.ts:52-89 | position by position, line breaks and characters outside code stay and every other becomes a blank |
| Mentions.MaskingIsIdempotent | src/protocol/mentions.ts:52-89 | masking a masked text changes nothing |
| Mentions.MaskInlineCode | src/protocol/mentions.ts:74-89 | the toggling loop blanks by backtick parity |
| Mentions.MaskCode | src/protocol/mentions.ts:52-72 | the line loop blanks by fence parity |
| Mentions.Exec | src/protocol/mentions.ts:28-31 | the leftmost match at or after lastIndex, with no mention skipped in between |
| Mentions.RunHidesNoMention | src/protocol/mentions.ts:28-31 | consuming a match hides no further mention |
| Mentions.AnalyzeMentions | src/protocol/mentions.ts:21-46 | the consuming scan computes the declarative analysis |
| Mentions.AnalysisMeaning | src/protocol/mentions.ts:21-46 | an alias is reported if and only if the text as written holds it, as a maximal slug run outside code, behind an at sign at a word boundary; the roster decides under which list; no duplicates |
| Mentions.FirstAppearancesAreOrdered | src/protocol/mentions.ts:31-43 | both lists are in order of first appearance |
| Markdown.HangsExactly | src/browser/markdown.js:103-127 | the loop never ends if and only if a block-start line no branch takes lies outside every fence |
| Markdown.StaysPutExactly | src/browser/markdown.js:23-116 | an iteration advances the cursor unless its line is such a line |
| Markdown.AcceptedIsStart | src/browser/markdown.js:118-127 | whatever a block branch takes counts as a block start, so the mismatch goes one way only |
| Markdown.EveryLineOnce | src/browser/markdown.js:22-116 | otherwise the blocks' spans are disjoint, in order, and cover every non-blank line |
| Markdown.BlocksHoldFrom | src/browser/markdown.js:22-116 | each block is its span's lines read as its kind reads them, and ends where its kind ends |
| Markdown.ShownIsAuthoredExactly | src/browser/markdown.js:69-101 | the numbers a browser gives the items equal the authored ordinals if and only if the carried ones fit a long |
| Markdown.ListsShowAuthoredNumbers | src/browser/markdown.js:67-101 | the same for every ordered list of a rendered input, blank lines included |
| Markdown.NumbersEndIsFinal | src/browser/markdown.js:74-86 | a loose ordered list ends only where no further item follows its blank lines |
| Markdown.ReadCode | src/browser/markdown.js:29-39 | the fence loop |
| Markdown.ReadQuote | src/browser/markdown.js:52-62 | the quote loop |
| Markdown.ReadBullets | src/browser/markdown.js:67-101 | the unordered list loop |
| Markdown.ReadNumbers | src/browser/markdown.js:67-101 | the ordered list loop with lookahead, start and values |
| Markdown.ReadBlock | src/browser/markdown.js:23-116 | one iteration is the specified step |
| Markdown.RenderBlocks | src/browser/markdown.js:22-116 | the whole loop, or where it would stay for ever |
| ShellQuoting.QuoteRoundTrip | src/server/runtime.ts:58-60 | the shell reads a quoted string, whatever it holds, as one word with that value |
| ShellQuoting.QuoteReads | src/server/runtime.ts:58-60 | a quoted string extends the word before it by exactly its characters |
| ShellQuoting.ServeCommandParses | src/server/runtime.ts:92-94 | the serve command parses to the home assignment and the intended arguments |
| ShellQuoting.SessionCommandParses | src/server/runtime.ts:104-107 | with the log appended it also parses to the two redirections |
| ShellQuoting.DetachedCommandParses | src/server/runtime.ts:104-107 | tmux receives session name and command line as one argument each |
| ShellQuoting.NestedQuotingRoundTrip | src/server/runtime.ts:86-125 | two rounds of parsing give back home, CLI, port, URL and log path for every input |

## Left out

- HTTP servers, sockets, headers, body streaming, process spawning and the DOM: only the state changes they trigger are modelled.
- Token hashing, random identifiers, SHA-256 file names, JSON and URL parsing: parameters, assumed fresh or injective where that matters.
- `String(value ?? "")` and `message.type ?? "chat"`: every field of a message or post is a text here. Redactions the room page and the bridge apply beforehand (src/browser/room.js:692-699, src/platform/http.ts:650-670) only decide which texts are handed in.
- src/storage/lock.ts is modelled as a transition system of many processes over the files, one step per file-system call, and not as a class; retry timing, the acquire timeout's length and reused process ids are not modelled.
- WriterLock.PlainRunsExclude: covers only runs without aged reclaim and takeover, because with either of them exclusion is false; `ExclusionExactly` gives the boundary.
- WriterLock.DeadHolderIsRecovered: says that recovery is possible, not that a fair scheduler reaches it.
- Torn log lines and partial writes inside one file-system call: an append happens whole or not at all.
- Metering of route registration and close (src/tunnel/broker.ts:177-182, src/tunnel/broker.ts:221-228): fire-and-forget, and a repeated close charges again.
- QuotaReached.OvershootIsReached: covers the limits that leave room for so many calls in the whole minutes of one quota window; `QuotaRate.RateBound` is the ceiling where they do not.
- QuotaBound.OvershootBound: bounds the relay_requests dimension only; bytes are charged after the response and have no such bound.
- JoinedHistory.WrittenWithinCap: needs room id and base URL of at most 17,000 code units together, because the source puts no bound of its own on them.
- Numbers beyond 2^53, where JavaScript rounds: message ids and list ordinals are exact integers here.
- Characters are Unicode scalar values, so lengths in `Mentions` and `Markdown` count them and not UTF-16 code units; `JsonSize` counts code units.
- Broker.TunnelBroker.Heartbeat: like the other methods that search by identifiers it assumes that the table holds each route id once, which `Broker.RunMoves` proves of every run.
- `confirmSeededAuthors`, notifications, scrolling and the one-time load of a closed room (src/browser/room.js:1240): display only, or a single guard.
- RoomClient.ContiguousView: states no gaps for runs without sends and restores; a restored copy may itself have gaps, and sends are covered by `SendKeepsWindowExactly`.
- WaitStream.StreamIsTheLog: assumes that a response the server sends is the one the next turn starts from; a lost response makes its messages come again.
- WaitStream and RoomClient read a log with strictly increasing ids; `RoomStore.IncreasingExactly` says when the store's log is one.
- WaitStream models one participant's turns; turns of several participants share only the log and the notifies.
- LoopGuard.PassesAreBounded: counts posts the guard lets through, whether or not the append that follows succeeds.
- `renderSafeMarkdown`'s compact mode and inline markup (src/browser/markdown.js:129-238): no block structure.
- ShellQuoting interprets plain characters, quotes, backslashes, blanks and operators; text with unquoted expansions, patterns or comments reads as uninterpreted, and no generated command contains any. NUL characters, which no shell word can hold, are not excluded.
- Attention modes, wake tiers, platform status, registry, account and boardroom validation: small tables or single-branch checks.
