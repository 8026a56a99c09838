# QuickTransfer: a verified model of its state machines

QuickTransfer is a control plane and a storage plane for temporary file delivery. Most of
its Go code consists of small state machines that run inside SQLite transactions and share
invariants that no single query enforces. This project models those state machines in Dafny
4.11 and proves what every run of their steps keeps.

To check the whole project, run `dafny verify dfyconfig.toml` in this directory.

## How the model is organised

A transaction of the store is a function from the state it reads to the state it commits, or
to an error that commits nothing; the store takes the writer lock first, so a transaction is
one atomic step. Runs are sequences of such steps in any order, with any arguments and any
failures. In each area the `Safety` and `Runs` files prove what every step and every run keeps,
and the `Laws` file states what each transaction does and when it succeeds, in terms of balances,
rows and instants rather than of the functions that compute them. Where the source works by updating rows, maps, files or counters step by step, a
class or a loop does the same and is proved equal to the function, rollback included.

| files | subject |
|---|---|
| `Basics.dfy` | optional values, results, the 64-bit limit |
| `Sums.dfy` | sums over tables, the meaning of `SUM(...)` queries |
| `TrafficPlanner.dfy`, `TrafficLedger.dfy`, `TrafficSafety.dfy`, `TrafficRuns.dfy`, `TrafficSummary.dfy`, `TrafficConfluence.dfy`, `TrafficLaws.dfy`, `TrafficStore.dfy` | upload traffic: planning, holding, settling, refunding, granting and revoking bytes |
| `Uploads.dfy`, `UploadSafety.dfy`, `UploadLaws.dfy`, `UploadStore.dfy` | upload creation and remote completion callbacks, coupled to the traffic ledger |
| `DownloadReports.dfy`, `Retrieval.dfy`, `RetrievalSafety.dfy`, `RetrievalRuns.dfy`, `RetrievalLaws.dfy`, `RetrievalStore.dfy` | retrieval sessions, download reservations, slots, leases, progress reports |
| `Migration.dfy`, `MigrationSafety.dfy`, `MigrationLaws.dfy`, `MigrationRun.dfy` | the offline storage migration with crashes and reruns |
| `ResumableUpload.dfy` | the PATCH and HEAD handlers and the browser loop over a lossy network |
| `Membership.dfy`, `Points.dfy`, `Orders.dfy`, `OrderSafety.dfy`, `OrderRuns.dfy`, `OrderLaws.dfy`, `OrderStore.dfy` | membership accumulation, the points book, orders and refunds |
| `ReplayGuard.dfy`, `TokenBucket.dfy`, `Scanner.dfy`, `LogRotation.dfy` | replay protection, rate limiting, streaming search, log rotation |

## Where the code differs from what one would expect

- Remote completion: the comment at `internal/app/remote_store.go:18-21` says a repeated event
  is idempotent and a stale one rejected. The code also accepts a callback that carries the
  version *after* the verdict, because it takes the row for one written by an older release
  (lines 65-79), and then advances the version a second time. `UploadSafety.DoubleAdvanceHappens`
  is a concrete case. `UploadSafety.VersionAdvancesOnceExactly` says when a run advances the version
  exactly once, and `UploadSafety.VersionAdvancesOnce` proves the promised behaviour for callbacks
  that carry the issued version.
- Local scan verdicts: 'blocked' and 'quarantined' are written without looking at the status
  (`internal/app/store.go:455-474`), so they can overwrite a row deleted during the scan. That a
  verdict is final (`UploadSafety.VerdictIsFinal`) is therefore stated for uploads on a node.
- Closing a retrieval session: the code compares the number of files fetched with the number of
  files ready (`internal/app/retrieval_store.go:281-297`). A file withdrawn after it was fetched then
  stands for one still missing, and the session is closed although a file on offer was never fetched
  (`RetrievalLaws.ClosesEarly`). `RetrievalLaws.ClosesExactly` gives the exact condition, and
  `RetrievalLaws.ClosesWhenAllFetched` the intended behaviour as long as nothing is withdrawn.
- Remaining traffic: the planner can spend more than the account summary shows when a hold
  rests on an expired entitlement. `TrafficSummary.CapacityAgainstSummary` gives the exact difference.
- Token bucket: the limiter keeps to `burst + rate * length` in every run with room in its map if
  and only if `rate * lifetime >= burst`, and exactly then pruning cannot be observed
  (`TokenBucket.RateKeptExactly`). The configuration check at `internal/app/storage_config.go:272-275`
  also accepts settings outside that condition, such as a rate of 1 with a burst of 1000: a key that
  spends its burst, stays idle for ten minutes and returns on a pruning operation gets a full
  bucket it has not earned (`TokenBucket.OveradmittingRun`).
- Resumable upload: the browser accepts a success whose offset has not moved and then restarts
  its retry budget, so a server that answers so keeps it busy for ever
  (`ResumableUpload.StandingStillNeverEnds`). Termination rests on the node's PATCH contract
  (`ResumableUpload.ContractBoundsTheLoop`) and not on the client's own checks.
- Points: the balance is checked before the event key, so a repeated withdrawal can be refused
  although it would have had no effect; `OrderRuns.RefundSucceedsExactly` shows that this never decides an order refund.

## Model

| member | source | states |
|---|---|---|
| `TrafficPlanner.PlanSucceedsExactly` | internal/app/commerce_store.go:386-471 | planning succeeds if and only if the required bytes fit what is available after held and legacy bytes; the allocations then sum to the requirement |
| `TrafficPlanner.PlanDrainsInOrder` | internal/app/commerce_store.go:447-470 | for every k, the first k sources give as much of the requirement as they hold beyond the legacy bytes: sources are drained in order |
| `TrafficPlanner.PlanWithinSources` | internal/app/commerce_store.go:447-470 | every allocation is positive, names a listed source, and no source gives more than it has |
| `TrafficPlanner.ApplyLegacyHold` | internal/app/commerce_store.go:447-451 | the first pass, a loop over the sources, takes the legacy hold from them in order |
| `TrafficPlanner.AllocateInOrder` | internal/app/commerce_store.go:452-466 | the second pass allocates in order and returns what is still missing |
| `TrafficPlanner.PlanAllocations` | internal/app/commerce_store.go:447-471 | both passes together refuse or return the plan the lemmas above describe |
| `TrafficSafety.EnsureAccountKeeps` | internal/app/commerce_store.go:369-384 | creating or converting an account keeps solvency, the shared counter and conservation |
| `TrafficSafety.ReserveKeeps` | internal/app/commerce_store.go:473-511 | a new hold keeps the reserved allocations of every source within its balance, and the counter exact |
| `TrafficSafety.SettleKeeps` | internal/app/commerce_store.go:513-604 | settling keeps the whole ledger invariant: solvency, counter, conservation per source |
| `TrafficSafety.RefundKeeps` | internal/app/commerce_store.go:606-664 | giving a hold back keeps the whole ledger invariant |
| `TrafficSafety.GrantKeeps` | internal/app/commerce_store.go:241-256 | a new entitlement (order, code, check-in or daily login) keeps the whole ledger invariant |
| `TrafficSafety.RevokeOrderKeeps` | internal/app/admin_store.go:348-379 | deleting the entitlements of a refunded order keeps the whole ledger invariant and leaves none of them |
| `TrafficSafety.ReleaseLegacyKeeps` | internal/app/commerce_store.go:852-878 | retiring an older release's download hold keeps the counter exact |
| `TrafficSafety.ResolvingNeverRejected` | internal/app/commerce_store.go:513-664 | in a ledger that satisfies the invariant, settling or refunding a reserved charge is never refused, expired entitlements included |
| `TrafficRuns.RunKeeps` | internal/app/commerce_store.go:369-664 | any sequence of transactions by any users keeps solvency, the exact counter and conservation |
| `TrafficRuns.EveryHoldStaysResolvable` | internal/app/commerce_store.go:513-664 | after any run, every charge still reserved can be settled and can be refunded |
| `TrafficRuns.ChargesResolveOnce` | internal/app/commerce_store.go:513-535 | over any run a charge keeps its user, amount and allocations, and leaves the reserved status at most once |
| `TrafficRuns.FreeConserved` | internal/app/commerce_store.go:369-384 | once converted, free balance plus settled free bytes never changes over any run |
| `TrafficRuns.InitialGrantOnce` | internal/app/commerce_store.go:369-384 | the initial free grant is given exactly once, whatever runs afterwards |
| `TrafficSummary.CapacityAgainstSummary` | internal/app/identity_store.go:489-497 | the planner's capacity is the summary's amount plus the holds on expired entitlements, is never less than the remaining traffic shown, and equals it exactly when no such hold makes a difference |
| `TrafficSummary.ReserveSucceedsExactly` | internal/app/commerce_store.go:473-511 | a hold is accepted if and only if it fits that capacity |
| `TrafficConfluence.DecideAllIsAfter` | internal/app/commerce_store.go:513-664 | settling some reserved charges and refunding others gives a ledger described without reference to order |
| `TrafficConfluence.OrderDoesNotMatter` | internal/app/commerce_store.go:513-664 | the same decisions in any two orders give the same ledger |
| `TrafficLaws.SourcesInOrder` | internal/app/commerce_store.go:426-446 | the planner's list is the free balance, then exactly the user's unexpired, unspent entitlements by expiry and id, each with what other holds leave of it |
| `TrafficLaws.ReserveHoldsAll` | internal/app/commerce_store.go:473-511 | a hold is a new reserved charge of the whole requirement for that user; the counter grows by it, and no balance moves |
| `TrafficLaws.ReserveTakesInOrder` | internal/app/commerce_store.go:426-511 | for every k, the first k sources of that list give as much of the hold as they have |
| `TrafficLaws.SettleSpends` | internal/app/commerce_store.go:569-602 | settling lowers every balance of the user by what the charge allocated on it and the counter by its amount, and nothing else |
| `TrafficLaws.SettleSucceedsExactly` | internal/app/commerce_store.go:561-602 | in any ledger, a reserved charge settles if and only if it adds up, the counter covers it and every source named can pay its part |
| `TrafficLaws.RefundReleases` | internal/app/commerce_store.go:606-664 | a refund lowers the counter by the amount and touches no balance |
| `TrafficLaws.RefundUndoesReserve` | internal/app/commerce_store.go:473-664 | holding and giving back leaves every account and entitlement as before the hold |
| `TrafficLaws.GrantRaisesSummary` | internal/app/commerce_store.go:250-253 | a grant raises what its user is shown by its bytes while unexpired, and nobody else's |
| `TrafficLaws.RevokeTakesOnlyItsOwn` | internal/app/admin_store.go:348-379 | revoking removes exactly the entitlements of that order, all of them unspent |
| `TrafficLaws.ReleaseLegacyFrees` | internal/app/commerce_store.go:852-878 | retiring a legacy hold removes it and frees exactly its bytes |
| `TrafficLaws.NewAccountsStartEqual` | internal/app/commerce_store.go:369-384 | an account opened at registration and one opened by the first upload end up with the same grant |
| `TrafficLaws.OldAccountsKeepTheirBalance` | internal/app/commerce_store.go:369-384 | conversion grants only to an account that never had a period and holds nothing |
| `TrafficStore.Store.EnsureTrafficAccount` | internal/app/commerce_store.go:369-384 | the row updates produce the specified account |
| `TrafficStore.Store.PlanUploadTraffic` | internal/app/commerce_store.go:386-471 | the planner run against the stored rows answers as specified, and covers exactly what fits the capacity |
| `TrafficStore.Store.ReserveUploadTraffic` | internal/app/commerce_store.go:473-511 | commits the specified hold or leaves every table unchanged |
| `TrafficStore.Store.DebitRow` | internal/app/commerce_store.go:571-592 | one conditional update applies exactly when its row still holds the bytes, and a stale free period is told apart |
| `TrafficStore.Store.DebitAll` | internal/app/commerce_store.go:569-593 | conditional updates, one per allocation, all apply exactly when the charge is payable and are all rolled back otherwise |
| `TrafficStore.Store.SettleUploadTraffic` | internal/app/commerce_store.go:513-604 | commits the specified settlement or leaves every table unchanged, with the same error |
| `TrafficStore.Store.RefundUploadTraffic` | internal/app/commerce_store.go:606-664 | commits the specified refund or leaves every table unchanged, with the same error |
| `UploadSafety.CallbackCommitsExactly` | internal/app/remote_store.go:22-126 | a callback commits if and only if the row accepts it, and then records verdict, digest and version with the charge settled, blocked uploads included |
| `UploadSafety.ExactRetryIsIdempotent` | internal/app/remote_store.go:58-84 | delivering an accepted callback again succeeds and changes nothing |
| `UploadSafety.VerdictIsFinal` | internal/app/remote_store.go:22-126 | over any run of events the first accepted verdict and digest of an upload on a node never change, except that the upload may be deleted |
| `UploadSafety.VersionMovesExactly` | internal/app/remote_store.go:58-126 | an event moves the placement version by one exactly when it is an accepted callback carrying the current version |
| `UploadSafety.VersionStaysExactly` | internal/app/remote_store.go:22-126 | over any run the version stays within a bound if and only if no callback accepted on its arrival carries that bound |
| `UploadSafety.VersionAdvancesOnceExactly` | internal/app/remote_store.go:22-126 | a run advances the version exactly once if and only if it holds an accepted callback with the starting version and none with the next one |
| `UploadSafety.VersionAdvancesOnce` | internal/app/remote_store.go:22-126 | the version advances exactly once, with the verdict, in every run whose callbacks carry the issued version |
| `UploadSafety.NewerVersionMovesTwice` | internal/app/remote_store.go:58-79 | a callback carrying the version after the verdict always advances the version again and makes the first callback's retry fail |
| `UploadSafety.DoubleAdvanceHappens` | internal/app/remote_store.go:58-79 | a guest's upload, created from an empty control state, whose version reaches 3 |
| `UploadSafety.LateRetry` | internal/app/remote_store.go:22-126 | after any run an accepted callback is accepted again, without effect, exactly when the upload is not deleted and no newer version moved the row |
| `UploadSafety.BilledForGood` | internal/app/commerce_store.go:513-535 | a settled charge stays settled through every later event |
| `UploadSafety.CreateRetryChargesNothing` | internal/app/commerce_store.go:306-318 | taking any repeated creation of an existing upload out of a run leaves the same rows, balances and holds at its end |
| `UploadSafety.CreateRetrySucceeds` | internal/app/commerce_store.go:274-367 | after any run, an exact retry of a creation succeeds without changing anything exactly until the row is deleted or completed remotely |
| `UploadSafety.DeleteKeeps` | internal/app/store.go:561-580 | deleting an upload refunds its open hold, is never refused by the ledger, and keeps uploads and charges coupled |
| `UploadSafety.FinishKeeps` | internal/app/store.go:397-415 | a finished local upload settles its charge and keeps uploads and charges coupled |
| `UploadSafety.ScanKeeps` | internal/app/store.go:450-474 | a scan verdict on a local upload is never refused by the ledger and keeps uploads and charges coupled, even when it overwrites a deleted row |
| `UploadSafety.RunKeepsCoupled` | internal/app/remote_store.go:22-126 | every run of creations, callbacks, completions, scans, deletions and ledger steps keeps uploads and charges coupled and the ledger invariant |
| `UploadLaws.CreateSucceedsExactly` | internal/app/commerce_store.go:274-367 | a new upload is accepted if and only if its length is positive, the transfer is open with room for it, and a user's traffic covers it |
| `UploadLaws.CreateHoldsTheLength` | internal/app/commerce_store.go:319-367 | it holds its whole length for the transfer's owner, counts in the transfer, and starts uploading as requested |
| `UploadLaws.CreatedIsHeldUntilResolved` | internal/app/commerce_store.go:274-367 | after any later run the charge still names that owner and length, and while it is reserved it can be settled and refunded |
| `UploadLaws.FinishBills` | internal/app/store.go:397-415 | a local upload is finished exactly while it is uploading, and is billed then |
| `UploadLaws.ClaimTakesFinished` | internal/app/store.go:437-446 | the scan worker takes exactly the finished local uploads |
| `UploadLaws.ScanRecords` | internal/app/store.go:450-474 | which verdicts are recorded on which rows, and that a blocked one releases the hold |
| `UploadLaws.DeleteReleases` | internal/app/store.go:561-580 | a deleted upload holds nothing, keeps what it was billed, and leaves the transfer's counters if it was seen uploading |
| `UploadStore.Store.CommitTerminalRow` | internal/app/remote_store.go:47-57 | the row update and the settlement commit together or not at all |
| `UploadStore.Store.CompleteRemoteUploadPlacement` | internal/app/remote_store.go:22-126 | the method commits exactly the specified transition, with the same errors |
| `DownloadReports.EncodeRoundTrips` | internal/app/commerce_store.go:1097-1123 | every legal pair encodes within 64 bits and decodes to the same count marked final |
| `DownloadReports.EncodeIsOnto` | internal/app/commerce_store.go:1097-1123 | the encoder is onto the values from expected+2 to 2*expected, and decoding inverts it |
| `DownloadReports.ReportRanges` | internal/app/commerce_store.go:1105-1123 | for every expected length, which reports are progress, final or malformed, and which count each carries |
| `DownloadReports.EncodesExactly` | internal/app/commerce_store.go:1097-1103 | a count is encoded if and only if it is partial and the code fits 64 bits |
| `RetrievalSafety.CreateRetrievalKeeps` | internal/app/retrieval_store.go:45-200 | opening or reusing a session and issuing its ticket keeps slots, links, active streams and leases |
| `RetrievalSafety.CreateLegacyKeeps` | internal/app/commerce_store.go:885-969 | the same for downloads without retrieval sessions |
| `RetrievalSafety.BeginKeeps` | internal/app/commerce_store.go:982-1095 | starting a stream activates its session and keeps the invariant |
| `RetrievalSafety.SettleKeeps` | internal/app/commerce_store.go:1129-1250 | progress and final reports keep the invariant |
| `RetrievalSafety.CloseCompletedKeeps` | internal/app/retrieval_store.go:277-304 | closing a session keeps the invariant, as nothing of it streams |
| `RetrievalSafety.AbortKeeps` | internal/app/retrieval_store.go:235-275 | handing a provisional slot back keeps the slot count exact |
| `RetrievalSafety.SweepSessionsKeeps` | internal/app/retrieval_store.go:306-366 | the expiry sweep releases lapsed sessions, hands back exactly their slots, and leaves no stream without an active session |
| `RetrievalSafety.ApplyKeeps` | internal/app/retrieval_store.go:45-366 | every step at every later instant keeps the invariant |
| `RetrievalSafety.ReportsRefusedExactly` | internal/app/commerce_store.go:1129-1250 | a report is refused exactly for its own content; the session touch inside settlement never rejects one |
| `RetrievalRuns.RunKeeps` | internal/app/commerce_store.go:885-1331 | every run with a non-decreasing clock keeps the invariant |
| `RetrievalRuns.SlotsInEveryRun` | internal/app/retrieval_store.go:87-132 | in every reachable state downloads equals the sessions not released, never exceeds the maximum, is below it while active and equals it while exhausted and unexpired |
| `RetrievalRuns.AtMostMaxStream` | internal/app/commerce_store.go:1040-1067 | over a whole run at most max_downloads sessions ever start to stream |
| `RetrievalRuns.LifecycleInEveryRun` | internal/app/commerce_store.go:971-1331 | settled and released are final, progress never lowers the count, a settled count is frozen and the hard deadline is fixed once |
| `RetrievalRuns.LeasesInEveryRun` | internal/app/commerce_store.go:1207-1223 | in every reachable state no lease passes its hard deadline |
| `RetrievalRuns.SettledReportRepeats` | internal/app/commerce_store.go:1129-1250 | a report that settled a reservation can be repeated after any run and changes nothing |
| `RetrievalLaws.TicketGrantedExactly` | internal/app/retrieval_store.go:45-200 | the exact conditions under which a retrieval ticket is granted |
| `RetrievalLaws.TicketIssued` | internal/app/retrieval_store.go:106-200 | a granted request leaves one usable ticket; a named or found session takes no slot, a new one exactly one, for five minutes of thirty |
| `RetrievalLaws.RecipientTakesOneSlot` | internal/app/retrieval_store.go:92-105 | a recipient with a provisional session gets the newest of them and takes no second slot |
| `RetrievalLaws.OneTicketInEveryRun` | internal/app/migrations.go:447-449 | in every run a session has at most one live ticket for a file |
| `RetrievalLaws.LegacyGrantedExactly` | internal/app/commerce_store.go:885-969 | the exact conditions under which a ticket without a session is granted |
| `RetrievalLaws.LegacyTicketIssued` | internal/app/commerce_store.go:885-969 | it leaves a usable ticket of that recipient, renews theirs in time, drops theirs past it, and takes no slot |
| `RetrievalLaws.BeginSucceedsExactly` | internal/app/commerce_store.go:982-1095 | a stream starts if and only if its ticket is unused, in time and its session or transfer still serves; its lease, deadline, session and count are then as stated |
| `RetrievalLaws.RefusedStartDropsTicket` | internal/app/commerce_store.go:1029-1059 | a refused start spends at most the ticket |
| `RetrievalLaws.ReadingExactly` | internal/app/commerce_store.go:1161-1170 | how a report is read for local, forced and node streams |
| `RetrievalLaws.ProgressRecorded` | internal/app/commerce_store.go:1207-1223 | progress before the deadline records the bytes and renews the lease up to the deadline |
| `RetrievalLaws.FirstProgressSetsDeadline` | internal/app/commerce_store.go:1189-1206 | a stream of an older release gets its deadline with its first progress report |
| `RetrievalLaws.LateProgressSettles` | internal/app/commerce_store.go:1224-1243 | progress at the deadline or later settles the reservation with it |
| `RetrievalLaws.EmptyStreamReturnsCount` | internal/app/commerce_store.go:1230-1234 | a stream that brought nothing gives the count of a transfer without sessions back |
| `RetrievalLaws.ClosesExactly` | internal/app/retrieval_store.go:277-304 | a session is closed if and only if something is on offer, nothing streams, and no more files are missing than were fetched and withdrawn since |
| `RetrievalLaws.ClosesWhenAllFetched` | internal/app/retrieval_store.go:277-304 | without withdrawn files: left alone while a file on offer is missing, closed once all are fetched |
| `RetrievalLaws.ClosesEarly` | internal/app/retrieval_store.go:277-304 | a concrete session closed although a file on offer was never fetched |
| `RetrievalLaws.SettlementCloses` | internal/app/commerce_store.go:1227-1250 | a final report with bytes settles its reservation with them and closes its session exactly then |
| `RetrievalLaws.AbortReturnsSlot` | internal/app/retrieval_store.go:235-275 | giving up drops the ticket, frees exactly one slot of a provisional session and reopens a full transfer |
| `RetrievalLaws.SweepLeavesNothingOverdue` | internal/app/retrieval_store.go:306-366 | which sessions a sweep releases, closes and leaves |
| `RetrievalLaws.SweepDropsTickets` | internal/app/retrieval_store.go:316-321 | the unused tickets of overdue sessions are dropped, and only those |
| `RetrievalLaws.SweepReturnsSlots` | internal/app/retrieval_store.go:342-358 | a transfer gets back one slot for each overdue session |
| `RetrievalLaws.TicketSweepExact` | internal/app/commerce_store.go:1278-1283 | unused tickets past their time are dropped, and only those |
| `RetrievalLaws.StreamsHaveDeadlines` | internal/app/commerce_store.go:1287-1300 | after the repair sweeps every stream has a deadline and its row shows it |
| `RetrievalLaws.EndedTransfersServeNothing` | internal/app/store.go:531-537 | revoking and expiring end exactly the active transfers concerned |
| `RetrievalStore.Store.ReleaseSessions` | internal/app/retrieval_store.go:342-358 | the loop over expired sessions releases each and hands its slot back |
| `RetrievalStore.Store.ReleaseExpiredRetrievalSessions` | internal/app/retrieval_store.go:306-366 | the whole sweep, row by row, is the specified one |
| `RetrievalStore.Store.AbortRetrievalDownloadReservation` | internal/app/retrieval_store.go:235-275 | the row updates are the specified abort |
| `RetrievalStore.Store.BeginDownloadReservation` | internal/app/commerce_store.go:982-1095 | the row updates are the specified start of a stream, or nothing |
| `RetrievalStore.Store.FinishReservation` | internal/app/commerce_store.go:1227-1250 | the final half of a settlement, with rollback |
| `RetrievalStore.Store.SettleDownloadReservation` | internal/app/commerce_store.go:1129-1250 | the row updates are the specified settlement, or nothing |
| `MigrationSafety.StoppedRunIsSafe` | internal/app/storage_migration.go:138-174 | a run stopped after any step has not failed, every placed row has a verified object and a matching record, and a rerun's audit passes again |
| `MigrationSafety.ObjectSafe` | internal/app/storage_migration.go:840-1004 | publishing an object by link, copy or reuse never fails after a clean audit and damages no other row |
| `MigrationSafety.RecordSafe` | internal/app/storage_migration.go:1006-1045 | writing or recognising the record never fails after a clean audit and damages no other row |
| `MigrationSafety.SwitchSafe` | internal/app/storage_migration.go:1047-1106 | switching a backed row succeeds and changes only that row |
| `MigrationSafety.AttemptsSafe` | internal/app/storage_migration.go:138-174 | any number of runs stopped anywhere keeps every placed row backed |
| `MigrationSafety.RerunConverges` | internal/app/storage_migration.go:138-174 | after any stopped runs, one full run reaches the same rows, records and file contents as an uninterrupted run |
| `MigrationSafety.ImportsAddUp` | internal/app/storage_migration.go:138-174 | imports summed over all runs equal the rows that were local and ready at first |
| `MigrationLaws.AuditPassesExactly` | internal/app/storage_migration.go:438-597 | the audit passes if and only if the bytes fit 64 bits, nothing is unfinished, and every ready row is still placed or can be moved |
| `MigrationLaws.SwitchPlacesOnNode` | internal/app/storage_migration.go:1047-1106 | a switched row names the node, its own id as key, version 1 and no local path; every other row stays |
| `MigrationLaws.RecordDescribesRow` | internal/app/storage_migration.go:1006-1045 | the record names the target path and the row's own metadata, complete and clean |
| `MigrationLaws.ObjectHoldsContent` | internal/app/storage_migration.go:840-1004 | the object has the row's length and digest, no other file is touched, and a copy is independent of its source |
| `MigrationLaws.MigratedWorld` | internal/app/storage_migration.go:138-174 | after a full run every ready row is on the node with its content and record, and every old file is as it was |
| `MigrationLaws.OneRowMigrates` | internal/app/storage_migration.go:138-174 | a concrete world that passes the audit and is migrated |
| `MigrationRun.Migrator.PrepareObject` | internal/app/storage_migration.go:840-894 | the file-system step is the specified one and fails without change |
| `MigrationRun.Migrator.ImportRecord` | internal/app/storage_migration.go:1006-1045 | the record step is the specified one and fails without change |
| `MigrationRun.Migrator.SwitchRow` | internal/app/storage_migration.go:1047-1106 | the control switch is the specified one and fails without change |
| `MigrationRun.Migrator.MigrateRow` | internal/app/storage_migration.go:147-172 | object, record and switch for one row, up to any stopping point |
| `MigrationRun.Migrator.MigrateRows` | internal/app/storage_migration.go:147-172 | the loop finishes the rows in order and counts exactly the rows it switched |
| `MigrationRun.Migrator.RunStorageMigration` | internal/app/storage_migration.go:102-175 | the apply loop writes only after a clean audit, counts its imports exactly and leaves placed rows backed wherever it stops |
| `ResumableUpload.PatchKeeps` | internal/app/storage_node.go:726-834 | one PATCH keeps the first offset bytes equal to the source's, never lowers the offset, and on success moves it |
| `ResumableUpload.StoredPrefixIsGenuine` | internal/app/storage_node.go:750-834 | under any deliveries of genuine chunks, duplicated, reordered or torn, the stored prefix stays genuine and the offset never decreases |
| `ResumableUpload.PatchSucceedsExactly` | internal/app/storage_node.go:750-834 | the exact conditions under which a chunk is taken, and what is stored then |
| `ResumableUpload.StorageUpload.WriteUploadChunk` | internal/app/storage_node.go:1712-1744 | truncates to the persisted offset and appends; a failure leaves the truncation and part of the payload |
| `ResumableUpload.StorageUpload.PatchUpload` | internal/app/storage_node.go:726-834 | the handler's updates are the specified ones for every fate of the request |
| `ResumableUpload.ParseUploadOffset` | src/api.js:181-216 | an accepted offset lies between the previous one and the file size |
| `ResumableUpload.ReadOffset` | src/api.js:619-637 | a working HEAD request returns the node's offset |
| `ResumableUpload.SendChunk` | src/api.js:662-683 | one request over the network keeps the stored prefix genuine; a success means the node moved past the chunk's start |
| `ResumableUpload.UploadFile` | src/api.js:639-719 | the loop terminates by bytes left and retries left, within four requests per byte and four more; when it finishes the node holds the whole file; on a calm network with a ready node it finishes |
| `ResumableUpload.ContractBoundsTheLoop` | src/api.js:662-716 | if every success moves the offset, the loop survives at most as many iterations as bytes left and retries left allow |
| `ResumableUpload.StandingStillNeverEnds` | src/api.js:662-716 | successes that repeat the offset bring the loop back to the same offset with a full retry budget, so it survives any number of them |
| `Membership.BenefitsAccumulate` | internal/app/redemption_store.go:560-618 | any list of benefits at one instant gives the plan and end time described by the bag alone |
| `Membership.OrderDoesNotMatter` | internal/app/redemption_store.go:560-631 | the same benefits in any order give the same plan and end time |
| `Membership.RefusedExactlyOnOverflow` | internal/app/redemption_store.go:592-600 | without lifetime in play, a list is refused exactly when the total time overflows 64 bits |
| `Membership.TimeIsNeverLost` | internal/app/redemption_store.go:560-618 | over any run at any times, lifetime is absorbing and the end time never goes back |
| `Membership.RankIsKeptWhileCurrent` | internal/app/redemption_store.go:592-606 | as long as each benefit arrives while the membership held at that moment is running, renewals included, the rank never goes down |
| `Membership.ValidExactly` | internal/app/redemption_store.go:84-106 | a benefit is valid if and only if it names a plan and leaves the days out or gives the plan's own |
| `Membership.BenefitsAddDays` | internal/app/redemption_store.go:592-606 | 30 or 365 days from the running end or from now; only a running year outranks a month |
| `Points.AddPointsKeeps` | internal/app/identity_store.go:553-575 | the balance stays the non-negative sum of the entries, each entry records the running sum, each key is booked once |
| `OrderSafety.SandboxKeeps` | internal/app/commerce_store.go:152-183 | completing a sandbox order keeps the book, the orders, the entitlements and the ledger in agreement |
| `OrderSafety.PayPointsKeeps` | internal/app/commerce_store.go:185-211 | paying with points keeps the book, the orders, the entitlements and the ledger in agreement |
| `OrderSafety.RefundKeeps` | internal/app/admin_store.go:320-394 | a refund cancels the order's points and leaves none of its entitlements |
| `OrderSafety.CloseKeeps` | internal/app/identity_store.go:428-451 | closing stale orders keeps the book, the orders and the entitlements in agreement |
| `OrderSafety.CreateKeeps` | internal/app/commerce_store.go:80-111 | a user and idempotency key name one order, and a new order has no effect yet |
| `OrderSafety.ApplyKeeps` | internal/app/commerce_store.go:80-272 | every step of the shop keeps book, orders, entitlements and ledger in agreement |
| `OrderRuns.RunKeeps` | internal/app/commerce_store.go:80-272 | and so does every run |
| `OrderRuns.PointsAndOrdersAgree` | internal/app/commerce_store.go:152-272 | after any run balances are non-negative sums, keys are unique, an order's net effect is zero unless paid and then exactly one spend or reward, and only a paid order has an entitlement |
| `OrderRuns.BalanceInClosedForm` | internal/app/identity_store.go:553-575 | a balance is what was awarded plus one spend or reward for each paid order of the user |
| `OrderRuns.RunEvolves` | internal/app/commerce_store.go:80-272 | no run changes an order's terms, reopens it, or rewrites the points book |
| `OrderRuns.RefundSucceedsExactly` | internal/app/admin_store.go:320-394 | a refund succeeds if and only if the order is paid, carries no membership, none of its bytes is spent or held, and the points can be put right |
| `OrderRuns.PaymentsRepeat` | internal/app/commerce_store.go:185-211 | repeating a payment with points that went through changes nothing |
| `OrderLaws.OrderTakesProductTerms` | internal/app/commerce_store.go:80-111 | a new order is pending on its product's prices; asking again with the same key changes nothing |
| `OrderLaws.CompletesExactly` | internal/app/commerce_store.go:228-272 | an order completes if and only if it is pending, its transaction is new and everything it sells can be delivered |
| `OrderLaws.CompleteDeliversTraffic` | internal/app/commerce_store.go:241-256 | a completed order grants exactly the traffic of its product to its user, unspent, with the stated expiry |
| `OrderLaws.CompleteDeliversMembership` | internal/app/commerce_store.go:257-261 | it applies the membership of its product and touches no other member |
| `OrderLaws.RewardIsATenth` | internal/app/commerce_store.go:262-264 | the reward is a tenth of the price, rounded down, and at least one point |
| `OrderLaws.PaymentCostsThePrice` | internal/app/commerce_store.go:185-211 | paying with points costs exactly the order's price |
| `OrderLaws.SandboxEarnsTheReward` | internal/app/commerce_store.go:152-183 | a completed sandbox order earns exactly its reward and records its event |
| `OrderLaws.RefundUndoesTheOrder` | internal/app/admin_store.go:320-394 | a refund moves the balance back by what the order moved it and takes only this order's entitlements |
| `OrderLaws.StaleOrdersClose` | internal/app/identity_store.go:443-443 | a pending order is closed a day after its creation; nothing else is |
| `OrderLaws.NewUsersStartEmpty` | internal/app/migrations.go:80-88 | a new user has no plan, no points and no traffic |
| `OrderLaws.AwardsCountOnce` | internal/app/identity_store.go:220-222 | an award is worth a hundred points the first time and nothing again |
| `OrderLaws.PaidOrdersAreFulfilled` | internal/app/commerce_store.go:228-272 | over every run each paid order has the traffic its product sold when it was paid, whatever became of the catalog |
| `OrderLaws.OneDeliveryEach` | internal/app/commerce_store.go:228-272 | that is exactly one entitlement of that size and owner, or none if it sold none |
| `OrderLaws.TransactionsStayUnique` | internal/app/migrations.go:158-158 | no run lets one transaction pay for two orders |
| `OrderStore.Store.AddPointsTx` | internal/app/identity_store.go:553-575 | the inserts and updates are the specified booking, or nothing |
| `OrderStore.Store.ApplyVIPBenefitTx` | internal/app/redemption_store.go:560-618 | the row update is the specified membership, or nothing |
| `OrderStore.Store.CompleteOrderTx` | internal/app/commerce_store.go:228-272 | delivers as specified; a failure may leave partial work for the caller to roll back |
| `OrderStore.Store.CompleteSandboxOrder` | internal/app/commerce_store.go:152-183 | commits as specified or rolls everything back, the event included |
| `OrderStore.Store.PayOrderWithPoints` | internal/app/commerce_store.go:185-211 | commits as specified or rolls everything back, the spend included |
| `OrderStore.Store.RefundOrder` | internal/app/admin_store.go:320-394 | commits as specified or changes nothing |
| `ReplayGuard.Guard.Accept` | internal/app/storage_protocol.go:149-168 | the pruning loop keeps exactly the unexpired entries; a nonce is accepted exactly when none of them is its own |
| `ReplayGuard.Guard.VerifyInternalRequest` | internal/app/storage_protocol.go:209-266 | the guard is consulted only after every other check |
| `ReplayGuard.ValidInternalNonce` | internal/app/storage_protocol.go:310-322 | the character loop accepts exactly 8 to 128 letters, digits, hyphens and underscores |
| `ReplayGuard.ValidStorageNodeID` | internal/app/storage_protocol.go:324-336 | the same for 1 to 64 characters, dots included |
| `ReplayGuard.KeyInjective` | internal/app/storage_protocol.go:153-153 | the joined key identifies node and nonce |
| `ReplayGuard.PruningIsUnobservable` | internal/app/storage_protocol.go:149-168 | with a non-decreasing clock every verdict is that of a guard that never forgets |
| `ReplayGuard.AcceptedAtMostOnce` | internal/app/storage_protocol.go:222-264 | a node, nonce and timestamp is accepted at most once in any run |
| `ReplayGuard.AcceptedExactly` | internal/app/storage_protocol.go:209-266 | a request is accepted if and only if it is addressed, authentic, well formed, within sixty seconds either way and not blocked by one accepted before |
| `TokenBucket.RateLimiter.PruneLocked` | internal/app/storage_node.go:141-151 | every 256th operation drops exactly the entries idle past their lifetime |
| `TokenBucket.RateLimiter.AllowRequest` | internal/app/storage_node.go:109-139 | the updates are the specified ones, overflow buckets included |
| `TokenBucket.WaitingSuffices` | internal/app/storage_node.go:131-138 | a refused caller who waits as told is admitted |
| `TokenBucket.RoomForAll` | internal/app/storage_node.go:109-121 | with no more callers than the map holds, every call finds room |
| `TokenBucket.PruningIsUnobservable` | internal/app/storage_node.go:109-151 | with room in the map and `rate * lifetime >= burst`, every call gets the verdict and the wait of a bucket that is never dropped |
| `TokenBucket.AdmissionsBounded` | internal/app/storage_node.go:109-139 | under the same conditions a key is admitted at most burst + rate * length times in any stretch of a run |
| `TokenBucket.OveradmittingRun` | internal/app/storage_node.go:109-151 | whenever `rate * lifetime < burst`, a run of two callers with a non-decreasing clock in which a key is admitted twice its burst, more than the bound |
| `TokenBucket.RateKeptExactly` | internal/app/storage_node.go:102-151 | for every whole-number burst: all runs with room in the map respect the bound if and only if `rate * lifetime >= burst`, and exactly then all of them are answered as by buckets that are never dropped |
| `TokenBucket.OverflowBounded` | internal/app/storage_node.go:115-123 | callers who find the map full share at most burst + rate * length admissions per shared bucket, whatever the lifetime |
| `Scanner.CarrySuffices` | internal/app/scanner.go:105-113 | the signature occurs in the longer text exactly when it occurred before or occurs in the carry and the new chunk |
| `Scanner.ScanFor` | internal/app/scanner.go:96-122 | for every split into reads the loop flags exactly the content that contains the signature, and hashes all of it |
| `Scanner.ScanFile` | internal/app/scanner.go:91-127 | the same for the built-in signature |
| `LogRotation.ShiftDropsOnlyTheOldest` | cmd/quicktransfer-storage/logging.go:185-206 | a shift that fails anywhere or nowhere keeps all bytes in order, except that the oldest backup may go |
| `LogRotation.ShiftKeepsSuffix` | cmd/quicktransfer-storage/logging.go:185-206 | the files, oldest first, remain the end of everything written |
| `LogRotation.NewWriter` | cmd/quicktransfer-storage/logging.go:72-90 | impossible limits and an unopenable file are refused; existing files are taken over unchanged, with the larger of the limit and the largest old file as size bound |
| `LogRotation.Writer.OpenBase` | cmd/quicktransfer-storage/logging.go:134-162 | opening never changes what is already logged |
| `LogRotation.Writer.ShiftBackups` | cmd/quicktransfer-storage/logging.go:185-206 | the loop performs the specified shift for every pattern of failures |
| `LogRotation.Writer.Rotate` | cmd/quicktransfer-storage/logging.go:164-183 | a successful rotation starts an empty file; a failed one loses nothing but at most the oldest backup |
| `LogRotation.Writer.Write` | cmd/quicktransfer-storage/logging.go:92-116 | a failed rotation never costs the payload; bytes leave only with the oldest backup and only when the payload does not fit; unless a rotation failed, no file exceeds the limit, the largest payload and the largest old file |
| `LogRotation.Writer.Close` | cmd/quicktransfer-storage/logging.go:118-132 | a closed writer has no open file, also when it is closed again |

## Left out

- Reads and failures of SQLite itself: a transaction that the database aborts commits nothing, which the model has as a step that changes nothing.
- 64-bit overflow of sums of byte counts and points: amounts are unbounded integers, except in the download report encoding, the membership end time and the migration's byte total, where the source checks the limit.
- Ids, tokens, names and digests: values that are only compared are natural numbers, and random ids are parameters, so that a collision is one of the modelled cases.
- Audit columns such as `updated_at`, `last_used_at` and `settled_at`, which no decision reads.
- HTTP handlers, cookies, CORS, JSON decoding, configuration loading and the React pages: plumbing.
- Cryptography: signatures and hashes are opaque values; `authentic` stands for the checks before the replay guard.
- Path, symlink and reparse-point checks: operating-system behaviour; a failed check is one of the injected failures.
- Redemption codes, check-ins and daily VIP logins: each grants one entitlement or one membership benefit, which are steps of the ledger and the shop; the code's own status would add easy members.
- Upload limits of guests: a flag in the limits of `Uploads.Create`; the rolling window behind it is not modelled.
- The scan worker's file moves; its claims and verdicts on rows are steps of the upload runs.
- Deleting unverified users, which cascades to their empty accounts.
- Single-range parsing, transfer slots per source and the failure-window limiter of the storage node: short checks without a property across calls.
- The conditional offset update behind PATCH is a compare-and-set; the storage node's database is not part of this model.
- Rewriting stored paths before a migration, temporary copy files and file locks: a crash inside a copy leaves only a temporary file, which no step reads.
- Waiting times of the browser loop, progress callbacks and the creation of the upload session.
- TrafficStore.Store.SettleUploadTraffic: assumes that allocation rows are positive, the table's own constraint.
- TokenBucket.RateLimiter.AllowRequest: arithmetic over real numbers; floating-point rounding and truncation of the wait to nanoseconds are not modelled.
- TokenBucket.PruningIsUnobservable: stated for runs in which a new key finds the map below capacity; for the others see `OverflowBounded`.
- TokenBucket.RateKeptExactly: stated for whole-number bursts, the only ones the constructor takes.
- ReplayGuard.AcceptedAtMostOnce: stated for a non-decreasing clock, as the guard's memory is pruned by the clock.
- MigrationLaws.ObjectHoldsContent: relies on paths with one inode having one content, the file system's own law.
- MigrationSafety.RerunConverges: equal up to file identity, since a rerun may link where the first run copied.
- LogRotation.Writer.Write: the text of the failure record is a parameter, and a write that stops short keeps a prefix of its bytes.
- Order deliveries: the duration arithmetic of `time.Duration` is unbounded here, and storage products, which grant nothing today, have no fields.
