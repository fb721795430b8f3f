# Verification of the webhook outbox

Dafny proofs about the service that accepts webhooks, keeps them in a durable outbox, and runs their actions with
retries. Check the whole project with `dafny verify --resource-limit 2000000 --verification-time-limit 0 dfyconfig.toml`.

## What is modelled

A webhook is saved as a `pending` event. A worker claims it under a lease, freezes its variables and one row per action
in one transaction, walks the actions, and folds the action rows back into the event. Lease expiry, crash and restart,
cancellation, persisted backoff, a retry-age deadline, manual replay and retention purge all act on the same rows.

| File | Content |
|---|---|
| `Rows.dfy`, `Tables.dfy` | one event with its action rows, the whole store, and every transaction as a function on them |
| `StoreModel.dfy` | `class Store`: three mutable tables and the store's methods with their guards, loops, order of statements and column writes, each proved equal to its function |
| `Protocol.dfy` | the system as a step relation: store, clock, any number of workers with only their local variables, crash and recovery |
| `Effects.dfy` | what each step does to one event, exactly |
| `Always.dfy` | properties of every run, even if workers outlive their leases |
| `Exclusive.dfy`, `Theorems.dfy` | the joint invariant and the properties of runs in which live leases are current |
| `RetryAfter.dfy` | when exactly a stored delay can be cut short |
| `Witnesses.dfy` | runs from the empty store that show where a promise ends |
| `Termination.dfy` | the bound on the number of passes |
| `Acceptance.dfy` | replay guard, timestamp window and delivery index together |
| `QueueModel.dfy` | the worker loop and the store's other callers as imperative code against `class Store`, proved to take only protocol steps |
| `Backoff.dfy`, `Lease.dfy` | retry delay and lease length, as loops |
| `UrlPath.dfy` | decoding, splitting, cleaning and prefix matching of URL paths, and the match of URL entries |
| `RateLimiter.dfy` | the token bucket that forgets idle keys |
| `Snapshots.dfy` | the paged rewrite of stored snapshots |
| `RegexpCache.dfy` | the FIFO cache of compiled patterns |
| `Strings.dfy` | the order on text keys |
| `Counters.dfy` | the drop counters and their bounded summary |

A run interleaves single transactions freely. A worker's transaction carries a clock value read at any point since its
previous transaction, so stale clocks and slow workers are included. `Crash` drops every worker and keeps the store;
`Abort` is the requeue on cancellation or a storage error, `Abandon` a worker whose requeue failed as well. The query
and the update of RefreshEventStatus are two steps, `Scan` and `Refresh`, since no transaction joins them. What an
event's payload is extracted to, and whether it passes its allowlist and rules, is one function of the event.

Because `StartAction` and `updateRunningAction` check neither owner nor generation (`internal/store/store.go:684-735`),
exclusivity, completeness of passes, attempt bounds and termination assume `Timely`: no live pass's lease has passed,
because the lease covers the pass or its heartbeat renewed it. `Always` and `Acceptance`, which hold the rest, need no
such assumption.

## Where a promise holds only under a condition

- The guard of an accepted body lasts a TTL from the request's own clock, not from its commit. A second accept commits at
  least a TTL after that clock (`AcceptsAreTtlApart`), so two commits can be closer by the time the first request took
  (`CommitsCanBeCloser`). The second request's own clock can be closer exactly when the stored guard row has been dropped
  or replaced and run out (`CloserAcceptIsPossible`): PurgeOlderThan reads its own clock and can overtake a slow request
  (`StaleStampCanBeCloser`).
- The webhook handler reads its clock before the body and charges two limiters with it afterwards
  (`internal/server/server.go:154-198`), so clock readings reach a limiter out of order. The window bound and the
  invisibility of forgetting hold for `refill * (1800 s - skew) >= capacity`, where no reading is behind an earlier call's
  by more than the skew. For every capacity, rate and skew that miss this, `WindowBoundFails` and `ForgettingShows` give
  runs that break them.
- The configuration table says that a Retry-After is not silently shortened (`README.md:361`), but the due time is stored
  rounded down to the millisecond. `RetryIsEarlyExactly` gives the exact condition when the retry is stored: it can be
  dispatched early iff the due instant is not a whole millisecond and still lies ahead. `RetryAfterCanBeShortened` is
  such a run, and `WaitIsHonoured` bounds the loss by one millisecond.
- Startup recovery leaves a running action in place exactly under a terminal event (`RecoveryClears`, `RestartIsExact`).
  Such a state is reached when the update of RefreshEventStatus writes totals that no longer hold
  (`RunningCanOutliveRecovery`: the lease passes between query and update, and the event is folded by another worker,
  replayed and started again in between). Without such an update it is not, even if workers outlive their leases
  (`TerminalIsFinal`, `RestartIsClean`); while leases are current there is none (`TimelyFoldsAreFresh`).
- A call can exceed the limiter's key bound exactly when the limiter is full and the empty key is among its oldest
  (`SizeCanBeExceeded`). The service's own keys are addresses, source names with addresses, or a constant.
- Re-running the snapshot rewrite ends as an uninterrupted run would, in table and outcome, for idempotent rewriters and
  for no others (`RerunCompletesExactly`).

## Model

| member | source | states |
|---|---|---|
| Exclusive.SafeStep | internal/queue/queue.go:283-424 | any one step of any worker, the API, the retention loop, a crash or a recovery keeps the whole system invariant while live leases are current |
| Theorems.InitIsSafe | internal/store/store.go:28-63 | the empty store before its first startup recovery satisfies the invariant, at any clock |
| Theorems.SafeRun | internal/store/store.go:453-506 | the invariant holds at the end of every run, whatever the interleaving |
| Theorems.OneWorkerPerEvent | internal/store/store.go:453-506 | from the empty store, in every run: no event has two active workers, each owner's event is `processing`, and every running action sits under a `processing` event |
| Theorems.RunningStartedByLastClaimer | internal/store/store.go:684-691 | an action running at the end of a run was dispatched last by the worker that claimed its event last, although StartAction checks no owner |
| Theorems.ListedStatesStayExact | internal/queue/queue.go:307-316 | the action states a pass read once equal the stored rows at every index it has not reached |
| Theorems.BranchesFollowTheStore | internal/queue/queue.go:318-349 | the branch of each loop iteration, chosen from the listed states, is the one the stored row calls for: an unfinished action is given up iff the clock is at least the retry age past the anchor, started iff it is due before that, and passed over iff settled or waiting |
| Exclusive.OthersKeep | internal/store/store.go:684-735 | no one else's transaction changes an event whose owner's lease is current, except to extend the lease |
| Exclusive.SkippedKept | internal/queue/queue.go:463-497 | nothing but its own late payload clearing and a purge touches a skipped event: every other step leaves its row as it is |
| Exclusive.NeverMisses | internal/queue/queue.go:340-347 | the no-rows branch after StartAction is unreachable while leases are current |
| Exclusive.RowInvEffect | internal/store/store.go:639-797 | every transaction keeps the per-event invariant: counters, due times, lease and processed columns, variables, and what each status says of the action rows |
| Effects.EffectIsExact | internal/store/store.go:453-735 | each protocol step changes any given event by exactly one named effect, under that transaction's own guard, or removes it by a purge |
| Effects.OnlyAcceptAdds | internal/store/store.go:396-426 | only an accepted request adds an event, with a new id and no action rows |
| Theorems.PassCompletes | internal/queue/queue.go:318-423 | a pass that reaches the update of RefreshEventStatus has settled every action (untouched, given up, or tried once), and writes done, dead or retrying with the least due time, as the rows then say |
| Theorems.FoldMeaning | internal/store/store.go:737-776 | folding settled rows gives done iff all done, dead iff all done or dead with one dead, retrying iff one retries, due exactly at the minimum over the retrying rows |
| Rows.VerdictMeaning | internal/store/store.go:737-765 | the aggregate query's four outcomes, each characterised in both directions by the rows, also for unsettled rows |
| Rows.MinDueMeaning | internal/store/store.go:751-765 | the folded due time is attained by a retrying row and below none |
| Theorems.AnswersDecide | internal/queue/queue.go:365-415 | a committed answer: done iff it succeeded, retrying iff it was transient, attempts remain and the retry falls less than the retry age after the anchor, otherwise dead; a retry is stored at the instant that the delay gives |
| Termination.PassSpends | internal/queue/queue.go:318-415 | a pass that is folded leaves no more attempts than it listed, and strictly fewer if any listed action was pending or due |
| Termination.PassesArePaidFor | internal/queue/queue.go:318-415 | in a run without cancellation or crash each completed pass takes at least one from the attempts an event had left |
| Termination.NothingLeftIsTerminal | internal/store/store.go:737-765 | with no attempt left the event is terminal, and the budget never goes negative |
| Termination.EventsTerminate | internal/queue/queue.go:283-424 | an event with n actions completes at most n*(max_retries+1) passes, and after that many it is terminal |
| Termination.ReplaysTerminate | internal/store/store.go:594-637 | the same bound counted anew from a replay |
| Always.SoundRun | internal/store/store.go:766-797 | in every run, with no lease assumption: lease columns are set exactly while `processing`, processed time exactly in terminal states, a running row has an attempt to give back |
| Always.AttemptsAreCounted | internal/store/store.go:684-691 | in every run the stored counter equals dispatches less rollbacks since the last reset |
| Theorems.RowsStayWithinLimits | internal/queue/queue.go:386-410 | in every run attempts never exceed max_retries + 1, an unfinished action has an attempt in hand, and a stored retry lies less than the retry age after the anchor |
| Theorems.DispatchIsLawful | internal/queue/queue.go:327-348 | every dispatch is due, comes less than the retry age after the anchor, is within the attempt limit, and is the only running action of its event |
| Theorems.ClaimableExactly | internal/store/store.go:463-471 | an event can be claimed iff it is pending, or retrying with some action due, or processing under an ended lease |
| Theorems.DueWorkIsFound | internal/store/store.go:463-471 | if an event is pending, or has an action to run that is due and no live lease, then a claim finds an event, even long after the due time |
| Theorems.StaysClaimable | internal/store/store.go:463-471 | an event that can be claimed at some clock reading can be claimed at every later one, until a step changes it |
| Always.DueTimeIsKept | internal/store/store.go:519-564 | a waiting row is unchanged until it is dispatched when due, given up, or purged: requeue, lease recovery, replay and restart never move a due time |
| RetryAfter.RetryIsEarlyExactly | internal/queue/queue.go:396-410 | when a retry is stored: some continuation dispatches it before its delay is over iff its due instant is not a whole millisecond and has not passed at the commit |
| RetryAfter.WaitIsHonoured | internal/store/store.go:684-701 | in every continuation the dispatch that ends a wait comes less than one millisecond before the due instant |
| RetryAfter.WholeMillisecondsAreKept | internal/store/store.go:698-701 | the stored due time admits no early clock reading iff the due instant is a whole millisecond |
| Witnesses.RetryAfterCanBeShortened | internal/handler/errors.go:60-68 | a run from the empty store with current leases: one second asked for at 500 ns, next attempt at one second sharp |
| Always.GenerationCountsReplays | internal/store/store.go:594-637 | the generation equals the number of replays, and the retry age runs from the last one or else from the receive time |
| Theorems.LeaseEndsOnTime | internal/store/store.go:1017-1031 | a lease claimed or renewed at `now` is not expired through its full length and is claimable by others one millisecond after |
| Always.DoneIsFinal | internal/store/store.go:725-735 | no step but a purge changes a completed action, with no lease assumption |
| Always.CompletesOnce | internal/store/store.go:684-735 | across retries, crashes, replays and workers that lost their lease at most one completion commits per action |
| Always.NothingAfterDone | internal/store/store.go:684-691 | a completed or purged action is neither dispatched nor completed again |
| Always.NothingLost | internal/store/store.go:983-1015 | an event is missing at the end of a run iff one of its steps was a purge while the event was done, dead or skipped, with an end before the cutoff |
| Always.PurgeIsExact | internal/store/store.go:983-1015 | a step removes a stored event iff it is a purge and the event is done, dead or skipped, with a processed time before the cutoff |
| Always.AcceptStores | internal/store/store.go:396-426 | the row of a saved request, column by column, with the plan of its whole snapshot; every other row stays |
| Always.DoneMeansTheWholePlan | internal/queue/queue.go:301-318 | in every run: if an accepted event is done in the end, it has one action row per action of the accepted snapshot, all done; no lease assumption, and totals may be stale when written |
| Always.GoneStaysGone | internal/store/store.go:983-1015 | a purged event never comes back |
| Always.DeadEventsCanBeReplayed | internal/store/store.go:594-616 | in every run, whether or not workers outlive their leases: every event that is not skipped keeps a payload or variables, so every dead event can be replayed |
| Theorems.RestartIsExact | cmd/server/main.go:79-84 | after every run, a crash and startup recovery: nothing is processing, and exactly the running actions under terminal events still run |
| Always.TerminalIsFinal | internal/store/store.go:737-776 | if no update of RefreshEventStatus writes totals that no longer hold, a terminal event has only done or dead actions, whether or not workers outlive their leases |
| Theorems.RestartIsClean | cmd/server/main.go:79-84 | under the same condition, and with no lease assumption: after any run, a crash and startup recovery nothing is processing and no action runs |
| Theorems.TimelyFoldsAreFresh | internal/store/store.go:737-776 | runs with current leases meet that condition |
| Witnesses.RunningCanOutliveRecovery | internal/store/store.go:737-776 | a run from the empty store under leases of five minutes in which a stale fold leaves a running action under a dead event, which survives the restart |
| Theorems.RecoveryClears | internal/store/store.go:512-564 | on any store at all: which rows recovery changes, and that a running action survives iff its event is terminal |
| Theorems.RecoveryIsIdempotent | internal/store/store.go:512-564 | on any store a second recovery changes nothing and would report zero rows |
| Always.DispatchesSeeOneExtraction | internal/queue/queue.go:426-462 | in every run from the empty store, with no lease assumption: every dispatch of an event receives the variables that its accepted payload is extracted to |
| Always.StoredVarsAreFinal | internal/store/store.go:639-664 | once an event stores variables, no step of any run changes them, with no lease assumption |
| Always.DispatchesSeeTheFirstVariables | internal/queue/queue.go:290-301 | whatever a committed PrepareEvent stored is what every later dispatch of the event receives, with no lease assumption |
| Always.FindsTheOutcome | internal/queue/queue.go:426-462 | a claimed pass finds its event to call for exactly what the accepted payload is extracted to, whether it decodes stored variables or extracts again, and always has a claimed payload if it must extract |
| Always.EventsEndAsExtracted | internal/queue/queue.go:463-500 | in every run: an event is skipped only if its payload is rejected, has variables or action rows only if it passes, and is never dead if it is rejected |
| Acceptance.AcceptsAreTtlApart | internal/store/store.go:396-426 | the second of two guarded accepts of one (source, body hash) commits at least the TTL after the first request's own clock; between the commits the first request's delay is lost |
| Acceptance.CommitsCanBeCloser | internal/server/server.go:245-247 | a run that attains this bound: the first request takes 100 s, and the commits are 500 s apart |
| Acceptance.CloserAcceptIsPossible | internal/store/store.go:402-412 | after any run, a signed request with a delivery id whose clock is closer than the TTL to an accepted one's can be accepted iff the service is up and the stored guard row is gone or was replaced by one that has run out |
| Acceptance.StampsAreTtlApart | internal/store/store.go:396-426 | while the first one's guard row stands, the requests' own clocks are at least the TTL apart |
| Acceptance.InOrderStampsAreTtlApart | internal/store/store.go:996-1003 | so they are if no purge and no other save of the body ran meanwhile on a clock ahead of the second request's |
| Acceptance.StaleStampCanBeCloser | internal/store/store.go:1001-1003 | a run in which a purge overtakes a slow request, which is accepted one millisecond short of the TTL |
| Acceptance.WindowMeetsTtl | internal/server/server.go:486-500 | one timestamped body fits the window at two instants a TTL apart iff the first is in the opening millisecond and the second is the closing instant |
| Acceptance.CapturedRequestNeedsPurge | internal/store/store.go:187-189 | a captured request with its delivery id is accepted a second time only after the first event was purged, however slow it is |
| Acceptance.CapturedRequestIsRejected | internal/server/server.go:216-257 | while the guard row stands, a captured request passes a second time only at the window's closing instant, if the first came in the opening millisecond |
| Always.IdentityIsKept | internal/store/store.go:187-189 | source, delivery id, body hash, plan and receive time never change while an event is stored, and its payload is kept or cleared |
| Acceptance.WindowIsSymmetric | internal/server/server.go:486-500 | a timestamp is accepted iff it is at most five minutes from the clock, in either direction |
| StoreModel.Store.SavePendingEvent | internal/store/store.go:396-426 | the guard row and the event row are written iff nothing conflicts; otherwise the conflict is named and nothing changes |
| StoreModel.Store.ConflictsMeaning | internal/store/store.go:187-189 | the INSERT conflicts iff the id is taken or the (source, delivery id) pair is |
| StoreModel.Store.ClaimPending | internal/store/store.go:453-506 | claims the claimable event that no other precedes in due time, returns it as it was, rolls its running actions back; nothing happens iff none is claimable |
| StoreModel.LeastDue | internal/store/store.go:463-471 | the claim order always has a first candidate |
| StoreModel.Store.RequeueExpiredLeases | internal/store/store.go:508-510 | requeues exactly the events whose lease has passed and counts them |
| StoreModel.Store.RequeueAllProcessing | internal/store/store.go:512-564 | the four updates of recovery amount to one transition per event, and the returned count is the number of events changed |
| StoreModel.RecoverAll | internal/store/store.go:519-564 | the ordered updates, orphans first, equal the one-step recovery of every row |
| StoreModel.RecoverCount | internal/store/store.go:519-564 | the counts of the two event updates never overlap |
| StoreModel.Store.RequeueEvent | internal/store/store.go:566-587 | acts iff the event is `processing` |
| StoreModel.Store.ReplayDeadEvent | internal/store/store.go:594-637 | its three outcomes as iffs, and the whole new state of a replay |
| StoreModel.Store.PrepareEvent | internal/store/store.go:639-664 | the insert loop adds exactly the missing rows; nothing happens unless `processing` |
| StoreModel.Store.StartAction | internal/store/store.go:684-691 | starts a pending or retrying row that is due, and returns its new counter |
| StoreModel.Store.UpdateRunningAction | internal/store/store.go:725-735 | applies an update to a running row only |
| StoreModel.Store.CompleteAction | internal/store/store.go:693-697 | settles a running row as done, and no other row |
| StoreModel.Store.ScheduleActionRetry | internal/store/store.go:699-702 | settles a running row for a retry, with the error and the Retry-After of the answer |
| StoreModel.Store.DeadAction | internal/store/store.go:704-706 | settles a running row as dead, with the error |
| StoreModel.Store.ExpireAction | internal/store/store.go:708-723 | dead-letters a row that is pending or retrying |
| StoreModel.Aggregate | internal/store/store.go:740-746 | one scan computes the counts and the least due time of the retrying rows |
| StoreModel.Store.ReadTotals | internal/store/store.go:737-750 | the query: the totals of the rows as they are, iff there are any |
| StoreModel.Store.WriteTotals | internal/store/store.go:751-776 | the update, a transaction of its own: writes the status and due time that the given totals call for, iff the event is still stored |
| StoreModel.Store.UpdateEventStatus | internal/store/store.go:787-797 | ends an event in the given status |
| StoreModel.Store.RenewLease | internal/store/store.go:1017-1031 | extends the lease iff the event is processing and the owner matches or is unset |
| StoreModel.Store.ClearPayload | internal/store/store.go:1033-1036 | clears the payload and nothing else |
| StoreModel.Store.PurgeOlderThan | internal/store/store.go:983-1015 | removes exactly the old terminal events with their action rows, and the expired guards |
| QueueModel.DrainOnce | internal/queue/queue.go:200-216 | without a fault, a turn processes an event iff some event is claimable, the one due first, and does not give its pass up; otherwise it only expires leases; always by the worker's own protocol steps |
| QueueModel.Process | internal/queue/queue.go:283-424 | without a fault or cancellation, the pass ends as its event calls for: Fail, Skip (with Clear if asked), or the Refresh of a full walk; completion is reported exactly for a Refresh |
| QueueModel.WalkActions | internal/queue/queue.go:318-415 | without a fault or cancellation, one branch per action of the plan, in order, up to its end; otherwise the pass is given up |
| QueueModel.TryAction | internal/queue/queue.go:318-349 | one iteration reads the clock and takes exactly one of Over, GiveUpOn, Miss, or Start and Finish; it stops only at a fault or cancellation |
| QueueModel.Settled | internal/queue/queue.go:365-415 | commits the answer in one Finish step at a fresh clock reading, unless there is a fault |
| QueueModel.ExecutionVars | internal/queue/queue.go:426-500 | yields the stored variables verbatim or those extracted from the claimed or stored payload; without a fault it ends the pass exactly for events to skip or fail |
| QueueModel.Prepare | internal/queue/queue.go:290-312 | without a fault, commits and then lists the rows iff the event is still held |
| QueueModel.SkipEvent | internal/queue/queue.go:463-497 | without a fault the event ends skipped by a Skip step, and its payload is cleared by a second step if asked |
| QueueModel.Fold | internal/queue/queue.go:417-423 | one query at a fresh clock reading and one update, iff there are rows, unless there is a fault |
| QueueModel.Startup | cmd/server/main.go:79-84 | startup recovery is the Recover step and counts the events it changed |
| QueueModel.Save | internal/server/server.go:238-247 | saving a webhook is the Accept step, with that step's outcome |
| QueueModel.ReplayEvent | internal/server/server.go:329 | replays an event iff the Replay step is enabled, and is that step |
| QueueModel.RenewTick | internal/queue/queue.go:533-550 | renews a lease iff the Renew step is enabled, and is that step |
| QueueModel.PurgeTick | cmd/server/main.go:190 | a turn of the retention loop is the Purge step |
| Backoff.RetryCapLoop | internal/queue/queue.go:518-531 | the doubling loop computes min(base*2^(attempt-1), max) for every attempt, with no value beyond 64 bits |
| Backoff.CapSaturates | internal/queue/queue.go:518-531 | once the cap is reached it stays |
| Lease.ComputeLease | internal/queue/queue.go:118-138 | the lease outlasts a pass over any source by the margin, is the least such lease unless a floor applies, and leaves room for two renewals |
| Lease.TimeoutOf | internal/queue/queue.go:140-148 | an exec action's own positive timeout counts; without one, 60 s, and 15 s for the rest |
| Lease.HeartbeatInterval | internal/queue/queue.go:533-537 | the interval of renewals is a third of the lease, at least 15 s |
| UrlPath.AcceptedExactly | internal/handler/urlpolicy.go:95-119 | a path written from any segments, each character literally or as an escape of either case, is accepted iff its plain text holds no escape, no segment is a dot segment with an escaped dot, and none holds a slash or a backslash; its canonical path is then the cleaned plain text |
| UrlPath.EveryPathIsDecided | internal/handler/urlpolicy.go:101-113 | every path that decodes is written from some segments, so the law above decides it, and every other path is rejected |
| UrlPath.EncodeDecodes | internal/handler/urlpolicy.go:101-104 | decoding undoes percent-encoding, for any mix of literal characters and escapes |
| UrlPath.ScanForEscape | internal/handler/urlpolicy.go:121-128 | the scan finds an escape iff there is one |
| UrlPath.DecodeSplits | internal/handler/urlpolicy.go:101-118 | splitting then decoding equals decoding then splitting |
| UrlPath.DecodeResolves | internal/handler/urlpolicy.go:109-118 | resolving dot segments before or after decoding gives the same segments |
| UrlPath.ReadingsAgree | internal/handler/urlpolicy.go:95-119 | on an accepted path every order of decoding, splitting and cleaning gives the segments of the canonical path |
| UrlPath.CanonicalIsStable | internal/handler/urlpolicy.go:95-119 | a canonical path is rooted, clean, without empty or dot segments or backslashes, and decoding it again changes nothing or fails |
| UrlPath.PlainPathsAreAccepted | internal/handler/urlpolicy.go:95-119 | a path without percent signs and backslashes is always accepted and only cleaned |
| UrlPath.SegmentsDecode | internal/handler/urlpolicy.go:109-113 | the per-segment decoding error is never taken once the whole path decodes |
| UrlPath.CleanIsIdempotent | internal/handler/urlpolicy.go:115-118 | a cleaned path has the same segments and is clean |
| UrlPath.CleaningRules | internal/handler/urlpolicy.go:115-118 | the rules of path.Clean on a rooted path: empty segments and single dots count for nothing, a double dot takes the segment before it away, and at the root it counts for nothing |
| UrlPath.PrefixMatchIsSegmentwise | internal/handler/urlpolicy.go:134-141 | the prefix match holds iff the prefix's segments are a prefix of the path's |
| UrlPath.AllowlistIsSegmentwise | internal/handler/urlpolicy.go:72-85 | a destination passes an entry's path iff its segments start with the entry's, in either reading |
| UrlPath.EntryMatchesExactly | internal/handler/urlpolicy.go:72-85 | a destination passes a URL entry iff the entry is bare, scheme, host and effective port agree, and the entry's segments are a prefix of the destination's |
| UrlPath.EntriesNest | internal/handler/urlpolicy.go:63-85 | an entry allowed by another entry allows nothing the other does not |
| RateLimiter.Limiter.constructor | internal/server/protect.go:30-43 | defaults for a missing capacity or rate, and an empty limiter |
| RateLimiter.Limiter.Allow | internal/server/protect.go:45-71 | one call equals purge, eviction, refill and charge as specified |
| RateLimiter.Limiter.Purge | internal/server/protect.go:73-79 | drops exactly the buckets idle for more than the TTL |
| RateLimiter.Limiter.EvictOne | internal/server/protect.go:81-95 | removes a least recently used bucket, unless that is the empty key |
| RateLimiter.SaneRun | internal/server/protect.go:45-71 | tokens stay in [0, capacity] in every run, with clock readings in any order |
| RateLimiter.WindowBound | internal/server/protect.go:45-71 | calls with clock readings in a window, out of order by at most a skew, admit at most capacity + refill*length requests of a key that is never evicted, if an idle key refills within the TTL less the skew |
| RateLimiter.WindowBoundFails | internal/server/protect.go:73-79 | for every capacity, rate and skew that miss the condition, a run that exceeds the bound |
| RateLimiter.ForgettingIsInvisible | internal/server/protect.go:73-79 | for a key that is never evicted, whatever happens to others: the limiter decides every call as one that never forgets, if an idle key refills within the TTL less the skew |
| RateLimiter.ForgettingShows | internal/server/protect.go:73-79 | for every capacity, rate and skew that miss the condition, a run that is decided differently |
| RateLimiter.SizeStep | internal/server/protect.go:50-58 | a call exceeds the key limit iff it evicts the empty key, which stays |
| RateLimiter.SizeCanBeExceeded | internal/server/protect.go:50-58 | a call can exceed the limit iff its key is new, the limiter is full, and the empty key is among the least recently used |
| RateLimiter.SizeRun | internal/server/protect.go:81-95 | with non-empty keys the limiter never holds more than its limit, with clock readings in any order |
| Snapshots.Table.RewriteAll | internal/store/snapshots.go:24-63 | for any batch boundaries the table ends as one map over a prefix, each non-empty row of it handed to the rewriter once in key order; it stops before the first row that the rewriter rejects, or at the end, unless canceled |
| Snapshots.Table.Batch | internal/store/snapshots.go:65-105 | a page holds the next non-empty rows, within 128 rows and 1 MiB or a single row; an empty page means the end |
| Snapshots.Table.Cut | internal/store/snapshots.go:79-97 | the byte budget, with at least one row |
| Snapshots.Table.RewriteBatch | internal/store/snapshots.go:39-60 | a batch stops exactly at the failing row, or at cancellation |
| Snapshots.Table.Update | internal/store/snapshots.go:47-59 | the conditional update hits exactly the row at the cursor, and RowsAffected is one |
| Snapshots.SelectedIsPicked | internal/store/snapshots.go:65-78 | behind a cursor the query selects the non-empty rows after it |
| Snapshots.RerunCompletes | internal/store/snapshots.go:24-63 | re-running a run that was cut short gives the table and the stopping row of an uninterrupted run, for an idempotent rewriter |
| Snapshots.RerunBreaks | internal/store/snapshots.go:24-63 | for every rewriter that is not idempotent, a table of one row on which a re-run ends differently |
| Snapshots.RerunCompletesExactly | internal/store/snapshots.go:24-63 | re-running completes an interrupted run on every table iff the rewriter is idempotent |
| Snapshots.SecondRunIsQuiet | internal/store/snapshots.go:24-63 | after a complete run a second one changes no row |
| RegexpCache.Cache.Compile | internal/router/match.go:29-55 | a lookup agrees with direct compilation, and the ring then holds what the simple form keeps |
| RegexpCache.KeepsTheLastInserted | internal/router/match.go:22-55 | the simple form keeps exactly the last 256 inserted patterns, all distinct |
| RegexpCache.CompileAll | internal/router/match.go:22-55 | a fresh cache after any calls holds exactly the last 256 inserted patterns, oldest first, and every answer was that of direct compilation |
| RegexpCache.InstallFacts | internal/router/match.go:48-53 | overwriting the ring's next slot drops the oldest insertion, and ring and map stay consistent |
| RegexpCache.MatchRules | internal/router/match.go:57-70 | matching through the cache gives the verdict of direct compilation |
| RegexpCache.VerdictMeaning | internal/router/match.go:57-70 | rules match iff every pattern compiles and matches its variable |
| Counters.DropCounters.constructor | internal/policy/policy.go:27-39 | the keys are the shared counter and the valid names, all at zero |
| Counters.DropCounters.Inc | internal/policy/policy.go:41-51 | one counter goes up, wrapping at 64 bits; the keys never change |
| Counters.DropCounters.Summary | internal/policy/policy.go:73-99 | the text shows numbers that add up to all drops, names at most ten sources, and stays below 1 KiB |
| Counters.Summarize | internal/policy/policy.go:73-99 | the loop of the summary, on the locked state |
| Counters.SummaryIsBounded | internal/policy/policy.go:73-99 | the length bound for any parts of that shape |
| Counters.Render | internal/policy/policy.go:79-99 | the joined text, with exactly the length that the bound is about |
| Counters.DecimalReads | internal/policy/policy.go:95 | a printed number reads back as the number |
| Counters.CheckName | internal/policy/policy.go:101-112 | the scan of a source name accepts exactly the valid names |
| Counters.AllDropsAreCounted | internal/policy/policy.go:41-51 | whatever sources the drops name, the counters add up to the number of drops |

## Left out

- SQLite itself, migrations, pragmas, busy timeouts and time parsing: each transaction is atomic and durable; the duplicate DATETIME columns, `remote_ip` and `config_hash` are not kept.
- HTTP serving and sending, DNS and dialing, exec processes, heartbeat pushes: only the handler's outcome reaches the queue.
- `action_logs` and `heartbeat_logs`: audit tables that no decision reads.
- HMAC and token checks, SHA-256, regexp and gjson semantics: abstract. The JSON codec of the variables is a pair of functions with a round-trip law, needed from `Exclusive` on.
- Configuration loading and validation: at least one action per event, fixed `max_retries` and `max_retry_age`, and positive 64-bit delays are preconditions.
- The in-flight budget, client address selection, metric quoting: sound, and each readable from one body.
- Legacy statuses and events without a snapshot: runs start from the empty store. A snapshot that no longer parses (`resolveSource`) ends like any event whose rules fail, in the Fail step.
- Action rows are one list per event in index order: rows are inserted only by PrepareEvent, as 0..n-1, so an index is a position.
- Event ids are never reused after a purge; the source draws them at random.
- QueueModel.DrainOnce: one turn of the drain loop; the endless outer loop, the wake and stop channels and the worker pool are not modelled. Another worker may run between any two steps only in `Protocol`, not inside the methods, and a storage fault there means that nothing was committed. A commit whose result is lost is the transaction's step followed by `Abort` or `Abandon`.
- QueueModel.Process: the renewing goroutine appears as `Renew` steps of the protocol; that it is scheduled in time is the assumption `Timely`. A clock turned back is excluded.
- Termination.EventsTerminate: bounds completed passes. `Theorems.DueWorkIsFound` says that a claim finds due work; that a worker eventually looks for it is not stated.
- Snapshots.Table.RewriteAll: a storage error in the middle is not modelled apart from the rewriter's own failure and cancellation, which stop a run in the same way; there is no other writer.
- RateLimiter.Limiter.Allow: reals for floats, and a mutex that makes calls atomic; the same holds of the mutexes around the regexp cache and the counters.
- RateLimiter.WindowBound: for keys that capacity eviction does not hit; an evicted key starts from a full bucket by design.
- Acceptance.CloserAcceptIsPossible: of the rules for delivery ids only that a signed request has one; their alphabet and length are not modelled.
- UrlPath.EntriesNest: host names come normalised; the CIDR and plain-host entries of the allowlist are not modelled.
- UrlPath.CleanIsIdempotent: `path.Clean` is the lexical resolution of segments on rooted paths, the only ones the policy cleans.
- RegexpCache.Cache.Compile: `strings.Clone` and the nil map before first use have no counterpart.
- Counters.DropCounters.Summary: `Snapshot` only copies the map.
