# Verified model of the Sub2API control service

This project models, in Dafny, the parts of the service that decide when an account or a channel
may leave traffic, when it may return, and how the service never loses track of what it did; and
it proves what those parts are relied on for.

* **Quarantine.** `QuarantineTables` holds the three tables and their transactions,
  `QuarantineProtocol` the maintenance handler as a transition system in which a crash or a fault
  may fall between any two awaits, a write may apply without its response, an acknowledged write
  may not apply, a read may fail, and anybody else may change accounts. `QuarantineOutcomes` proves
  how each task ends from every reachable state; `QuarantineRestores`, `QuarantineRemovals`,
  `QuarantineScan` and `ProbeRotation` prove what restores, removals, the cursor scan and the probe
  order give; `QuarantineRuns` builds the example runs.
* **Minimum pool.** `MinimumPool` and `MaintenanceCoordinator` follow the sweep, the log guard and
  the disable loop over accounts that share groups; `MaintenanceOutcomes` says whom they pick.
* **Guardian channels.** `ChannelDecision` is one decision, `ChannelEngine` a round over many
  channels, `ChannelHistory` the whole life of one channel.
* **Guardian accounts and snapshots.** `PauseProvenance`, `AccountOperations`,
  `RecoverySelection`, `AccountRecovery`, `RecoveryHistory` and `SnapshotQueue`; `PauseOutcomes`,
  `AccountOutcomes` and `RecoveryOutcomes` give exact conditions for what they store, call and record.
* **Data algorithms.** `LogWalk`, `SseScan`, `Scoring`, `Sampling`, `ChannelBinding`,
  `AttemptLimiter` and `AccountBindings`, over the small modules `Common`, `Counting`, `Ordering`,
  `Sorting`, `Grouping` and `WeightedAverage`; `LogWalkOutcome`, `SseVerdict`, `ScoringOutcomes` and
  `SamplingOutcomes` say what each of them computes in terms of its input alone.

The modules named after outcomes say, in terms of the inputs, the replies and the stored rows, which
result each operation has, in both directions.

`dafny verify dfyconfig.toml` checks everything.

## Where a natural promise fails

The model follows the code. Each of these is stated by lemmas: an example, and the exact condition.

* Clearing a quarantine intent may leave the dispatch switch off: example `SwitchLeftOff`, exact
  condition over all runs `DroppedWithSwitchOff` and `ReadDecides`.
* The two passes behind the restore of a slow account need not be consecutive tests. There are two
  causes: a run is lost between a test and the storing of its result (example `LostSlowTest`), or
  the account is tested while an older restore intent is reconciled, whose result nothing stores
  (example `SlowRetest`). There is no other among the tests of this path: `ConsecutiveUnlessLost`.
* The usage-log walk of the gateway calls a page short below 100 rows whatever page size the server
  uses; it is complete on all growing logs exactly when the server's page size reaches 100
  (`ShortPagesLoseRows`, `WalkIsComplete`). The probe walk compares with the server's own page size
  and is always complete.
* Perfect events from before a fuse count towards recovery: example `OneRoundMayRecover`, exact
  condition `EarlyRecovery`.
* Storing an older snapshot again may raise a conflict (`ReingestMayConflict`,
  `LateReingestConflicts`).
* An account-recovery run that had to stop goes on when it is executed again, unless it was
  finished: it may have been cancelled, or may have failed without being able to store even that,
  since that error is suppressed (`src/sub2api_mcp/guardian/account_recovery.py:447-456`). Example
  `ResumedRunGoesOn`, exact condition `DoubtEndsIfClosed`.
* In a channel-error run an account may be disabled without a recorded test: example
  `UnreadableIsDisabled`, exact condition `DisabledUntested`.
* A pause made by hand after the snapshot may be overridden: exactly when, `ManualPauseOverridden`.

## Assumptions

* Every database transaction is atomic, and one holder of the account-control lease, or of the
  recovery lease, works at a time, as `src/sub2api_mcp/db.py:167-174` intends.
* An upstream write applies during its call or never.
* Times are whole numbers and follow the clock readings given as parameters; scores and weights are
  real numbers; the decay is any function with the laws of a power of two.
* Identifiers are numbers; where the code orders identifiers as text this changes only the order of
  pages and lists. The order in which the sweep tests accounts is left open.
* Account snapshots name each account once and each of its groups once, as
  `core/probe.py:555-574` enforces.
* Whether a group is still in scope is a choice of the environment in the quarantine protocol; the
  rows do not hold the group ids.
* A log page that is not the last one says so; the page count may otherwise be wrong. Rows of one
  identity are alike, and the log is in the order of its times. A row without an id of its own has
  its other fields as identity (`core/maintenance_gateway.py:250-266`), so two such rows that look
  alike count once (`AlikeCountOnce`).
* JSON texts, and the trimming and decoding of a data line, are read by a function that is a
  parameter of the model.

## Model

| member | source | states |
|---|---|---|
| QuarantineTables.UpsertIntentKeeps | src/sub2api_mcp/repository.py:584-640 | Storing an intent keeps markers and intents disjoint, restore intents on markers only, the total within 10 000 and every row valid |
| QuarantineTables.UpsertIntentAccepts | src/sub2api_mcp/repository.py:584-640 | In a well-formed registry an intent is refused exactly for a marked account or at full capacity; a known intent is kept as it is |
| QuarantineTables.UpsertIntentExactly | src/sub2api_mcp/repository.py:584-640 | Each refusal of an intent on its own, for any tables; a known intent is not overwritten |
| QuarantineTables.PromoteKeeps | src/sub2api_mcp/repository.py:658-695 | Promotion moves a row from intents to markers, keeps the tables well formed and their total |
| QuarantineTables.PromoteExactly | src/sub2api_mcp/repository.py:658-695 | A promoted marker has literally the reason, threshold, count and time of its intent and was never probed; other rows stay |
| QuarantineTables.RemoveIntentKeeps | src/sub2api_mcp/repository.py:697-703 | Removing an intent keeps the tables well formed and touches no marker |
| QuarantineTables.CompleteRestoreKeeps | src/sub2api_mcp/repository.py:758-778 | Completing a restore drops marker and restore intent together and keeps the tables well formed |
| QuarantineTables.BeginRestoreExactly | src/sub2api_mcp/repository.py:712-739 | A restore begins for a marked account only, and an older restore intent keeps its time |
| QuarantineTables.EndRestoreExactly | src/sub2api_mcp/repository.py:697-786 | Which rows go when a restore is completed, given up, or an intent removed |
| QuarantineTables.UpdateProbeKeeps | src/sub2api_mcp/repository.py:795-858 | Recording a probe keeps every row valid for the record validator, the streak at 0 or 1 and moves the probe time strictly forward |
| QuarantineTables.UpdateProbeExactly | src/sub2api_mcp/repository.py:795-858 | A probe is refused exactly without a result, without a marker, as a pass the marker may not have, or as slow without a time; otherwise it is stored at the first time that is later than the last probe |
| QuarantineTables.QuarantineRegistry.UpsertAccountQuarantineIntent | src/sub2api_mcp/repository.py:584-640 | The method leaves the tables as the transaction function says and returns the stored intent or its error |
| QuarantineTables.QuarantineRegistry.PromoteAccountQuarantineIntent | src/sub2api_mcp/repository.py:658-695 | The method moves exactly the one row and returns the marker |
| QuarantineTables.QuarantineRegistry.RemoveAccountQuarantineIntent | src/sub2api_mcp/repository.py:697-703 | The method removes exactly the one intent and says whether there was one |
| QuarantineTables.QuarantineRegistry.BeginAccountQuarantineRestore | src/sub2api_mcp/repository.py:712-739 | A restore intent is stored only for a marker, once, and changes nothing else |
| QuarantineTables.QuarantineRegistry.CompleteAccountQuarantineRestore | src/sub2api_mcp/repository.py:758-778 | Marker and restore intent go together, or nothing changes |
| QuarantineTables.QuarantineRegistry.CancelAccountQuarantineRestore | src/sub2api_mcp/repository.py:780-786 | Only the restore intent goes |
| QuarantineTables.QuarantineRegistry.UpdateAccountQuarantineProbe | src/sub2api_mcp/repository.py:795-858 | Writes the effective probe time, latency, result and streak of one marker, or leaves the tables alone and returns the error |
| QuarantineProtocol.StepKeeps | src/sub2api_mcp/scheduler.py:266-395 | Every step, a crash, a fault or a foreign change included, keeps the protocol invariant |
| QuarantineProtocol.RunKeeps | src/sub2api_mcp/scheduler.py:266-395 | The protocol invariant holds in every reachable state |
| QuarantineProtocol.NothingIsLost | src/sub2api_mcp/scheduler.py:266-446 | In every run each account this path made inactive and has not read as back is held by an intent or a marker |
| QuarantineProtocol.OffByUsIsHeld | core/maintenance_gateway.py:470-539 | The same in terms of the true upstream state: an account our write took out and that stayed out is held, whatever was read |
| QuarantineProtocol.RemovalFollowsRead | src/sub2api_mcp/adapters/sub2api.py:790-935 | Every removal of a row follows a read that showed the account neither inactive nor disabled, with no later write of ours that made it so |
| QuarantineProtocol.IntentBeforeWrite | core/maintenance.py:618-645 | No write takes an account out before its intent is stored |
| QuarantineProtocol.TablesStaySound | src/sub2api_mcp/repository.py:584-858 | In every reachable state the tables are disjoint, within 10 000 rows, and each row is one its reader accepts, case by case of its last result; no transaction the scheduler relies on has been refused, so its missing-row and second-pass errors are unreachable |
| QuarantineProtocol.IntentEndsRun | src/sub2api_mcp/repository.py:584-640 | In every reachable state the coordinator's intent is refused, and the run ends, exactly if the intent is invalid, the account is marked, or it has no intent yet and the registry is full |
| QuarantineProtocol.ObserversAgree | src/sub2api_mcp/scheduler.py:266-395 | The set of outstanding accounts is what the log of writes and reads says |
| QuarantineOutcomes.RestoreOutcome | core/maintenance_gateway.py:907-1025 | From every reachable state that starts a restore, whatever its two acknowledged writes really did: the account is dropped from the tables exactly if it then reads as serving, a restore of which nothing took effect gives its intent back, and anything else keeps the rows and stores a failed attempt next |
| QuarantineOutcomes.RestorePutsBack | core/maintenance_gateway.py:1006-1023 | A restore whose writes take effect and are read back leaves the account active and scheduled upstream, with no row of it |
| QuarantineOutcomes.UnansweredRestore | core/maintenance_gateway.py:1005-1025 | When the first write gets no answer the second is not sent, and the read decides in the same way |
| QuarantineOutcomes.UnreadRestore | core/maintenance_gateway.py:954-964 | A restore that cannot be read back keeps both rows |
| QuarantineOutcomes.LateRestore | core/maintenance_gateway.py:995-1001 | A restore past its deadline writes nothing and gives its intent back |
| QuarantineOutcomes.CutOffRestore | core/maintenance_gateway.py:1003-1021 | A restore whose deadline passes after it began is read back at once, and the read decides in the same way |
| QuarantineOutcomes.DisableOutcome | core/maintenance_gateway.py:470-539 | From every reachable state that starts the writes of a disable, whatever they really did: an account read as off by status and switch gets a marker with all its intent says, one that still serves loses the intent unless a reconciliation keeps it, anything else keeps the intent and ends the loop |
| QuarantineOutcomes.DisableTakesOut | src/sub2api_mcp/scheduler.py:427-446 | A disable whose writes take effect leaves the account inactive and unscheduled, with a marker that has the reason, threshold, count and time of its intent |
| QuarantineOutcomes.UnansweredDisable | core/maintenance_gateway.py:473-538 | When the first write gets no answer the second is not sent, and the read decides in the same way |
| QuarantineOutcomes.UnreadDisable | core/maintenance_gateway.py:500-539 | A disable that cannot be read back keeps its intent and ends the loop |
| QuarantineOutcomes.IntentOutcome | src/sub2api_mcp/adapters/sub2api.py:790-821 | Reconciling an intent drops it exactly for an account that reads as before, in error, or serving; it disables again exactly one that is off, with the same groups; one that is merely unscheduled waits |
| QuarantineOutcomes.RestoreReconciled | src/sub2api_mcp/adapters/sub2api.py:905-935 | Reconciling a restore drops both rows of an account that serves, the restore intent of one that is off by status and switch, and tests any other again |
| QuarantineOutcomes.RetestDecides | src/sub2api_mcp/adapters/sub2api.py:905-935 | That test starts a restore exactly if it passed, within the threshold for a slow account |
| QuarantineOutcomes.ProbeRead | src/sub2api_mcp/adapters/sub2api.py:823-850 | A probe tests an account exactly if it reads as off by status and switch |
| QuarantineOutcomes.ProbeOutcome | src/sub2api_mcp/adapters/sub2api.py:823-903 | From every reachable state that waits for a test: a restore begins exactly if the account passed, for a slow one within the threshold and for the second time in a row; otherwise the judgement of the test is stored |
| QuarantineOutcomes.FaultOutcome | src/sub2api_mcp/scheduler.py:349-375 | An error in a probe, before its attempt is stored, is stored as an invalid attempt |
| QuarantineOutcomes.CrashKeepsRows | src/sub2api_mcp/scheduler.py:266-395 | A crash forgets where the writer was and nothing else |
| QuarantineOutcomes.TasksBegin | src/sub2api_mcp/scheduler.py:268-375 | In every reachable state without a task each task begins with the row the tables hold |
| QuarantineOutcomes.ReconcilesFirst | src/sub2api_mcp/scheduler.py:266-330 | In every run no account is disabled or probed before its reconciliation is over, with no task left open |
| QuarantineOutcomes.RefusalsAreMarked | src/sub2api_mcp/scheduler.py:349-446 | Exactly which transactions the scheduler relies on are refused, and that each refusal is remembered, so that `TablesStaySound` speaks of them all |
| QuarantineOutcomes.WritesLead | core/maintenance_gateway.py:473-500 | After an answered write the next request follows; after an unanswered one the account is read back at once |
| QuarantineOutcomes.ReadsLead | core/maintenance_gateway.py:486-520 | A verification that fails, or does not show the account out of traffic, is followed by one more read; a failing read back leaves doubt |
| QuarantineOutcomes.DisableBegins | core/maintenance.py:618-645 | A candidate whose intent is accepted is disabled next, and a stored intent is not overwritten |
| QuarantineRestores.SlowRestoreIsBacked | src/sub2api_mcp/adapters/sub2api.py:848-925 | Every step that begins to restore a slow account, by a probe or by reconciling a restore intent, follows a test within the threshold; a probe begins right after the stored pass of another such test, a reconciliation has such a pair of passes earlier in the history |
| QuarantineRestores.ConsecutiveUnlessLost | src/sub2api_mcp/scheduler.py:349-375 | For restores begun by a probe: the two passes are consecutive tests exactly when no test since the stored pass was lost, by a crash or an error before its result was stored, or as a test made while a restore was reconciled |
| QuarantineRestores.LostSlowTest | src/sub2api_mcp/scheduler.py:349-375 | A reachable state in which a fast, a slow and a fast test lead to a restore, because the slow result was lost in a crash |
| QuarantineRestores.SlowRetest | src/sub2api_mcp/adapters/sub2api.py:905-925 | The same without any crash or error: the slow test is one of the reconciliation of an older restore intent |
| QuarantineRemovals.ClearedWhileUnschedulable | src/sub2api_mcp/adapters/sub2api.py:790-821 | One reconciliation drops an intent with the dispatch switch off exactly for an account in error with the switch off, or one that reads as before with the switch already off |
| QuarantineRemovals.DroppedWithSwitchOff | src/sub2api_mcp/adapters/sub2api.py:790-935 | In every run: when a row goes, the account was read last, and was read with the switch off exactly if a reconciliation clears an intent after such a read |
| QuarantineRemovals.ReadDecides | src/sub2api_mcp/scheduler.py:268-287 | From every reachable state that is about to read the account of an intent, the read and the next transaction drop the row and leave the switch off exactly for such accounts |
| QuarantineRemovals.SwitchLeftOff | src/sub2api_mcp/adapters/sub2api.py:790-821 | A reachable state in which the row is gone while the account is in error with scheduling still off |
| QuarantineScan.ListAccountQuarantines | src/sub2api_mcp/repository.py:521-564 | One keyset page: the first rows above the cursor, and a next cursor exactly when more rows follow |
| QuarantineScan.QuarantinedAccountIds | src/sub2api_mcp/scheduler.py:452-474 | The scan of 100 pages of 100 rows fails exactly above 10 000 markers and otherwise returns markers and intents, all of them |
| QuarantineScan.ScanWithinCapacity | src/sub2api_mcp/scheduler.py:452-474 | In a registry within its capacity, full included, the scan never reaches its limit error |
| ProbeRotation.ForProbeIsBatch | src/sub2api_mcp/repository.py:566-582 | The probe query returns a full batch that comes before every other marker in probe order |
| ProbeRotation.BeforeMeans | src/sub2api_mcp/repository.py:566-582 | The probe order: never probed first, then by last probe, quarantine time and id |
| ProbeRotation.AcceptedAttempts | src/sub2api_mcp/repository.py:795-858 | The attempts the rotation is proved for are exactly those the registry accepts |
| ProbeRotation.ProbeOne | src/sub2api_mcp/scheduler.py:349-375 | Probing one chosen marker removes it or stamps it with a time not before the clock |
| ProbeRotation.ProbeSelected | src/sub2api_mcp/scheduler.py:314-375 | A run removes or restamps exactly the markers it chose |
| ProbeRotation.RotationAfter | src/sub2api_mcp/repository.py:820-823 | After k runs at least min(5k, n) distinct markers were probed |
| ProbeRotation.EveryMarkerIsProbed | src/sub2api_mcp/repository.py:566-582 | Once five markers a run cover n, every one of n markers has been probed |
| MinimumPool.MinimumUsablePool.constructor | core/maintenance.py:119-134 | The counts are the true numbers of usable, not excluded accounts of each group |
| MinimumPool.MinimumUsablePool.CanDisable | core/maintenance.py:144-153 | True exactly if the account has groups and each keeps at least one after it |
| MinimumPool.MinimumUsablePool.BlockingGroupIds | core/maintenance.py:155-163 | Exactly the groups that stand in the way |
| MinimumPool.CountAfterExclusion | core/maintenance.py:136-153 | For an account that is not excluded yet, count minus decrement is the number left once it is excluded |
| MinimumPool.CloseExcludes | core/maintenance.py:618-660 | Remembering an account as closed counts like excluding it |
| MinimumPool.CloseMeans | core/maintenance.py:645-660 | A closed account is inactive and unscheduled in the remembered view, and no other account changes |
| MaintenanceCoordinator.ChannelSweep | core/maintenance.py:232-386 | Exactly the accounts whose test failed for good while every failed group of theirs has a tested account that passed; none above the account limit |
| MaintenanceCoordinator.SweptHasPeer | core/maintenance.py:336-362 | A swept account has, in each failed group, another account that passed its test in the same sweep |
| MaintenanceCoordinator.AccountLogGuard | core/maintenance.py:408-478 | Exactly the guarded accounts with at least three slow first tokens in the last 180 seconds |
| MaintenanceCoordinator.PoolDecides | core/maintenance.py:144-153 | The pool built from the remembered view decides exactly whether each group keeps another usable account in the latest snapshot |
| MaintenanceCoordinator.DisableOne | core/maintenance.py:559-645 | One candidate: called exactly if it is still eligible and every group of it stays served; otherwise ambiguous, or protected by groups that would be left empty |
| MaintenanceCoordinator.DisableLoop | core/maintenance.py:559-660 | For all disable results, uncertain ones included: at the end every group of a touched account still has a usable account that was not taken out; each candidate was disabled exactly if it was still eligible and spare when its turn came, else the run notes why, with exactly the groups that need it; the loop stops exactly at a doubtful answer, not at a plain refusal |
| MaintenanceCoordinator.Coordinator.Run | core/maintenance.py:493-662 | One run: the candidates are exactly the swept and the slow accounts with their groups and reasons, none excluded before; the loop guarantees hold; the remembered ids are exactly the closed or excluded ones plus the verified ones |
| MaintenanceOutcomes.SweptExactly | core/maintenance.py:232-405 | The sweep proposes exactly the accounts it tests that failed for good while each failed group of theirs has another account that passed; which accounts it tests, and when it tests none |
| MaintenanceOutcomes.SlowExactly | core/maintenance.py:413-478 | The log guard proposes exactly the serving accounts with monitored groups and three late first tokens in the last 180 seconds |
| MaintenanceOutcomes.MayDisableMeans | core/maintenance.py:559-616 | A candidate may be disabled exactly if the newest snapshot still shows what it was proposed for and somebody else serves each of its groups |
| LogWalk.FetchRecentLogs | core/maintenance_gateway.py:1041-1115 | The two loops with their early returns and the pagination checks compute the walk function: records or the error; what that function gives is said by `LogWalkOutcome` |
| LogWalk.WalkIsComplete | core/maintenance_gateway.py:1041-1115 | On a log that grows while it is walked, with a server page of at least the full length, the walk raises or returns every row of the window that the first read held, each identity once |
| LogWalk.AlikeCountOnce | core/maintenance_gateway.py:250-288 | A complete walk over a settled log returns as many records as there are identities in the window; rows without an id that look alike count once |
| LogWalk.WalkRaisesOnlyOnBursts | core/maintenance_gateway.py:269-288 | It never reports a changed row, and a changed order only if more rows arrive than the pages already read hold |
| LogWalk.HonestWalkReturns | core/maintenance_gateway.py:206-237 | If the server also counts its rows and pages as they are, no page is refused while the log grows: the walk returns or runs out of pages |
| LogWalk.ShortPagesLoseRows | core/maintenance_gateway.py:1113-1114 | For every server page size below the full length there is a log on which the walk returns without a row of the window |
| LogWalk.PageCovers | core/monitor.py:932-968 | One page keeps the cover of seen rows and moves it down, for the probe walk as for the usage walk |
| LogWalkOutcome.ScanGoesOn | core/maintenance_gateway.py:269-288 | The scan of rows goes on exactly if rows of one identity are alike, new ones come newest first and none is older than the start; then it holds the new rows of the window |
| LogWalkOutcome.ScanStopsAt | core/maintenance_gateway.py:1082-1112 | A scan that does not go on ends at its first row that breaks one of these, with the error or the records that row calls for |
| LogWalkOutcome.AcceptedMeans | core/maintenance_gateway.py:206-237 | A page is accepted exactly if it is the one asked for, counts its pages as its total and size demand, is one of them, and shows no more rows than these allow |
| LogWalkOutcome.WalkGives | core/maintenance_gateway.py:1041-1115 | What any walk gives, any server and any outcome: exactly the end it comes to at the last page it reads |
| LogWalkOutcome.TooManyExactly | core/maintenance_gateway.py:1054-1115 | A walk gives up for too many pages exactly if every page it may read is in order, full and not the last, and no row of them ends it |
| LogWalkOutcome.LastPageReturns | core/maintenance_gateway.py:1041-1115 | Against an honest server, on a log that grows slowly, the walk returns whenever one of the pages it may read is the last |
| ChannelDecision.LeavesFuse | src/sub2api_mcp/guardian/state_machine.py:116-172 | The exact conditions under which a fused channel becomes degraded, becomes healthy, or stays fused |
| ChannelDecision.EntersFuse | src/sub2api_mcp/guardian/state_machine.py:174-202 | A serving channel is fused exactly when a breaker trips with spare accounts; at the minimum it is kept in service and marked so |
| ChannelDecision.UnjudgedDecides | src/sub2api_mcp/guardian/state_machine.py:46-114 | Which label and reason a channel gets that an operator controls or whose evidence may not be judged |
| ChannelDecision.ServingDecides | src/sub2api_mcp/guardian/state_machine.py:189-230 | A serving channel that is judged and not fused is degraded exactly for a slow latency window, or for a low score with enough confidence; with too little confidence it keeps its label; else it is healthy |
| ChannelDecision.FlagsMean | src/sub2api_mcp/guardian/state_machine.py:46-230 | Exactly when traffic is scheduled, the channel is probed, and it may recover |
| ChannelDecision.ReasonsMean | src/sub2api_mcp/guardian/state_machine.py:116-230 | Which reason a judged channel gets: what keeps a fuse or ends it, which breaker tripped first, what decided about one that serves on |
| ChannelDecision.TripsMean | src/sub2api_mcp/guardian/state_machine.py:174-195 | The three breakers as numbers of failures and of slow responses among the newest events |
| ChannelEngine.GuardianEngine.Evaluate | src/sub2api_mcp/guardian/engine.py:363-825 | The round loop stores, entry by entry until cancelled, what the turn function gives, with one fuse counter for the round |
| ChannelEngine.RoundFusesAtMost | src/sub2api_mcp/guardian/engine.py:674-688 | A round fuses at most max_switch_per_round channels automatically, however many trip |
| ChannelEngine.RoundFusesSparePools | src/sub2api_mcp/guardian/state_machine.py:27-43 | Every channel a round fuses automatically had a tripped breaker and more available accounts than its pool minimum |
| ChannelEngine.ServingTurn | src/sub2api_mcp/guardian/engine.py:598-691 | The label a round gives to a serving channel, in terms of what was observed: not schedulable, warming up, stale, kept at the pool minimum, fused, degraded past the limit of the round, slow, uncertain, low or healthy |
| ChannelEngine.ControlledTurn | src/sub2api_mcp/guardian/engine.py:117-151 | Which channels are out of scope or controlled, and the label they carry |
| ChannelEngine.ScheduledTurn | src/sub2api_mcp/guardian/engine.py:598-691 | Exactly when the round leaves a channel in traffic, probes it or lets it recover |
| ChannelEngine.StreakTurn | src/sub2api_mcp/guardian/engine.py:604-618 | The streak grows with a perfect event of an observed fused channel and ends with any other; that of a serving channel counts its newest perfect events |
| ChannelEngine.TimesTurn | src/sub2api_mcp/guardian/engine.py:604-691 | When a fuse ends and when a streak began: what a new fuse, a lasting one and every other channel store; only fuses of the round count against its limit |
| ChannelEngine.ReportedTurn | src/sub2api_mcp/guardian/engine.py:674-691 | The reported label is the stored one; the limit of the round is given as the reason exactly for a channel it keeps from being fused |
| ChannelHistory.FuseHasOrigin | src/sub2api_mcp/guardian/engine.py:598-691 | Over every history a channel fused without an operator was fused by one round, has stayed fused since, and its release time is that round plus its cooldown |
| ChannelHistory.StreakIsRun | src/sub2api_mcp/guardian/engine.py:604-618 | The stored streak and its start are those of the unbroken run of perfect rounds; only a run back to the fuse also counts earlier events |
| ChannelHistory.RecoveryIsEarned | src/sub2api_mcp/guardian/state_machine.py:144-161 | A fused channel becomes healthy exactly in a judged perfect round after the cooldown of its fuse, at the end of an unbroken run of perfect rounds that spans the hold time, with score, confidence and count met |
| ChannelHistory.DegradeIsSlow | src/sub2api_mcp/guardian/state_machine.py:133-143 | A fused channel becomes degraded exactly in a judged round after the cooldown of its fuse, on a slow newest event, with the pool above its minimum |
| ChannelHistory.JudgedFuseHolds | src/sub2api_mcp/guardian/state_machine.py:116-172 | Under automatic control with evidence that may be judged, no round lets a fused channel go early, or to any other state |
| ChannelHistory.OneRoundMayRecover | src/sub2api_mcp/guardian/engine.py:611-618 | A history in which one perfect round meets a required count of three, because two events from before the fuse count |
| ChannelHistory.EarlyRecovery | src/sub2api_mcp/guardian/engine.py:604-618 | Recovery on fewer perfect rounds than required happens exactly if the run reaches back to the fuse and the perfect events from before it make up the rest |
| ChannelHistory.RoundIsLived | src/sub2api_mcp/guardian/engine.py:363-825 | What a round does to one channel is what its own entries do to it; a channel without an entry keeps its row |
| PauseProvenance.AccountObservations.UpsertAccountObservations | src/sub2api_mcp/guardian/repository.py:743-803 | A batch is stored as a whole with inferred markers, or refused as a whole |
| PauseProvenance.AutomaticIsBacked | src/sub2api_mcp/guardian/repository.py:805-850 | Over any history of batches and deletions, a row stored as an automatic pause ends a chain of earlier observations at most two days apart that starts in an error or an explicit marker |
| PauseProvenance.FirstSeenStaysManual | src/sub2api_mcp/guardian/repository.py:822-836 | A pause without marker, of an account never stored before, is not stored as automatic |
| PauseProvenance.HealthyBreaksChain | src/sub2api_mcp/guardian/repository.py:828-850 | The newest other row alone decides: a row that is neither in error nor automatic, too old, or later than the pause leaves it manual |
| PauseProvenance.ReingestConflicts | src/sub2api_mcp/guardian/repository.py:767-782 | Storing the same observation again is a no-op or a conflict, and exactly when it is a conflict |
| PauseProvenance.LateReingestConflicts | src/sub2api_mcp/guardian/repository.py:767-782 | Once a later observation of the account is stored, reading an older snapshot again raises exactly for the pauses whose marker was inferred |
| PauseProvenance.ReingestMayConflict | src/sub2api_mcp/guardian/repository.py:767-782 | Three ordinary calls after which repeating the second raises |
| PauseOutcomes.MarkedExactly | src/sub2api_mcp/guardian/repository.py:805-850 | An observation is stored as reported, except that an active account without scheduling is marked as paused automatically exactly if its newest other row is at most two days old and in error or automatic |
| PauseOutcomes.BatchExactly | src/sub2api_mcp/guardian/repository.py:743-803 | A batch is refused exactly for its size, an account that comes twice, or one the snapshot holds with other contents; otherwise each account it does not hold is stored as it would be alone |
| PauseOutcomes.StoredOnce | src/sub2api_mcp/guardian/repository.py:767-800 | Over any history of batches and deletions no snapshot holds an account twice |
| AccountOperations.RefusedIsUntouched | src/sub2api_mcp/adapters/sub2api.py:340-386 | OAuth, expired, manually paused and merely limited accounts are neither tested nor written, whatever the upstream answers |
| AccountOperations.StopMeansUnconfirmed | src/sub2api_mcp/guardian/account_recovery.py:578-616 | The run is told to stop for every write that went out unconfirmed, and otherwise only if the read before the write raised |
| AccountOperations.WriteFollowsTest | src/sub2api_mcp/guardian/account_recovery.py:528-600 | Without writeback nothing is written; an account is enabled only after a passed test of its own, the first or the permitted second; it is disabled only if neither passed |
| AccountOperations.DisabledUntested | src/sub2api_mcp/guardian/account_recovery.py:528-600 | An account of which no test is recorded is sent a disabling write exactly in a writing channel-error run whose first test ended without a verdict on it, if no second test passed and the state read before the write does not protect it |
| AccountOperations.UnreadableIsDisabled | src/sub2api_mcp/guardian/account_recovery.py:550-586 | A serving account that could not be read before its test is disabled although no test was called |
| AccountOperations.ManualPauseOverridden | src/sub2api_mcp/adapters/sub2api.py:372-465 | A pause made by hand after the snapshot does not keep an account from being tested, or from being enabled after a pass, exactly if it was out of service or automatically paused before |
| AccountOperations.AutomaticPauseSurvives | src/sub2api_mcp/adapters/sub2api.py:549-570 | An automatic pause the upstream still shows is never turned into a disabled account |
| AccountOutcomes.RefusedMeans | src/sub2api_mcp/adapters/sub2api.py:340-372 | Which accounts the snapshot alone forbids to test |
| AccountOutcomes.CallsTestMeans | src/sub2api_mcp/adapters/sub2api.py:340-400 | Exactly when the upstream test is called, in terms of the snapshot and the read before it |
| AccountOutcomes.WritesExactly | src/sub2api_mcp/guardian/account_recovery.py:528-616 | Exactly when an account is sent each write, and exactly when it is reported as disabled or enabled: that write was confirmed, or the account was that way already |
| AccountOutcomes.TestsExactly | src/sub2api_mcp/guardian/account_recovery.py:490-560 | How many upstream tests are called |
| AccountOutcomes.TestedExactly | src/sub2api_mcp/guardian/account_recovery.py:470-616 | An account counts as tested exactly if its test broke, answered for it, or passed |
| AccountOutcomes.StopsExactly | src/sub2api_mcp/guardian/account_recovery.py:574-616 | The run is told to stop exactly if a write went out unconfirmed or the read before it raised |
| AccountOutcomes.SkippedExactly | src/sub2api_mcp/guardian/account_recovery.py:470-616 | Exactly which accounts count as skipped |
| RecoverySelection.ChooseMeans | src/sub2api_mcp/guardian/account_recovery.py:134-205 | One account is selected, and may be written, exactly under conditions on the account, the trigger and the monitored groups |
| RecoverySelection.ClassifyMeans | src/sub2api_mcp/guardian/account_recovery.py:75-104 | Each classification on its own, in terms of the account and the quarantined ids |
| RecoverySelection.ChosenMayBeTested | src/sub2api_mcp/guardian/account_recovery.py:107-220 | No selection contains an OAuth, expired or manually paused account, one processed before, or one outside the monitored groups |
| RecoverySelection.WantedIsChosen | src/sub2api_mcp/guardian/account_recovery.py:107-220 | Every account that meets the conditions is selected |
| RecoverySelection.ChosenDistinct | src/sub2api_mcp/guardian/account_recovery.py:125-127 | A selection names no account twice |
| AccountRecovery.RecoveryLedger.HandleAccounts | src/sub2api_mcp/guardian/account_recovery.py:387-440 | The loop handles the accounts in order, records each, counts each and passes over the rest after a stop |
| AccountRecovery.RecoveryLedger.Execute | src/sub2api_mcp/guardian/account_recovery.py:251-446 | One execution: replay of a finished run, refusal, or the run of the selected accounts with its counts and its rows |
| AccountRecovery.RecoveryLedger.RunCycle | src/sub2api_mcp/guardian/service.py:525-555 | The runs of a cycle, each excluding the accounts that the records of the earlier ones show as tested |
| RecoveryHistory.NothingAfterDoubt | src/sub2api_mcp/guardian/account_recovery.py:388-411 | After an unconfirmed write no later account of the execution is tested or written |
| RecoveryHistory.PassedOverForDoubt | src/sub2api_mcp/guardian/account_recovery.py:388-411 | An account is passed over only after such a step |
| RecoveryHistory.OnlyEligibleAreTouched | src/sub2api_mcp/guardian/account_recovery.py:107-220 | No execution tests or writes an OAuth, expired or manually paused account, or writes one it may not write back |
| RecoveryHistory.SuccessConserves | src/sub2api_mcp/guardian/account_recovery.py:335-446 | A succeeded execution, resumed or not, has enabled + disabled + indeterminate + skipped = selected, each the number of such ledger rows |
| RecoveryHistory.BlockedRunCounts | src/sub2api_mcp/guardian/account_recovery.py:378-385 | A run refused for its size chooses and touches no account, counts the whole group as skipped and nothing as selected, and stays open exactly if that could not be stored |
| RecoveryHistory.CountsAlwaysAgree | src/sub2api_mcp/guardian/repository.py:1078-1126 | In every reachable state the counts of every succeeded run agree with its rows |
| RecoveryHistory.FinishedIsFinal | src/sub2api_mcp/guardian/repository.py:1031-1126 | A finished run keeps its status, counts and rows through every later step |
| RecoveryHistory.LedgerIsSpaced | src/sub2api_mcp/guardian/repository.py:1250-1260 | Over every history a recorded test starts more than its cooldown after the last one of the account, unless by hand, and no run records an account twice |
| RecoveryHistory.TestsKeepInterval | src/sub2api_mcp/guardian/repository.py:1250-1260 | Over every history with fixed settings an hourly check tests no account that was tested within the probe interval before it, and any other automatic run none that was tested within the retry cooldown |
| RecoveryHistory.CycleTestsOnce | src/sub2api_mcp/guardian/service.py:525-555 | Inside one cycle an account that one run tested is not selected by a later one |
| RecoveryHistory.OpenRunStartsAfresh | src/sub2api_mcp/guardian/account_recovery.py:333-388 | An execution touches accounts exactly if its run is open and not refused and it selects and reaches one; then it begins without any doubt, whatever the stored results say |
| RecoveryHistory.DoubtEndsIfClosed | src/sub2api_mcp/guardian/account_recovery.py:441-456 | After an execution and any later history its run is finished exactly if the execution ended by itself or could store its failure, or a restart or another such execution of the run came since; a finished run touches nothing more, an open one forgets the doubt |
| RecoveryHistory.ResumedRunGoesOn | src/sub2api_mcp/guardian/account_recovery.py:333-456 | Two executions of one run in which an account is written after an unconfirmed write, for a cancelled first execution and for one whose failure could not be stored |
| RecoveryOutcomes.GoesThrough | src/sub2api_mcp/guardian/account_recovery.py:333-385 | An execution goes through its accounts exactly if the run is open, the interval is safe, no account comes twice and the group is small enough |
| RecoveryOutcomes.TakesExactly | src/sub2api_mcp/guardian/account_recovery.py:107-220 | It then takes exactly the accounts of its scope that may be tested, are monitored and wanted, and were neither processed in the cycle, nor recorded in the run, nor tested within the interval of the trigger |
| RecoveryOutcomes.TakenInOrder | src/sub2api_mcp/guardian/account_recovery.py:133-135 | It takes them in the order of the snapshot |
| RecoveryOutcomes.RecordsExactly | src/sub2api_mcp/guardian/account_recovery.py:388-440 | Each account it comes to is handled on its own, or passed over once one has stopped the run, and gets exactly one ledger row, at its time; it comes to all if it ends by itself |
| RecoveryOutcomes.EndsExactly | src/sub2api_mcp/guardian/account_recovery.py:333-456 | The status an execution leaves: that of a finished run; running if its end could not be stored; succeeded if it went through all; failed else; no other run changes |
| RecoveryOutcomes.CountsExactly | src/sub2api_mcp/guardian/account_recovery.py:365-446 | The counts of a finished execution are the numbers of rows of its run, by result and by test |
| RecoveryOutcomes.SameRun | src/sub2api_mcp/guardian/account_recovery.py:238-253 | Two requests belong to one run exactly if they are about one snapshot and one cause; for channel errors the episode is the cause |
| SnapshotQueue.InputSnapshots.PublishGuardianSnapshot | src/sub2api_mcp/repository.py:959-993 | Publishing adds a waiting row and never changes one that is there |
| SnapshotQueue.InputSnapshots.ClaimInputSnapshot | src/sub2api_mcp/guardian/repository.py:674-719 | Hands out the oldest snapshot that waits and is not under a live claim; nothing exactly if there is none |
| SnapshotQueue.InputSnapshots.ConsumeInputSnapshot | src/sub2api_mcp/guardian/repository.py:721-731 | Succeeds exactly for the current owner of a waiting snapshot |
| SnapshotQueue.InputSnapshots.ReleaseInputSnapshot | src/sub2api_mcp/guardian/repository.py:733-741 | Gives a claim back only for its current owner |
| SnapshotQueue.InputSnapshots.SupersedeExpiredInputSnapshots | src/sub2api_mcp/guardian/repository.py:612-644 | Consumes exactly the outdated rows without live claim, the newest waiting one excepted |
| SnapshotQueue.SupersedeSpares | src/sub2api_mcp/guardian/repository.py:612-644 | The newest waiting snapshot and every live-claimed one survive; which others go, exactly |
| SnapshotQueue.ConsumedStays | src/sub2api_mcp/guardian/repository.py:721-731 | Consumed is permanent until retention drops the row |
| SnapshotQueue.ConsumedIsUnclaimed | src/sub2api_mcp/guardian/repository.py:721-731 | In every reachable state a consumed snapshot is under no claim |
| SnapshotQueue.ConsumedOnce | src/sub2api_mcp/guardian/repository.py:721-731 | Consuming succeeds at most once per snapshot unless retention dropped it in between |
| SnapshotQueue.OwnerHasLastClaim | src/sub2api_mcp/guardian/repository.py:674-719 | Whoever owns a snapshot got it from the last claim that handed it out |
| SnapshotQueue.StolenClaimLoses | src/sub2api_mcp/guardian/engine.py:297-298 | A claim that was handed to somebody else makes the first owner fail to consume |
| SnapshotQueue.ReleaseUndoesClaim | src/sub2api_mcp/guardian/repository.py:733-741 | Releasing gives the queue back as it was, but for a claim that had run out |
| SnapshotQueue.ReleasedIsNextAgain | src/sub2api_mcp/guardian/engine.py:306-311 | A snapshot that a failing run gives back is handed out again ahead of all newer ones |
| SnapshotQueue.ClaimLasts | src/sub2api_mcp/guardian/repository.py:674-719 | A claimed snapshot cannot be claimed again before its lease, at least a second, is over, and can be from then on |
| SnapshotQueue.PublishedMeans | src/sub2api_mcp/repository.py:959-993 | A new snapshot begins to wait, unclaimed; one that is there stays as it is |
| SnapshotQueue.RetainedMeans | src/sub2api_mcp/guardian/repository.py:2364-2374 | Retention drops consumed snapshots captured before the cutoff, and no other (without its batch limit) |
| SseScan.BlocksJoin | core/monitor.py:547-548 | Joining the completed blocks and the rest with blank lines gives the normalized text back |
| SseScan.BlocksAreMaximal | core/monitor.py:547-548 | No block holds a blank line |
| SseScan.BlocksGrow | core/monitor.py:547-548 | Completed blocks of a prefix are a prefix of those of any extension, also with CR and LF in different chunks |
| SseScan.MeasureFirstEvent | core/monitor.py:528-558 | Looking only at newly closed blocks sees the first event at the chunk at which rescanning everything would |
| SseScan.SeenStays | core/monitor.py:547-558 | An event that was seen is seen in everything that follows |
| SseScan.AccountTestResult | core/recovery.py:345-396 | The loop over blocks gives the verdict function, with its framing, event and completion errors; which verdict that is, `VerdictsExactly` and `ErrorsExactly` say |
| SseScan.PassedExactly | core/recovery.py:359-396 | An account passed exactly if every block is readable, none is an error event, and the only completion is a success |
| SseScan.VerdictIsMeasured | core/recovery.py:345-396 | Whenever the body gives passed, failed or rejected, the scan of the same bytes has measured a first event |
| SseVerdict.BlocksGive | core/recovery.py:359-396 | Reading blocks gives a result exactly if all are clean and it sums up their completions, or if the first block that is not clean ends the reading with it |
| SseVerdict.VerdictsExactly | core/recovery.py:345-396 | For every body: exactly when an account passed, failed, was rejected by routing, or is incomplete |
| SseVerdict.ErrorsExactly | core/recovery.py:345-396 | For every body: exactly when each of the four errors is raised |
| SseVerdict.DataLinesMean | core/recovery.py:360-372 | Lines are accepted exactly if each is empty, a comment, or begins with `data:`; the data is what follows there |
| SseVerdict.LinesMean | core/recovery.py:360-372 | A block is split exactly at its line breaks |
| WeightedAverage.AverageBetween | src/sub2api_mcp/guardian/scoring.py:86-89 | A weighted mean lies between any bounds of the scores |
| WeightedAverage.AverageRises | src/sub2api_mcp/guardian/scoring.py:86-89 | Raising scores never lowers a weighted mean |
| Scoring.TimeWeighted | src/sub2api_mcp/guardian/scoring.py:75-89 | The loop over buckets gives the time-weighted score |
| Scoring.ScoreIgnoresNow | src/sub2api_mcp/guardian/scoring.py:75-89 | The time-weighted score of fixed buckets does not depend on when it is taken |
| Scoring.HealthIsConvex | src/sub2api_mcp/guardian/scoring.py:199-227 | Short, long and health score lie between any bounds of the evidence in the long window |
| Scoring.ClampsAreIdle | src/sub2api_mcp/guardian/scoring.py:265-278 | The clamps to [0, 100] and [0, 1] never change a value |
| Scoring.WarmMeansCovered | src/sub2api_mcp/guardian/scoring.py:240-287 | Not warming up implies a coverage of exactly 1 |
| Scoring.HealthRises | src/sub2api_mcp/guardian/scoring.py:199-227 | Raising the score of any buckets never lowers the health score |
| Scoring.PositionScoreBetween | src/sub2api_mcp/guardian/scoring.py:21-38 | The older score by position lies between any bounds of its samples |
| Scoring.NewerWeighsMore | src/sub2api_mcp/guardian/scoring.py:75-89 | Newer evidence always has the greater decay |
| Scoring.HalfLifeHalves | src/sub2api_mcp/guardian/scoring.py:75-89 | Evidence one half-life older weighs half as much, at equal quality |
| ScoringOutcomes.ErrorsExactly | src/sub2api_mcp/guardian/scoring.py:163-187 | Exactly when each of the four errors is raised, in the order of the checks |
| ScoringOutcomes.NothingRecent | src/sub2api_mcp/guardian/scoring.py:168-212 | Without a bucket in the long window the scores stay what they were, with no confidence |
| ScoringOutcomes.ScoresExactly | src/sub2api_mcp/guardian/scoring.py:189-227 | The long and the short score are the means over their windows by quality and remaining weight, the long one for both if the short window is empty; the health mixes them |
| ScoringOutcomes.FreshnessMeans | src/sub2api_mcp/guardian/scoring.py:96-114 | Evidence is fresh up to the fresh window or two intervals, and expired past the expire window and twice both of these |
| ScoringOutcomes.WarmsUpExactly | src/sub2api_mcp/guardian/scoring.py:117-287 | A channel warms up exactly while its evidence spans less than its usual spacing, the median of the gaps at least a bucket wide, times the number of buckets asked for, or is a single bucket, or leaves the short window empty |
| ScoringOutcomes.ConfidenceExactly | src/sub2api_mcp/guardian/scoring.py:228-276 | The confidence: six tenths of the coverage and four tenths of the mean quality, times the decay of the newest evidence over the fresh window |
| ScoringOutcomes.PositionExactly | src/sub2api_mcp/guardian/scoring.py:21-38 | The older score by position: a share for the newest sample, and for the others a mean in which each place weighs the decay times the place before |
| Sorting.NearestRankIsLeast | src/sub2api_mcp/guardian/sampling.py:38-42 | The percentile is the least value that at least 95 percent of the values do not exceed |
| Grouping.GroupsConserve | src/sub2api_mcp/guardian/sampling.py:74-79 | Sorting rows into groups loses none and counts none twice |
| Sampling.BuildTrafficBuckets | src/sub2api_mcp/guardian/sampling.py:45-100 | The loops over observations and groups give the build function, with its two errors |
| Sampling.TrafficConserves | src/sub2api_mcp/guardian/sampling.py:55-77 | Duplicates, monitor requests, unattributed ones and bucketed events add up to the observations |
| Sampling.RefusedIfChanged | src/sub2api_mcp/guardian/sampling.py:61-65 | Traffic is refused exactly when one request hash comes with two contents |
| Sampling.DuplicateChangesNoBucket | src/sub2api_mcp/guardian/sampling.py:61-67 | An exact duplicate changes no bucket |
| Sampling.TrafficBucketBetween | src/sub2api_mcp/guardian/sampling.py:79-93 | A traffic bucket scores between the least and the greatest score of its events; its quality is full exactly from five events on |
| Sampling.EvidencePartBetween | src/sub2api_mcp/guardian/sampling.py:124-135 | What a source says of a bucket scores between its events and is as reliable as the best of them |
| Sampling.FuseEvidenceBuckets | src/sub2api_mcp/guardian/sampling.py:103-159 | The loops over evidence, sources and buckets give the fusion function |
| Sampling.FusionConserves | src/sub2api_mcp/guardian/sampling.py:117-159 | The fused buckets hold the events of the distinct evidence and of the traffic buckets |
| Sampling.ReplayChangesNothing | src/sub2api_mcp/guardian/sampling.py:114-123 | Reading the same event of a source again in its bucket changes nothing |
| Sampling.FusedInOrder | src/sub2api_mcp/guardian/sampling.py:143-159 | The buckets come in the order of channel and time, each pair once, and exactly for the pairs that some source speaks of |
| Sampling.FusedScores | src/sub2api_mcp/guardian/sampling.py:143-159 | Each fused score lies between the least and the greatest score of the sources of its bucket |
| Sampling.SourceAddsQuality | src/sub2api_mcp/guardian/sampling.py:146-146 | One more source never lowers the quality, which stays within [0, 1] and at least what the source is worth alone |
| Sampling.FusionFailsIf | src/sub2api_mcp/guardian/sampling.py:144-145 | Fusion divides by zero exactly when all sources of some bucket have no reliability |
| Sampling.BucketCovers | src/sub2api_mcp/guardian/sampling.py:30-36 | A bucket covers exactly one width from its start, and starts at a multiple of it |
| SamplingOutcomes.TrafficCountsExactly | src/sub2api_mcp/guardian/sampling.py:45-77 | Exactly when traffic is refused; how many observations repeat a request, come from a monitor, or belong to no channel |
| SamplingOutcomes.TrafficExactly | src/sub2api_mcp/guardian/sampling.py:69-93 | There is one bucket for each channel and width in which a first request falls, in order; it tells the number, mean score, quality and percentile of exactly those requests |
| SamplingOutcomes.PartsExactly | src/sub2api_mcp/guardian/sampling.py:112-142 | What the sources say: one part for each source with readings in a bucket, with the mean score, best reliability, events and percentile of its first readings, and one for each traffic bucket |
| SamplingOutcomes.FusedExactly | src/sub2api_mcp/guardian/sampling.py:143-159 | Each fused bucket: the mean of its parts by reliability, wrong only if all are, with all their sources and events and the slowest percentile |
| ChannelBinding.ResolveChannel | core/probe.py:765-810 | A channel is bound to a group exactly when its smallest gap beats every other matching group by more than 100 ms, or no other matches |
| ChannelBinding.ResolveChannelGroupIds | core/probe.py:765-810 | The loop over channels stores each winner under its monitor |
| ChannelBinding.WinnerIsUnique | core/probe.py:804-809 | At most one group wins |
| ChannelBinding.OrderDoesNotMatter | core/probe.py:804-809 | Which group wins does not depend on the order or number of the records |
| ChannelBinding.BindsExactly | core/probe.py:765-810 | A channel is bound to a group exactly if a record of the group comes closest, and all records of other groups are more than 100 ms further off; which records count, to the microsecond |
| ChannelBinding.AggregateGroupAccountCounts | core/probe.py:673-702 | Each row is what counting that group alone gives |
| ChannelBinding.RecountExactly | core/probe.py:673-702 | Each number is that of the places at which accounts of its kind list the group |
| ChannelBinding.RemainderIsClosed | core/probe.py:158-164 | The remainder reported as closed is exactly the closed accounts of the group |
| AttemptLimiter.BindingAttemptLimiter.Allow | core/bindings.py:165-187 | The method leaves the table and answers as the function on the table says |
| AttemptLimiter.DropOldIsAfter | core/bindings.py:182-183 | Popping old attempts from the left is filtering |
| AttemptLimiter.EvictionIsInvisible | core/bindings.py:169-187 | For call times in order the answer is that of an unbounded limiter, except for refusals while the table is full |
| AttemptLimiter.FullMeansBusy | core/bindings.py:169-179 | The table is full only while that many other actors each have a grant in the window |
| AttemptLimiter.NoWindowOverflows | core/bindings.py:180-187 | No actor is granted more than max_attempts in any interval (t - window, t] |
| AttemptLimiter.LimitsExactly | core/bindings.py:150-163 | Each limit is the bound next to its argument |
| AttemptLimiter.TableExactly | core/bindings.py:165-187 | Which rows one call leaves: idle actors go exactly if a new actor finds the table full, and that actor is left out if it is full even then |
| AccountBindings.BindingRegistry.Load | core/bindings.py:61-75 | Loading a list succeeds exactly if no actor and no account occurs twice and it is not too long; the new registry is inverse and holds exactly the listed bindings; otherwise the first that does not fit is named |
| AccountBindings.BindingRegistry.Bind | core/bindings.py:77-105 | Binds or names the conflict, and keeps the two dictionaries inverse |
| AccountBindings.BindingRegistry.Unbind | core/bindings.py:110-116 | Removes both directions of one binding and keeps the dictionaries inverse |
| AccountBindings.UnbindUndoesBind | core/bindings.py:110-116 | Unbinding undoes binding |
| AccountBindings.BindsExactly | core/bindings.py:77-105 | Which of the five outcomes a binding has, in terms of who holds the actor and the account, and what it leaves |
| AccountBindings.LoadedIsInverse | core/bindings.py:61-75 | A list that loads gives inverse dictionaries with exactly the listed bindings, one for each |
| AccountBindings.LoadsExactly | core/bindings.py:61-75 | A list loads exactly if actors and accounts are distinct and it is not too long |
| AccountBindings.LoadErrorsExactly | core/bindings.py:61-75 | A list is refused exactly with the error of its first binding that does not fit |
| AccountBindings.LoadUndoesStore | core/bindings.py:118-147 | Loading the stored list, in any order, gives the registry back |

## Left out

- QuarantineProtocol.NothingIsLost: covers accounts this path made inactive, because an account it merely made unschedulable is not held once reconciliation clears its intent (see `SwitchLeftOff`).
- AccountRecovery.RecoveryLedger.Execute: leaves out the preferred probe model that a successful retry stores, because it only chooses the model of the next test; starts from observations already in id order; has no step for an account whose result could not be stored; and gives a run that breaks before its selection the counts of the selection instead of none.
- RecoveryHistory.LedgerIsSpaced: covers the rows of the ledger; a test whose process dies before the row is written leaves no row, and the deletion of finished runs after 90 days is not modelled.
- RecoveryHistory.DoubtEndsIfClosed: an error while the run row is created leaves no row, where the model keeps a running one that a restart closes; and the deletion of finished runs after 90 days, which lets a run of that key begin anew, is not modelled.
- RecoveryHistory.FinishedIsFinal: does not model the deletion of finished runs, with their rows, after 90 days.
- RecoveryHistory.CountsAlwaysAgree: covers the runs that are stored; their deletion after 90 days, and an error while the run row is created, are not modelled.
- SnapshotQueue.InputSnapshots.ClaimInputSnapshot: models serialized claims; two workers that skip each other's locked row are not modelled.
- Scoring.ClampsAreIdle: over real numbers, because float rounding is not modelled.
- Sampling.FusionConserves: sums are over real and natural numbers, so the order of a dictionary does not show.
- LogWalk.FetchRecentLogs: a row whose fields cannot be parsed is not modelled; it only raises.
- ChannelBinding.ResolveChannel: group ids are numbers, so two spellings of one number are one group.
- AccountRecovery.RecoveryLedger.RunCycle: refusals before a run exists, with recovery disabled or the lease busy, change nothing and are not modelled.
- MaintenanceCoordinator.Coordinator.Run: the notices of the sweep and of the log guard are not modelled; those of the disable loop are.
- HTTP, SQL text, JSON, hashing, metrics, logging, rendering, the command and web interfaces, and the job queue are plumbing around the modelled logic.
- The Guardian's own disable path creates no quarantine marker by design and is not part of the quarantine protocol.
- Channel-error episodes, classification of monitor states, recovery-probe budgets, policy merging, model administration and retention batches would add only easy members.
- Completeness of account and monitor snapshots over several pages is not claimed: the code checks it on a last page only.
- That every intent is reconciled at last is not claimed: a run looks at the five oldest only.
- Leases, heartbeats and their expiry enter only through the single-writer assumption.
