# Owera fleet control plane: a verified model

This project models the concurrent control plane and the codecs of the fleet repository and
proves what they promise over every input, every interleaving and every run.

| file | what it models |
|---|---|
| `Swarm.dfy` | the dispatch loop, leaf goroutines and cancellation of the swarm orchestrator, as a step system |
| `Ledger.dfy` | the signed append-only task ledger: append, read, verify |
| `Trail.dfy` | the stable sort and the audit-trail merge at the end of a swarm, written through the ledger |
| `LedgerTail.dfy`, `TrailTail.dfy` | the in-place `ReadSince` filter, the cursor rule and a polling client; tailing a swarm's trail |
| `SubmitJob.dfy` | the run registry; concurrent SubmitJob and CancelTask calls with restarts |
| `SnapshotCache.dfy`, `Workers.dfy` | the double-checked single-flight health cache; the worker list |
| `Budget.dfy` | check-and-consume under a lock with day roll-over and int64 sums; the crash-safe save on a disk with volatile and durable bytes and names |
| `Watchdog.dfy` | alert fan-out; the alert / suppress / recover machine over marker files |
| `ExpandVars.dfy`, `Secrets.dfy` | `${VAR}` expansion; the secrets stream and its parser |
| `HealthParse.dfy`, `HealthFields.dfy` | the snapshot parser, and which fields a section gives |
| `HealthDiff.dfy`, `HealthRender.dfy` | the diff, the markdown report |
| `LogNames.dfy`, `LogRotate.dfy` | stamps and archive names; log rotation and pruning in a directory |
| `LogRetention.dfy`, `LogRuns.dfy` | what one rotation and one prune keep; what runs of appends and visits keep |
| `Strings.dfy` | byte strings, Go's string order, sorting, line scanning, white space |

Concurrent code is a state, an `Enabled` predicate and a `Step` function; a run is a sequence
of steps picked by an arbitrary scheduler, and theorems speak of the state after any legal
run. Code that changes things step by step is a method or a class, proved against a function
of its old state; the theorems are about that function. A Go string is a sequence of bytes
(one `char` per byte). Signing, JSON, gzip and time formatting are function-valued parameters
with stated laws (`Ledgers.Lawful`, `LedgerTail.Lossless`, `LogRotate.Lawful`): verification
accepts what was signed, decoding inverts encoding. Failures of the file system and of
alert backends, and the readings of clocks, are inputs that the environment chooses.

Where code and comment disagree, the model follows the code:

- The comment on `Execute` says that a cancelled run never carries a bill entry. Leaf-returned
  entries are merged regardless, so it carries one exactly when a leaf returned one (`Trail.BillEntries`).
- `Append` accepts entries of any size, but `Read` scans with a 64 KiB buffer: one longer line
  makes the whole task unreadable (`Ledgers.ReadBack` is an if-and-only-if).
- The tail cursor is exact only under a condition on timestamps; equal ones lose entries and
  decreasing ones repeat them (`LedgerTail.ExactlyOnce` is an if-and-only-if).
- A budget's `save` ignores a failed directory sync, which can take an acknowledged charge back
  (`Budget.IgnoredSyncLosesCharge`), and the cost test can overflow (`Budget.CapBrokenByOverflow`).
- `MaxSeverity` is documented as "info" for an empty report; it is the empty string.
- A negative `RetryEach` runs no leaf and reports every leaf as succeeded (`Swarm.UncancelledRun`).
- The prune pattern of one log also matches the archives of a log whose name extends it; those
  can crowd out all of its own archives (`LogRuns.SiblingEvicts`; `LogRetention.NewestKept` says
  exactly when they do not). A log whose own pattern does not match its archives is
  never pruned (`LogRuns.UnmatchedNeverPruned`).
- SubmitJob goes on to dispatch when recording the id failed, takes a map it cannot read for an
  empty one (and writes that back), and writes the file without a sync, so a retry can dispatch
  again (`SubmitJob.FailedRecordDispatchesTwice`, `SubmitJob.BlindLookupDispatchesTwice`,
  `SubmitJob.EmptiedFileDispatchesTwice`; `SubmitJob.HazardIsExact` gives the exact condition).
- The order in which variables are expanded can show (`ExpandVars.OrderIrrelevant` is an
  if-and-only-if).

## Model

| member | source | states |
|---|---|---|
| Swarm.MaxPar | internal/orchestrator/orchestrator.go:117-120 | the semaphore's capacity: between 1 and the number of leaves (0 for none), and the plan's own limit whenever that lies in the range |
| Swarm.Unlimited | internal/orchestrator/orchestrator.go:117-120 | all leaves may run at once exactly when the plan sets no limit or one that is not below their number |
| Swarm.Safety | internal/orchestrator/orchestrator.go:117-164 | in every interleaving with a cancel anywhere, at most maxPar leaves are in flight, the launched leaves are a prefix of the plan, and each result slot is zero or exactly its own leaf's last outcome |
| Swarm.SlotOwnership | internal/orchestrator/orchestrator.go:155-161 | a step that changes slot i is leaf i's own store |
| Swarm.StepInv | internal/orchestrator/orchestrator.go:126-164 | every step of every thread keeps the invariant tying semaphore and wait-group counts to the leaves' program counters, slots to attempts, and the dispatch index to the launched prefix |
| Swarm.RunInv | internal/orchestrator/orchestrator.go:126-164 | hence every run from a state that satisfies the invariant ends in one |
| Swarm.NeverStuck | internal/orchestrator/orchestrator.go:126-164 | no reachable unfinished state is stuck, even if no cancel ever comes |
| Swarm.StepDecreases | internal/orchestrator/orchestrator.go:126-164 | every step lowers a measure, so progress never loops |
| Swarm.Termination | internal/orchestrator/orchestrator.go:126-164 | no interleaving is longer than a bound in the number of leaves and retries; with NeverStuck every maximal run ends |
| Swarm.UncancelledRun | internal/orchestrator/orchestrator.go:142-164 | a run that ends uncancelled ran every leaf; a leaf is reported failed exactly when all RetryEach+1 attempts failed, and what is kept is the last attempt's; a negative RetryEach calls nothing and reports success |
| Swarm.CancelBound | internal/orchestrator/orchestrator.go:131-154 | after a cancel lands at most one more leaf is launched, and each leaf starts at most one more runner call |
| Trail.StableSort | internal/orchestrator/orchestrator.go:166-169 | the sort by leaf id is a permutation; ordered and keeping equal ids in plan order are if-and-only-if conditions that leave this list only |
| Trail.RollUp | internal/orchestrator/orchestrator.go:173-178 | OK exactly when no leaf failed |
| Trail.WriteEntry | internal/orchestrator/orchestrator.go:191-196 | one append attempt: the task's file and the collected errors change as the specification's Put, other tasks' files do not |
| Trail.MergeLeaf | internal/orchestrator/orchestrator.go:203-240 | one result writes its own entries in order, then its marker unless cancelled |
| Trail.MergeAll | internal/orchestrator/orchestrator.go:197-262 | the whole trail is attempted in order and exactly the failed appends are reported |
| Trail.Merge | internal/orchestrator/orchestrator.go:166-269 | sorted leaves, OK iff not cancelled and no leaf failed, trail written, no write without a ledger, other tasks untouched |
| Trail.Execute | internal/orchestrator/orchestrator.go:104-270 | over every interleaving: an error exactly for a missing runner or task id and then nothing written; else the result and the trail of that run's slots; and with no ledger error, over any file that read well before, the file reads as the earlier entries and then this run's trail, exactly when every line fits |
| Trail.WritesAccounted | internal/orchestrator/orchestrator.go:186-196 | conservation: successful appends plus LedgerErrs equals attempted writes, the file only grows, and with no error it is the old text plus the whole trail |
| Trail.TrailShape | internal/orchestrator/orchestrator.go:197-262 | one start entry, then each result's section back to back in leaf-id order, then exactly one terminal entry |
| Trail.TrailSource | internal/orchestrator/orchestrator.go:197-262 | every entry is a re-emitted leaf entry or one of the swarm's own |
| Trail.BillEntries | internal/orchestrator/orchestrator.go:97-103 | a trail holds a bill entry exactly when some leaf returned one, cancelled or not |
| Trail.TrailReadBack | internal/orchestrator/orchestrator.go:203-262 | a trail appended to any file that read well before reads back as the earlier entries followed by its own, one by one, if and only if every line fits; every one verifies, carries the plan's task id, and the plan's tenant unless the leaf set one |
| Trail.RunReadsBack | internal/orchestrator/orchestrator.go:104-270 | the run, the accounting of its writes, the trail's shape and the ledger's round trip in one: no ledger error means the file reads as the earlier entries, the start entry, each leaf's section at its place and the terminal entry, exactly when every line fits |
| Trail.TrailEntries | internal/orchestrator/orchestrator.go:197-262 | field by field, what the file then says: a leaf's entry is its own in phase, action, result, data, duration and tails, under its own tenant if it named one, else the plan's; a leaf's marker is leaf-error:<id> with error exactly when it failed, else leaf-ok:<id> with ok, with its duration; start and done carry the parent run |
| Trail.LeafMarkers | internal/orchestrator/orchestrator.go:142-240 | after an uncancelled run without ledger error every leaf of the plan has its marker in the file, an error exactly when its last attempt failed |
| Trail.TerminalTellsOutcome | internal/orchestrator/orchestrator.go:241-262 | for every run the terminal entry is cancel iff it was cancelled, and ok iff uncancelled with every leaf's last attempt successful |
| Ledgers.Ledger.Append | internal/ledger/ledger.go:133-192 | succeeds iff the ledger can sign and the disk does not fail; the task's file gains the signed line or a prefix of it and comes into being unless it could not be opened; other files gain nothing |
| Ledgers.Ledger.Read | internal/ledger/ledger.go:200-227 | the scan loop equals the recursive reading of the file's lines, error cases with their line numbers included |
| Ledgers.TextAfter | internal/ledger/ledger.go:165-182 | append-only: the old text stays a prefix whatever fails, and a faultless append adds exactly one line |
| Ledgers.ReadBack | internal/ledger/ledger.go:133-227 | entries appended to any complete file that reads well read back after the earlier ones as themselves, stamped and signed, if and only if every line is shorter than 65536 bytes |
| Ledgers.ReadOn | internal/ledger/ledger.go:200-227 | lines that read well are read the same whatever follows them |
| Ledgers.ReadVerified | internal/ledger/ledger.go:200-227 | whatever the file holds, only entries whose signature verifies are handed out |
| Ledgers.ReadFlaws | internal/ledger/ledger.go:208-226 | Read gives all entries if and only if every line that is not blank fits, decodes and verifies; else the error is that of the first flawed line, with its number |
| LedgerTail.CompactAfter | internal/ledger/ledger.go:271-276 | the filter that overwrites its own input's array equals the pure filter |
| LedgerTail.ReadSince | internal/ledger/ledger.go:263-278 | all entries for the zero time, else exactly those strictly after, in order; read errors pass through |
| LedgerTail.TailReplies | internal/rpc/ledgertail.go:76-121 | a parameter error exactly for a missing task id or an unreadable cursor, nothing and the same cursor for a task without a file, an internal error exactly for a file that does not read, else the entries after the cursor |
| LedgerTail.PollStep | internal/rpc/ledgertail.go:76-121 | a poll hands out the entries stamped after the cursor and moves it to the last of them |
| LedgerTail.OnlyLater | internal/rpc/ledgertail.go:76-121 | from any state on, polls only add to the client's copy, and only entries stamped after the cursor it then held |
| LedgerTail.ExactlyOnce | internal/rpc/ledgertail.go:76-121 | over every interleaving of appends and polls, a client that polls at any moment holds exactly the log, each entry once and in order, if and only if every append was stamped after the cursor then held and every poll found the latest time at the log's end |
| LedgerTail.StrictTimesAreExact | internal/rpc/ledgertail.go:116-120 | strictly increasing timestamps make the tail exact |
| LedgerTail.TailExact | internal/rpc/ledgertail.go:76-121 | a given log can be polled at any moments without loss or repeat if and only if its times strictly increase |
| TrailTail.TrailTailed | internal/orchestrator/orchestrator.go:197-262 | so polls placed anywhere among the appends of a swarm's trail hand out exactly the trail if and only if the times it is stored under strictly increase |
| TrailTail.UnstampedTailed | internal/ledger/ledger.go:137-139 | leaf entries that come without a time are stamped as they are merged, so on a clock that moves between appends every trail can be tailed at any moments |
| LedgerTail.NoDuplicates | internal/rpc/ledgertail.go:116-120 | timestamps that never decrease give no duplicate and no reordering |
| LedgerTail.LateAppendLost | internal/ledger/ledger.go:273-275 | an append stamped no later than the cursor is never handed out, whatever appends and polls follow |
| LedgerTail.ReversalRepeats | internal/rpc/ledgertail.go:116-119 | a poll that moves the cursor below an entry it has handed out makes the next poll hand that entry out again, whatever comes in between |
| LedgerTail.TiesLose | internal/ledger/ledger.go:273-275 | equal timestamps lose the second entry |
| LedgerTail.ReversalsRepeat | internal/rpc/ledgertail.go:116-119 | a log with a later time before an earlier one is handed out with a repeat |
| RunRegistry.Registry.Register | internal/runregistry/runregistry.go:40-50 | sets or replaces the task's cancel func; an empty id or a nil func is ignored |
| RunRegistry.Registry.Unregister | internal/runregistry/runregistry.go:54-61 | removes the task without invoking its cancel func |
| RunRegistry.Registry.Cancel | internal/runregistry/runregistry.go:66-81 | true iff the task was registered; then it is removed and its own cancel func invoked, so a second call answers false |
| SubmitJob.TakeAndFireIsCancel | internal/runregistry/runregistry.go:66-81 | a canceller's two steps, under the lock and after it, are the registry's Cancel |
| SubmitJob.Lifecycle | internal/rpc/submitjob.go:290-340 | in every interleaving with restarts: CancelTask answers true at most once per task and has then cancelled it; after Handle returns a finite or failed task is unregistered and cancelled, a successful long-running one is registered iff no cancel removed it; nothing else is in the registry; the reply is an error exactly when the router returned one |
| SubmitJob.CancelledIff | internal/rpc/submitjob.go:290-346 | in every run a context is cancelled if and only if a CancelTask for it fired, or its dispatch failed, or the call is finite and was cleaned up or disconnected; a successful long-running task's context is cancelled exactly when a CancelTask fired |
| SubmitJob.RunInv | internal/rpc/submitjob.go:290-340 | every run keeps the registry invariant |
| SubmitJob.Idempotent | internal/rpc/submitjob.go:202-257 | in a run without hazard, across interleavings, unreadable files, failed writes and restarts, no two tasks are recorded for one cloud_job_id: it is dispatched at most once and all task ids handed out for it agree. A hazard is, on account of another dispatchable call of the id: a lookup while that call is between lookup and record; a lookup that cannot read a map that has the id; a record that fails while that call is to come; a blind record or a restart that loses the id from the map while that call is to come |
| SubmitJob.MapGrows | internal/rpc/submitjob.go:347-405 | over a run without hazard that drops nothing, no entry of the persisted map is lost or changed |
| SubmitJob.GrowsIff | internal/rpc/submitjob.go:360-368 | after a run without hazard a step loses an entry of the map if and only if it is a record that could not read a map of other ids, or a restart that finds less than was there |
| SubmitJob.OrderlyIsSafe | internal/rpc/submitjob.go:217-257 | calls of one id that do not overlap, with a map that is read, written and kept, run without a hazard and without a loss |
| SubmitJob.OverlapDispatchesTwice | internal/rpc/submitjob.go:217-257 | from the start, two dispatchable calls of one id that overlap both dispatch |
| SubmitJob.FailedRecordDispatchesTwice | internal/rpc/submitjob.go:257-272 | from the start, two that do not overlap both dispatch when the first record fails |
| SubmitJob.BlindLookupDispatchesTwice | internal/rpc/submitjob.go:347-355 | from the start, two that do not overlap both dispatch when the second cannot read the map |
| SubmitJob.EmptiedFileDispatchesTwice | internal/rpc/submitjob.go:392-405 | and when a power loss has emptied the file, which is written without a sync |
| SubmitJob.HazardSplits | internal/rpc/submitjob.go:217-272 | after a hazard in a state that a run without hazard reaches, persistence that works and no further hazard lead to two tasks recorded for the id, both dispatched unless the first was killed between its record and its dispatch |
| SubmitJob.HazardIsExact | internal/rpc/submitjob.go:202-405 | so the condition is exact: every run from the start that has a hazard can be continued from its first one, without another and with persistence that works, until a job has two tasks; a run without one never does |
| SnapshotCache.CacheContract | internal/rpc/healthsnapshot.go:236-283 | in every concurrent run computes never overlap, Snapshot rebuilds start at least TTL apart whatever Refresh does, and every result is the call's own or was stored less than TTL before a clock reading in the call |
| SnapshotCache.RebuildsWhenDue | internal/rpc/healthsnapshot.go:236-283 | every finished Refresh computed its own snapshot, stored no earlier than it began; a Snapshot computed exactly when its re-check under the mutex found nothing young, and took the mutex only if its first look had; no two calls share a computed snapshot |
| SnapshotCache.PublishStores | internal/rpc/healthsnapshot.go:257-282 | a call that rebuilt leaves exactly its snapshot, stamped then, in the cache |
| SnapshotCache.RebuildRate | internal/rpc/healthsnapshot.go:236-268 | a window of length w holds at most w/TTL+1 Snapshot rebuilds |
| SnapshotCache.NeverStuck | internal/rpc/healthsnapshot.go:245-248 | an unfinished call can move or the holder of the mutex can |
| SnapshotCache.StepInv | internal/rpc/healthsnapshot.go:236-283 | every step keeps the mutex, stamp and spacing invariant |
| Workers.ComputeWorkers | internal/rpc/healthsnapshot.go:297-345 | registry hosts in file order, then the heartbeat-only hosts strictly sorted, each with its own age and verdict |
| Workers.WorkerListMeaning | internal/rpc/healthsnapshot.go:297-345 | that promise determines the list: no map order shows, it covers exactly the union, ok holds iff there is a heartbeat younger than the threshold, and the age is the heartbeat's, or -1 |
| Strings.SortStrings | internal/rpc/healthsnapshot.go:373-379 | the in-place insertion sort sorts and permutes |
| Strings.ListingUnique | internal/hermes/hermes.go:357-359 | a set of keys has one strictly sorted listing, so map order cannot show after the sort |
| Budget.Conservation | internal/budget/budget.go:86-158 | for every interleaving of Consume, Check, Get and SetLimits with kills, partial writes, torn or delayed write-back and failed directory syncs anywhere: as long as no power loss has found less on the platter, the file counts each acknowledged consume of its day once, and nothing but acknowledged, in-flight and crashed ones |
| Budget.DurableConservation | internal/budget/budget.go:184-221 | if the directory was on the platter before each acknowledgement, no power loss ever finds less, and the durable file accounts for the acknowledged calls too |
| Budget.PowerLossIff | internal/budget/budget.go:184-221 | at any point of any run, the file after a power loss accounts for the acknowledged calls if and only if the platter had them all, and keeps a given charge if and only if the platter had it |
| Budget.AdmittedWithinLimits | internal/budget/budget.go:92-101 | in every run, whatever was lost before, an admitted consume leaves both counters within the limits of the document it installs, and the true sum of what that counts too whenever it fits an int64 |
| Budget.LimitsInForce | internal/budget/budget.go:126-139 | in every run the limits of the visible document are, each by itself, the last positive value of a SetLimits whose rename landed in it, else the default |
| Budget.ReadMeaning | internal/budget/budget.go:62-121 | what a call answers, from the charges of the day and the limits set alone: rate-limited exactly when the count has reached the limit, capped exactly when it has not and the int64 sum would pass the cap; Check answers as Consume decides; Get shows just these numbers, none on a new day |
| Budget.CheckPredictsConsume | internal/budget/budget.go:62-104 | on the same file and day a Check admits exactly the costs a Consume would, and refuses for the same reason |
| Budget.SetLimitsKeepsCounters | internal/budget/budget.go:126-139 | a SetLimits that lands changes the limits and nothing else: day, counters and the charges they stand for stay |
| Budget.ChargeAdds | internal/budget/budget.go:92-101 | rolling the day and charging keeps the counters equal to the calls they count |
| Budget.RenameStep | internal/budget/budget.go:213-215 | the rename installs a document that adds up and is within limits |
| Budget.StepInv | internal/budget/budget.go:86-158 | every step of a call, a crash, a day change, a directory write-back or a power loss keeps the invariant of the books |
| Budget.StepFull | internal/budget/budget.go:86-158 | every step keeps the files full of acknowledged consumes, but for a power loss that finds less on the platter |
| Budget.Refines | internal/budget/budget.go:184-221 | write, sync, close, rename on a disk that may tear, delay or lose anything unsynced looks like a document replaced at a stroke; this rests on the bytes being synced before the rename |
| Budget.SyncBeforeRename | internal/budget/budget.go:199-215 | a document renamed into place comes back from a power loss if and only if its bytes were on the platter, which the sync ensures |
| Budget.UnsyncedRenameLoses | internal/budget/budget.go:199-215 | renamed without the sync, the file comes back unreadable: every acknowledged consume is unaccounted for and every later call fails; with the sync it comes back whole |
| Budget.CapBrokenByOverflow | internal/budget/budget.go:96-98 | the test admits a charge beyond the cap exactly when the sum reaches 2^63 |
| Budget.IgnoredSyncLosesCharge | internal/budget/budget.go:216-219 | a consume acknowledged over a failed directory sync is lost by a power loss before the directory is written back, and kept by one after |
| Alerting.FireAccepted | internal/alerting/alerting.go:79-93 | Fire returns nil exactly when every backend that handles the severity accepted |
| Alerting.FirstErrorIs | internal/alerting/alerting.go:79-93 | the error returned is that of the first handling backend whose send failed, under its name |
| Alerting.TargetsAre | internal/alerting/alerting.go:79-93 | an alert goes to exactly the backends that handle its severity, in order |
| Alerting.RoutingPolicy | internal/alerting/alerting.go:127-129 | the pagers take critical alerts only; ntfy takes its minimum severity and above |
| Alerting.Router.Fire | internal/alerting/alerting.go:79-93 | every handling backend is attempted in order, whatever fails, and the first error is returned |
| Alerting.Router.AddBackend | internal/alerting/alerting.go:72-74 | backends keep the order of registration |
| Watchdog.Daemon.ScanCycle | cmd/fleetctl/commands/watchdog.go:229-339 | markers, events, stale count and error flag are those of the hosts' turns; an unreadable directory changes nothing and is an error |
| Watchdog.AnyErrorIff | cmd/fleetctl/commands/watchdog.go:229-339 | the error flag is up exactly when some alert was not sent, not marked or not unmarked |
| Watchdog.StaleCountIs | cmd/fleetctl/commands/watchdog.go:225-258 | the stale count is that of the hosts older than the limit, suppressed ones included |
| Watchdog.Daemon.Turn | cmd/fleetctl/commands/watchdog.go:251-336 | the switch of the scan loop, each side effect failing or not, equals the host's turn |
| Watchdog.Daemon.ScanLoop | cmd/fleetctl/commands/watchdog.go:193-222 | a daemon that scans again and again leaves the markers of the run of scans |
| Watchdog.HostsIndependent | cmd/fleetctl/commands/watchdog.go:250-338 | in a scan each host's marker and event depend on its own marker, heartbeat and environment only |
| Watchdog.RunStep | cmd/fleetctl/commands/watchdog.go:229-339 | a scan of a run, seen from one host, is that host's own turn on the marker the run has left it, or nothing |
| Watchdog.EventMeaning | cmd/fleetctl/commands/watchdog.go:257-337 | in every run, for a host whose marker can be read: suppressed exactly when stale with a marker inside the window, an alert exactly when stale otherwise, a recovery exactly when fresh with a marker, however young; each delivered exactly when every backend that handles it accepts |
| Watchdog.MarkerMeaning | cmd/fleetctl/commands/watchdog.go:276-331 | a delivered alert is marked with its own time as far as the write goes, a delivered recovery is unmarked as far as the removal goes, all else stays |
| Watchdog.RecoveryReopens | cmd/fleetctl/commands/watchdog.go:299-331 | after an acknowledged recovery the host's next stale scan alerts, however soon |
| Watchdog.TracesIndependent | cmd/fleetctl/commands/watchdog.go:250-338 | runs whose scans look the same to a host give it the same events and markers, whatever they hold for others |
| Watchdog.Deduplicated | cmd/fleetctl/commands/watchdog.go:257-297 | in every run of scans, a delivered stale alert for a host and another tried later with no acknowledged recovery between are at least the dedup window apart, under any other failures, unless the first one's marker write failed with nothing changed |
| Watchdog.MarkerStays | cmd/fleetctl/commands/watchdog.go:376-393 | in every run of scans, after a delivered stale alert whose marker was written or touched the marker stays, no older than the alert, until an acknowledged recovery |
| Watchdog.RecoveryHasCause | cmd/fleetctl/commands/watchdog.go:299-331 | in every run of scans, every recovered alert follows a stale alert that every backend handling critical alerts accepted, with no acknowledged recovery between |
| Watchdog.UndeliveredRetried | cmd/fleetctl/commands/watchdog.go:276-284 | a stale alert that failed is tried again on the next stale turn |
| Watchdog.UnmarkedRepeats | cmd/fleetctl/commands/watchdog.go:285-292 | at the host's next stale scan inside the window, with no acknowledged recovery between, a delivered alert is repeated if and only if its marker write failed with nothing changed |
| ExpandVars.Fill | internal/scenarios/scenarios.go:98-103 | the merged map, later entries winning, in any iteration order |
| ExpandVars.Expand | internal/scenarios/scenarios.go:96-108 | the replacement loop in some order; on templates, for every untangled map, simultaneous substitution with overrides winning |
| ExpandVars.ReplaceResolves | internal/scenarios/scenarios.go:105 | where no text holds or begins the pattern, replacing one variable resolves exactly its references |
| ExpandVars.OrderIrrelevant | internal/scenarios/scenarios.go:104-106 | with keys without `$` or `}`: every template gives its simultaneous substitution in every iteration order if and only if no value holds, or ends in the beginning of, a reference to another variable that does not stand for itself |
| ExpandVars.PlainValues | internal/scenarios/scenarios.go:104-106 | values without `$` meet the condition |
| ExpandVars.OrderShows | internal/scenarios/scenarios.go:104-106 | for any value that does, some template and some order give something else |
| Secrets.BuildPreamble | internal/secrets/secrets.go:73-79 | one `KEY=value` line per secret in some map order, then NUL |
| Secrets.ParseLines | internal/secrets/secrets.go:183-197 | the loop equals the line-by-line parse, blank and keyless lines skipped |
| Secrets.ParseEnvStream | internal/secrets/secrets.go:162-181 | for every chunking of the reader the result is the parse of what precedes the first NUL, or of everything at EOF, and an error only for a read error before a NUL |
| Secrets.EncodeSecrets | internal/hermes/hermes.go:343-372 | an error exactly for no secrets, a bad key or a bad value; else the lines in strictly sorted key order |
| Secrets.StreamRoundTrip | internal/secrets/secrets.go:162-197 | for every printer order and any bytes after the NUL, parsing recovers the map if and only if keys and values are safe |
| Secrets.SortedFormRoundTrip | internal/hermes/hermes.go:343-384 | the sorted form parses to the same map under the same if-and-only-if |
| Secrets.ParsedLineSafe | internal/secrets/secrets.go:183-197 | whatever it is fed, the parser produces safe keys and values only |
| HealthParse.Parser.Feed | internal/healthdiff/healthdiff.go:200-241 | one turn of the scanner loop: headings, fences, keys and continuations |
| HealthParse.Parser.FlushCurHost | internal/healthdiff/healthdiff.go:186-192 | a named host is finished with its pending key |
| HealthParse.Parser.FeedAll | internal/healthdiff/healthdiff.go:200-247 | the loop over all lines; false exactly when a line does not fit the buffer |
| HealthParse.Parse | internal/healthdiff/healthdiff.go:161-247 | the hosts the machine finishes, or an error for an over-long line |
| HealthParse.ParseConcat | internal/healthdiff/healthdiff.go:161-247 | homomorphism: whatever state A ended in, A followed by a text that opens with a heading parses as Parse(A) then Parse(B) |
| HealthParse.ParseSections | internal/healthdiff/healthdiff.go:161-247 | a report made of sections parses to its sections' hosts, each from its own section |
| HealthParse.SectionHost | internal/healthdiff/healthdiff.go:186-208 | a section gives exactly the host its heading names, a blank heading none |
| HealthParse.HeadingOpens | internal/healthdiff/healthdiff.go:193-208 | after a heading the machine is in one fresh state |
| HealthFields.SectionFields | internal/healthdiff/healthdiff.go:200-241 | the raw fields of a section, said without the machine: for every key at the start of a line inside a fence the value of its last occurrence, which is the rest of its line, or the unindented lines below it up to the next key or fence without empty ones at either end; no other line gives anything |
| HealthFields.SectionGives | internal/healthdiff/healthdiff.go:186-208 | a section gives one host, named by its heading, from exactly those raw fields |
| HealthFields.PrintedFields | internal/healthdiff/healthdiff.go:200-241 | a section printed from fields, inline or as blocks inside a fence, is read back as exactly those fields |
| HealthDiff.IndexHosts | internal/healthdiff/healthdiff.go:502-508 | the last host of a name wins |
| HealthDiff.LastHostWins | internal/healthdiff/healthdiff.go:502-508 | the index has a name exactly if some host has it, with the fields of the last such host |
| HealthDiff.UnionNames | internal/healthdiff/healthdiff.go:510-540 | the strictly sorted union of both key sets |
| HealthDiff.FieldChanges | internal/healthdiff/healthdiff.go:454-481 | exactly the records due for a host in both snapshots, in order |
| HealthDiff.Diff | internal/healthdiff/healthdiff.go:429-500 | exactly the records due, strictly ordered by host and field |
| HealthDiff.AnySortAgrees | internal/healthdiff/healthdiff.go:484-492 | any permutation ordered by the comparison is that list, so the unstable sort cannot show |
| HealthDiff.DiffUnique | internal/healthdiff/healthdiff.go:429-500 | two indexed snapshots have one diff only, so map order cannot show |
| HealthDiff.DiffMirror | internal/healthdiff/healthdiff.go:429-500 | the diff of the swapped snapshots is the mirror image in the same order |
| HealthDiff.PatchGivesTo | internal/healthdiff/healthdiff.go:454-481 | sound and complete: patching a common host's old fields with the records gives exactly its new fields |
| HealthDiff.EmptyDiff | internal/healthdiff/healthdiff.go:429-500 | no record exactly when the indexed snapshots are equal |
| HealthDiff.MaxSeverity | internal/healthdiff/healthdiff.go:118-131 | empty exactly for no change; else the highest severity present, info at least |
| HealthDiff.SeverityMeaning | internal/healthdiff/healthdiff.go:548-577 | crit exactly when a host vanished or a probe status moved, else warn exactly when a heartbeat, disk, memory or brew field moved, empty exactly for equal snapshots, else info |
| HealthRender.UniqueHostsInOrder | internal/healthdiff/render.go:116-127 | the hosts in first-seen order |
| HealthRender.RenderHost | internal/healthdiff/render.go:54-90 | one host's section from its own changes |
| HealthRender.RenderBody | internal/healthdiff/render.go:48-93 | the report after its header: the sections of the first-seen hosts, or the no-changes line |
| HealthRender.RegroupIdentity | internal/healthdiff/render.go:53-91 | walking first-seen hosts and filtering is the identity exactly when equal hosts stand together |
| HealthRender.OneBulletPerChange | internal/healthdiff/render.go:53-127 | the report of a diff has exactly one bullet per change, in the diff's order |
| HealthRender.BulletReads | internal/healthdiff/render.go:76-88 | the text of a bullet gives back group, field, old and new value, each on its side |
| LogNames.StampOrder | cmd/fleetctl/commands/logrotate.go:261-262 | stamps compare by name exactly as by time, and differ for different seconds |
| LogNames.ArchiveOrder | cmd/fleetctl/commands/logrotate.go:313-315 | so do one log's archive names |
| LogNames.AllOrNone | cmd/fleetctl/commands/logrotate.go:306 | a log's glob matches all archives of another log or none |
| LogRotate.LogDir.RotateOne | cmd/fleetctl/commands/logrotate.go:260-299 | the directory after a rotation that may stop at any call, and success exactly when all went well |
| LogRotate.LogDir.PruneRotations | cmd/fleetctl/commands/logrotate.go:305-329 | removes exactly the matched names with `keep` or more matched names above them, save those whose removal fails; a malformed pattern removes nothing and is an error; the count and the error are right |
| LogRotate.LogDir.Visit | cmd/fleetctl/commands/logrotate.go:192-244 | one entry's turn: stat error, skip below the threshold, dry run, rotation error, or rotation and prune |
| LogRotate.LogDir.RotateAll | cmd/fleetctl/commands/logrotate.go:173-254 | the turns of all logs but the rotator's own, with the summary; an unreadable directory changes nothing |
| LogRuns.CycleIsRun | cmd/fleetctl/commands/logrotate.go:184-245 | a pass over the directory is a run of visits to its eligible logs, so the run theorems hold of it |
| LogRuns.VisitedIff | cmd/fleetctl/commands/logrotate.go:184-192 | a pass visits exactly the `*.jsonl` files that are no directories, but not the rotator's own log |
| LogRetention.RotateExact | cmd/fleetctl/commands/logrotate.go:260-299 | a rotation stopped anywhere keeps all bytes of its log, once, if and only if it made no archive, or truncated with no write in between, or failed to truncate an empty file |
| LogRetention.KeptApart | cmd/fleetctl/commands/logrotate.go:260-299 | a rotation of another log, or one stopped before its rename, changes nothing kept |
| LogRotate.PruneBound | cmd/fleetctl/commands/logrotate.go:310-316 | at most `keep` matched names are not removed |
| LogRetention.PruneNewest | cmd/fleetctl/commands/logrotate.go:313-328 | a prune for any log leaves the newest archives of every log it treats alike without a gap if and only if no failed removal is older than a working one |
| LogRetention.SurvivesIff | cmd/fleetctl/commands/logrotate.go:310-316 | an archive survives a prune if and only if it, the newer archives of its log and the foreign matches above it number at most `keep` |
| LogRetention.NewestKept | cmd/fleetctl/commands/logrotate.go:310-316 | exactly the newest `keep` archives of a log, or all if fewer, survive if and only if no more foreign matches sort above the oldest of them than there are places left |
| LogRuns.RunKeepsSuffix | cmd/fleetctl/commands/logrotate.go:220-329 | over every calm run of appends and visits to any logs, from any directory, a log's archives in name order and its live file are a suffix of what was there and all bytes appended since |
| LogRuns.RunBound | cmd/fleetctl/commands/logrotate.go:305-329 | over such a run a log whose own pattern matches its archives has at most `keep` once rotated, else no more than at the start |
| LogRuns.RunRefines | cmd/fleetctl/commands/logrotate.go:98-329 | over such a run in which no other log's name extends the log's or is extended by it, archives and live file are exactly what its own appends and visits promise: each rotation keeps the newest `keep` archives, whole, and nothing else is removed or added |
| LogRuns.SameSecondLoses | cmd/fleetctl/commands/logrotate.go:261-292 | a second rotation in one second loses exactly the bytes of the archive it writes over |
| LogRuns.SiblingEvicts | cmd/fleetctl/commands/logrotate.go:306-316 | with `keep` archives of a log named `<log>.<letter...>`, a prune goes for every archive of `<log>`, the newest too |
| LogRuns.UnmatchedNeverPruned | cmd/fleetctl/commands/logrotate.go:305-312 | a log whose own pattern does not match its archives is rotated and never pruned |
| LogRuns.CountsBalance | cmd/fleetctl/commands/logrotate.go:182-244 | every scanned log is counted once as rotated, skipped or failed, and only a rotated one adds a second error; a dry run changes nothing |
| LogRuns.OutcomeMeaning | cmd/fleetctl/commands/logrotate.go:192-244 | each outcome of a visit exactly when its cause holds; a visit that does not rotate changes nothing; the number pruned is that of the names gone |
| LogRuns.SummaryMeaning | cmd/fleetctl/commands/logrotate.go:182-244 | each number of the summary counts the outcomes its name says |
| LogRuns.TempGone | cmd/fleetctl/commands/logrotate.go:264-292 | no temporary file is left unless removing it fails, and a rotation that could not open or create changes nothing |

## Left out

- ExpandVars.OrderIrrelevant: keys that hold `$` or `}` are outside it, because then one reference can be part of another.
- LogRotate.LogDir.PruneRotations: what the glob library matches for a log name that itself holds metacharacters is a parameter.
- LogRuns.RunKeepsSuffix: years beyond 9999, whose stamps are wider, are outside the model's instants.
- Swarm.Termination: assumes that a runner call returns; the goroutine scheduler is an arbitrary interleaving of atomic steps.
- Budget.Conservation: a rename is atomic and bytes that are not a whole document do not parse; the request counter is unbounded where the source's is an int.
- SubmitJob.Idempotent: the parameter checks, the ledger markers and the random task ids (fresh by assumption) are not modelled.
- Watchdog.Deduplicated: assumes that a stat of an existing marker succeeds and that the clock does not go backwards; a marker that cannot be read counts as absent in the code.
- HealthParse.Parse: normaliseHost and its per-field scrapers are a function parameter.
- HealthRender.RenderBody: the header lines with file names and dates, and the JSON form, are not modelled.
- Ledgers.Ledger.Append: JSON escaping of invalid UTF-8 is outside the stated law of the codec; there are no power losses in this model, so the syncs have no effect but their errors.
- Workers.ComputeWorkers: the gateway part and the empty SKU list of the snapshot are not modelled; ages in seconds are reals.
- `ReadByTenant`, `Tasks` and `VerifyAll` of the ledger: loops over the modelled Read.
- `ShellDelegateRouter.Dispatch` and the SKU routers: foreign processes and straight-line ledger entries.
- SSH, HTTP, git, restic, rsync, launchd and brew plumbing, command-line wiring, skill manifests and templates: foreign calls and presentation.
- `internal/configsync`, `internal/skillsync`, `internal/markers`, `internal/verify`, `internal/metrics`, `internal/logaggregate`, `internal/usecasetests`: easier instances of the patterns modelled here.
- The internals of ed25519, JSON, gzip, regular expressions and time formatting beyond the rotation stamp: library code behind the stated laws.
