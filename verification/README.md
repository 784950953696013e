# Verification of the node agent's state-keeping code

A Dafny model of the parts of the agent that keep state over time, with proofs about every run
of them. `dafny verify dfyconfig.toml` checks the whole project.

* **Usage accounting** (`UsageStore`, `UsageStats`, `UsageLedger`, `UsageProtocol`, `UsageRuns`,
  `UsageExact`, `UsageShortfall`, `UsageDelivery`).
  Cumulative counters are sampled, compared with a stored baseline, queued as deltas under sequence
  numbers, pulled and acknowledged. `UsageStore.Store` is the store with its loops;
  `UsageRuns` is the manager as a concurrent state machine: periodic captures, forwarding seals,
  activation, Start, user edits and Stop each take the lifecycle lock, read the forwarding counters
  and then the core's statistics in three separate queries, commit and release, while traffic,
  acknowledgements, counter restarts and agent reboots happen between any two steps. A ghost ledger holds what every
  counter carried in each of its lives (a life ends when the counter restarts from zero).
* **Access audit** (`AuditStore`, `AuditTaking`, `AuditService`, `AuditRuns`, `AuditDelivery`). Records, pending
  queue, connection index and counters under Apply, Ack, Prune, Configure and Open; `AuditTaking` says which events
  are taken up, as what; `AuditRuns` adds the core's event
  stream and what connections really carried.
* **Core activation and port exclusion** (`Activation`, `NodeRuns`, `NodeFailures`, `NodeService`,
  `Forwarding`, `Listeners`, `InboundPorts`). The activation transaction over two files, a supervised process and the runtime
  state, where each step may fail; forwarding rules and their conflicts; and whole runs of both.
* **Configurations and users** (`StatName`, `CoreConfig`, `ApiConfig`, `UserEdits`). The statistics
  user names over base64url (sections 5 and 3.2 of RFC 4648), the JSON configuration, the edits
  made to it, and the user index that must agree with it.
* **Benchmarks** (`Benchmark`, `BenchmarkRunner`). One job at a time, crash recovery, eviction.

`Common` holds options, results, 64-bit arithmetic, sums over buckets and the ordered-map cursor.

## How it is modelled

bbolt is an ordered map with atomic write transactions: a method works on a copy of the database
and commits it by one assignment, so an early error leaves the old one. JSON and file formats are
abstract: `size` is the length of an encoding, `Codec` an encoder with its decoder. Clocks,
host replies, statistics replies and failures are parameters. Methods carry the loops of the code
and are tied by their `ensures` to a function or relation; lemmas prove what the code promises about
that function or relation, and the run modules carry it over every sequence of steps.

## What is false of the code

* **Exact billing.** The restart marker is set by Start only, and a counter that is still zero in the
  first complete sample after Start misses it. `UsageShortfall.EditUnderbills` and
  `UsageShortfall.LateCounterUnderbills` are runs, for every amount of traffic before and after the
  restart, that bill less than was carried. `UsageExact.BillsExactlyIff` says when the bill is exact:
  in just those runs in which no accepted capture commits a reading of a new life, without the
  marker, that is at least the positive baseline of an old one. `UsageRuns.NeverOverBills` holds always.
* **Delivery.** A queued snapshot larger than one pull stops delivery for good. The queue limit lets
  such snapshots in (`UsageStore.OversizedIsStuck`); `UsageStore.Drain` empties the queue exactly
  when every snapshot fits.
* **Last good is good.** If the directory sync after the rename fails and putting the old file back
  fails before its own rename (internal/node/manager.go:1263-1267), a running core's file holds bytes
  that may never have passed a health check. `NodeRuns.LastGoodIsGood` says that exactly such steps,
  told from the state before and the failures, break it; `NodeFailures.FailedRestoreSpoilsLastGood`
  is a run.
* **Port exclusion.** `NodeRuns.PortsAreExclusive` says when it holds over a run: exactly when no rejected
  or rolled back activation goes back to a file whose configuration listens on the port of an applied
  rule. Files in step with the runtime configuration never do (`NodeRuns.InStepDoesNotCollide`), and
  `NodeRuns.FilesStayInStep` says when they stay so. The failed restore above breaks that with any
  configuration of other top-level keys or ports: the old process keeps running beside the new file,
  and `NodeFailures.FailedRestoreGoesAstray` with `NodeFailures.AstrayBreaksExclusion` is a run into a
  port conflict.
* **Rollback.** When the file is missing under a running core and the write of the last-good copy fails
  only after its rename (internal/node/manager.go:1280-1282), the rollback installs and starts the new
  configuration and reports success for the old one (`NodeFailures.LateCommitGoesAstray`): file and
  process agree, and only the runtime configuration differs. While that process lives, its sockets keep
  every new rule off its ports (`NodeFailures.LateCommitIsGuarded`); after it has died a conflict can
  follow as above (`NodeFailures.ExitUnguards`).
* **Cancelling a benchmark** with an empty ID while nothing runs calls a cancel function that is not
  there, and panics; `BenchmarkRunner.Runner.Cancel` is safe exactly when the ID is not empty or a job
  is active. The handler passes the ID on as it comes (internal/httpapi/server.go:168-175).
* **User names** that hold `.rwib.` or end in `.rwib` do not survive the name codec
  (`StatName.ParseOfUserInbound`, `UserEdits.SingleEdit`, `ApiConfig.EquippedTwice`: each an
  if-and-only-if). Names that share a statistics group through NUL bytes are billed together under the
  first of them (`UsageStats.FirstNameWins`).

## Model

| member | source | states |
|---|---|---|
| UsageStore.KeyInjective | internal/usagesnapshot/store.go:295-302 | on NUL-free fields two counters share a key exactly when they agree on every identifying field; forwarding and core counters never share one |
| UsageStore.SharedKeyBillsAgain | internal/usagesnapshot/store.go:165-186 | why a sample must hold one counter per key: two readings under one key bill the larger again in every further sample, unless they are equal |
| UsageStore.DeltasPresent | internal/usagesnapshot/store.go:165-186 | a sampled counter is billed its growth since the baseline, or its whole reading after a reset or a decrease, once |
| UsageStore.DeltasAbsent | internal/usagesnapshot/store.go:165-186 | a counter the sample does not mention is billed nothing |
| UsageStore.StoredLookup | internal/usagesnapshot/store.go:338-345 | after a sample the baseline of every mentioned key is its reading and of every other key unchanged |
| UsageStore.CapturedKeepsQueue | internal/usagesnapshot/store.go:187-203 | queued sequences are exactly the interval between the acknowledged and the next one, holding the log of captures; Capture extends it by at most one snapshot |
| UsageStore.AckedKeepsQueue | internal/usagesnapshot/store.go:238-267 | Ack shortens the interval from the front only |
| UsageStore.RefusedIffOverLimit | internal/usagesnapshot/store.go:187-203 | a capture with growth is refused exactly when the old queue and the new snapshot together exceed the byte limit |
| UsageStore.CapturedKeepsLimit | internal/usagesnapshot/store.go:187-203 | the queue stays within the byte limit; Ack keeps it there too (UsageStore.AckedKeepsLimit), and over every run see UsageRuns.QueueStaysWithinLimit |
| UsageStore.FittingIsGreatest | internal/usagesnapshot/store.go:219-234 | a pull returns the longest prefix within the count and byte limits |
| UsageStore.Compare | internal/usagesnapshot/store.go:165-186 | the counter loop computes the deltas and the new baseline, in order |
| UsageStore.Collect | internal/usagesnapshot/store.go:219-234 | the cursor loop of Pull returns the greatest fitting prefix of what is owed, and says whether more is left |
| Common.DeleteThrough | internal/usagesnapshot/store.go:250-262 | the cursor loop of both Acks deletes exactly the keys up to the given one |
| UsageStore.Store.Activate | internal/usagesnapshot/store.go:117-154 | the first activation starts a fresh generation, queue and baseline; later ones change nothing |
| UsageStore.Store.Capture | internal/usagesnapshot/store.go:156-204 | the queue, baseline, sequence and time move together or, exactly when the queue would exceed the byte limit, not at all |
| UsageStore.Store.Pull | internal/usagesnapshot/store.go:206-236 | the i-th snapshot returned has the sequence after the larger of the cursor and the acknowledged one, plus i; the largest cursor wraps to the acknowledged one; the batch is cut at the limits |
| UsageStore.Store.Ack | internal/usagesnapshot/store.go:238-267 | refuses another generation or a future sequence, otherwise drops exactly the acknowledged snapshots and reports the queue that is left |
| UsageStore.Store.GetStatus | internal/usagesnapshot/store.go:269-293 | oldest, latest, pending count and bytes describe the unacknowledged part of the log |
| UsageStore.Drain | internal/usagesnapshot/store.go:206-267 | pulling and acknowledging, with captures committing in between, until nothing comes delivers every snapshot once, in capture order, terminates, and empties the queue exactly when each payload fits |
| UsageStore.ReadAhead | internal/usagesnapshot/store.go:206-236 | a consumer that advances its own cursor without acknowledging, with captures in between, gets every snapshot above its start once and in order, up to the first that fits no pull |
| UsageStore.OversizedIsStuck | internal/usagesnapshot/store.go:187-202 | a snapshot above the pull limit but within the queue limit is queued, and no pull returns it |
| UsageStats.GroupingConserves | internal/node/manager.go:774-820 | grouping statistics loses no byte and counts none twice |
| UsageStats.ParsedIff | internal/node/manager.go:844-862 | a statistic counts for a name and a direction exactly when it is called `kind>>>name>>>traffic>>>direction` with a name that is not empty |
| UsageStats.GroupsHoldTheirOwnBytes | internal/node/manager.go:868-880 | each group holds exactly the bytes of its own statistics, up and down |
| UsageStats.FirstNameWins | internal/node/manager.go:868-883 | a group carries the names of the first statistic that falls into it |
| UsageStats.FetchStats | internal/node/manager.go:831-895 | the grouping loop, for users by name and inbound and for tags |
| UsageStats.ListingIsDistinct | internal/node/manager.go:627-652 | one kind's counters have pairwise distinct keys, whatever bytes the names hold |
| UsageStats.UsageCounters | internal/forwarding/forwarding.go:299-347 | nothing while no rules are in effect; otherwise both directions of every transport of every enabled rule, in order, and a failure exactly when one of them is missing |
| UsageStats.ReadoutIsDistinct | internal/forwarding/forwarding.go:313-343 | forwarding counters of distinct rules have pairwise distinct keys |
| UsageStats.CurrentCoreUsageCounters | internal/node/manager.go:627-652 | users, inbounds and outbounds in that order, or nothing when a query fails; one counter per key |
| UsageStats.SampledKeysAreDistinct | internal/node/manager.go:597-625 | a whole sample has one counter per key |
| UsageLedger.RecordKeepsBalance | internal/usagesnapshot/store.go:170-185 | a reading not older than the baseline keeps bill plus losses equal to what was recorded, if the marker is honoured only for a baseline of an earlier life |
| UsageLedger.BalancedNeverOverBills | internal/usagesnapshot/store.go:170-185 | a balanced ledger bills at most what was carried |
| UsageProtocol.Capturer.CommitSample | internal/node/manager.go:532-554 | a complete sample consumes the restart marker and a refused capture puts it back |
| UsageProtocol.Capturer.CaptureUsageSnapshot | internal/node/manager.go:517-555 | a failed core query leaves core counters and marker alone; a failed forwarding query or an idle node captures nothing |
| UsageProtocol.RefusedCapturesAreInvisible | internal/node/manager.go:535-553 | a run with refused captures ends in the state of the run without them |
| UsageProtocol.CommittedBills | internal/node/manager.go:517-555 | what one accepted capture adds to the bill of each key |
| UsageProtocol.UnserializedCapturesOverBill | RELEASE-3.16.1.md:3-7 | for every baseline and every two readings: committed in order they bill the growth, out of order the whole older reading on top |
| UsageRuns.NextKeepsGlobalInv | internal/node/manager.go:503-555 | every step of every actor keeps the queue, the lock and the sample in flight consistent |
| UsageRuns.NextKeepsKeyInv | internal/node/manager.go:503-555 | every step keeps the ledger balanced, and while the marker is set no core baseline belongs to the current life |
| UsageRuns.BillingBalances | internal/node/manager.go:503-555 | conservation over every interleaving: the queued total plus the subtracted baselines of dead lives plus the activation reading is the sum of the last committed readings of all lives |
| UsageRuns.NeverOverBills | internal/node/manager.go:345-349 | the total ever queued for a key is at most what it carried since activation, in every run |
| UsageRuns.ForwardingBillsExactly | internal/forwarding/forwarding.go:313-343 | a forwarding counter is billed its last committed reading minus the activation one, in every run |
| UsageRuns.QueueStaysWithinLimit | internal/usagesnapshot/store.go:187-203 | over every run the bytes of the queue never exceed the store's limit |
| UsageExact.OrderlyRunsBillExactly | internal/node/manager.go:313-351 | when every restart is a successful Start and the key is in every complete sample, the bill is exact however many samples failed |
| UsageExact.BillsExactlyIff | internal/usagesnapshot/store.go:165-182 | the bill is exact over a run if and only if no accepted capture commits an unmarked reading of a new life that is at least the positive baseline of an old one |
| UsageExact.StepLoses | internal/usagesnapshot/store.go:170-185 | each such capture loses exactly the baseline it subtracts, and no other step loses anything |
| UsageDelivery.PanelHoldsPrefix | internal/usagesnapshot/store.go:206-267 | over every run the panel holds every snapshot up to the acknowledged one, each once and in capture order |
| UsageDelivery.PanelNeverOverBills | internal/usagesnapshot/store.go:156-267 | end to end: what the panel holds for a counter is at most what was carried, and once the queue is empty it is everything ever billed |
| UsageShortfall.EditUnderbills | internal/node/manager.go:937-989 | a run with a user edit that bills v of b + v bytes, for all positive b and all v from b on, in any store with room for two such snapshots |
| UsageShortfall.LateCounterUnderbills | internal/node/manager.go:532-541 | the same for a counter missing from the first complete sample after Start |
| StatName.DecodeOfEncode | internal/statname/user_inbound.go:10-12 | base64url round trip on every byte string |
| StatName.ParseOfUserInbound | internal/statname/user_inbound.go:10-26 | parsing a printed name gives it back exactly when the user is plain and the tag not empty, and fails otherwise |
| StatName.ParsedIsPlain | internal/statname/user_inbound.go:14-34 | every parsed user name is plain |
| StatName.EncodedNameIdempotent | internal/node/manager.go:1961-1977 | re-encoding a name changes nothing exactly when its user is plain |
| AuditService.Store.Apply | internal/accessaudit/store.go:236-363 | never fails on a missing record, and commits the fold of its loop body over the events, or nothing without a live lease |
| AuditService.Store.ApplyEvent | internal/accessaudit/store.go:245-360 | the loop body with its early exits |
| AuditService.Store.Pull | internal/accessaudit/store.go:364-389 | the pending records of lowest sequence, in order, none skipped, as many as the limits allow, and whether more are left |
| AuditService.Store.Ack | internal/accessaudit/store.go:390-406 | drops exactly the pending entries up to the sequence and leaves the records |
| AuditService.Store.Prune | internal/accessaudit/store.go:407-437 | removes exactly the records past their retention with their pending and index entries, and recomputes bytes and count |
| AuditService.DropRecord | internal/accessaudit/store.go:416-433 | each removal subtracts the record's own size and count without going below zero |
| AuditService.Store.Configure | internal/accessaudit/store.go:150-172 | accepts a policy exactly when it is valid, not older, and no silent change of the current revision |
| AuditService.Store.Reopen | internal/accessaudit/store.go:93-135 | a reopened store has a generation, the saved policy and no lease; an undecodable policy fails and changes nothing |
| AuditService.Collect | internal/accessaudit/store.go:371-386 | the cursor loop of Pull |
| AuditStore.AppliedOneStores | internal/accessaudit/store.go:245-359 | one event does nothing, or files the next version of its own connection's record under a collected window |
| AuditStore.AppliedAllKeepsConsistent | internal/accessaudit/store.go:236-363 | Apply keeps index, pending queue, byte arithmetic and books consistent and never meets a missing record |
| AuditStore.StoreKeepsPending | internal/accessaudit/store.go:331-353 | pending stays exactly the records above the highest acknowledged sequence |
| AuditStore.StoreKeepsBooks | internal/accessaudit/store.go:329-358 | count and bytes stay the number and total size of the records, within their limits |
| AuditStore.AckedKeepsConsistent | internal/accessaudit/store.go:390-406 | Ack keeps consistency and moves the highest acknowledged sequence |
| AuditStore.PrunedKeepsConsistent | internal/accessaudit/store.go:407-437 | Prune keeps consistency |
| AuditStore.RecordKeyInjective | internal/accessaudit/store.go:261-261 | one record key names one window and one connection |
| AuditTaking.SnapshotTakenIff | internal/accessaudit/store.go:249-358 | a connection snapshot changes the store exactly when its user has a target, it is not DNS, its ID is a UUID, it was created at most a minute ahead and did not close before enablement; it is then filed under `window:id` with the next sequence, or counted as dropped exactly when a limit is exceeded |
| AuditTaking.DeltaTakenIff | internal/accessaudit/store.go:265-358 | a delta changes the store exactly when its connection's indexed record is in the current window of its user and the totals fit; the new totals and dates of the record |
| AuditTaking.AppliedToOne | internal/accessaudit/store.go:239-248 | with a live lease Apply does this for one event, without one nothing |
| AuditTaking.PolicyTakenIff | internal/accessaudit/store.go:137-172 | a policy is accepted exactly when its parts are in range, its users differ, its revision does not go back and an equal revision changes no target |
| AuditTaking.AckTakenIff | internal/accessaudit/store.go:390-406 | an acknowledgement counts exactly for the current generation and an existing sequence, and removes just the entries up to it |
| AuditTaking.PrunedAfterADay | internal/accessaudit/store.go:407-437 | a record goes exactly when it was last observed more than 24 hours ago, and stays unchanged otherwise |
| AuditRuns.ApplyEvolves | internal/accessaudit/store.go:239-358 | records only change under a current target's window, into later versions whose totals never shrink; without a lease nothing changes |
| AuditRuns.UpdateSurvivesAck | internal/accessaudit/store.go:324-356 | a record changed after a pull is still pending, once, after that pull is acknowledged |
| AuditRuns.FirstReport | internal/accessaudit/store.go:277-297 | a connection opened before collection reports no earlier bytes and is partial; any other reports all |
| AuditRuns.ReplayCountsNothing | internal/accessaudit/store_test.go:69-76 | a repeated snapshot counts nothing twice and does not move the visit of a closed connection |
| AuditRuns.HonestDeltasFit | internal/accessaudit/store.go:298-303 | the overflow guard never refuses an honest delta |
| AuditRuns.RunsAreSane | internal/accessaudit/store.go:236-437 | every reachable state is consistent and truthful |
| AuditRuns.TrafficIsNeverOverstated | internal/accessaudit/store.go:294-316 | over every run with reconnects, replays, drops, prunes and window changes, recorded totals stay within what the stream told and the connection carried, and equal what was told for connections that missed nothing |
| AuditRuns.PolicyNeverGoesBack | internal/accessaudit/store.go:150-172 | over every run, restarts included, the policy in force is the saved one and its revision never decreases |
| AuditDelivery.Drain | internal/accessaudit/store.go:364-406 | pulling and acknowledging, with messages applied in between, terminates with an empty queue or a record above the pull limit; with an empty queue the panel has the last version of every record changed since it began |
| AuditDelivery.BatchHandsOver | internal/accessaudit/store.go:371-404 | acknowledging the last record of a batch acknowledges no record version that was not in it |
| CoreConfig.ExtractSingBoxInbounds | internal/state/state.go:346-366 | the index lists, tag by tag and in order, exactly the users the configuration lists |
| CoreConfig.RemoveSingBoxUser | internal/node/manager.go:2021-2033 | every user of that identifier leaves every inbound |
| CoreConfig.AddSingBoxUser | internal/node/manager.go:1986-2019 | one user is appended to the first inbound of the tag, or the reason why not |
| CoreConfig.NewUserFields | internal/node/manager.go:1993-2011 | name, password, uuid and key of a new user protocol by protocol, and which protocols take users |
| CoreConfig.AddedIff | internal/node/manager.go:1986-2019 | an addition succeeds exactly when the first inbound of the tag takes the user; an inbound is missing exactly when none has the tag |
| CoreConfig.AddedUsers | internal/node/manager.go:1986-2019 | every inbound but the first of the tag, and every user it had, stays as it was |
| CoreConfig.RemovedUsers | internal/node/manager.go:2021-2033 | an inbound keeps exactly the users of other identifiers, each unchanged |
| UserEdits.Runtime.SetSingBoxConfig | internal/state/state.go:118-125 | the index follows the stored configuration while the core runs |
| UserEdits.Runtime.SetRunningCore | internal/state/state.go:127-137 | the index is filled when the core starts and emptied when it stops |
| UserEdits.Runtime.Reset | internal/state/state.go:330-338 | nothing is indexed after a reset |
| UserEdits.Runtime.ApplyAddUserRequest | internal/node/manager.go:1606-1620 | removes each named user once, then adds item by item; on failure ports and top-level keys are still unchanged |
| UserEdits.RemovedEntries | internal/node/manager.go:2021-2033 | removal takes out exactly that user's entries and keeps the order of all others |
| UserEdits.AddedEntries | internal/node/manager.go:1986-2019 | an addition lists one more user, in one place, under the item's tag |
| UserEdits.EditsListRequested | internal/node/manager.go:1606-1620 | a successful request leaves each plain named user listed under each tag exactly as often as it asks |
| UserEdits.EditsKeepOthers | internal/node/manager.go:1606-1620 | the entries of all other plain users and their order are unchanged |
| UserEdits.SingleEdit | internal/node/manager.go:1606-1620 | one added user is listed under its tag exactly when its name is plain |
| ApiConfig.EncodeSingBoxConfigUsers | internal/node/manager.go:1961-1977 | the user loop over tagged inbounds |
| ApiConfig.ApplySingBoxAPIConfig | internal/node/manager.go:1896-1951 | the loops build the configuration that the following rows describe |
| ApiConfig.StatsUsersAreEncodedNames | internal/node/manager.go:1903-1930 | the statistics users are exactly the encoded names of every listed user, inbound by inbound and in order |
| ApiConfig.StatsReadBackAsIndex | internal/node/manager.go:1903-1930 | read back from the statistics, those names are exactly the indexed users in order, when identifiers are plain and inbounds have tag and type |
| ApiConfig.OneAuditService | internal/node/manager.go:1939-1949 | exactly one service carries the audit tag and the others stay as they were |
| ApiConfig.ApisListen | internal/node/manager.go:1921-1938 | statistics and controller listen where the settings say; the secret is the token, and an old one does not outlive an empty token |
| ApiConfig.EncodedItemsTwice | internal/node/manager.go:1961-1977 | encoding users twice is encoding them once exactly when every identifier is plain |
| ApiConfig.EquippedTwice | internal/node/manager.go:1896-1951 | equipping an equipped configuration changes nothing exactly when its users can be carried |
| ApiConfig.EquippedEntries | internal/node/manager.go:1896-1951 | equipping keeps the user index exactly when the indexed identifiers are plain |
| ApiConfig.EquippedKeys | internal/node/manager.go:1901-1949 | the top-level keys equipping adds |
| Listeners.Networks | internal/forwarding/listeners.go:68-98 | the transports named, each once, and no others |
| Listeners.NetworkValues | internal/forwarding/listeners.go:68-98 | the loop with its seen set |
| Listeners.ExtractCoreListeners | internal/forwarding/listeners.go:10-45 | the listeners of all inbounds, in order |
| Listeners.ListenersAreInbounds | internal/forwarding/listeners.go:10-45 | every listener belongs to an inbound that is not loopback only, with its port and one of its transports |
| Listeners.InboundsAreListed | internal/forwarding/listeners.go:10-66 | every such inbound is listed once for each of its transports |
| InboundPorts.TransportsByType | internal/forwarding/listeners.go:47-66 | the transports of an inbound that names none, type by type |
| InboundPorts.TransportsByName | internal/forwarding/listeners.go:47-50 | an inbound that names transports has exactly those |
| InboundPorts.FirstWord | internal/forwarding/listeners.go:72-72 | a list of transports in one text is read word by word, at commas and blanks |
| InboundPorts.PortByField | internal/forwarding/listeners.go:26-32 | which field gives the port |
| InboundPorts.PortAsText | internal/forwarding/listeners.go:126-128 | a port written as a decimal is that number |
| InboundPorts.ListedByType | internal/forwarding/listeners.go:10-45 | the listeners of a configuration hold, as one stretch, just the transports of each such inbound with its port and tag |
| InboundPorts.RefusedByType | internal/forwarding/forwarding.go:403-421 | a configuration is refused when an enabled rule on the port of such an inbound shares a transport with its type; for one inbound and one rule, exactly then |
| Forwarding.OverlapIsShared | internal/forwarding/forwarding.go:837-846 | protocols overlap exactly when some transport belongs to both, and the reported protocol is what they share |
| Forwarding.Validate | internal/forwarding/forwarding.go:514-598 | a configuration passes exactly when it is acceptable, with each rule's last address preferred, and each reported conflict is a real one |
| Forwarding.FindClash | internal/forwarding/forwarding.go:555-564 | the rule loop finds a clash exactly when two enabled rules share a port and transport |
| Forwarding.FindTaken | internal/forwarding/forwarding.go:574-583 | the listener loop finds a conflict exactly when a rule takes a listener's traffic |
| Forwarding.Service.ValidateCoreConfig | internal/forwarding/forwarding.go:403-421 | a core configuration passes exactly when no enabled applied rule takes one of its ports |
| Forwarding.FindHeld | internal/forwarding/forwarding.go:922-947 | the socket and firewall loops find a conflict exactly when an enabled rule takes a held port |
| Forwarding.Service.Sync | internal/forwarding/forwarding.go:276-290 | the applied state moves exactly when the configuration is acceptable, no socket or other firewall table holds one of its ports and no host step fails; it then excludes listeners and sockets |
| Activation.Manager.RestartSingBox | internal/node/manager.go:1190-1289 | for every pattern of failures, which of five outcomes results, told from the state before, and what each leaves of files, process, runtime state and report |
| Activation.Manager.Prepare | internal/node/manager.go:1201-1258 | failing before the rename leaves file, process and running core untouched, and puts the runtime configuration back to the file exactly for a rejected candidate of a backed core; the report is REJECTED exactly when the preflight check is the failing step, and names the file's configuration once it is known |
| Activation.Manager.Launch | internal/node/manager.go:1272-1282 | only confirmed bytes reach the last-good file |
| Activation.Manager.Fail | internal/node/manager.go:1359-1372 | the reported result after a rollback |
| Activation.Manager.Rollback | internal/node/manager.go:1374-1409 | restores the previous bytes, or the last-good copy of a missing file, and the core exactly when one was running; otherwise no core is running |
| NodeRuns.StepKeepsGood | internal/node/manager.go:1247-1288 | a step keeps the last-good copy and the running core's file confirmed if and only if it is not a failed restore of a running core with unconfirmed bytes; told from the state before and the failures |
| NodeRuns.LastGoodIsGood | internal/node/manager.go:1277-1288 | over a run the files are good throughout if and only if it holds no such step |
| NodeRuns.MergeIsHarmless | internal/node/manager.go:1226-1232 | decoding the file into the runtime configuration yields the file's configuration |
| NodeRuns.ActivationShape | internal/node/manager.go:1359-1409 | an activation keeps the files in step with what runs if and only if neither failure hits a running core with a configuration of other keys or ports |
| NodeRuns.FilesStayInStep | internal/node/manager.go:1359-1409 | over a run the files keep the runtime configuration's keys and ports if and only if no step misplaces one |
| NodeRuns.InStepDoesNotCollide | internal/node/manager.go:1226-1243 | going back to a file that is in step never meets an applied rule |
| NodeRuns.StepKeepsExclusion | internal/node/manager.go:328-335 | a step keeps ports exclusive if and only if it is no rejected or rolled back activation whose file listens on an applied rule's port; told from the state before and the failures |
| NodeRuns.PortsAreExclusive | internal/node/manager.go:416-424 | over a run no applied rule shares a port and transport with an inbound of the running core, nor with another rule, if and only if no step collides |
| NodeFailures.GoingBackIsSafeIff | internal/node/manager.go:1226-1243 | going back to the file keeps every set of rules that could be applied off its ports if and only if it opens no port that is neither in the runtime configuration nor held by the process |
| NodeFailures.ForeignPortBreaksExclusion | internal/node/manager.go:1237-1243 | with such a port, a sync and an edit whose candidate is rejected end in a port conflict |
| NodeFailures.RunningTheFileIsSafe | internal/forwarding/forwarding.go:922-945 | a process that runs the file's configuration guards all its ports |
| NodeFailures.FailedRestoreGoesAstray | internal/node/manager.go:1263-1267 | two starts with the API port set, the second with a failed restore, leave another file than what runs |
| NodeFailures.LateCommitGoesAstray | internal/node/manager.go:1280-1282 | a late failure of the last-good write with a missing file starts the new configuration, and the rollback reports success for the old one |
| NodeFailures.LateCommitIsGuarded | internal/forwarding/forwarding.go:922-945 | while that process lives, every rule that can be applied stays off the file's ports |
| NodeFailures.ExitUnguards | internal/node/manager.go:1374-1409 | once it has died, nothing guards them |
| NodeFailures.AstrayBreaksExclusion | internal/node/manager.go:416-424 | from the failed restore, or with the process gone, two more steps end in a port conflict |
| NodeFailures.FailedRestoreSpoilsLastGood | internal/node/manager.go:1247-1252 | after a failed restore the next start copies unconfirmed bytes over the last-good file |
| NodeService.Service.Start | internal/node/manager.go:313-351 | Start is one step of the run model, and succeeds exactly when the configuration meets no applied rule and is running already or its activation commits |
| NodeService.Service.AddUser | internal/node/manager.go:937-948 | a user edit with its restart is one step of the run model; it succeeds exactly when the whole request applies and the restart commits |
| NodeService.Service.RemoveUser | internal/node/manager.go:963-974 | so is a removal: it fails without a running core, and otherwise removes the user and succeeds exactly when the restart commits |
| NodeService.Service.Stop | internal/node/manager.go:376-385 | so is Stop |
| NodeService.Service.ForwardingSync | internal/node/manager.go:416-425 | so is a sync, which succeeds exactly when the traffic is sealed, the rules are acceptable beside the running core's listeners, no socket or other table holds their ports and the host steps succeed |
| Benchmark.ExecutedOncePerRecord | internal/benchmark/runner.go:199-221 | between two executions of one ID its record was evicted |
| Benchmark.Judge | internal/benchmark/runner.go:237-268 | complete exactly when something ran and all passed, failed exactly when something ran and all failed |
| Benchmark.EvictOldest | internal/benchmark/runner.go:365-379 | the size limit terminates, keeps exactly the limit, and evicts nothing more recent than a surviving inactive job |
| Benchmark.PruneJobs | internal/benchmark/runner.go:365-387 | both limits together; the active job always stays |
| BenchmarkRunner.Runner.Start | internal/benchmark/runner.go:199-236 | a test is executed exactly when its request is acceptable, its ID is new, nothing runs and its record is saved; every other case has its answer |
| BenchmarkRunner.Runner.Change | internal/benchmark/runner.go:280-291 | the running job is always found, and a failed save cancels it |
| BenchmarkRunner.Runner.Cancel | internal/benchmark/runner.go:301-309 | only the active job can be cancelled; the call panics exactly with an empty ID while none is active |
| BenchmarkRunner.Runner.Close | internal/benchmark/runner.go:310-316 | cancels the active job, if any |
| BenchmarkRunner.Runner.Corrupt | internal/benchmark/runner.go:122-133 | a record that goes bad on disk still keeps its job from being executed again |
| BenchmarkRunner.Runner.Finish | internal/benchmark/runner.go:237-277 | the finished job leaves RUNNING, and only a saved, uncancelled, fully passed one is complete |
| BenchmarkRunner.Runner.Recover | internal/benchmark/runner.go:81-147 | after a crash nothing is running and every record on disk is known again |

## Left out

- Sequence numbers of the usage queue and the audit store: natural numbers, so their wrap after 2^64 is not modelled (the wrap of a pull cursor is); sums of statistics are assumed to fit int64.
- Record lengths are abstract; the sum of the stored bytes and one new record is assumed to fit int64.
- AuditStore.Fresh: destination() and clipped() are one parameter `describe`; byte totals are numbers, not their decimal texts; times are whole nanoseconds without range limits.
- AuditService.DropRecord: records are visited in any order, not in key order.
- StatName.UserInbound: strings are byte strings; JSON's replacement of invalid UTF-8 is not modelled.
- CoreConfig.NormalizedType: case folding is for ASCII letters, and so are blank tests in Forwarding.
- CoreConfig.Num: one kind of number, so the difference between a fresh integer port and one read back from JSON, and with it "same configuration means no restart", is not claimed.
- Editing maps in place: configurations are values that the loops rebuild; sharing between a configuration and its clones is not modelled.
- UserEdits.Runtime.ApplyAddUserRequest: a failed request may leave the runtime configuration ahead of the running core, and only its ports and keys are stated; the bulk form of the request (internal/node/manager.go:1641-1676) is not modelled.
- Forwarding.Validate: resolved addresses are not written back into the shared rule list; DNS refresh, stale DNS state and the clean-up of names and addresses before validation are left out.
- Forwarding.Service.Sync: reading sockets and firewall tables gives lists of held ports; the firewall commands and saving the state are one success or failure; restoring the applied state at startup is left out.
- NodeService.Service.ForwardingSync: the socket listing is taken to show what a live core process listens on; a process that is still opening its sockets is not modelled.
- UsageStats.FetchStats: the reports that sum or filter the same groups (internal/node/manager.go:698-740) would only add easy members.
- UsageRuns.ForwardingBillsExactly: a scope is one life of a counter, so two applies are assumed to differ in hash or time.
- Activation: hashes are the bytes they stand for; timestamps, the reported version and the online flag are left out; a process is what the supervisor last started and has not stopped.
- NodeService.Service.Start: key aliases of the request are taken as already normalised, and the hashes that decide on a restart are a parameter.
- BenchmarkRunner.Runner.Start: the limits on a request are a parameter; the tests themselves are only their results.
- HTTP, TLS, tokens, gRPC, supervisor and firewall wiring, plugins, system statistics and configuration loading are not part of this model.
