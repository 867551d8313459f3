# Verified core of the collaborative programming platform

A Dafny model of the parts of the platform whose correctness depends on histories and
interleavings rather than on single functions: durable collaborative documents, the
coordination services (leases, election, node registry, sessions, presence replication) and the
key/value backends below them, the execution of jobs, write-behind caching, layered
configuration, glob matching and the validation of service graphs.

Each protocol is a state machine over its atomic steps, with a crash, a clock tick or another
client possible between any two of them; its theorems hold for every run. The code that works in
place is modelled as classes and loops, each proved equal to a specification function, to the
protocol's uninterrupted run, or to a property stated outright.

| module | models |
|---|---|
| `Documents`, `DocumentStore`, `Durability`, `DurabilityLimits`, `Collaboration` | update log, snapshots, recovery, and the manager that drives them |
| `Glob` | Redis-style pattern matching |
| `ServiceGraph` | deployment validation: names, dependencies, cycles |
| `TtlStore`, `Backends`, `BackendAgreement` | the two key/value backends against an eager-expiry map |
| `Keys`, `Leases`, `Election` | key layout, distributed locks, leader election |
| `Sessions` | optimistic session updates |
| `NodeRegistry` | cached cluster membership |
| `Replication` | versioned presence replication |
| `Jobs`, `Schedules`, `JobLifecycle`, `Orchestration` | job registry, priority schedule, job lifecycle, orchestrator |
| `WriteBehind` | the coalescing write-behind buffer |
| `Configuration` | profile inheritance and provider layering |
| `Wrappers` | the option type they share |

`dafny verify dfyconfig.toml` checks the whole project.

## Where the code does not keep a stated promise

Each of these is a theorem with a concrete run and, where a condition decides it, an exact one.

- Snapshots lose acknowledged updates exactly when the retention count is below
  max(1, incremental threshold) (`DurabilityLimits.WindowExact`). The shipped defaults, 5 and 10,
  are on the losing side (`DurabilityLimits.DefaultsLose`).
- Whatever the window, durability also needs that a document is not unloaded under an update call,
  under a snapshot call or under an open call that has yet to register what it read, and that one
  snapshot call runs at a time; and, exactly from a threshold of 2 on, that no edit falls between a
  snapshot's payload and its state vector (`DurabilityLimits.RulesExact`).
- A document known only by its metadata, as after a crash before its first update, can never be
  opened again (`DurabilityLimits.HollowReached`, `DurabilityLimits.EmptyStaysClosed`).
- Locks exclude each other exactly when stamps follow their writes within the drift margin, a lock
  has one renewal under way at a time, and no renewal ends before what the lock still claims
  (`Leases.RulesExact`).
- At most one candidate has the leader flag exactly when flags are renewed or cleared before the
  lease ends, nobody campaigns during its own resignation or transfer, and nobody takes office while
  one that gave the key up still has its flag (`Election.FlagsExact`); the lease itself is always
  exclusive (`Election.OneLeaderPerLease`).
- The two backends answer alike exactly when five uses are excluded: a key that is both a set and a
  string, an empty value on a key swapped from an empty expectation, a write that asks to keep
  the lifetime of a key that is given one, a metacharacter in a scanned prefix, and a scanned prefix
  that some set key has (`BackendAgreement.ConditionsExact`).
- Two key builders share keys of some kinds exactly when one stem continues the other
  (`Keys.StemsCollide`), as with a colon in a cluster id (`Keys.TenantsCollide`); two rooms share a
  replication id exactly when one name continues the other with a bar (`Replication.RoomsCollide`).
- A cached node's stamp can go back once the node was dropped from the cache in between, and only
  then (`NodeRegistry.RemovalExact`).
- One refresh of the node registry repairs the cache exactly when no cached id is on the roster
  without a record; two always do (`NodeRegistry.OnePassExact`, `NodeRegistry.TwoPassesRepair`).
- The retry limit holds exactly when retries of a job do not overlap; `n` overlapping ones pass it
  by `n - 1` (`JobLifecycle.RetryLimitExact`, `JobLifecycle.OverlappingRetries`).
- Write-behind ends with the last values exactly when writers succeed, nothing is enqueued for a key
  during its overflow write and, as far as the buffer has room for it, overflows touch only idle
  keys, flushes do not overlap and no cache name continues another with a NUL
  (`WriteBehind.RulesExact`).
- A transition whose mutation changes the state leaves the job in the wrong bucket of the state
  index (`Jobs.StateIndexExact`).
- A key that carries a profile name and has no scoped form is found by a single lookup but missing
  from the flattened configuration (`Configuration.VanishesExact`).

## Model

| member | source | states |
|---|---|---|
| `Documents.BaseFacts` | internal/collaboration/snapshot/snapshot.go:188-217 | the chain starts at the newest full snapshot, and at the oldest snapshot when there is none |
| `Documents.ChainExtend` | internal/collaboration/snapshot/snapshot.go:160-217 | whatever it captured, a full snapshot makes the chain hold its payload alone, and an increment over what the chain holds adds its payload |
| `Documents.ChainAppend` | internal/collaboration/snapshot/snapshot.go:109-180 | appending a full snapshot, or an increment over the newest state, makes the chain's payloads together exactly the captured state, one snapshot longer or restarted |
| `Documents.PruneKeepsChain` | internal/collaboration/storage/storage.go:151-161 | a window at least as long as the chain keeps the whole chain and the newest snapshot |
| `Documents.SinceSince` | internal/collaboration/storage/storage.go:80-108 | trimming the log below a version changes nothing a reader above it sees |
| `Durability.InvNext` | internal/collaboration/manager.go:198-534 | every protocol step of open, update, snapshot and archive calls, interleaved with any others and with crashes, keeps the invariant that ties disk, loaded document and all calls together, whenever window and exclusions are enough for the threshold |
| `Durability.Durable` | internal/collaboration/manager.go:346-509 | with a wide window and the exclusions its threshold needs, in every reachable state recovery yields every acknowledged operation, nothing never applied, and at least every logged version |
| `Durability.ChainSound` | internal/collaboration/snapshot/snapshot.go:160-217 | over every such run the stretch from the newest full snapshot is at most max(1, threshold) long and, with undivided captures, its payloads union to the newest captured state |
| `Durability.LiveRebuilds` | internal/collaboration/recovery/recovery.go:87-160 | what storage rebuilds lies between what was acknowledged and the loaded document |
| `Durability.RebuiltFits` | internal/collaboration/manager.go:198-250 | what recovery rebuilds from storage that meets the invariant is fit to be loaded: it holds all that storage does and its version is no older |
| `Durability.BoundGrows` | internal/collaboration/snapshot/snapshot.go:160-180 | between full snapshots the bound on the chain grows by one per recorded snapshot and never passes the threshold |
| `Durability.DiskSave` | internal/collaboration/snapshot/snapshot.go:109-150 | storing a snapshot that covers its version keeps every acknowledged operation recoverable |
| `DurabilityLimits.NarrowWindowLoses` | internal/collaboration/snapshot/snapshot.go:71-97 | for every retention below the threshold some run without any overlap ends in a state that lost an acknowledged update |
| `DurabilityLimits.WindowExact` | internal/collaboration/snapshot/snapshot.go:71-97 | after normalisation of any options, retention at least max(1, threshold) if and only if every reachable state is safe |
| `DurabilityLimits.DefaultsLose` | internal/collaboration/config/config.go:73-74 | the default retention and threshold reach an unsafe state |
| `DurabilityLimits.UnloadUnderCallLoses` | internal/collaboration/manager.go:346-391 | for every window, an update applied before its document is unloaded and logged after is acknowledged under version 0 and lost |
| `DurabilityLimits.UnloadUnderSaverLoses` | internal/collaboration/manager.go:478-534 | for every window, a snapshot planned before an unload and taken after it, of the document it still holds, claims a version the reloaded document gave to another update, which is lost |
| `DurabilityLimits.StaleSaveLoses` | internal/collaboration/manager.go:478-534 | such a snapshot loses the update whatever is left of the released document |
| `DurabilityLimits.UnloadUnderOpenLoses` | internal/collaboration/manager.go:198-250 | for every window, a document read before an unload and registered after it gives its next update a version that a snapshot covers, and the update is lost |
| `DurabilityLimits.SplitCaptureLoses` | internal/collaboration/snapshot/snapshot.go:109-150 | for every window and every threshold from 2 on, an edit between payload and state vector can be lost |
| `DurabilityLimits.SecondSaverRegresses` | internal/collaboration/registry/registry.go:290-332 | for every window, a stale second saver takes the recovered version below logged versions |
| `DurabilityLimits.RulesExact` | internal/collaboration/manager.go:346-534 | for every options, as normalised, and every choice of exclusions: all reachable states are safe if and only if retention is at least max(1, threshold), no document is unloaded under an update, snapshot or open call, one snapshot call runs at a time and, from a threshold of 2 on, no edit divides a capture |
| `DurabilityLimits.OpenRuns` | internal/collaboration/manager.go:198-292 | an open call without interference loads exactly what storage rebuilds, or a new document, and otherwise changes nothing |
| `DurabilityLimits.HollowReached` | internal/collaboration/manager.go:198-292 | for all options and exclusions, a document can come to have metadata and nothing else |
| `DurabilityLimits.EmptyStaysClosed` | internal/collaboration/manager.go:198-292 | a document with metadata but neither snapshot nor update stays closed over every run, whatever open calls are under way |
| `DocumentStore.Repository.SaveUpdate` | internal/collaboration/storage/storage.go:68-78 | appends to the document's log and touches no other document |
| `DocumentStore.Repository.GetUpdates` | internal/collaboration/storage/storage.go:80-93 | returns exactly the logged updates above the version, in order |
| `DocumentStore.Repository.DeleteUpdates` | internal/collaboration/storage/storage.go:95-108 | keeps exactly the updates at or above the version, in order, and other documents' logs |
| `DocumentStore.Repository.SaveSnapshot` | internal/collaboration/storage/storage.go:111-121 | appends to the document's snapshots only |
| `DocumentStore.Repository.GetLatestSnapshot` | internal/collaboration/storage/storage.go:123-134 | none exactly when there are none, else the newest |
| `DocumentStore.Repository.PruneSnapshots` | internal/collaboration/storage/storage.go:151-161 | keeps the newest snapshots of the document, up to the count |
| `DocumentStore.SnapshotManager.PlanFor` | internal/collaboration/snapshot/snapshot.go:160-186 | the plan function of the options, the previous metadata and the stored snapshots |
| `DocumentStore.SnapshotManager.Create` | internal/collaboration/snapshot/snapshot.go:109-158 | the exact snapshot and list that result, with failing save or prune; a sound chain inside the window stays sound and its payloads become the captured state |
| `DocumentStore.SnapshotManager.Reconstruct` | internal/collaboration/snapshot/snapshot.go:188-217 | the loops return exactly the chain's payloads, oldest first, and the newest version |
| `DocumentStore.OrderIrrelevant` | internal/collaboration/recovery/recovery.go:120-150 | replay depends only on which updates there are, not on how they were sorted |
| `DocumentStore.Replay` | internal/collaboration/recovery/recovery.go:120-150 | the replayed document is the base with every update's content, at the newest version |
| `DocumentStore.RecoverDocument` | internal/collaboration/recovery/recovery.go:87-160 | recovery succeeds exactly when there is a snapshot or an update above version 0, with the document, version and counts storage determines |
| `Collaboration.Manager.constructor` | internal/collaboration/manager.go:98-150 | for any options, a fresh manager is the protocol's initial state |
| `Collaboration.Manager.AlwaysSafe` | internal/collaboration/manager.go:198-534 | with a wide window, in every state between calls, storage failures included, storage rebuilds what was acknowledged and nothing never applied |
| `Collaboration.Manager.Reopens` | internal/collaboration/manager.go:198-262 | with a wide window, recovery would rebuild between what was acknowledged and the loaded document, and exactly that document when every update was logged |
| `Collaboration.Manager.Open` | internal/collaboration/manager.go:198-292 | opening is the protocol's uninterrupted run of an open call, and fails exactly for a known document with nothing stored |
| `Collaboration.Manager.SaveSnapshot` | internal/collaboration/manager.go:478-509 | both refusals, and otherwise the protocol's run of a whole snapshot, or of one given up when storing fails, with pruning and trimming failing or not |
| `Collaboration.Manager.ApplyIncrementalUpdate` | internal/collaboration/manager.go:346-391 | every refusal changes nothing; a failing log leaves the update applied and unacknowledged; otherwise the protocol's run of an edit, followed by a snapshot exactly when the backlog is full, and the operations are acknowledged |
| `Collaboration.Manager.BatchUpdates` | internal/collaboration/manager.go:396-415 | acknowledges exactly a prefix of the frames; stops at the first non-empty one refused or not logged; all-empty batches are malformed |
| `Collaboration.Manager.ArchiveDocument` | internal/collaboration/manager.go:513-534 | the refusals and a failing flush without unloading; otherwise the protocol's run of a flush, when dirty, and an unload, which changes nothing acknowledged |
| `Collaboration.Manager.Restart` | internal/collaboration/manager.go:198-262 | losing all memory is the protocol's crash step and keeps everything acknowledged recoverable |
| `Glob.MatchClass` | internal/cache/redis/emulator_pubsub.go:188-224 | the class loop agrees with the declarative class token, with negation, ranges, escapes and the unterminated bracket |
| `Glob.GlobMatch` | internal/cache/redis/emulator_pubsub.go:134-183 | one pass with a single remembered star terminates and returns true exactly when the tokenised pattern matches the whole string |
| `Glob.PrefixScan` | internal/coordination/backend/redis.go:97-100 | matching prefix + "*" is the prefix test on all strings if and only if every character of the prefix is a token that means itself |
| `Glob.MetaFreeIsPlain` | internal/coordination/backend/redis.go:97-100 | a prefix without metacharacters is plain |
| `ServiceGraph.OrderRulesOutCycles` | internal/deployment/validation/validation.go:108-116 | a complete start order excludes every cycle |
| `ServiceGraph.Search.HasCycle` | internal/deployment/validation/validation.go:124-140 | the search, with its visited and visiting sets, reports a cycle only if there is one and otherwise extends the start order |
| `ServiceGraph.FindCycle` | internal/deployment/validation/validation.go:108-116 | found if and only if the dependency relation has a cycle, whatever order the map is walked in; else a start order of all services |
| `ServiceGraph.CheckNames` | internal/deployment/validation/validation.go:34-50 | no issue exactly when names are non-blank and distinct; then the map is the list's graph |
| `ServiceGraph.Unknown` | internal/deployment/validation/validation.go:96-106 | no issue exactly when every dependency is declared |
| `ServiceGraph.Validate` | internal/deployment/validation/validation.go:27-120 | valid if and only if named, declared, free of other issues and startable in some order; circularity reported exactly when the checked graph is circular |
| `TtlStore.PurgeTwice` | internal/coordination/backend/memory.go:41-51 | purging at two times is purging at the later one |
| `TtlStore.EvictTwice` | internal/cache/redis/emulator.go:62-72 | the same for the emulator |
| `Backends.Memory.LiveCell` | internal/coordination/backend/memory.go:41-51 | a lookup evicts at most the expired key and changes nothing live, now or later |
| `Backends.Memory.Set` | internal/coordination/backend/memory.go:67-72 | refines the eager map's Set |
| `Backends.Memory.SetNX` | internal/coordination/backend/memory.go:74-82 | refines the eager map's SetNX, state and answer |
| `Backends.Memory.Delete` | internal/coordination/backend/memory.go:84-95 | deletes the live keys and counts each once, repeats included |
| `Backends.Memory.Expire` | internal/coordination/backend/memory.go:97-107 | refines the eager map's Expire |
| `Backends.Memory.TTL` | internal/coordination/backend/memory.go:109-120 | the three kinds of answer as the eager map gives them |
| `Backends.Memory.CompareAndSwap` | internal/coordination/backend/memory.go:122-135 | refines the eager map's compare-and-swap |
| `Backends.Memory.CompareAndDelete` | internal/coordination/backend/memory.go:137-146 | refines the eager map's compare-and-delete |
| `Backends.Memory.CompareAndExpire` | internal/coordination/backend/memory.go:148-158 | refines the eager map's compare-and-expire |
| `Backends.Memory.SAdd` | internal/coordination/backend/memory.go:160-176 | adds the members and counts the new ones |
| `Backends.Memory.SRem` | internal/coordination/backend/memory.go:178-196 | removes the members, counts the present ones and drops an emptied set |
| `Backends.Memory.Scan` | internal/coordination/backend/memory.go:209-222 | lists exactly the live keys with the prefix, each once |
| `Backends.Emulator.LiveEntry` | internal/cache/redis/emulator.go:62-72 | a lookup evicts at most the expired key and changes nothing live, now or later |
| `Backends.Emulator.Set` | internal/cache/redis/emulator.go:98-115 | refines the eager map's Set, with the keep-lifetime value |
| `Backends.Emulator.SetNX` | internal/cache/redis/emulator.go:117-129 | refines the eager map's SetNX |
| `Backends.Emulator.Del` | internal/cache/redis/emulator.go:131-146 | deletes the live keys and counts each once |
| `Backends.Emulator.TTL` | internal/cache/redis/emulator.go:179-194 | the three kinds of answer as the eager map gives them |
| `Backends.Emulator.CompareAndSet` | internal/cache/redis/emulator.go:263-281 | refines the eager map's compare-and-set |
| `Backends.Emulator.CompareAndDelete` | internal/cache/redis/emulator.go:233-246 | refines the eager map's compare-and-delete |
| `Backends.Emulator.CompareAndExtend` | internal/cache/redis/emulator.go:248-261 | refines the eager map's compare-and-extend |
| `Backends.Emulator.SAdd` | internal/cache/redis/emulator.go:418-438 | adds the members, keeps the set's lifetime and counts the new ones |
| `Backends.Emulator.SRem` | internal/cache/redis/emulator.go:440-462 | removes the members, counts the present ones and drops an emptied set |
| `Backends.Emulator.ScanKeys` | internal/cache/redis/emulator.go:317-333 | lists exactly the live keys whose name matches the pattern, each once |
| `BackendAgreement.LazyInvisible` | internal/coordination/backend/memory.go:41-222 | under a monotone clock, a run of lazily evicting memory operations gives the answers of the eager map |
| `BackendAgreement.LazyEmulatorInvisible` | internal/cache/redis/emulator.go:62-462 | the same for the emulator |
| `BackendAgreement.AgreeStep` | internal/coordination/backend/redis.go:32-100 | every operation that fits how its keys are used gives equal answers on agreeing states and leaves them agreeing |
| `BackendAgreement.SameAnswers` | internal/coordination/backend/redis.go:32-100 | from empty, the two eager maps give equal answers over every run that meets the five conditions |
| `BackendAgreement.LazyStoresAgree` | internal/coordination/backend/redis.go:32-100 | so do the two stores as they are, both evicting lazily |
| `BackendAgreement.KindsDiffer` | internal/cache/redis/emulator.go:418-438 | a run that uses one key as set and string and is answered differently |
| `BackendAgreement.BlanksDiffer` | internal/cache/redis/emulator.go:263-281 | a run where an empty value passes for an absent key on one backend |
| `BackendAgreement.KeepingDiffers` | internal/cache/redis/emulator.go:98-115 | a run where the emulator keeps a lifetime the memory backend drops |
| `BackendAgreement.PatternsDiffer` | internal/coordination/backend/redis.go:97-100 | a run that scans a prefix with a metacharacter and is answered differently |
| `BackendAgreement.SetScansDiffer` | internal/cache/redis/emulator.go:317-333 | a run whose scan lists a set key on the emulator only |
| `BackendAgreement.ConditionsExact` | internal/coordination/backend/redis.go:32-100 | every run a choice of conditions lets through is answered alike if and only if all five are chosen |
| `Keys.KeysDisjoint` | internal/coordination/keys/keys.go:21-51 | keys of colon-free kinds determine kind and id, so kinds never share a key |
| `Keys.NodeScanExact` | internal/coordination/keys/keys.go:27-33 | the node prefix selects exactly the node keys |
| `Keys.BuildersCollide` | internal/coordination/keys/keys.go:17-51 | under different stems, keys of two colon-free kinds can coincide if and only if one builder's keys all lie under the other's kind |
| `Keys.StemsCollide` | internal/coordination/keys/keys.go:17-51 | some kinds' keys coincide if and only if one stem continues the other |
| `Keys.TenantsApart` | internal/coordination/keys/keys.go:17-51 | under one prefix, clusters whose ids have no colon never share a key |
| `Keys.TenantsCollide` | internal/coordination/keys/keys.go:17-42 | a cluster id with a colon makes a node key equal another cluster's lock key |
| `Leases.MutualExclusion` | internal/coordination/locks/locks.go:117-282 | over every run within the three rules, of any number of managers, two unreleased locks on one resource are never both before their validity ends, renewals in flight included |
| `Leases.Fenced` | internal/coordination/locks/locks.go:237-282 | a renewal or release by a superseded holder changes nothing live |
| `Leases.LateStampBreaks` | internal/coordination/locks/locks.go:173-185 | whatever the drift factor, a stamp later than the margin breaks exclusion |
| `Leases.OverlapBreaks` | internal/coordination/locks/locks.go:237-258 | whatever the drift factor, two renewals of a lock at once break exclusion |
| `Leases.ShorteningBreaks` | internal/coordination/locks/locks.go:237-258 | whatever the drift factor, a renewal to an earlier end, written and not yet stamped, breaks exclusion |
| `Leases.RulesExact` | internal/coordination/locks/locks.go:117-282 | for every drift factor the configuration admits, exclusion in all reachable states if and only if all three rules hold |
| `Leases.HeldLock.Renew` | internal/coordination/locks/locks.go:237-258 | succeeds exactly for the holder, records loss, and a prompt stamp never claims more than the backend wrote |
| `Leases.HeldLock.Release` | internal/coordination/locks/locks.go:261-282 | deletes exactly its own key; a second release is a success without effect |
| `Leases.Acquire` | internal/coordination/locks/locks.go:117-160 | with other clients between attempts, the key was held at every answered attempt but a successful last one; a returned lock is the one the backend names until write + lease; a backend error ends the call; a failed attempt changes nothing; giving up means the last attempt was past the deadline |
| `Election.OneLeaderPerLease` | internal/coordination/leader/elector.go:55-92 | over every interleaving, resignations and transfers in progress included, an id within its lease is the one the key names, so at most one is |
| `Election.GrantLasts` | internal/coordination/leader/elector.go:55-92 | from a grant until the lease ends the key names the candidate unless it resigns or transfers itself |
| `Election.LateLeader` | internal/coordination/leader/election.go:132-196 | a leader that has not noticed its lease ran out shares the flag with its successor |
| `Election.PartingLeader` | internal/coordination/leader/election.go:198-236 | so does a leader that gave the key up and has not yet cleared its flag when another takes office |
| `Election.ReturningLeader` | internal/coordination/leader/election.go:132-215 | a candidate that campaigns during its own second resignation ends with a flag and no key, beside another's flag |
| `Election.FlagsExact` | internal/coordination/leader/election.go:132-236 | at most one flag in every reachable state if and only if leaders act before their lease ends, nobody campaigns during its own resignation or transfer, and nobody takes office while one that gave the key up has its flag |
| `Election.LeaseElector.Campaign` | internal/coordination/leader/elector.go:55-71 | wins exactly when the key was free or names the candidate, and otherwise changes nothing live |
| `Election.LeaseElector.Renew` | internal/coordination/leader/elector.go:73-76 | extends exactly the candidate's own key |
| `Election.LeaseElector.Resign` | internal/coordination/leader/elector.go:78-82 | deletes exactly the candidate's own key |
| `Election.LeaseElector.Transfer` | internal/coordination/leader/elector.go:90-92 | hands over exactly the candidate's own key |
| `Election.Runtime.CampaignTick` | internal/coordination/leader/election.go:132-148 | the flag and the known leader after a tick, against what the backend held; a backend error leaves both as they were |
| `Election.Runtime.RenewTick` | internal/coordination/leader/election.go:150-164 | the flag survives exactly when the backend still names the candidate, or the backend failed |
| `Election.Runtime.Resign` | internal/coordination/leader/election.go:198-215 | refused unless leading; afterwards neither flag nor key is held |
| `Election.Runtime.Transfer` | internal/coordination/leader/election.go:217-236 | on success the key names the successor; on lost leadership nothing live changes |
| `Sessions.Serialized` | internal/cache/sessions/sessions.go:204-239 | whatever the interleaving, the stored session is the winning mutators applied one after another in the order they won |
| `Sessions.VersionsAdvance` | internal/cache/sessions/sessions.go:204-239 | with mutators that leave it alone the version is 1 plus the wins, and no value is ever stored twice |
| `Sessions.NeverResurrected` | internal/cache/sessions/sessions.go:204-254 | an invalidated or expired session is never brought back by an update in flight |
| `Sessions.ConflictNeedsFiveWins` | internal/cache/sessions/sessions.go:204-239 | a conflict on a live session means at least five other updates won since the call began |
| `Sessions.Invalidate` | internal/cache/sessions/sessions.go:241-254 | the session is gone, its user's index no longer lists it, and no other key changes |
| `Sessions.Update` | internal/cache/sessions/sessions.go:150-239 | with arbitrary interference between its accesses the loop tries again exactly while it loses the race, answers as its last read and compare-and-set decide, reports a conflict only after the last attempt, and on success stored exactly the mutation of the unexpired session it replaced |
| `NodeRegistry.CommitAllNewest` | internal/coordination/registry/registry.go:95-104 | after any commits each id holds a record that was offered and that none offered supersedes |
| `NodeRegistry.CommitsConverge` | internal/coordination/types/types.go:196-204 | commits of the same records, in any order and number, end in the same cache when stamps are distinct |
| `NodeRegistry.NeverBack` | internal/coordination/registry/registry.go:71-258 | over every interleaving of puts, lookups, mutations, removals and refreshes, with stale reads in flight and other processes writing, the stamp of a node that stays cached never goes back |
| `NodeRegistry.EndsNewest` | internal/coordination/registry/registry.go:71-258 | and ends no older than anything committed for it on the way |
| `NodeRegistry.BackAfterRemoval` | internal/coordination/registry/registry.go:106-156 | a run from empty in which a stamp goes back after a removal |
| `NodeRegistry.RemovalExact` | internal/coordination/registry/registry.go:71-258 | stamps go back over no stretch of any run if and only if the node is not dropped on the way |
| `NodeRegistry.Registry.CommitNode` | internal/coordination/registry/registry.go:95-104 | keeps the newer record and never goes back |
| `NodeRegistry.Registry.Put` | internal/coordination/registry/registry.go:71-93 | writes the stamped record and the roster, and commits it; an empty id is refused without effect |
| `NodeRegistry.Registry.Get` | internal/coordination/registry/registry.go:106-127 | answers from the cache, else from a decodable backend record, which it commits |
| `NodeRegistry.Registry.Mutate` | internal/coordination/registry/registry.go:158-169 | the mutation of the node a lookup finds is stored with a new stamp, or nothing is written; the cache never goes back |
| `NodeRegistry.Registry.Remove` | internal/coordination/registry/registry.go:140-156 | removes the record, the roster entry and the cached node |
| `NodeRegistry.Registry.Refresh` | internal/coordination/registry/registry.go:208-258 | both loops, in any order, equal one declarative pass; the roster loses exactly its dead entries |
| `NodeRegistry.TwoPassesRepair` | internal/coordination/registry/registry.go:208-258 | for any records, garbled ones included, two passes leave exactly the repaired cache, none older than the backend's readable record, and a third changes nothing |
| `NodeRegistry.OnePassExact` | internal/coordination/registry/registry.go:208-258 | for any records one pass is enough if and only if every cached id on the roster has a record |
| `Replication.IdsDistinct` | internal/cache/presence/presence.go:243-256 | ids of bar-free rooms determine room and user |
| `Replication.RoomsCollide` | internal/cache/presence/presence.go:243-256 | two rooms can share an id if and only if one name continues the other with a bar |
| `Replication.ViewIsNewest` | internal/cache/presence/presence.go:329-376 | for a key with one remote writer, under any reordering, repetition or loss, the view holds exactly the highest delivered version, or nothing when that is a tombstone |
| `Replication.ReplicasAgree` | internal/cache/replication/replication.go:182-232 | two replicas that got the same versions, in any order and number, show the same |
| `Replication.HandledIncreases` | internal/cache/replication/replication.go:182-232 | the versions passed to handlers strictly increase per key |
| `Replication.Replica.UpdateView` | internal/cache/presence/presence.go:350-365 | the nested rooms show exactly the flat view with the newer presence |
| `Replication.Replica.RemoveFromView` | internal/cache/presence/presence.go:367-376 | removes exactly one user, and the room when it empties |
| `Replication.Replica.OnReplicated` | internal/cache/presence/presence.go:329-348 | a tombstone removes and anything else updates |
| `Replication.Replica.AcceptVersion` | internal/cache/replication/replication.go:223-232 | accepts exactly a version above the last and records it |
| `Replication.Replica.Apply` | internal/cache/replication/replication.go:182-209 | one delivery of the replication protocol: own echoes and old versions are ignored |
| `Replication.Replica.Broadcast` | internal/cache/replication/replication.go:109-135 | one local step of the replication protocol |
| `Jobs.InverseAdd` | internal/execution/registry/registry.go:251-261 | adding a job to an exact index keeps it exact |
| `Jobs.InverseRemove` | internal/execution/registry/registry.go:263-273 | removing a job from an exact index keeps it exact and leaves no empty bucket |
| `Jobs.StateIndexExact` | internal/execution/registry/registry.go:85-105 | filing a moved job under the target state is exact if and only if it is in that state |
| `Jobs.Registry.Add` | internal/execution/registry/registry.go:50-65 | a duplicate is refused; otherwise all five indexes stay the exact inverse images of the job map |
| `Jobs.Registry.Transition` | internal/execution/registry/registry.go:85-105 | both refusals, and otherwise the moved and mutated job and its previous state; the indexes are exact if and only if the mutation leaves the state alone |
| `Jobs.Registry.Update` | internal/execution/registry/registry.go:110-125 | the mutated job with its state put back, and exact indexes |
| `Jobs.Registry.Remove` | internal/execution/registry/registry.go:128-144 | the job's last record is returned, and it leaves the map and every index |
| `Jobs.Registry.ByIndex` | internal/execution/registry/registry.go:183-192 | exactly the jobs whose field has the key, each once; none for the empty key |
| `Jobs.Registry.ByState` | internal/execution/registry/registry.go:172-181 | exactly the jobs in the state, each once |
| `Jobs.Registry.FinishedBefore` | internal/execution/registry/registry.go:196-213 | exactly the finished, non-archived jobs at or before the cutoff, by completion else creation time, each once |
| `Jobs.Registry.GetStats` | internal/execution/registry/registry.go:226-240 | active plus finished is the total, finished counts the finished jobs, and each state's count is its number of jobs |
| `JobLifecycle.HistoryBounded` | internal/execution/orchestrator/orchestrator.go:137-403 | over every interleaving the outcome and completion time follow the state, and transitions are at most 6 * (retries + 1) + 1 |
| `JobLifecycle.HistoryTight` | internal/execution/job/state.go:85-121 | every number of retries within the limit has a run that reaches that bound |
| `JobLifecycle.RetriesBounded` | internal/execution/orchestrator/orchestrator.go:253-310 | with at most n retries of a job under way at once the count passes the limit by less than n |
| `JobLifecycle.OverlappingRetries` | internal/execution/orchestrator/orchestrator.go:253-310 | n calls that read the same snapshot all go through |
| `JobLifecycle.RetryLimitExact` | internal/execution/orchestrator/orchestrator.go:253-310 | the limit holds in every run if and only if retries of a job do not overlap or none is allowed |
| `Schedules.AfterSound` | internal/execution/scheduler/scheduler.go:75-108 | over every history a positive capacity is never exceeded and no job waits twice |
| `Schedules.OrderIsRecency` | internal/execution/scheduler/scheduler.go:75-108 | over every history the waiting jobs stand in the order of their latest accepted scheduling, each at its current priority |
| `Schedules.DrainUnique` | internal/execution/scheduler/scheduler.go:128-147 | only one sequence of the waiting jobs is in drain order |
| `Schedules.Memory.Schedule` | internal/execution/scheduler/scheduler.go:75-97 | refused exactly for a new job on a full schedule; otherwise the job goes behind the others |
| `Schedules.Memory.Cancel` | internal/execution/scheduler/scheduler.go:87-92 | takes out exactly that job and keeps the order |
| `Schedules.Memory.Reprioritize` | internal/execution/scheduler/scheduler.go:100-108 | changes a waiting job's priority and not its place; an unknown job is ignored |
| `Schedules.Memory.Drain` | internal/execution/scheduler/scheduler.go:128-147 | returns each waiting job once, by descending priority then latest scheduling, and empties the schedule |
| `Orchestration.Orchestrator.Advance` | internal/execution/orchestrator/orchestrator.go:383-403 | a mark is the lifecycle step of one job, or a refusal without effect |
| `Orchestration.Orchestrator.Report` | internal/execution/orchestrator/orchestrator.go:315-381 | the lifecycle marks keep every job's invariant |
| `Orchestration.Orchestrator.SubmitExecution` | internal/execution/orchestrator/orchestrator.go:126-171 | the three outcomes with the job and schedule each leaves: duplicate, queued, failed for lack of capacity |
| `Orchestration.Orchestrator.Cancel` | internal/execution/orchestrator/orchestrator.go:222-248 | succeeds exactly on unfinished jobs, which end cancelled and unscheduled |
| `Orchestration.Orchestrator.Retry` | internal/execution/orchestrator/orchestrator.go:253-310 | every refusal without effect; otherwise one more retry, rescheduled or failed, within the limit |
| `Orchestration.Orchestrator.Archive` | internal/execution/orchestrator/orchestrator.go:445-466 | moves exactly a finished job into the archive |
| `Orchestration.Orchestrator.ArchiveFinished` | internal/execution/orchestrator/orchestrator.go:470-481 | the sweep removes exactly the due jobs, archives each once and counts them |
| `WriteBehind.BufferBounded` | internal/cache/policies/writebehind.go:65-81 | over every run the buffer never holds more than its limit |
| `WriteBehind.OverlayIsLast` | internal/cache/policies/writebehind.go:65-154 | at every moment of a run under enough rules, for every key without an overflow write under way, record overlaid with batch and pending is its last value |
| `WriteBehind.OverflowLoses` | internal/cache/policies/writebehind.go:65-81 | for every positive limit, an overflow on a pending key ends with the older value in the record |
| `WriteBehind.OverflowsRace` | internal/cache/policies/writebehind.go:65-81 | without a buffer, two overflow writes of one key can land in either order |
| `WriteBehind.LateOverflowLoses` | internal/cache/policies/writebehind.go:65-81 | for every positive limit, an overflow write can land after a newer value was flushed |
| `WriteBehind.OverlappingFlushesLose` | internal/cache/policies/writebehind.go:101-154 | for every positive limit, two flushes at once can end with the older value in the record |
| `WriteBehind.FailedWriteLoses` | internal/cache/policies/writebehind.go:101-154 | for every limit, a failing writer leaves the record without the last value |
| `WriteBehind.CollidingNamesLose` | internal/cache/policies/writebehind.go:51-81 | with room for two, a write displaces one of another cache that has the same coalescing key |
| `WriteBehind.RulesExact` | internal/cache/policies/writebehind.go:65-154 | for every limit, every settled state holds the last values if and only if writers succeed, keys are quiet during their overflow write, with room to buffer overflows touch only idle keys and flushes do not overlap, and with room for two no cache name continues another with a NUL |
| `WriteBehind.CachesCollide` | internal/cache/policies/writebehind.go:51-51 | two caches can share a coalescing key if and only if one name continues the other with a NUL |
| `WriteBehind.CoalesceInjective` | internal/cache/policies/writebehind.go:51-51 | NUL-free cache names make coalescing keys distinct |
| `WriteBehind.Buffer.Enqueue` | internal/cache/policies/writebehind.go:65-81 | the new value takes effect unless the buffer is full and holds an older one or the writer fails; what a write does to a key it coalesces with, and that it leaves all others alone |
| `WriteBehind.Buffer.FlushAll` | internal/cache/policies/writebehind.go:101-154 | in any order, the record takes every buffered value whose writer succeeds, and failure is reported exactly when one fails |
| `Configuration.IsScoped` | internal/configuration/profiles/profiles.go:100-107 | true exactly when some profile of the chain prefixes the key |
| `Configuration.ResolveKey` | internal/configuration/profiles/profiles.go:52-69 | the most specific layer that has the key, else the key as it stands |
| `Configuration.ResolveConfig` | internal/configuration/profiles/profiles.go:74-98 | the nested loops, in any order, give every key its most specific layer over the unscoped keys |
| `Configuration.AgreementExact` | internal/configuration/profiles/profiles.go:52-107 | the flattened map and the single lookup agree on a key if and only if it carries no profile, is not there as it stands, or some layer has it |
| `Configuration.VanishesExact` | internal/configuration/profiles/profiles.go:52-107 | a key that carries a profile and has no scoped form is missing from the flattened map and found by a lookup; on every other key they agree |
| `Configuration.ScopedKeyVanishes` | internal/configuration/profiles/profiles.go:52-107 | a scoped key that a lookup finds and the flattened map lacks |
| `Configuration.LowestPriorityWins` | internal/configuration/registry/registry.go:27-60 | the value of a key comes from a provider no resolving provider precedes in priority |
| `Configuration.SearchesAgree` | internal/configuration/manager/manager.go:80-104 | for every key, loading everything and a single lookup in provider after provider agree unless the first provider that finds the key has it only as it stands and the first later one with a profile's form of it is missing or gives another value; and only then |
| `Configuration.FirstOfFound` | internal/configuration/manager/manager.go:80-104 | so they agree on every key without a profile |
| `Configuration.Manager.Register` | internal/configuration/registry/registry.go:27-43 | keeps providers ordered by priority with distinct names; a taken name is refused |
| `Configuration.Manager.Merged` | internal/configuration/manager/manager.go:80-104 | each key has its override, else the value of the first provider that loads and resolves it |
| `Configuration.Manager.RecordSnapshot` | internal/configuration/versioning/version.go:56-85 | versions stay consecutive and only the newest are kept |
| `Configuration.Manager.Load` | internal/configuration/manager/manager.go:76-149 | the merged configuration becomes the next version exactly when it is valid; otherwise the history stays as it is |

## Left out

- The CRDT engine, gzip, JSON, hashing and randomness: a document is a set of operations, an encoding is an injective function, tokens and ids are given and distinct.
- Integer widths: versions, sequence numbers and times are unbounded integers; 64-bit wrap-around is not modelled.
- Goroutines and locks: a critical section is one step; tickers and watchdogs are steps that may come at any time.
- DeleteDocument, room attachment, participants and statistics of the collaboration manager.
- DurabilityLimits.UnloadUnderSaverLoses: takes it that a document released by an unload can still be encoded, though the manager destroys it there; `DurabilityLimits.StaleSaveLoses` shows that the loss does not depend on what of its content the encoding then gives.
- DurabilityLimits.RulesExact: that the exclusion of unloads under a snapshot call is needed rests on the same reading; the other exclusions do not.
- Backends: one clock reading per operation; closing, hashes, counters, existence tests, persistence, bulk reads and writes and publish/subscribe are not modelled.
- Pruning of stale members by GetRoom and the anti-entropy loop of presence.
- ServiceGraph.Validate: the port, replica, resource and volume checks enter as a number of other issues.
- WriteBehind.RulesExact: takes a flush's writes one at a time in any order, which covers any number of workers but not a writer that half-succeeds.
- Schedules.Memory.Drain: the library sort is an insertion sort here; `Schedules.DrainUnique` shows the result is the same for any sort.
- Jobs: request validation, language defaults, execution contexts, persistence, events and metrics; a job has the fields the registry and lifecycle use.
- The diff and rollback of configuration versions, secrets, feature flags and watchers.
- WebSocket transport, HTTP gateway, middleware, the real Redis adapter, deployment generators and SDK facades.
- internal/rooms and internal/presence managers, internal/cache/locks (the same protocol as the coordination locks) and internal/coordination/replication (it never merges on receipt).
