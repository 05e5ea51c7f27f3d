# MCPOrb: a verified model

MCPOrb packages documents as searchable "Orbs" and serves them to language-model clients. This project models the
parts of it with the most state and arithmetic, in Dafny, and proves what they keep. `dafny verify dfyconfig.toml`
checks everything.

The model has five parts.

1. **The gateway's child processes** (`Gateway`, `GatewaySafety`, `GatewayTheorems`, `GatewayCalls`,
   `RuntimeManagement`). A step system at the granularity of the locks: `ensure_orb` checks, launches outside the lock
   and re-checks on insert; a forwarder writes its request and registers its waiter under the write lock; reader tasks,
   kills, the idle reaper, refreshes, shutdown and the clock interleave freely. `Inv` holds in every reachable state.
   `GatewayCalls` says what whole calls achieve from any state. `RuntimeManager` is the object with the source's fields
   and loops; each method's new state equals the step.
2. **The unlock state machine** (`Unlock`, `UnlockTheorems`, `UnlockCalls`, `UnlockRuns`, `Gate`, `GateRuns`). Any
   number of password and keychain attempts advance one atomic access at a time against a flag, a write-once knowledge
   slot, a clearable ciphertext and a keychain that outlives the launch. Key stretching, the two key legs, the verifier
   and the payload cipher are arbitrary deterministic functions. The request handlers are modelled on top, as calls
   (`Gate`) and as requests that overlap (`GateRuns`).
3. **Retrieval** (`Lexicon`, `Bm25`, `Vectors`, `TfIdf`, `Trigram`, `Ranking`, `Fusion`, `SearchRuntime`,
   `SearchDeterminism`, `FusedAnswers`). The three lexical indexes are built and searched with the source's loops, hash
   iteration order left arbitrary, and proved equal to scores written directly from the texts. "Top k" is a relation
   between a list and a table of scores. Scores are exact reals; the logarithm is any function that is 0 at 1 and
   increases, the root any function that squares back.
4. **The registry over a disk** (`Registry`, `RegistryRollback`, `RegistryRuns`, `RegistryTheorems`,
   `RegistrySafety`, `RegistryStores`). Files are a map from paths to bytes. Every file operation may fail where the source handles a
   failure: a stale destination stays, a rename is refused, a copy stops part way, a source stays after its copy, an
   undo fails.
5. **Encoders and framing** (`Base64Url`, `BundleFrame`, `ToolNames`, `ResourceUri`).

## What turned out false, and exactly when the code is right

- A refresh is a reconciliation only for slugs that are found once; a slug found twice is reset to Idle
  (`SurvivesRefreshIff`). Two Orbs of one name, or two versions of one Orb, have such slugs, because the registry keys
  its entries by hash; truncation adds two long slugs that agree on their first 46 characters (`McpSlugsCollideIff`).
- Every map entry is a listed Orb's after a step if and only if the step is neither a kill of an unlisted name nor the
  end of a spawn whose Orb a refresh dropped meanwhile (`OnlyListedIff`; over runs `AlwaysListedIff`). The latter
  publishes a running child that no list shows (`SpawnOutlivesRefresh`, `UnlistedChildRuns`), until the next refresh
  (`RefreshLists`).
- The idle reaper spares every live request if and only if its timeout is at least the response timeout plus the
  delay between a write and the start of its timer; under the defaults that delay may be at most 240 seconds
  (`ReaperIsSafeIff`, `DefaultReaperIsSafeIff`).
- A reply reaches its caller if and only if the caller is registered and listens when the reader gets it, and the id
  was not served before (`DeliveredIff`). Over runs a registered caller gets exactly the first answer that is read
  before it gives up (`ReplyReachesIff`). A request is written before its waiter is registered, so an answer that is
  read in between is dropped (`EarlyReplyDropped`).
- A shutdown kills exactly the children that no spawn holds (`ShutdownKillsIff`); a spawn in flight runs its child
  afterwards (`SpawnOutlivesShutdown`).
- "Unlocked implies knowledge" holds in every run if and only if the security file, when it encrypts the assets,
  also sets a password; the parser does not enforce this (`SafeIffWellFormed`, `NeverPanicsIff`).
- A good remembered key stays in the keychain in every run if and only if the Orb remembers and is not encrypted
  (`GoodKeysStayIff`). In an encrypted Orb two automatic attempts that overlap lose it: the second finds no
  ciphertext, counts that as a bad key and forgets a good one (`RunForgetsGoodKey`); step by step, an attempt turns to
  forgetting exactly when it sees no ciphertext or a key that does not open (`TurnsIff`).
- A migration that succeeds keeps every file if and only if entries that end up at one path held the same bytes
  (`MigrationKeepsIff`); files named by their hashes always meet this (`HashNamesDoNotClash`), arbitrary names do not
  (`SameNameLosesOne`).
- A migration that fails, however it fails, leaves every entry with its bytes as long as the undo renames work, if
  and only if no two files within reach go to one place and no entry lies where one goes (`FailureSafeIff`; a path
  registered twice is one way to clash, `RegisteredTwiceLosesIt`). An entry that clashes with none is lost exactly if
  its file was moved and its own undo failed (`FailureRestoresIff`); the undo is a rename only, although the move may
  have been a copy.
- Where undos may fail as well (the undo is a rename only), every failure of a migration keeps every entry if and only
  if besides there are not two files to move of which the first can be moved (`MigrationSafeIff`).
- An import leaves every registered path right if and only if it neither copies a stored ZIP onto itself nor breaks
  off over one, unless what is then left there has the same hash (`ImportKeepsIff`): importing a ZIP that already lies
  in the library reports success and empties it (`SelfImportEmptiesIt`), and a broken re-import damages it
  (`BrokenReimportKeepsIff`). A file registered where it lies must also be named by its hash, which the source leaves
  to its caller.
- Every failure of a library deletion keeps every entry if and only if there is at most one file to delete
  (`DeletionSafeIff`); a given one does if and only if it stops at the first file (`FailedDeletionKeepsIff`).
- No operation takes back what it did to the disk when the final save of the list fails: the old entries keep their
  files if and only if nothing was moved (`UnsavedMigrationKeepsIff`) or deleted (`UnsavedDeletionKeepsIff`,
  `UnsavedRemovalKeepsIff`), and no other bytes copied over one of them (`UnsavedImportKeepsIff`).
- Over whole runs with given faults, registered paths never hold wrong bytes exactly if every step avoids these cases
  (`RunIsSoundIff`), and always hold their bytes exactly if besides every undo and deletion works (`RunIsWholeIff`).
  Whatever the faults, they always do exactly if every call is a safe one by a condition on the state before it
  (`KeepsWholeIff`, `WholeWhateverIff`).
- A tool name routes back if and only if the Orb's name has an ASCII letter or digit (`AdvertisedToolRoutesBackIff`).
- Fusion is deterministic given its lists, but BM25 and trigram search leave ties to hash order. One such ranker
  has a single answer if and only if chunks that tie have k better ones (`OneRankingIff`). Several together have a
  single fused answer if and only if every chunk that fewer than k others outrank for sure has a fixed score
  (`OneFusedAnswerIff`; for a given answer `OnlyAnswerIff`); with room for every chunk that means no ties in those two
  tables (`OneAnswerIff`). Two chunks with the same text always tie (`TwinsTie`), and a built index of two such chunks
  has two answers (`TwoAnswers`). TF-IDF and dense search break ties by chunk id, whatever the hash order.

Where documentation and code disagree the model follows the code: the refresh log says orphaned processes are tracked,
but their handles are dropped and the children killed; the comment on the automatic unlock says leftovers of
`every_launch` Orbs are cleaned up after the recall, but a recall that unlocks returns first.

## Model

| member | source | states |
|---|---|---|
| `GatewaySafety.RunInv` | crates/mcporb-gateway-core/src/runtime_manager.rs:163-429 | The whole invariant (custody of children, split of ids, counters, reply channels, times, entries for listed Orbs, nobody published before its handshake was answered) survives every sequence of interleaved steps |
| `GatewaySafety.StepInv` | crates/mcporb-gateway-core/src/runtime_manager.rs:211-429 | Each single step of any actor keeps that invariant |
| `GatewaySafety.RefreshExactly` | crates/mcporb-gateway-core/src/runtime_manager.rs:163-184 | After a refresh the map's keys are exactly the found slugs, a slug found once keeps its very process, every other one is Idle |
| `GatewaySafety.SurvivesRefreshIff` | crates/mcporb-gateway-core/src/runtime_manager.rs:163-184 | A running entry survives a refresh if and only if its slug is found exactly once |
| `GatewaySafety.RefreshIdempotent` | crates/mcporb-gateway-core/src/runtime_manager.rs:163-184 | Refreshing again with the same registry changes nothing |
| `GatewaySafety.ReapDrops` | crates/mcporb-gateway-core/src/runtime_manager.rs:389-407 | The children the reaper kills are exactly those that lose their Running entry |
| `GatewaySafety.RegisterLedger` | crates/mcporb-gateway-core/src/runtime_manager.rs:322-339 | Registering a waiter never overwrites a pending one, and keeps the split of ids |
| `GatewaySafety.RegisterChannels` | crates/mcporb-gateway-core/src/runtime_manager.rs:335-339 | No other channel waits for the id being registered |
| `GatewaySafety.DeliverLedger` | crates/mcporb-gateway-core/src/runtime_manager.rs:631-655 | A delivered reply moves exactly its id from pending to taken |
| `GatewaySafety.DeliverChannels` | crates/mcporb-gateway-core/src/runtime_manager.rs:636-645 | A delivery reaches the one waiter of that child and id, whose channel was empty |
| `GatewayTheorems.RepliesCorrelate` | crates/mcporb-gateway-core/src/runtime_manager.rs:298-362 | In every run a waiter gets at most one reply, from its own child with its own id, and no two waiters of a child share an id |
| `GatewayTheorems.IdsConserved` | crates/mcporb-gateway-core/src/runtime_manager.rs:309-339 | In every run the ids issued to a child split exactly into pending, taken, lost on writing and not yet registered |
| `GatewayTheorems.RegisterIsFresh` | crates/mcporb-gateway-core/src/runtime_manager.rs:335-339 | The id being registered is neither pending nor taken nor any waiter's |
| `GatewayTheorems.EarlyReplyDropped` | crates/mcporb-gateway-core/src/runtime_manager.rs:322-339 | A reply that comes between write and registration changes nothing: it is dropped |
| `GatewayTheorems.DeliveredIff` | crates/mcporb-gateway-core/src/runtime_manager.rs:634-648 | A reply goes into a channel if and only if that channel waits for its id, its caller still listens and the id was not served before |
| `GatewayTheorems.ReplyReachesIff` | crates/mcporb-gateway-core/src/runtime_manager.rs:335-362 | Over every run a registered caller gets exactly the first answer to its id that is read before it gives up, or nothing |
| `GatewayTheorems.RegisteredExpects` | crates/mcporb-gateway-core/src/runtime_manager.rs:335-339 | From its registration on a caller is such a one |
| `GatewayTheorems.ChildrenConserved` | crates/mcporb-gateway-core/src/runtime_manager.rs:211-252 | In every run a child is alive exactly if held by one spawning task or one Running entry, never by two holders |
| `GatewayTheorems.PublishedHaveAnswered` | crates/mcporb-gateway-core/src/runtime_manager.rs:694-697 | In every run a child that is running, or ready to be published, answered its handshake earlier in the run |
| `GatewayCalls.SpawnPublishes` | crates/mcporb-gateway-core/src/runtime_manager.rs:211-253 | From any world a call that finds a listed Orb not running leaves it running with a fresh child that answered id 0 and is due id 1, and changes nothing else |
| `GatewayCalls.LaunchFailureIsPublished` | crates/mcporb-gateway-core/src/runtime_manager.rs:231-251 | A child that cannot be launched leaves the Orb Failed, and nothing else changed |
| `GatewayCalls.SilenceIsPublished` | crates/mcporb-gateway-core/src/runtime_manager.rs:694-697 | A child that does not answer is killed, and the Orb is Failed |
| `GatewayCalls.SpawnStartsIff` | crates/mcporb-gateway-core/src/runtime_manager.rs:213-223 | A spawn starts for an entry that is not running, and in no other way |
| `GatewayCalls.ChildLaunchedIff` | crates/mcporb-gateway-core/src/runtime_manager.rs:225-231 | A child is launched for the spawn of a listed Orb, and in no other way |
| `GatewayCalls.PublishedIff` | crates/mcporb-gateway-core/src/runtime_manager.rs:233-250 | An entry becomes running by the insertion of a ready spawn that nobody was faster than, and in no other way |
| `GatewayCalls.SlowerSpawnLoses` | crates/mcporb-gateway-core/src/runtime_manager.rs:233-243 | The slower of two spawns loses its child, and leaves the entry |
| `GatewayCalls.AbandonedIsKilled` | crates/mcporb-gateway-core/src/runtime_manager.rs:211-252 | A spawn that is given up ends, and takes the child it holds with it and no other |
| `GatewayCalls.ForwardDelivers` | crates/mcporb-gateway-core/src/runtime_manager.rs:298-362 | A forwarded request takes the next id, stamps the entry and gets its reply; nothing else changes |
| `GatewayCalls.ForwardLoses` | crates/mcporb-gateway-core/src/runtime_manager.rs:322-333 | One whose write fails uses up its id and frees the lock |
| `GatewayCalls.LockIsExclusive` | crates/mcporb-gateway-core/src/runtime_manager.rs:300-341 | While a forwarder holds the lock nobody else touches the map, and it lets go by registering or failing only |
| `GatewayCalls.LockTakenIff` | crates/mcporb-gateway-core/src/runtime_manager.rs:300-333 | The lock is held over a write to a running entry, and over nothing else |
| `GatewayTheorems.RunningEndsOnlyWhen` | crates/mcporb-gateway-core/src/runtime_manager.rs:234-250 | A Running entry keeps its child through any step except kill, reap, refresh without it and shutdown; a failed or losing spawn never replaces it |
| `GatewayTheorems.ShutdownKillsIff` | crates/mcporb-gateway-core/src/runtime_manager.rs:416-429 | A shutdown kills exactly the children that no spawn in flight holds, and leaves nothing Running |
| `GatewayTheorems.SpawnOutlivesShutdown` | crates/mcporb-gateway-core/src/runtime_manager.rs:233-243 | A spawn that finishes after a shutdown publishes a running child |
| `GatewayTheorems.RunGrows` | crates/mcporb-gateway-core/src/runtime_manager.rs:309-341 | Over runs ids issued, ids taken, killed children and delivered replies only grow; nothing delivered changes |
| `GatewayTheorems.ListedAlwaysHaveEntries` | crates/mcporb-gateway-core/src/runtime_manager.rs:123-184 | In every run each listed Orb has a map entry |
| `GatewayTheorems.OnlyListedIff` | crates/mcporb-gateway-core/src/runtime_manager.rs:233-251 | The converse survives a step if and only if it is neither a kill of an unlisted name nor the end of a spawn for a dropped Orb |
| `GatewayTheorems.AlwaysListedIff` | crates/mcporb-gateway-core/src/runtime_manager.rs:163-429 | It holds in every state of a run if and only if no step of the run is one of those two |
| `GatewayTheorems.RefreshLists` | crates/mcporb-gateway-core/src/runtime_manager.rs:163-184 | A refresh restores it |
| `GatewayTheorems.SpawnOutlivesRefresh` | crates/mcporb-gateway-core/src/runtime_manager.rs:233-251 | A spawn that ends after a refresh dropped its Orb publishes a running child under an unlisted slug |
| `GatewayTheorems.UnlistedChildRuns` | crates/mcporb-gateway-core/src/runtime_manager.rs:211-251 | A run from the start gets there |
| `GatewayTheorems.UnlistedEntryExists` | crates/mcporb-gateway-core/src/runtime_manager.rs:366-374 | Killing an unknown name inserts an entry for it |
| `GatewayTheorems.ReapSparesPrompt` | crates/mcporb-gateway-core/src/runtime_manager.rs:389-407 | With prompt timers and a long enough idle timeout a reap cuts off no waiter still inside its 60 seconds |
| `GatewayTheorems.HastyReaperHits` | crates/mcporb-gateway-core/src/runtime_manager.rs:335-361 | With a shorter timeout a concrete run has the reaper kill a child with a live waiter |
| `GatewayTheorems.ReaperIsSafeIff` | crates/mcporb-gateway-core/src/runtime_manager.rs:335-407 | The reaper is safe in all runs if and only if the idle timeout is at least the slack plus the response timeout |
| `GatewayTheorems.DefaultReaperIsSafeIff` | crates/mcporb-gateway-core/src/registry_reader.rs:71 | Under the default 300 seconds that means a slack of at most 240 seconds |
| `RuntimeManagement.RuntimeManager.constructor` | crates/mcporb-gateway-core/src/runtime_manager.rs:123-134 | A new manager is the initial state: every found Orb listed and Idle |
| `RuntimeManagement.RuntimeManager.RefreshRegistry` | crates/mcporb-gateway-core/src/runtime_manager.rs:163-184 | The loop over found Orbs yields exactly the refresh step: what it overwrites and what the old map has left is dropped and killed |
| `RuntimeManagement.RuntimeManager.InsertSpawned` | crates/mcporb-gateway-core/src/runtime_manager.rs:233-251 | Insertion with re-check under the lock is the insert step; it reports whether the slug is running |
| `RuntimeManagement.RuntimeManager.WriteRequest` | crates/mcporb-gateway-core/src/runtime_manager.rs:302-333 | Issues the counter's id to a running entry only, and is the write step |
| `RuntimeManagement.RuntimeManager.RegisterWaiter` | crates/mcporb-gateway-core/src/runtime_manager.rs:335-339 | Stamps the entry and adds the waiter: the registration step |
| `RuntimeManagement.RuntimeManager.ReadLine` | crates/mcporb-gateway-core/src/runtime_manager.rs:634-648 | One line of the reader task, served only if its id was pending |
| `RuntimeManagement.RuntimeManager.Kill` | crates/mcporb-gateway-core/src/runtime_manager.rs:366-374 | Kills the child if running and sets the entry to Idle, whatever the name |
| `RuntimeManagement.RuntimeManager.CollectOverdue` | crates/mcporb-gateway-core/src/runtime_manager.rs:390-398 | Collects exactly the running entries idle for longer than the timeout |
| `RuntimeManagement.RuntimeManager.ReapIdle` | crates/mcporb-gateway-core/src/runtime_manager.rs:389-407 | Collecting and recycling together are the reap step; all other entries unchanged |
| `RuntimeManagement.RuntimeManager.ShutdownAll` | crates/mcporb-gateway-core/src/runtime_manager.rs:416-429 | Every running child is killed and no entry stays Running |
| `UnlockTheorems.AdvanceOk` | crates/mcporb-runtime/src/main.rs:231-303 | One atomic step of any attempt keeps the Orb's, the keychain's and the attempt's invariant and only moves forward |
| `UnlockTheorems.RunOk` | crates/mcporb-runtime/src/main.rs:231-342 | So does every interleaving of any number of attempts |
| `UnlockTheorems.UnlockIsSafe` | crates/mcporb-runtime/src/state.rs:182-242 | On a well-formed config, in every run: unlocked implies knowledge, ciphertext cleared implies knowledge, and the flag is set only after a presented key verified or decrypted |
| `UnlockTheorems.UnlockIsMonotone` | crates/mcporb-runtime/src/state.rs:227-242 | Knowledge once published never changes, unlocked never reverts |
| `UnlockTheorems.SafeIffWellFormed` | crates/mcporb-runtime/src/security.rs:166-186 | Unlocked-without-knowledge is unreachable if and only if encrypted assets come with a password |
| `UnlockTheorems.PublishesWhatWasPackaged` | crates/mcporb-runtime/src/main.rs:262-282 | Whatever run publishes knowledge of an encrypted Orb publishes the packaged archive's, and only after its key was presented |
| `UnlockTheorems.OpenOnlyToItsKey` | crates/mcporb-runtime/src/security.rs:325-334 | If the stored verifier is the tag of one key alone, in every run a password-only Orb is open only if that key was presented |
| `UnlockCalls.PasswordOpensIff` | crates/mcporb-runtime/src/main.rs:231-258 | And a locked one opens to exactly the passwords that stretch to that key |
| `UnlockCalls.SealedOpensIff` | crates/mcporb-runtime/src/main.rs:259-291 | An encrypted one opens to exactly those whose key opens its payload to an archive that parses, with a nonce of 24 bytes, and then publishes that archive and drops the ciphertext |
| `UnlockCalls.RefusedFor` | crates/mcporb-runtime/src/main.rs:231-291 | Which refusals are wrong passwords, and which are faults of the cryptography or the package |
| `UnlockTheorems.OtherOrbsKeepEntries` | crates/mcporb-runtime/src/device_unlock.rs:18-54 | No run of Orbs with other identities touches an identity's keychain entry |
| `UnlockCalls.PerformIsSolo` | crates/mcporb-runtime/src/main.rs:231-303 | The password unlock as one call equals the stepwise attempt run alone |
| `UnlockCalls.AutoIsSolo` | crates/mcporb-runtime/src/main.rs:312-342 | The keychain unlock as one call equals the stepwise attempt run alone |
| `UnlockCalls.SoloIsARun` | crates/mcporb-runtime/src/main.rs:231-342 | Such a solo attempt is a run of the concurrent system |
| `UnlockCalls.RememberedRoundTrip` | crates/mcporb-runtime/src/main.rs:244-342 | A successful remembered unlock makes a later launch with that entry unlock without the password, entry kept |
| `UnlockCalls.RecalledIff` | crates/mcporb-runtime/src/device_unlock.rs:37-46 | The keychain gives a key back exactly if it answers and holds those 32 bytes under the identity |
| `UnlockCalls.SavedElsewhereOpens` | crates/mcporb-runtime/src/main.rs:312-326 | An accepted key saved by another program opens the next launch whatever the policy; a deleted one does not |
| `UnlockRuns.RunWritesGood` | crates/mcporb-runtime/src/main.rs:244-342 | Whatever attempts interleave, an entry a run wrote itself is a key that was presented and that the Orb accepts |
| `UnlockRuns.RunRemembers` | crates/mcporb-runtime/src/main.rs:244-342 | Such an entry opens the next launch without the password, and stays |
| `UnlockCalls.RememberedIff` | crates/mcporb-runtime/src/main.rs:292-302 | A call puts its key into a keychain that does not hold it if and only if the Orb was locked, the store works, the Orb remembers and the key was right |
| `UnlockCalls.EntrySurvivesIff` | crates/mcporb-runtime/src/main.rs:322-341 | After an uninterrupted automatic attempt the recalled entry is still there if and only if the store does not answer or its key still opens the Orb |
| `UnlockRuns.TurnsIff` | crates/mcporb-runtime/src/main.rs:244-291 | Step by step, an automatic attempt turns to forgetting exactly when it sees no ciphertext or a key that does not open |
| `UnlockRuns.DoomedForgets` | crates/mcporb-runtime/src/main.rs:329-332 | One that has turned removes the entry at its forgetting step if the store answers |
| `UnlockRuns.RunForgetsGoodKey` | crates/mcporb-runtime/src/main.rs:263-265 | From a launch, a run of two overlapping automatic attempts opens the Orb and forgets a key that it accepts |
| `UnlockRuns.GoodKeysStayIff` | crates/mcporb-runtime/src/main.rs:312-342 | A good remembered key stays in every run if and only if the Orb remembers and is not encrypted, or no key is good |
| `UnlockCalls.LateAttemptForgetsGoodKey` | crates/mcporb-runtime/src/main.rs:263-265 | The state such a run reaches: an attempt after the ciphertext was cleared forgets a key that a fresh launch accepts |
| `UnlockCalls.FailuresCounted` | crates/mcporb-runtime/src/security.rs:304-343 | A rejected key adds one failure up to the 32-bit maximum, a success resets the count, a missing or unreadable payload leaves it |
| `UnlockCalls.DeviceStore.Remember` | crates/mcporb-runtime/src/device_unlock.rs:29-32 | Sets exactly this identity's entry if the store is available |
| `UnlockCalls.DeviceStore.Forget` | crates/mcporb-runtime/src/device_unlock.rs:50-54 | Removes exactly this identity's entry |
| `UnlockCalls.OrbState.constructor` | crates/mcporb-runtime/src/state.rs:172-213 | Plain assets start with knowledge, encrypted ones with the ciphertext |
| `UnlockCalls.OrbState.SetKnowledge` | crates/mcporb-runtime/src/state.rs:229-233 | Publishes only if nothing was published before |
| `UnlockCalls.OrbState.Finish` | crates/mcporb-runtime/src/main.rs:244-303 | New state, error and keychain of the finishing step as functions of the old |
| `UnlockCalls.OrbState.Perform` | crates/mcporb-runtime/src/main.rs:231-237 | The same for the whole password unlock |
| `UnlockCalls.OrbState.TryAuto` | crates/mcporb-runtime/src/main.rs:312-342 | The same for the automatic unlock |
| `Gate.HandleTotal` | crates/mcporb-runtime/src/mcp_handler.rs:94-177 | On a sound state every request is answered, without reaching the panicking accessor, and the state stays sound |
| `Gate.ServeTotal` | crates/mcporb-runtime/src/mcp_handler.rs:75-177 | So is every sequence of requests |
| `Gate.NeverPanicsIff` | crates/mcporb-runtime/src/state.rs:215-225 | No request sequence panics if and only if the config is well-formed |
| `Gate.LockedReplyIsBlind` | crates/mcporb-runtime/src/mcp_handler.rs:94-177 | A request that leaves the Orb locked is answered alike from two states that differ only in contents |
| `Gate.LockedSessionIsBlind` | crates/mcporb-runtime/src/mcp_handler.rs:212-247 | So is a whole session that ends locked, however the contents differ |
| `Gate.LockIsSticky` | crates/mcporb-runtime/src/mcp_handler.rs:395-422 | An unlocked Orb stays unlocked through every session |
| `Gate.PerformIsBlind` | crates/mcporb-runtime/src/mcp_handler.rs:395-422 | A password attempt that leaves the Orb locked tells nothing of the contents |
| `Gate.SealedReplyIsBlind` | crates/mcporb-runtime/src/mcp_handler.rs:94-177 | A request that opens neither of two encrypted packages is answered alike by both, whatever is sealed in them |
| `Gate.SealedSessionIsBlind` | crates/mcporb-runtime/src/mcp_handler.rs:94-177 | So is a whole session |
| `GateRuns.CourseOk` | crates/mcporb-runtime/src/mcp_handler.rs:75-177 | However requests and unlock attempts overlap, a request past the gate finds the knowledge |
| `GateRuns.NeverCrashesIff` | crates/mcporb-runtime/src/state.rs:215-225 | No overlapping requests reach the panicking accessor if and only if the config is well-formed |
| `GateRuns.NoKeyNoContents` | crates/mcporb-runtime/src/mcp_handler.rs:212-247 | Without an accepted key among all that is presented no request gets past the gate and no answer looks at the contents |
| `GateRuns.AloneIsHandle` | crates/mcporb-runtime/src/mcp_handler.rs:94-177 | A request that nothing interrupts is answered, and leaves the Orb, as the handler call does |
| `Gate.ReadsDocument` | crates/mcporb-runtime/src/mcp_handler.rs:432-459 | Reading by a decimal id returns the joined texts of that document, an id nobody has is not found, one beyond 32 bits is invalid |
| `Gate.OtherUrisAreInvalid` | crates/mcporb-runtime/src/mcp_handler.rs:439-458 | An address without the prefix is invalid |
| `Gate.DecimalParses` | crates/mcporb-runtime/src/mcp_handler.rs:439-441 | An id is read back from its decimal form, with or without a plus sign, if it has 32 bits |
| `Gate.ParsedIsDigits` | crates/mcporb-runtime/src/mcp_handler.rs:439-442 | Only digits behind an optional plus sign are read as an id |
| `Gate.TextsInOrder` | crates/mcporb-runtime/src/mcp_handler.rs:446-450 | The texts are those of all chunks of the document and no others, in ascending order of position |
| `Gate.JoinConcat` | crates/mcporb-runtime/src/mcp_handler.rs:451-452 | A blank line stands between two texts |
| `Gate.JoinOne` | crates/mcporb-runtime/src/mcp_handler.rs:451 | One text is joined to itself, none to nothing |
| `Gate.ServeConcat` | crates/mcporb-runtime/src/mcp_handler.rs:58-63 | A session is answered request by request, each from what the ones before it left |
| `Gate.ServeOne` | crates/mcporb-runtime/src/mcp_handler.rs:71 | A session of one request is that request |
| `Gate.OpenReplies` | crates/mcporb-runtime/src/mcp_handler.rs:117-175 | What an open Orb answers from its knowledge, and that asking changes nothing |
| `Gate.LockedReplies` | crates/mcporb-runtime/src/mcp_handler.rs:117-210 | What a locked one answers: it lists the unlocking tools only and refuses whatever reads the knowledge |
| `Gate.JoinedTextConcat` | crates/mcporb-runtime/src/mcp_handler.rs:446-452 | The texts come in chunk order |
| `Gate.OtherChunksAddNothing` | crates/mcporb-runtime/src/mcp_handler.rs:446-452 | Chunks of other documents add nothing |
| `Lexicon.CountOne` | crates/mcporb-runtime-core/src/bm25.rs:28-35 | Numbering and counting one token keeps the vocabulary a bijection and the counts exact |
| `Lexicon.CountChunk` | crates/mcporb-runtime-core/src/tfidf.rs:12-29 | One chunk's term counts are exact, and each of its terms gains one document |
| `Lexicon.DocFreqBounds` | crates/mcporb-runtime-core/src/tfidf.rs:33-36 | A term's document frequency is at most the number of chunks, and positive exactly for occurring terms |
| `Lexicon.VocabSize` | crates/mcporb-runtime-core/src/bm25.rs:46 | The vocabulary is a bijection onto 0..n, n its size |
| `Bm25.BuildIndex` | crates/mcporb-runtime-core/src/bm25.rs:17-60 | The index holds the exact lengths, average, vocabulary and posting lists of its texts, whatever the hash order |
| `Bm25.Post` | crates/mcporb-runtime-core/src/bm25.rs:46-51 | One chunk enters each of its terms' lists once with its exact count |
| `Bm25.PostingsOfPosts` | crates/mcporb-runtime-core/src/bm25.rs:46-51 | A posting list names each chunk with the term once, with its count, and no other |
| `Bm25.Search` | crates/mcporb-runtime-core/src/bm25.rs:62-98 | The answer is a top k of the directly computed scores of exactly the chunks sharing a token with the query |
| `Bm25.ScoreBounds` | crates/mcporb-runtime-core/src/bm25.rs:78-85 | Every such score is positive and below (K1 + 1) times the summed idf of the query's known tokens |
| `Bm25.TfNormExactly` | crates/mcporb-runtime-core/src/bm25.rs:83-85 | The norm of a count with k1 = 1.5 and b = 0.75, an average below one taken as one; one occurrence at average length counts once |
| `Bm25.TokensConserved` | crates/mcporb-runtime-core/src/bm25.rs:23-51 | The counts in all posting lists add up to the summed document lengths |
| `TfIdf.BuildIndex` | crates/mcporb-runtime-core/src/tfidf.rs:6-60 | The index holds a bijective vocabulary, every term's idf and each chunk's unit vector, ascending by term |
| `TfIdf.FillIdf` | crates/mcporb-runtime-core/src/tfidf.rs:31-36 | Each idf is the one of the texts, whatever the order the table is filled in |
| `TfIdf.Normalize` | crates/mcporb-runtime-core/src/tfidf.rs:116-128 | Division in place leaves the entries of the unit vector |
| `TfIdf.BuildQueryVector` | crates/mcporb-runtime-core/src/tfidf.rs:97-114 | The query's unit vector over the vocabulary, unknown tokens ignored |
| `TfIdf.ScoreChunk` | crates/mcporb-runtime-core/src/tfidf.rs:75-81 | The scoring loop is the sparse dot product |
| `TfIdf.ChunkScore` | crates/mcporb-runtime-core/src/tfidf.rs:72-85 | That is the cosine of the raw vectors, positive exactly if chunk and query share a token |
| `TfIdf.Search` | crates/mcporb-runtime-core/src/tfidf.rs:62-95 | The answer is the unique top k by cosine, ties by chunk id, of exactly the chunks sharing a token with the query |
| `TfIdf.ScanChunk` | crates/mcporb-runtime-core/src/tfidf.rs:75-85 | The scan collects exactly the positive scores, in chunk order |
| `TfIdf.WeightPositive` | crates/mcporb-runtime-core/src/tfidf.rs:44 | A weight is positive exactly for tokens that occur |
| `TfIdf.WeightOfCount` | crates/mcporb-runtime-core/src/tfidf.rs:44 | A token that occurs once weighs its idf, and more often that much more by the logarithm of the count |
| `TfIdf.IndexVectorsAreUnit` | crates/mcporb-runtime-core/src/tfidf.rs:48-50 | Every non-empty chunk's vector has length one, all weights positive |
| `TfIdf.ScoreRange` | crates/mcporb-runtime-core/src/tfidf.rs:72-85 | Every score is in (0, 1] |
| `Vectors.SparseDotIsDot` | crates/mcporb-runtime-core/src/tfidf.rs:76-81 | Summing over entries in any order is the dense dot product |
| `Vectors.TwiceDotBound` | crates/mcporb-runtime-core/src/tfidf.rs:76-81 | The Cauchy-Schwarz bound for unit vectors |
| `Trigram.BuildIndex` | crates/mcporb-runtime-core/src/trigram.rs:5-51 | The vocabulary is exactly the trigrams frequent enough, lists and counts are exact, whatever the hash order |
| `Trigram.TrigramIff` | crates/mcporb-runtime-core/src/trigram.rs:93-103 | The trigrams of a text are its stretches of three characters |
| `Trigram.Search` | crates/mcporb-runtime-core/src/trigram.rs:53-91 | The answer is a top k of the Jaccard similarities of query and chunk restricted to the vocabulary, over exactly the chunks that meet the query |
| `Trigram.Intersect` | crates/mcporb-runtime-core/src/trigram.rs:60-67 | The counted intersections are the sizes of the set intersections |
| `Trigram.ScoreIsJaccard` | crates/mcporb-runtime-core/src/trigram.rs:71-78 | Intersection over counts is intersection over union, by inclusion and exclusion |
| `Trigram.ExactWhenAllKept` | crates/mcporb-runtime-core/src/trigram.rs:18-25 | With min_df at most 1 the scores are Jaccard similarities of the full trigram sets |
| `Trigram.JaccardRange` | crates/mcporb-runtime-core/src/trigram.rs:71-78 | A score is in (0, 1], and 1 only for equal sets |
| `Trigram.OwnTextScoresBest` | crates/mcporb-runtime-core/src/trigram.rs:53-103 | A chunk searched by its own text scores 1, which nothing exceeds |
| `Trigram.PostingsAscend` | crates/mcporb-runtime-core/src/trigram.rs:41-43 | The lists are ascending without repeats, so the final sort leaves them |
| `Ranking.SortedPrefixIsTopK` | crates/mcporb-runtime-core/src/bm25.rs:89-97 | Sorting any enumeration of a score table and truncating gives a top k |
| `Ranking.TopKUnique` | crates/mcporb-runtime-core/src/search.rs:90-98 | Under (score descending, id ascending) there is only one top k |
| `Ranking.BestFirst` | crates/mcporb-runtime-core/src/search.rs:90-98 | No hit scores less than a later one or than what is left out; in the finer order the smaller id goes first |
| `Ranking.StableSortBreaksTiesById` | crates/mcporb-runtime-core/src/tfidf.rs:87-94 | A stable sort by score of hits in chunk order breaks ties by chunk id |
| `Ranking.NothingLeftOut` | crates/mcporb-runtime-core/src/bm25.rs:96 | A top k with room for all lists every scored chunk |
| `Ranking.Collect` | crates/mcporb-runtime-core/src/search.rs:81-88 | Reading a table out in any order lists each id once with its score |
| `Fusion.RrfFuse` | crates/mcporb-runtime-core/src/search.rs:70-99 | The fused list is the unique top k of the summed reciprocal ranks |
| `Fusion.ContributionOfRank` | crates/mcporb-runtime-core/src/search.rs:71-79 | The first place of a list is worth 1/61, the next 1/62, and so on |
| `Fusion.FusionDependsOnContentsOnly` | crates/mcporb-runtime-core/src/search.rs:70-99 | Reordering the lists, or the score table, never changes the result |
| `Fusion.FusionKeepsUnanimousOrder` | crates/mcporb-runtime-core/src/search.rs:74-79 | A chunk ahead of another wherever the other occurs is ahead in the result |
| `Fusion.FusedScoreBound` | crates/mcporb-runtime-core/src/search.rs:71-79 | No fused score exceeds (number of lists)/61, and every listed id's is positive |
| `SearchRuntime.RunAuto` | crates/mcporb-runtime-core/src/runtime.rs:213-257 | Fuses one top k per available ranker, each in its own order, dense skipped without a query vector, a single list taken as it stands; fails exactly on a dimension mismatch |
| `SearchRuntime.RunHybrid` | crates/mcporb-runtime-core/src/runtime.rs:307-339 | Fuses all rankers, each in its own order; each of its three errors exactly in its case |
| `SearchRuntime.RunDense` | crates/mcporb-runtime-core/src/runtime.rs:430-487 | The unique top k of the dot products with the normalised query, or exactly the error of the first failing check |
| `SearchRuntime.SearchFlat` | crates/mcporb-runtime-core/src/vector.rs:43-61 | All rows ranked by dot product, ties by id |
| `SearchRuntime.Search` | crates/mcporb-runtime-core/src/runtime.rs:202-211 | There is an answer exactly when the method's needs are met, else exactly the error of the first unmet one; Auto and Hybrid answer the fusion of one ranked list per ranker, each other method the top k of its own table in its own order; always at most top_k distinct in-range ids |
| `SearchRuntime.TablesAre` | crates/mcporb-runtime-core/src/runtime.rs:307-335 | The rankers in the order they run, and which of them break ties by id |
| `SearchDeterminism.FusedMissesNothing` | crates/mcporb-runtime-core/src/runtime.rs:213-257 | With room for all chunks, a fused answer lists exactly the chunks some ranker scores |
| `SearchDeterminism.OneRankingIff` | crates/mcporb-runtime-core/src/bm25.rs:89-97 | A ranker has one answer whatever the hash order if and only if it breaks ties by id or chunks that tie have k better ones |
| `SearchDeterminism.AloneOneAnswerIff` | crates/mcporb-runtime-core/src/runtime.rs:245-249 | So has automatic search with that ranker alone |
| `SearchDeterminism.SettledHaveOneAnswer` | crates/mcporb-runtime-core/src/runtime.rs:213-257 | If every ranker that leaves ties to hash order is settled, the fused answer is one |
| `SearchDeterminism.OneAnswerIff` | crates/mcporb-runtime-core/src/runtime.rs:307-339 | With room for all chunks there is one fused answer if and only if those rankers have no ties |
| `FusedAnswers.FusedScoreRange` | crates/mcporb-runtime-core/src/search.rs:73-79 | Whatever the hash order, a chunk scores between its least and its most |
| `FusedAnswers.ExtremeRankings` | crates/mcporb-runtime-core/src/search.rs:73-79 | Both ends are reached by some order |
| `FusedAnswers.OnlyAnswerIff` | crates/mcporb-runtime-core/src/runtime.rs:307-339 | A fused answer is the only one if and only if the scores of its hits are fixed and no other chunk can score enough to get in |
| `FusedAnswers.OneFusedAnswerIff` | crates/mcporb-runtime-core/src/runtime.rs:307-339 | From the tables alone: there is one fused answer if and only if every chunk that fewer than k others outrank for sure scores the same in every order |
| `SearchDeterminism.TwinsTie` | crates/mcporb-runtime-core/src/bm25.rs:78-97 | Chunks with the same text tie in every lexical table, or are in none |
| `SearchDeterminism.TwoAnswers` | crates/mcporb-runtime-core/src/runtime.rs:213-257 | Indexes built from two such chunks and a query allow two different fused answers |
| `Registry.MoveOneEffect` | crates/mcporb-runtime-app-core/src/registry.rs:147-159 | Clearing and moving one file touches only its two paths; a failure leaves the source, a success moves the bytes |
| `Registry.MoveOneIff` | crates/mcporb-runtime-app-core/src/registry.rs:147-159 | A file is moved exactly if it is there, its place can be cleared, and it can be renamed or copied and removed |
| `Registry.FailedMoveLeaves` | crates/mcporb-runtime-app-core/src/registry.rs:347-358 | What a move that fails leaves at its destination, case by case |
| `Registry.UnderIff` | crates/mcporb-runtime-app-core/src/registry.rs:125-128 | A path is under a directory exactly if it continues it component by component |
| `Registry.RemovedDirsAre` | crates/mcporb-runtime-app-core/src/registry.rs:183-185 | Of the old directories those that are empty go, and no other |
| `Registry.MoveAllFrame` | crates/mcporb-runtime-app-core/src/registry.rs:145-172 | The loop changes nothing but targets and their destinations |
| `Registry.MoveAllDistinct` | crates/mcporb-runtime-app-core/src/registry.rs:145-172 | A run of moves that succeeds moved no path twice |
| `Registry.MoveAllArrives` | crates/mcporb-runtime-app-core/src/registry.rs:145-172 | Each destination holds what its source held |
| `Registry.MigrationKeepsIff` | crates/mcporb-runtime-app-core/src/registry.rs:124-187 | A successful migration keeps every entry's bytes if and only if entries that end up at one path held the same |
| `Registry.MigratedEntries` | crates/mcporb-runtime-app-core/src/registry.rs:174-180 | Migrated entries lie directly under the new directory and are gone from the old, all others are as they were |
| `RegistrySafety.MigrationClearsOldDir` | crates/mcporb-runtime-app-core/src/registry.rs:183-185 | A successful migration removes an old directory that held nothing but what it moved, and leaves one that held more |
| `RegistryRollback.RollBackRestores` | crates/mcporb-runtime-app-core/src/registry.rs:163-165 | Undoing in reverse brings a file back exactly if its own rename works, provided no other file went where it went |
| `RegistryRollback.FailureRestoresIff` | crates/mcporb-runtime-app-core/src/registry.rs:160-171 | After a failed migration the registry is unchanged, and an entry that clashes with none holds what it held unless its file was moved and its own undo failed; then its path is empty |
| `RegistryRollback.FailureSafeIff` | crates/mcporb-runtime-app-core/src/registry.rs:145-172 | Every failure with working undos keeps every entry if and only if no two files within reach go to one place and no entry lies where one goes |
| `RegistryRollback.MigrationSafeIff` | crates/mcporb-runtime-app-core/src/registry.rs:145-172 | Every failure, failing undos included, keeps every entry if and only if nothing clashes and no run can fail after a move |
| `RegistryRollback.StopsAtReach` | crates/mcporb-runtime-app-core/src/registry.rs:151-154 | A destination that is a directory stops the run without a trace, so later targets do not matter |
| `RegistryRollback.ClashIsUnsafe` | crates/mcporb-runtime-app-core/src/registry.rs:151-165 | Every clash has a failing run that loses an entry although every undo would work |
| `RegistryRuns.UpsertKeeps` | crates/mcporb-runtime-app-core/src/registry.rs:317-330 | The entry replaces the one with its hash or joins a list then sorted by display name; all others stay, hashes stay distinct |
| `RegistryRuns.NameLeqIff` | crates/mcporb-runtime-app-core/src/registry.rs:329 | The order by display name is lexicographic |
| `RegistryRuns.DeleteExactly` | crates/mcporb-runtime-app-core/src/registry.rs:192-216 | A successful deletion drops exactly the entries under the directories with their files; a failed one keeps the list |
| `RegistryRuns.RemoveExactly` | crates/mcporb-runtime-app-core/src/registry.rs:244-258 | A removal takes out one entry with the id and its file and nothing else, or fails and changes nothing |
| `RegistryRuns.ImportExactly` | crates/mcporb-runtime-app-core/src/registry.rs:260-297 | An import adds or replaces exactly the entry of the source's bytes and writes at most the stored file, or fails and leaves the list |
| `RegistryTheorems.HashNamesDoNotClash` | crates/mcporb-runtime-app-core/src/zip_import.rs:272-279 | Files named by distinct hashes never clash in a migration, however far it gets |
| `RegistryTheorems.ImportKeepsIff` | crates/mcporb-runtime-app-core/src/registry.rs:260-297 | From a sound registry every import, copying or not, leaves all registered paths right if and only if it is safe; it empties none and registers its ZIP when it succeeds |
| `RegistryTheorems.ImportedEntry` | crates/mcporb-runtime-app-core/src/registry.rs:268-291 | After an import one entry has the hash of the source's bytes; its id is the first 16 characters of the hash, its slug and display name are the manifest's, its file is named by the hash |
| `RegistryTheorems.ImportThenRemove` | crates/mcporb-runtime-app-core/src/registry.rs:244-291 | Removing by that id undoes the import: that entry goes with its file, unless another Orb has the id, and all others stay |
| `RegistryTheorems.SelfImportEmptiesIt` | crates/mcporb-runtime-app-core/src/registry.rs:262-266 | Importing a stored ZIP from where it lies reports success and leaves it empty |
| `RegistryTheorems.RemoveKeeps` | crates/mcporb-runtime-app-core/src/registry.rs:244-258 | Removal keeps all other entries right and leaves neither file nor entry |
| `RegistryTheorems.DeleteKeeps` | crates/mcporb-runtime-app-core/src/registry.rs:192-216 | Deletion, failed or not, leaves no entry with wrong bytes, and none without bytes exactly if it succeeds or fails at the first file |
| `RegistryTheorems.MigrateKeeps` | crates/mcporb-runtime-app-core/src/registry.rs:124-187 | Migration of hash-named files leaves no entry with wrong bytes, and loses none exactly if it succeeds or its undos work |
| `RegistryTheorems.StepKeepsIff` | crates/mcporb-runtime-app-core/src/registry.rs:118-297 | Any operation with any faults leaves all registered paths right if and only if it is careful, and then filled if and only if it is gentle |
| `RegistryTheorems.RunIsSoundIff` | crates/mcporb-runtime-app-core/src/registry.rs:118-297 | Over every run with arbitrary faults registered paths always hold the bytes their hash names or nothing, if and only if every step is careful |
| `RegistryTheorems.RunIsWholeIff` | crates/mcporb-runtime-app-core/src/registry.rs:118-297 | And they always hold those bytes if and only if every step is gentle as well |
| `RegistryTheorems.SameNameLosesOne` | crates/mcporb-runtime-app-core/src/registry.rs:148-154 | Two files of one name in two directories: the migration succeeds and loses one |
| `RegistryTheorems.RegisteredTwiceLosesIt` | crates/mcporb-runtime-app-core/src/registry.rs:151-165 | One path registered twice: the migration fails and the file is gone |
| `RegistryTheorems.BrokenReimportKeepsIff` | crates/mcporb-runtime-app-core/src/zip_import.rs:275-277 | A copy that breaks off over a stored file leaves it right only if the part has the same hash |
| `RegistryTheorems.FailedDeletionKeepsIff` | crates/mcporb-runtime-app-core/src/registry.rs:201-206 | A failed deletion keeps every entry's file if and only if it failed at the first |
| `RegistrySafety.DeletionSafeIff` | crates/mcporb-runtime-app-core/src/registry.rs:192-216 | Every failure of a library deletion keeps every entry's file if and only if at most one file is to be deleted |
| `RegistrySafety.UnsavedMigrationKeepsIff` | crates/mcporb-runtime-app-core/src/registry.rs:145-181 | If the list cannot be saved after the moves, the old entries keep their files if and only if there was nothing to move |
| `RegistrySafety.UnsavedDeletionKeepsIff` | crates/mcporb-runtime-app-core/src/registry.rs:201-210 | If it cannot be saved after a deletion, they do if and only if there was no file to delete |
| `RegistrySafety.UnsavedRemovalKeepsIff` | crates/mcporb-runtime-app-core/src/registry.rs:251-256 | The same of a removal |
| `RegistrySafety.UnsavedImportKeepsIff` | crates/mcporb-runtime-app-core/src/registry.rs:260-291 | If it cannot be saved after an import, they do unless the copy went over one of them with other bytes |
| `RegistrySafety.KeepsWholeIff` | crates/mcporb-runtime-app-core/src/registry.rs:118-297 | A call keeps every registered ZIP whatever goes wrong in it, if and only if a condition on the state before it holds |
| `RegistrySafety.WholeWhateverIff` | crates/mcporb-runtime-app-core/src/registry.rs:118-297 | Over every sequence of calls and all faults every registered ZIP is always there and right, if and only if each call is safe when it is made |
| `RegistryStores.RegistryStore.MigrateOrbs` | crates/mcporb-runtime-app-core/src/registry.rs:124-187 | The loops of the method give the disk, list and result of the migration function |
| `RegistryStores.RegistryStore.MoveFiles` | crates/mcporb-runtime-app-core/src/registry.rs:145-172 | The moving loop gives the disk and count of the moves |
| `RegistryStores.RegistryStore.UndoMoves` | crates/mcporb-runtime-app-core/src/registry.rs:163-165 | The reverse loop gives the rolled-back disk |
| `RegistryStores.RegistryStore.RewritePaths` | crates/mcporb-runtime-app-core/src/registry.rs:174-180 | The nested loop rewrites all moved entries at once |
| `RegistryStores.RegistryStore.DeleteOrbs` | crates/mcporb-runtime-app-core/src/registry.rs:192-216 | The method gives disk, list and result of the deletion function |
| `RegistryStores.RegistryStore.RemoveOrb` | crates/mcporb-runtime-app-core/src/registry.rs:244-258 | The method gives disk, list and result of the removal function |
| `RegistryStores.RegistryStore.ImportZip` | crates/mcporb-runtime-app-core/src/registry.rs:260-297 | The method gives disk, list and result of the import function |
| `RegistryStores.RegistryStore.SetOrbsDir` | crates/mcporb-runtime-app-core/src/registry.rs:99-110 | Later imports go to the directory set |
| `Base64Url.Base64UrlEncode` | crates/mcporb-runtime/src/web_server.rs:27-47 | The loop computes the encoding |
| `Base64Url.RoundTrip` | crates/mcporb-runtime/src/web_server.rs:27-47 | A reference decoder gives every byte string back, so the encoder is injective |
| `Base64Url.DecodesIff` | crates/mcporb-runtime/src/web_server.rs:27-47 | The strict decoder accepts exactly the encodings |
| `Base64Url.EncodingShape` | crates/mcporb-runtime/src/web_server.rs:28-43 | Only the 64 url-safe characters, length ceil(4n/3) |
| `BundleFrame.AppendReadsBack` | crates/mcporb-runtime/src/main.rs:863-871 | What was appended is found again and is exactly the bundle |
| `BundleFrame.TrailerSpells` | crates/mcporb-runtime/src/main.rs:34 | The trailer begins with the sixteen letters of the magic word |
| `BundleFrame.RefusedFor` | crates/mcporb-runtime/src/main.rs:563-578 | Which of the three checks refuses a trailer |
| `BundleFrame.AcceptedIffAppended` | crates/mcporb-runtime/src/main.rs:534-581 | A trailer is accepted if and only if the file is its front, the bundle and the trailer appended to them |
| `BundleFrame.AcceptedEndsAtTrailer` | crates/mcporb-runtime/src/main.rs:563-578 | For every 64-bit file length, wrap-around included, the checks hold exactly for bytes that end right before the trailer |
| `BundleFrame.SumStaysInRangeIff` | crates/mcporb-runtime/src/main.rs:563-578 | The sum cannot overflow if and only if the file is shorter than 2^63 bytes |
| `BundleFrame.ByteStream.ReadAppendedFooter` | crates/mcporb-runtime/src/main.rs:534-581 | Seeking and reading the last 32 bytes decides as the function does |
| `BundleFrame.ByteStream.ReadAppendedBundle` | crates/mcporb-runtime/src/main.rs:583-595 | Delivers exactly the designated bytes, or fails if the file ends before them, wherever the offset lies |
| `BundleFrame.ByteStream.ReadFrame` | crates/mcporb-runtime/src/main.rs:152-165 | Delivers exactly the framed ZIP and stops right behind it |
| `BundleFrame.FrameReadsBack` | crates/mcporb-gateway-core/src/runtime_manager.rs:578-585 | The child gets exactly the ZIP, and the requests behind it stay in the stream |
| `ToolNames.MakeSlug` | crates/mcporb-runtime-app-core/src/registry.rs:332-345 | The loop over characters and the trim compute the slug |
| `ToolNames.Characters` | crates/mcporb-runtime-app-core/src/registry.rs:335-339 | The characters a slug keeps are the ASCII letters and digits, a capital as its small letter |
| `ToolNames.SlugifyIsSlug` | crates/mcporb-runtime-app-core/src/registry.rs:332-345 | Only a-z, 0-9 and single inner dashes |
| `ToolNames.SlugifyFixes` | crates/mcporb-runtime-app-core/src/registry.rs:332-345 | Slugs are exactly the fixed points, so slugify is idempotent |
| `ToolNames.SlugifyJoins` | crates/mcporb-runtime-app-core/src/registry.rs:335-343 | Any other character splits a name: the slug is the two slugs joined by one dash, if both are there |
| `ToolNames.SlugifyWord` | crates/mcporb-runtime-app-core/src/registry.rs:336-338 | A name of letters and digits is its own slug in lower case |
| `ToolNames.SlugEmptyIff` | crates/mcporb-runtime-app-core/src/registry.rs:332-345 | The slug is empty exactly if the name has no ASCII letter or digit |
| `ToolNames.RoutesBackIff` | crates/mcporb-gateway-core/src/router.rs:26-32 | A built name parses to exactly its parts if and only if both are non-empty and the slug holds or starts no separator |
| `ToolNames.AdvertisedToolRoutesBackIff` | crates/mcporb-gateway-core/src/registry_reader.rs:124-136 | The advertised name has at most 64 characters, and routes back if and only if the Orb's name has a letter or digit |
| `ToolNames.McpSlugsCollideIff` | crates/mcporb-gateway-core/src/registry_reader.rs:124-132 | Two slugs collide exactly if equal or both at least 46 long with the same first 46 characters |
| `ResourceUri.SplitIff` | crates/mcporb-gateway-core/src/router.rs:47-55 | A URI splits into a slug and a remainder exactly if it is scheme, non-empty slash-free slug, and a remainder that starts with a slash |
| `ResourceUri.NativeRoundTripIff` | crates/mcporb-gateway-core/src/router.rs:86-109 | Native to namespaced and back is the identity, naming the slug, if and only if slug and path are plain |
| `ResourceUri.NamespacedRoundTripIff` | crates/mcporb-gateway-core/src/router.rs:86-109 | Namespaced to native and back is the identity if and only if one slash and a plain path follow the slug |

## Left out

- GatewayTheorems.ReplyReachesIff: says which answer reaches a caller, not that one comes; senders dropped when a reader task ends are not modelled.
- GatewayTheorems.IdsConserved: ids are unbounded numbers, so the wrap-around of a 64-bit counter is not modelled.
- RuntimeManagement.RuntimeManager.ReapIdle: the loop around the reaper, its sleep and its refresh are the interleaving of reap, refresh and clock steps, not a loop of their own.
- UnlockTheorems.UnlockIsSafe: the crypto functions are arbitrary but deterministic; that a wrong key fails to decrypt is a hypothesis only where it is needed, about the one packaged payload.
- UnlockCalls.FailuresCounted: the delays derived from the failure count are not modelled.
- Bm25.Search: exact real arithmetic instead of 32-bit floats, as in all scores; rounding, infinities and NaN are not modelled.
- Bm25.BuildIndex: the tokenizer is arbitrary, so texts are token sequences; Unicode words and lower-casing are not modelled, nor is 32-bit truncation of chunk ids and counts.
- SearchRuntime.Search: the approximate nearest-neighbour ranker, traces, method labels of hits and feature flags are not modelled; a flat dense store is taken as its rows.
- RegistryTheorems.RunIsSoundIff: a registry file that cannot be read, or of which only part is written, and symbolic links are not modelled; a save that fails is, beside the runs.
- RegistryTheorems.ImportKeepsIff: ZIP validation and hashing are arbitrary functions; a hash is taken to have 64 characters. Copying a file onto itself is taken to truncate it, as the library's documentation warns.
- RegistryRollback.FailureSafeIff: a directory that cannot be created for another reason than a file in its way is not modelled; like the modelled case it would stop the migration before any move.
- Base64Url.Base64UrlEncode: shifts, masks and ors of bytes are written as the arithmetic they compute.
- ToolNames.AdvertisedToolRoutesBackIff: covers the search tool, the longest method name, and counts characters, which for slugs are bytes.
- BundleFrame.ByteStream.ReadFrame: a length too large for the platform's memory is not modelled.
- Metrics, question history, settings, platform configuration files, the web pages and the HTTP transports, because they would add only easy members.
- The watcher of the registry directory, standard-error capture and the launching command line of a child.
- The embedder, model downloads, the store client and the user interface.
- The fallback chain that finds an Orb's assets (embedded segment, appended bundle, sidecar, directory) beyond the appended bundle.
