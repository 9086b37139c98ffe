# pevo-pinner, verified models

A Dafny 4.11 model of the stateful parts of `pevo-pinner`, a daemon that discovers CIDs on a
chain, pins their content on an embedded IPFS node and serves it. `dafny verify dfyconfig.toml`
checks the project.

Concurrent code is a step system: a `State`, an `Event` per source operation, `Enabled` and
`Apply`, and results about every state of every run (`Reachable`, or a `Run`/`Steps` from an
arbitrary state). Code that updates an object is a class whose methods are proved against a
specification function, and the results are lemmas about that function.

| file | what it models |
|---|---|
| `DrainGate.dfy`, `DrainProtocol.dfy`, `DrainOutcomes.dfy` | `Pin`, `Drain` and `Close`: the lock sections as methods, all their interleavings, with the check of `done` and the WaitGroup `Add` as separate steps, and what each call did in a run |
| `AutoPinAdmission.dfy`, `AutoPinPool.dfy`, `AutoPinOutcomes.dfy` | the per-author cap, any number of concurrent `Run` calls on one semaphore, and their reports |
| `CarImport.dfy`, `FallbackChain.dfy` | the CAR import under a byte cap with its reused batch buffer, gateway URL keys, the gateway list and the walk over it |
| `AtomicFile.dfy`, `SharedTmp.dfy`, `WriteOutcomes.dfy` | tmp, fsync and rename with a crash anywhere: one call, any number of calls at once through their own descriptors on one shared `.tmp`, and what each returns |
| `PinSet.dfy`, `PinLifecycle.dfy`, `PinOutcomes.dfy`, `PinDurability.dfy`, `GatewayGuard.dfy` | the pin set and its file; fetch, mark, overlapping saves, crash, load, unpin and serving together; what gets pinned, and when it is there for good |
| `MeshCache.dfy`, `MeshLifetime.dfy` | the heartbeat cache as a function of the whole heartbeat trace, and its goroutines against `Stop` |
| `Cids.dfy`, `Discovery.dfy`, `AutoPinRules.dfy` | CID shape, body scan and row extraction; the rule store and its file |
| `Durations.dfy` | the countdown printed by the server, parsed and reprinted by the client |
| `Basics.dfy`, `Sums.dfy`, `Selection.dfy`, `FirstUse.dfy` | shared vocabulary: sums over a map, what it means to keep part of a list, first occurrence per key |

Facts the proofs bring out, where the code and its comments or documentation differ or where a
promise has a condition:

- `Close` alone does not stop new Pins, but at most one more can join, and one can exactly when
  a Pin is between its check and its `Add` (`CloseAdmitsOnlyACheckedPin`).
- `atomicWriteFile` promises that no partial file appears at the canonical path, and `savePins`
  runs outside any lock. The promise depends on when a call opens `.tmp`: the file stays whole
  in every continuation if and only if no other call is between its open and its rename at
  that moment (`OpenIsSafeIff`, and for `pins.json` `PinFileStaysReadableIff`). Two saves are
  enough to break it (`SavesDoOverlap`), and then a crash can leave the node without its pins
  (`OverlapCanLoseThePinSet`). However saves overlap, the pin set in memory and what is served
  stay sound (`MemoryIsComplete`, `PassedRequestIsServed`), and the next save that opens alone
  repairs the file (`NextSoleSaveHeals`).
- A Pin that returned nil, with its save renamed and on disk, can still be forgotten at the next
  start: snapshots are taken under the lock and written outside it, so one from before the
  Pin may be written last. It is kept for good if and only if no save is pending whose
  snapshot lacks it (`SavedPinStaysIff`, `MarkedPinSurvives`; `StaleSaveArises` shows that it
  can happen).
- `normalizeFallbackURL` is commented as collapsing default ports. It does not: exactly the
  texts of `SameKeyIff` share a key, and a default port is not among the differences it
  ignores, so both stay in the list (`DefaultPortIsKept`).
- The gateway list is free of duplicates when mesh peers are known; otherwise the configured
  list comes back untouched, duplicates included (`ChainIsCleanIff`,
  `ConfiguredDefaultIsAskedTwice`).
- The repository's README promises `/ipfs/<cid>` matches in a post body. The pattern also wants
  a closing slash and consumes it. All links are found if and only if a slash follows each of
  them and no two share one (`AllLinksReportedIff`): a link at the end of a body is missed
  (`LinkAtEndMissed`), and so is the second of two back to back (`BackToBackMissed`).
- `DeleteRule` and `SetAllEnabled` do not roll back: `BreaksAgreementIff` says exactly which
  failed saves leave memory and file apart (`DeletedRuleIsStillOnDisk` is one).

## Model

| member | source | states |
|---|---|---|
| DrainGate.DrainZone.Enter | ipfsnode.go:278-290 | after `done` is closed a Pin is refused and nothing changes; before, it is counted and registered under a fresh id in one section |
| DrainGate.DrainZone.Leave | ipfsnode.go:291-297 | the deferred cleanup unregisters exactly this Pin, cancels it and gives its count back |
| DrainGate.DrainZone.SignalDone | ipfsnode.go:477-482 | closing is idempotent and touches nothing else |
| DrainGate.DrainZone.ForceCancel | ipfsnode.go:402-407 | every registered cancel function is called whatever the map order, none is unregistered, and the reported number is the number registered |
| DrainProtocol.StepInv | ipfsnode.go:274-443 | the protocol invariant (lock, count, cancels, gate, force-cancel) survives every step of every call |
| DrainProtocol.StepForced | ipfsnode.go:401-407 | at the end of the force-cancel section each counted Pin is cancelled or past its own cleanup, because nobody else can hold the lock |
| DrainProtocol.GateIsFinal | ipfsnode.go:386-400 | once any Drain has left its locked section no Pin ever adds to the WaitGroup again, in any continuation, so no Add follows a Wait |
| DrainProtocol.DrainNilIsQuiet | ipfsnode.go:397-400 | after Drain returned nil, then and forever no Pin is in flight, nothing is registered and the pin set only shrinks |
| DrainProtocol.ForceCancelReachesAll | ipfsnode.go:401-421 | after the force-cancel section, then and forever, a Pin still counted is cancelled or has unregistered itself |
| DrainProtocol.CancelsAreRegisteredPins | ipfsnode.go:285-297 | `cancels` is exactly the registered Pins under their own ids, ids are at most `nextPinID`, and its size is at most the WaitGroup count |
| DrainProtocol.CloseAdmitsOnlyACheckedPin | ipfsnode.go:426-429 | with `done` closed at most one Pin can still join, and one can if and only if some Pin is between check and Add |
| DrainProtocol.CloseCanBeOvertaken | ipfsnode.go:278-285 | such a state is reachable with Close alone |
| DrainOutcomes.PinFollowsItsProgram | ipfsnode.go:274-340 | in every interleaving a Pin's own steps are those of the source in order: refused at a closed gate, otherwise check, Add, register, body, delete, cancel, Done |
| DrainOutcomes.DrainFollowsItsProgram | ipfsnode.go:386-421 | and a Drain's: nil from its wait, or the deadline, the force-cancel section and the error |
| DrainOutcomes.DrainReturnsNilIff | ipfsnode.go:397-421 | a Drain that has returned, returned nil if and only if its deadline never fired |
| DrainOutcomes.DrainCanReturnNil | ipfsnode.go:397-400 | a state with a Drain returned nil is reachable |
| DrainOutcomes.GateClosedIff | ipfsnode.go:477-482 | the channel is closed exactly by a Drain or a Close that ran |
| DrainOutcomes.RefusedIff | ipfsnode.go:278-284 | a Pin is refused only during shutdown, and then was never counted and pinned nothing |
| DrainOutcomes.CancelledOnlyByCleanupOrDeadline | ipfsnode.go:291-297 | no Pin is cancelled before a deadline fires except by its own cleanup, which always does it |
| DrainOutcomes.PinnedIff | ipfsnode.go:342-361 | over any run the pin set is exactly what was marked last, or kept from before, and not unpinned since |
| DrainProtocol.NoDeadlock | ipfsnode.go:274-443 | while a Pin or Drain has not returned, some call already begun can take a step, even if no deadline ever fires |
| DrainProtocol.CallsReturn | ipfsnode.go:386-421 | the calls begun make a bounded number of further steps in any order, and when none is left but a deadline that never fires, every Pin and Drain has returned |
| AutoPinAdmission.AutoPinRunner.constructor | autopin_runner.go:41-54 | non-positive concurrency and cap become 1, others are kept |
| AutoPinAdmission.AutoPinRunner.Admit | autopin_runner.go:66-96 | the loop over its mutable counters queues exactly the items with fewer than cap earlier items of their author, and Shed is the total excess over authors |
| AutoPinAdmission.AdmittedSelects | autopin_runner.go:66-77 | what is queued is the batch in its order without the items that have cap or more earlier ones of their author |
| AutoPinAdmission.AdmittedPerAuthor | autopin_runner.go:56-59 | what an author gets is the first cap of that author's own items, whatever others send |
| AutoPinAdmission.ShedClosedForm | autopin_runner.go:92-96 | queued plus the sum over authors of max(0, count - cap) is the number matched |
| AutoPinAdmission.Total | autopin_runner.go:92-95 | adding up the map gives the same total in every iteration order |
| AutoPinPool.StepInv | autopin_runner.go:105-146 | tokens, per-Run WaitGroups and counters equal the goroutines they count, after every step of every interleaving |
| AutoPinPool.PinsAreBounded | autopin_runner.go:52-117 | tokens out equal the goroutines between acquire and release, and Pin calls in progress over all Runs never exceed `concurrency` |
| AutoPinPool.ReturnedRunAccounts | autopin_runner.go:146-151 | a Run returns only when all its goroutines are over and their tokens back; its outcomes add up to the scheduled prefix of its queue, the whole queue unless its context was cancelled |
| AutoPinPool.ProbeDecides | autopin_runner.go:118-144 | Pin is attempted for an item exactly when IsPinned answered no; an error or a yes ends it without a Pin call under its own heading |
| AutoPinOutcomes.AnswersDecide | autopin_runner.go:118-144 | an item ends as pinned exactly when Pin returned no error for it, as failed exactly when it returned one, and under the two probe headings exactly when the probe said so |
| AutoPinOutcomes.ReportIsTheAnswers | autopin_runner.go:102-151 | Pinned, Failed and IsPinnedErrors of a Run are the numbers of those answers to its goroutines; with the already pinned ones they make up what was scheduled, all of its queue unless its own context was cancelled |
| AutoPinPool.ReportAgainstMatched | autopin_runner.go:96-151 | the reported outcomes are at most Matched - Shed, with equality unless the context was cancelled |
| AutoPinPool.SemaphoreComesBackEmpty | autopin_runner.go:116 | no token is out once every Run has returned |
| AutoPinPool.StepWork | autopin_runner.go:105-146 | a measure over all Runs and goroutines drops on every step |
| AutoPinPool.AllRunsReturn | autopin_runner.go:60-66 | every execution is bounded by the initial work, and one that cannot go on has all Runs returned and the semaphore empty |
| AutoPinPool.NoTokensNoProgress | autopin_runner.go:38-44 | with no token at all only cancellation could move such a Run |
| CarImport.CountingReader.Read | ipfsnode_fetch.go:190-254 | the counter never passes the cap plus one; EOF comes from the real body or from the limit at exactly cap plus one, alone or with the last bytes |
| CarImport.BlockReader.Next | ipfsnode_fetch.go:207-221 | a clean EOF means the reader below is at EOF on a section boundary; parse errors come from the limit, a malformed rest or a broken body |
| CarImport.Batcher.Append | ipfsnode_fetch.go:225-226 | appending in place keeps stored batches plus buffer equal to everything read |
| CarImport.Batcher.Flush | ipfsnode_fetch.go:197-206 | one PutMany of the buffer, after which the store holds all that was read, in batches; a failed one leaves at most some of the buffer |
| CarImport.ImportOne | ipfsnode_fetch.go:207-231 | one turn either takes the next block, or ends for the reason it reports |
| CarImport.ImportBlocks | ipfsnode_fetch.go:195-239 | the loop stores a prefix of the stream in full batches, all of it on success; only a failed PutMany leaves some blocks of the next batch |
| CarImport.FetchCARFromGateway | ipfsnode_fetch.go:169-240 | for every response and cap exactly which result it is while PutMany works, success never for a cut stream; at most cap plus one bytes counted, never a batch stored beyond the cap; failures leave whole batches of a prefix, and a failed PutMany some blocks of the next |
| CarImport.ChunksFlatten | ipfsnode_fetch.go:195-235 | the batches put together are the stream: nothing lost, nothing repeated |
| CarImport.ChunkSizes | ipfsnode_fetch.go:50-53 | every batch has 1 to 256 blocks and only the last can be short |
| FallbackChain.NormalIdempotent | ipfsnode_fetch.go:153-157 | normalising a URL twice changes nothing |
| FallbackChain.KeyIdempotent | ipfsnode_fetch.go:145-158 | the key of a key is the key, if the usable key of a text that parses parses back |
| FallbackChain.SameNormal | ipfsnode_fetch.go:153-157 | exactly which parsed URLs normalise alike |
| FallbackChain.SameKeyIff | ipfsnode_fetch.go:142-158 | exactly which texts share a key and so count as one gateway |
| FallbackChain.TrimSlashes | ipfsnode_fetch.go:154 | the unique prefix that lacks only trailing slashes and ends in none |
| FallbackChain.DefaultPortIsKept | ipfsnode_fetch.go:142-157 | with and without its default port one gateway has two keys, and both texts stay in the chain |
| FallbackChain.AddAll | ipfsnode_fetch.go:119-138 | offering a list keeps the first element per usable key over everything offered so far |
| FallbackChain.AssembleFallbackChain | ipfsnode_fetch.go:104-140 | the chain is the first occurrence per key of head, mesh, tail when peers are known, and the configured list otherwise |
| FallbackChain.MeshIsSplicedAtTheHead | ipfsnode_fetch.go:95-138 | the first staticHeadLen configured gateways come first, each once per key, then only mesh gateways, then only the configured rest; a larger staticHeadLen makes all of the list head |
| FallbackChain.ChainShape | ipfsnode_fetch.go:114-138 | nothing else is lost or repeated: keys distinct, exactly the usable keys of both lists, each for the first text that has it, for any peer order |
| FallbackChain.ChainIsWhatWasAdvertised | ipfsnode_fetch.go:104-140 | every gateway in the list is configured or what some peer last advertised, and every usable advertised one is in it |
| FallbackChain.ValidateMeshGatewayURL | ipfsnode_pubsub.go:292-320 | an advertised URL is accepted exactly if it is http or https with a host, no userinfo and a permitted host, and becomes its own fallback key |
| FallbackChain.ChainIsCleanIff | ipfsnode_fetch.go:105-111 | the chain is free of duplicates and unusable entries if and only if peers are known or the configured list already is |
| FallbackChain.ConfiguredDefaultIsAskedTwice | ipfsnode.go:203-210 | an operator entry that is also a public default is in the chain twice while no peer is known, and once otherwise |
| FallbackChain.FetchViaCAR | ipfsnode_fetch.go:74-93 | the requests made are the chain in order up to the first success, whose body is stored whole after what failed ones left; the first good gateway wins |
| AtomicFile.AtomicWriteFile | atomicfile.go:10-36 | nil if and only if no step failed, and then exactly the new data; otherwise the old file and no .tmp of this call unless it could not be removed; a crash between any two steps leaves a complete old or the complete new file, whatever .tmp held |
| SharedTmp.StepSole | atomicfile.go:10-36 | a call that opens `.tmp` while no other may still rename it owns what it writes, whatever failed calls still do |
| SharedTmp.StepView | atomicfile.go:10-36 | to such a call the shared files look like those of a single call: each step does what the one-call model does |
| SharedTmp.AloneIsWhole | atomicfile.go:5-9 | while calls open alone, the canonical path is missing or complete and synced at every moment, crashes included |
| SharedTmp.Tear | atomicfile.go:11-31 | from any state where a call opens `.tmp` under another that may still rename it, the two alone can publish an unsynced file |
| SharedTmp.OpenIsSafeIff | atomicfile.go:10-36 | the published file stays whole in every continuation that adds no overlap if and only if no other call is between its open and its rename at the open |
| SharedTmp.LateOverlapPasses | atomicfile.go:31-34 | an overlap whose writes are all over and whose `.tmp` is complete can no longer publish anything else |
| SharedTmp.NextSoleSaveHeals | atomicfile.go:10-36 | after any overlaps, the next rename of calls that open alone publishes its own data complete and synced |
| WriteOutcomes.ReturnsNilIff | atomicfile.go:10-36 | however calls overlap, a call returns nil if and only if none of its own steps failed, and has then opened, written all, synced, closed and renamed in that order |
| PinSet.EncodeDecode | ipfsnode.go:484-513 | the pin file round-trips and no proper prefix of it reads as a list |
| PinSet.PinSet.LoadPins | ipfsnode.go:484-499 | loading adds exactly what the file lists, and nothing if it is missing or unreadable |
| PinSet.PinSet.SavePins | ipfsnode.go:501-517 | if no file step fails the file reads back as the pin set, synced; otherwise the file stays |
| PinSet.PinSet.MarkPinned | ipfsnode.go:342-347 | the CID is added, and the file reads back as the pin set if no file step failed |
| PinSet.PinSet.Unpin | ipfsnode.go:349-361 | only the CID goes, a malformed one is refused with nothing changed |
| PinSet.PinSet.IsPinned | ipfsnode.go:363-370 | yes exactly if the gateway would serve every path rooted at the CID; an error for a malformed one |
| PinSet.RestartRestores | ipfsnode.go:234-236 | if the save returned nil and its directory entry reached the disk, a new process after any crash loads exactly the pin set |
| PinLifecycle.StepInv | ipfsnode.go:311-347 | the content invariant survives every step, whatever saves overlap: fetches, failed gateways, marks, unpins, file calls, crashes, loads, requests |
| PinLifecycle.SavesAreNotHeldUp | ipfsnode.go:342-361 | a save that is due can always snapshot and open, whatever other saves are doing |
| PinLifecycle.MemoryIsComplete | ipfsnode.go:311-347 | however saves overlap, each CID in memory has its whole DAG in the store, as long as no restart took a damaged file for a list |
| PinLifecycle.PinnedIsComplete | ipfsnode.go:484-499 | with saves that open alone, no restart does, and each CID in memory or in pins.json has its whole DAG in the store |
| PinLifecycle.CrashLeavesACompletePinSet | ipfsnode.go:484-517 | with saves that open alone, a crash at any moment leaves pins.json missing or whole, and all it lists has its whole DAG |
| PinLifecycle.RenamePublishesSnapshot | atomicfile.go:16-31 | with saves that open alone, what a rename publishes is its own call's snapshot, complete and synced |
| PinLifecycle.SavesDoOverlap | ipfsnode.go:349-357 | a state where one save may open under another is reachable |
| PinLifecycle.OverlapCanLoseThePinSet | ipfsnode.go:501-517 | from any such state, the two saves and a crash can leave a partial pins.json and a restarted node without pins |
| PinLifecycle.PinFileStaysReadableIff | ipfsnode.go:501-517 | pins.json stays readable in every continuation that adds no overlap, crashes and restarts included, if and only if no other save is between its open and its rename when one opens |
| PinLifecycle.PassedRequestIsServed | ipfsnode_gateway.go:71-107 | however saves overlap, a request past the guard is for a pinned root whose whole DAG is in the store at that and every later moment, whatever Unpins or crashes follow |
| PinOutcomes.StoreIff | ipfsnode.go:349-361 | the store holds what was there and what was imported; nothing else changes it, not an Unpin and not a crash |
| PinOutcomes.MemoryFollowsMarks | ipfsnode.go:342-361 | while the process runs a CID is pinned if and only if a Pin of it succeeded, or it was pinned before, and no Unpin of it has started since |
| PinOutcomes.OpFollowsItsProgram | ipfsnode.go:311-340 | a Pin marks its CID only after a walk of its whole DAG, by bitswap or after a gateway's CAR, and fails only if both failed, whatever else runs |
| PinOutcomes.CompleteDagGetsPinned | ipfsnode.go:311-347 | a CID whose whole DAG is stored can be pinned at once, and every path rooted at it is then served |
| PinOutcomes.ServingIff | ipfsnode_gateway.go:99-106 | a request is served for the root it asked for from its passing the guard until it is answered |
| PinDurability.SavedPinStaysIff | ipfsnode.go:342-347 | a saved pin that is on disk stays in memory and file in every continuation without an Unpin of it, crashes and restarts included, if and only if no save is pending whose snapshot lacks it |
| PinDurability.MarkedPinSurvives | ipfsnode.go:484-517 | once a save with a snapshot taken after the Pin is renamed and on disk, and no older snapshot is pending, the pin survives every crash and restart until its Unpin |
| PinDurability.StaleSaveArises | ipfsnode.go:501-517 | a state where a pin is saved and on disk and an older snapshot is still to be written is reachable |
| GatewayGuard.ServedIffPinnedRoot | ipfsnode_gateway.go:71-107 | under /ipfs/ exactly the paths rooted at a well-formed pinned CID are served, everything else passes |
| GatewayGuard.RootDecides | ipfsnode_gateway.go:91-105 | for a path rooted at a well-formed CID only membership in the pin set counts |
| GatewayGuard.Refusals | ipfsnode_gateway.go:91-105 | exactly when each of the three refusals is given |
| MeshCache.MeshManager.ApplyHeartbeat | ipfsnode_pubsub.go:218-285 | the cache step for a heartbeat, and a dial exactly for a newly admitted peer with an address |
| MeshCache.MeshManager.EvictExpired | ipfsnode_pubsub.go:417-427 | deleting while ranging removes exactly the expired entries |
| MeshCache.MeshManager.KnownPeers | ipfsnode_pubsub.go:183-191 | every entry exactly once |
| MeshCache.SpeaksForItsSender | ipfsnode_pubsub.go:218-269 | a heartbeat can only change its signed sender's entry: our own, and one claiming another id, change nothing; any other takes effect for a known peer or while there is room |
| MeshCache.EntryIsTheHeartbeat | ipfsnode_pubsub.go:230-269 | an entry holds its sender, its time, the accepted gateway and, in order, those of the first eight addresses that parse |
| MeshCache.CacheShowsLastHeartbeat | ipfsnode_pubsub.go:213-269 | a peer is cached exactly when one of its heartbeats was admitted, is its last acceptable one and has met no expiring eviction since, and its entry is that heartbeat |
| MeshCache.CacheIsBounded | ipfsnode_pubsub.go:46-64 | at most 1024 entries of at most 8 addresses, each under the id it carries, never this node |
| MeshCache.KnownPeerStays | ipfsnode_pubsub.go:260-268 | a known peer is in the cache throughout if and only if at each eviction its last heartbeat is within the TTL, full cache or not |
| MeshCache.NoEntryOlderThan | ipfsnode_pubsub.go:397-426 | over a whole run with ticks at most the loop's own period apart, handled late or not, at every tick and within a period after it no entry is older than TTL plus period |
| MeshCache.EvictTick | ipfsnode_pubsub.go:401-404 | the period is half the interval rounded down, or fifteen seconds when that is not positive |
| MeshLifetime.AddsHappenUnderACount | ipfsnode_pubsub.go:271-285 | a dial is only added while the receive loop holds its own count, so the count never rises from zero |
| MeshLifetime.LoopsRunUntilStop | ipfsnode_pubsub.go:193-211 | the loops run for as long as Stop has not cancelled |
| MeshLifetime.EveryDialStarts | ipfsnode_pubsub.go:271-285 | every dial announced to the WaitGroup is started, but for the one about to be |
| MeshLifetime.StopMeansStopped | ipfsnode_pubsub.go:166-179 | once Stop's Wait or any Stop call has returned, no loop or dial is alive and none is started later |
| MeshLifetime.DialWhileStopWaits | ipfsnode_pubsub.go:193-211 | the count can still grow while Stop is waiting |
| MeshLifetime.StopIsNotStuck | ipfsnode_pubsub.go:166-179 | once Stop is called, something can move without a further message until its body is complete |
| MeshLifetime.StopReturnsSoon | ipfsnode_pubsub.go:166-179 | without further messages a bounded number of steps is left, and when they are done everything is quiet and every Stop call can return |
| Cids.FoundCidsAreValid | discovery.go:227-239 | everything the body scan reports passes ValidateCID |
| Cids.OccurrenceReported | discovery.go:29 | a match of the pattern is reported if and only if its opening slash does not close a reported one |
| Cids.LinkReported | discovery.go:29 | a link `/ipfs/<cid>` is reported if and only if a slash follows it and its opening slash does not close a reported one |
| Cids.FindCidsAre | discovery.go:229-232 | the CIDs returned are those of the reported links, in the order of the body |
| Cids.FoundIff | discovery.go:229-232 | a CID is found if and only if it stands between slashes after /ipfs where its opening slash does not close a reported link |
| Cids.AllLinksReportedIff | discovery.go:29 | all links are found if and only if a slash follows each of them and no two share one |
| Cids.LinkAtEndMissed | discovery.go:29 | a link at the end of a body is missed, for any CID |
| Cids.BackToBackMissed | discovery.go:29 | of two links written back to back only the first is found |
| GatewayGuard.ValidHasNoSlash | pinner.go:10-18 | a well-formed CID cannot contain a path separator |
| Discovery.Offer | discovery.go:204-212 | one candidate against the shared map: kept iff valid and new, counted iff non-empty and malformed |
| Discovery.ExtractItemsFromRow | discovery.go:178-254 | with the map left by earlier rows, the items returned are exactly what this row adds to the first valid occurrences so far |
| Discovery.Discovery.Refresh | discovery.go:256-318 | a refresh publishes the first valid occurrence of each CID over all rows and counts the malformed ones; a failed one changes nothing |
| Discovery.PublishedItems | discovery.go:169-177 | published CIDs are valid, distinct and exactly the valid ones that occur |
| Discovery.PublishedItemsComeFromRows | discovery.go:178-254 | every published item carries its row's own fields and is the paper, a supplementary file with its name or an inline image of it, and every valid CID some row mentions is published |
| Discovery.PaperThenFilesThenBody | discovery.go:178-254 | a CID new to the map is taken from the paper if it is the paper's, and otherwise from the first supplementary file with it |
| Discovery.DroppedCounts | discovery.go:181-212 | the drop count is the number of places with something other than a well-formed CID |
| Discovery.InlineNeverDropped | discovery.go:235-239 | the inline branch never adds to the drop count |
| AutoPinRules.MatchingCounts | autopin.go:183-200 | an item comes out as often as it went in if some rule matches, and not otherwise |
| AutoPinRules.MatchesMeans | autopin.go:30-76 | what a rule accepts: enabled, every list that is not empty names the value up to case, the title contains the pattern up to case, the date lies between the two days included |
| AutoPinRules.MatchingSelects | autopin.go:186-200 | the items come out in order, each that some rule matches and no other |
| AutoPinRules.EditsAreLocal | autopin.go:126-181 | Add appends, Update replaces the first rule with the id and no other, Delete removes that one and keeps the rest in order, SetAllEnabled changes no field but the flag |
| AutoPinRules.MissTouchesNothing | autopin.go:141-171 | an Update or Delete of an unknown id touches neither memory nor file |
| AutoPinRules.NothingWhenDisabled | autopin.go:173-181 | nothing matches after disabling all rules |
| AutoPinRules.AutoPinManager.AddRule | autopin.go:126-138 | appended and saved, or both memory and file as before |
| AutoPinRules.AutoPinManager.UpdateRule | autopin.go:141-157 | the first rule with the id replaced and saved, or both as before |
| AutoPinRules.AutoPinManager.DeleteRule | autopin.go:160-171 | the first rule with the id removed from memory even when the save fails |
| AutoPinRules.AutoPinManager.SetAllEnabled | autopin.go:174-181 | every flag set in memory even when the save fails |
| AutoPinRules.AutoPinManager.MatchingItems | autopin.go:186-200 | the nested loop is the order-preserving filter by "some rule matches" |
| AutoPinRules.MemoryMatchesDisk | autopin.go:125-219 | memory equals file whenever no unrolled-back save has failed since the last successful one |
| AutoPinRules.BreaksAgreementIff | autopin.go:160-181 | one operation breaks agreement exactly if it is a Delete that found its rule or a SetAllEnabled that changed a flag, and its save failed |
| AutoPinRules.DeletedRuleIsStillOnDisk | autopin.go:160-171 | for example, a rule whose deletion could not be saved is gone from memory and still in the file |
| Durations.RemainingInRange | server.go:197-198 | the remaining time is positive, at most one interval, and ends on a multiple of the interval |
| Durations.RoundsToNearest | server.go:338 | rounding goes to the nearest second, from the middle away from zero |
| Durations.PrintedUnits | server.go:337-349 | the two largest units of the rounded seconds are shown, each below the next larger one, seconds alone below a minute |
| Durations.ParseDuration | static/app.js:44-53 | on any text the server printed the sum of the three matches gives the seconds back, cut to whole minutes from an hour on |
| Durations.PrintersAgree | static/app.js:55-63 | client and server print whole seconds alike |
| Durations.ParseUndoesPrint | server.go:337-349 | parsing the printed text gives the rounded seconds, cut to whole minutes from an hour on |
| Durations.ReprintIsStable | static/app.js:44-63 | printing the parsed value again gives the same text |

## Left out

- AtomicFile.AtomicWriteFile: is one call that no other overlaps; `SharedTmp` has the others.
- SharedTmp.OpenIsSafeIff: data are opaque units and a crash may turn an unsynced file into anything; what exactly a torn file contains is not predicted.
- PinLifecycle.MemoryIsComplete: takes FetchGraph's success to mean that every reachable block is stored, and stored blocks to survive a crash; bitswap, flatfs and the CAR bytes are foreign.
- PinSet.PinSet.SavePins: memory equals file for one caller at a time; `PinDurability` says what holds for several.
- CarImport.CountingReader.Read: a read returns some bytes, or the end, or an error, or bytes with one of these; a read of no bytes without an error is left to the caller's retry.
- CarImport.FetchCARFromGateway: bytes are counted, not interpreted (a section is a block whose hash checked), `maxPinBytes+1` is taken not to overflow, and the up to 4096 bytes discarded after a non-200 status are not counted by the code either.
- FallbackChain.KeyIdempotent: URL parsing and printing are parameters, of which only `ParsesBack` is asked; escaped paths are not modelled.
- FallbackChain.SameNormal: case folding is ASCII, as in section 6.2.2.1 of RFC 3986; the same holds for rule matching.
- Durations.ParseUndoesPrint: for non-negative durations, the only ones the status handler prints.
- Contexts, timeouts and tickers are events that may happen at any time; wall-clock totals and the two-second grace are not measured.
- A Run's context, in the pool, only stops scheduling; what cancellation does inside a backend is the backend's.
- Peer id and multiaddr decoding and JSON arrive as decoded inputs, host names and their DNS or IP screening as parameters.
- The default rule written when no rule file exists, random rule ids, and the wrap-around of `nextPinID`.
- SQL, HTTP servers and clients, the Pinata backend, configuration, logging, libp2p, DHT and the gateway handler's own work.
- The rest of the management API and user interface.
