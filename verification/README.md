# PhantoWD EX4 API: verified models

This project models the parts of the `phantowd-api` service whose correctness does not show in one function, and
proves what they guarantee. `dafny verify dfyconfig.toml` checks all of it.

**The panel's credential and session protocol.** `SessionStores` and `AccountStores` hold the two locked stores as
classes over pure operations. `PanelProtocol` is the concurrent protocol at lock granularity: login, setup, password
change, request authorisation, logout and close are sequences of account-lock steps, session-lock steps and
derivation work outside both locks, interleaved in any order. Key derivation is an arbitrary relation, tokens are
always fresh, the clock does not go back, and the stored document changes only through its two write operations. An
inductive invariant gives the safety results over whole runs, and `PanelRuns` says exactly when a request that nobody
interrupts goes through and what it leaves. `RateLimits` covers the two limiters over every sequence of call times.

**Block topology.** A sysfs inventory is a graph of partition-to-parent and stacked-to-lower edges
(`BlockInventory`, `Graphs`). Three different depth-first searches query it (`DependencySearches`, `LeafSearches`,
`ArraySearches`), a fourth decides whether it is sound (`SourceSets`), and `Agreement` shows that they agree on
whatever the collector builds, a cyclic inventory included. On top of them stand the discovery planner (`Discovery`),
the binding of MD arrays to physical disks and its independent check (`MdIdentity`, `MdBindings`), the join with
mounted filesystems (`MountedIdentities`, `MountedJoins`), the census of mounted ext filesystems with its validator
(`MountedCensus`), and the reviews of claimed volumes (`VolumeReviews`). What each of them returns is stated twice: by
the definition it is computed from, and in terms of the records, mounts and paths it was given.

**Sampling.** `Sampling` makes sysfs a trace of worlds, one per instant, and every attribute read, directory listing
(`Listings`) and link read a step.
`StorageCollection` is the collector on top of it: two passes, topology, duplicate identities, and the exact gap
between what it publishes and what the completeness check asks for.

**Interpreters.** `PartitionTables` and `GptIdentities` match and classify GPT tables, `VpdPages` parses and prints
SCSI page 83h, `MdStatusTexts` parses the kernel's MD status text and `MdHealth` combines it with sysfs.
`WitnessSets` is the life of a retained set of SMART witnesses.

Texts are sequences of characters that stand for bytes, sysfs paths are sequences of components, times are integers
in nanoseconds, and 32-byte equality tokens are numbers with zero for the absent one. An absent slice is told from an
empty one where the code can make an absent one out of an empty one, which is the copied list of a GPT classification;
everywhere else the collectors start their lists as empty ones, and the two are one value.

Four statements are settled in their exact form:

- *Every GPT classification within the size limits is summarised.* The empty candidate set is classified, and the
  validator would accept its summary, but none is ever given: the copied list of bindings is absent
  (`GptIdentities.EmptySetIsRefused`). A classification is summarised exactly from one to six candidates with at most
  1536 partitions (`GptIdentities.SummaryAcceptedExactly`, `GptIdentities.Publish`).
- *After the store is closed no request is authorised.* A request between its account check and its session lookup
  still is (`PanelProtocol.RequestAuthorisedAfterClose`). It can happen exactly when such a request is pending with
  its session in the table, and the session is alive at the time the request has read or, if it has read none, now
  (`PanelProtocol.AuthorisedAfterLatchExactly`).
- *A usable mount table always yields a discovery plan.* It does not for one disk and a mount on an unknown device
  (`Discovery.StrayMountStopsPlanning`). It fails exactly when such a mount comes before anything mounted over some disk
  whose mounts must be consulted (`Discovery.PlanFailsExactly`).
- *A limiter admits at most ten calls in any window's length.* The bound is nine, it is reached, and it needs a clock
  that does not go back (`RateLimits.NinePerInterval`, `RateLimits.NineIsReached`, `RateLimits.EveryCallReopens`).

## Model

| member | source | states |
|---|---|---|
| SessionStores.IssueBounded | src/phantowd-api/auth_session.go:60-89 | issuing keeps the table within eight sessions, and an issued session is the only one added |
| SessionStores.IssueExactly | src/phantowd-api/auth_session.go:60-89 | a stale epoch changes nothing; otherwise exactly the expired sessions go, the live ones stay as they were, and one for half an hour is added unless eight are live |
| SessionStores.SessionStore.CreateForEpoch | src/phantowd-api/auth_session.go:60-89 | a session is created exactly while the expected epoch is the current one and fewer than eight sessions are alive; exactly the expired ones are dropped |
| SessionStores.SessionStore.FindSession | src/phantowd-api/auth_session.go:91-108 | a session is served exactly while present and unexpired, as it was issued; the only one ever dropped is the expired one asked for |
| SessionStores.SessionStore.RevokeAllSessions | src/phantowd-api/auth_session.go:123-141 | a live session with its own CSRF value empties the table and starts a new epoch; a refused call changes nothing |
| AccountStores.AccountStore.LoadLocked | src/phantowd-api/account_store.go:91-111 | a closed or failed store answers with that error and stays as it is; a document returned is the stored one, valid and seen; once one was seen every failure, also a missing document, latches the store |
| AccountStores.AccountStore.SetupLocked | src/phantowd-api/account_store.go:123-155 | the document changes only from none to the first one, on valid inputs, when none was ever seen; success is exactly such a change without a latch, so a write of uncertain outcome latches |
| AccountStores.AccountStore.ReplaceLocked | src/phantowd-api/account_store.go:230-254 | the document changes only to the successor of the expected revision with a new verifier; every error latches the store under that error |
| AccountStores.AccountStore.CloseLocked | src/phantowd-api/account_store.go:265-277 | closing latches the store for good and changes nothing else, a second close included |
| PanelProtocol.StepKeepsInv | src/phantowd-api/account_store.go:157-263 | every step of login, setup, change, authorisation, logout and close keeps the invariant over all handlers |
| PanelProtocol.RunKeepsInv | src/phantowd-api/auth_controller.go:131-167 | every interleaving of steps keeps the invariant |
| PanelProtocol.EverySessionIsCurrent | src/phantowd-api/auth_controller.go:264-281 | in every reachable state each live session was issued in the current epoch against the document stored now, to its own name and a password its verifier accepts; at most eight sessions; setup succeeded at most once |
| PanelProtocol.CommitKeepsInv | src/phantowd-api/account_store.go:230-254 | the commit replaces the document only while no session and no usable grant rests on the old one |
| PanelProtocol.RevokeForCommitKeepsInv | src/phantowd-api/auth_password.go:25-102 | revocation inside the account lock leaves an empty table and outdates every pending grant |
| PanelProtocol.RunForward | src/phantowd-api/auth_session.go:52-141 | over every run revisions only grow and a session key once gone never returns |
| PanelProtocol.CommitOutdatesEarlierLogins | src/phantowd-api/account_store.go:190-254 | after a commit every session alive later rests on a later document than the replaced one, whenever its login began, and no earlier key is accepted again |
| PanelProtocol.DocumentChangeIsVouched | src/phantowd-api/account_store.go:196-254 | over every run: the document changes only to the first one, by the one who sets it up, or to its successor, by the holder of a session issued under it who presented a password it accepts and another one that the new document accepts |
| PanelProtocol.LatchedRunDrains | src/phantowd-api/account_store.go:241-277 | after a recorded failure or close, over every later run: nothing is issued, set up or written, and at most the requests already past their account check are authorised |
| PanelProtocol.AuthorisedAfterLatchExactly | src/phantowd-api/auth_controller.go:216-223 | after the latch some run authorises a request exactly when a request is past its account check with its session in the table and alive at the time the request read, or now if it has read none |
| PanelProtocol.StepTame | src/phantowd-api/account_store.go:123-277 | every step but the issuing one: revision and clock only grow, no session is added, one handler moves, and a latch holds unless the handler has the account lock |
| PanelProtocol.RequestAuthorisedAfterClose | src/phantowd-api/auth_controller.go:216-223 | a concrete run that closes the store and then authorises a pending request |
| PanelProtocol.FailedCommitIsFinal | src/phantowd-api/account_store.go:241-254 | after a failed commit, over every later run, the table stays empty and nothing is authorised |
| PanelRuns.ChangeExactly | src/phantowd-api/auth_password.go:25-102 | uninterrupted, a password change goes through exactly with a live session, its CSRF value, the current password and a different admissible one, and leaves no session, a new epoch and the next document |
| PanelRuns.LoginExactly | src/phantowd-api/auth_controller.go:131-167 | uninterrupted, a login goes through exactly with the name and an admissible password of the document served, and then opens a session unless eight are alive |
| PanelRuns.SetupExactly | src/phantowd-api/account_store.go:123-155 | uninterrupted, setup goes through exactly where no document is stored or was seen, with a valid name and an admissible password, and leaves the first document and a session |
| PanelRuns.AuthoriseExactly | src/phantowd-api/auth_controller.go:216-223 | uninterrupted, a request is authorised exactly while the account serves its document and the session is alive; an expired session is dropped |
| PanelRuns.RecheckExactly | src/phantowd-api/account_store.go:175-188 | a verified login is granted exactly while the account serves the very document it was verified against |
| PanelRuns.FailedReadLatches | src/phantowd-api/account_store.go:91-111 | whichever step it is, a failed read of the account ends its request and latches the store |
| RateLimits.Serve | src/phantowd-api/auth_controller.go:283-295 | a limiter object called at any times admits exactly the calls of the run; for nondecreasing times at most five per window and nine in any interval of sixty seconds |
| RateLimits.FivePerWindow | src/phantowd-api/auth_controller.go:283-295 | for every nondecreasing sequence of times no window admits more than five calls |
| RateLimits.NinePerInterval | src/phantowd-api/auth_password.go:125-136 | for every nondecreasing sequence of times any half-open interval of sixty seconds holds at most nine admitted calls |
| RateLimits.RefusedExactly | src/phantowd-api/auth_controller.go:283-295 | a call is refused exactly when five calls were admitted in a window that is still open |
| RateLimits.NineIsReached | src/phantowd-api/auth_controller.go:283-295 | a run whose interval holds nine |
| RateLimits.EveryCallReopens | src/phantowd-api/auth_controller.go:286-289 | when the clock swings back and forth, one interval holds any number of admitted calls |
| DependencySearches.NodeDependsOnWholeDisk | src/phantowd-api/mounts.go:98-168 | on any inventory, cyclic ones included, the memoised search ends; true means a path from node to disk; false means none, an acyclic reachable part and every reachable reference matching; an error means a defect |
| DependencySearches.DependencySearch.Depends | src/phantowd-api/mounts.go:117-166 | the recursive step: visiting is exactly the trail, finished nodes are ranked, clean and do not reach the disk |
| DependencySearches.SettledIsClean | src/phantowd-api/mounts.go:112-166 | a finished node has no cycle, no defect and no path to the disk below it |
| SourceSets.ValidateTopology | src/phantowd-api/storage_source_set.go:122-160 | the three-colour search accepts exactly the closed, acyclic topologies |
| SourceSets.CompleteDeviceSet | src/phantowd-api/storage_source_set.go:25-106 | succeeds exactly on a marked snapshot of valid, pairwise distinct, linked records over a sound topology, and returns the whole disks with their generations in order |
| SourceSets.CompleteMeans | src/phantowd-api/storage_source_set.go:25-106 | what completeness gives: the collector's flags, sound records in name order, device numbers, paths and generations never shared, and every parent and lower reference leading to the record it describes |
| LeafSearches.PhysicalDisksBehind | src/phantowd-api/storage_identity.go:234-273 | the unmemoised search, tied to its recursive definition |
| LeafSearches.DisksBehindDecides | src/phantowd-api/storage_identity.go:234-273 | it succeeds exactly when everything reachable passes its checks, lies on no cycle and is not being visited |
| LeafSearches.DisksBehindLists | src/phantowd-api/storage_identity.go:234-273 | it returns each physical leaf once for every path to it and misses no path |
| LeafSearches.DisksBehindMembers | src/phantowd-api/storage_identity.go:250-272 | the disks returned are exactly the reachable leaves |
| LeafSearches.SingleDescents | src/phantowd-api/storage_identity.go:186-214 | if no disk is returned twice there is exactly one path to each |
| LeafSearches.SearchedMeans | src/phantowd-api/storage_identity.go:234-273 | below an accepted node every partition stands under the whole disk it records as its parent, every lower block is the record it names, and every leaf is a physical disk |
| ArraySearches.MdArraysBehind | src/phantowd-api/storage_identity_mounted.go:242-295 | the memoised walk succeeds exactly on a clean stack and lists exactly the reachable MD names in order |
| BlockInventory.MdNames | src/phantowd-api/mdraid.go:812-832 | the names of MD arrays are md or md_d before a number, within sixty-four characters |
| Agreement.TraversalsAgree | src/phantowd-api/storage_identity_mounted.go:242-295 | on every inventory of the collector's shape, sound or not: where the leaf search succeeds the other two succeed, and a leaf is in its result exactly when it is reachable |
| Agreement.DiskSearchImpliesArraySearch | src/phantowd-api/storage_identity.go:234-273 | wherever the leaf search succeeds the array walk succeeds |
| Agreement.CompareSearches | src/phantowd-api/mounts.go:98-168 | running all three on such an inventory: a successful array walk lists exactly the reachable MD names, a successful dependency search answers reachability, and where the leaf search succeeds so do both, the answer being whether the leaf is in its result |
| Agreement.LinkedTraversals | src/phantowd-api/storage_identity_mounted.go:242-295 | over matching references the array walk and the dependency search fail exactly over a cycle, the leaf search exactly over a cycle or a virtual leaf |
| Agreement.CompleteTraversals | src/phantowd-api/storage_source_set.go:25-106 | on a complete inventory the array walk and the dependency search always succeed, and the leaf search fails exactly over a virtual leaf |
| Discovery.HasStackedDependent | src/phantowd-api/storage_discovery.go:163-177 | on any inventory an answer is whether another stacked block node rests on the disk, and an error means a stacked node that cannot be searched; a trusted inventory always gets an answer |
| Discovery.HasVisibleDependentMount | src/phantowd-api/mounts.go:51-96 | on any inventory an answer is whether some mount rests on the disk, and an error means an unusable disk or a mount that cannot be attributed; on a trusted one the mounts decide in order |
| Discovery.PlanDiscovery | src/phantowd-api/storage_discovery.go:82-143 | a plan exists exactly for a complete inventory, a usable mount table and assessable disks; a whole disk is a candidate exactly when it is not virtual, not stacked, under no stack and no mount, and not removable, and otherwise is excluded under the first of these reasons; the identity flags say whether some disk is ambiguous or lacks evidence |
| Discovery.PlanFailsExactly | src/phantowd-api/mounts.go:68-95 | valid inputs yield no plan exactly when a mount with a nonzero major and an unobserved device comes before anything mounted over some disk whose mounts must be consulted |
| Discovery.StrayMountStopsPlanning | src/phantowd-api/mounts.go:78-86 | one disk and a valid mount on an unknown device: complete inventory, usable table, no plan |
| Discovery.PlanPartitions | src/phantowd-api/storage_discovery.go:99-142 | every whole disk is a candidate under its own record or excluded under exactly one reason, never both, and the counts add up |
| Discovery.PlanIsMeant | src/phantowd-api/storage_discovery.go:99-142 | every plan reports each whole disk by exactly the outcome that topology, mounts and the removable flag give it, under its own record |
| Discovery.CandidatesAreClear | src/phantowd-api/storage_discovery.go:109-141 | no stacked node and no mount rests on a candidate, which is neither virtual, stacked nor removable |
| Discovery.CandidateMeansMountsResolve | src/phantowd-api/mounts.go:68-95 | one candidate implies that every mount with a nonzero major resolves to exactly one node |
| MountTables.MultiDeviceMeans | src/phantowd-api/storage_discovery.go:145-153 | the filesystems that stop planning are btrfs, bcachefs and zfs in any mix of letters |
| MountTables.ValidTableMeans | src/phantowd-api/storage_discovery.go:179-194 | what a valid mount table tells: its scope and flags, its count, and absolute mount points |
| MdIdentity.Canonicalise | src/phantowd-api/mdraid.go:259-288 | accepts a text exactly when lowering it gives a canonical, non-nil UUID, and returns that |
| MdIdentity.ObserveIdentity | src/phantowd-api/mdraid.go:416-458 | an array has a whole identity or none, and has one exactly when node, number and UUID are all usable |
| MdIdentity.MarkDuplicates | src/phantowd-api/mdraid.go:290-321 | fails, changing nothing, when one object has two UUIDs; otherwise marks every array by the number of objects with its UUID |
| MdIdentity.Finish | src/phantowd-api/mdraid.go:215-257 | the finished inventory: the first sixteen arrays by name, completeness, and marks or withheld UUIDs |
| MdIdentity.FinishedMeans | src/phantowd-api/mdraid.go:215-257 | what is finished is the first sixteen arrays by name, unchanged but for their UUIDs; in a complete inventory an array is ambiguous exactly when another kernel object carries its UUID |
| MdIdentity.IncompleteKeepsNoUuid | src/phantowd-api/mdraid.go:235-250 | an inventory that is not complete keeps no array UUID |
| MdIdentity.MatchUuid | src/phantowd-api/storage_identity.go:27-64 | succeeds exactly on a complete, consistent inventory, and reports the objects and places of the UUID |
| MdIdentity.LookupMeans | src/phantowd-api/storage_identity.go:27-64 | a lookup lists every place of the UUID in order and tells no, one and several kernel objects apart |
| MdIdentity.SearchedMeans | src/phantowd-api/storage_identity.go:27-64 | what a searched inventory tells: its flags, distinct valid names, usable device numbers and canonical UUIDs, one per kernel object |
| MdIdentity.FinishThenMatch | src/phantowd-api/storage_identity.go:27-64 | in a complete inventory an array is ambiguous exactly when the lookup of its UUID reports conflicting objects, and otherwise it reports one |
| MdBindings.Correlate | src/phantowd-api/storage_identity.go:149-224 | succeeds exactly when both inventories are complete, list the same arrays, and every array binds; then each binding is determined |
| MdBindings.EveryArrayIsBound | src/phantowd-api/storage_identity.go:149-224 | in a correlated inventory the arrays are exactly the whole blocks with the name of an MD array |
| MdBindings.GatheredPermutes | src/phantowd-api/storage_identity.go:186-214 | reordering the members of an array permutes its disks and changes nothing else |
| MdBindings.ValidateBindings | src/phantowd-api/storage_identity_mounted.go:183-240 | accepts exactly the bindings that restate the inventory, each array once under its own UUID |
| MdBindings.CorrelatedIsValid | src/phantowd-api/storage_identity_mounted.go:183-240 | every correlated list of bindings is accepted by the validator over the same inventory |
| MdBindings.OneWayDown | src/phantowd-api/storage_identity.go:186-214 | an accepted binding means exactly one path from its array to each physical disk |
| MdBindings.MembersShareNoDisk | src/phantowd-api/storage_identity.go:199-213 | no two members of an accepted binding reach the same disk |
| MdBindings.BindingListsDisks | src/phantowd-api/storage_identity_mounted.go:201-237 | an accepted binding lists exactly the physical leaves below each lower block, field by field and in device order, and each of them is identified and shared with no other disk |
| MountedIdentities.ValidateInventory | src/phantowd-api/storage_identity_mounted.go:136-181 | accepts exactly usable, distinct anchors with one UUID per device and exactly the conflicting UUIDs announced in order |
| MountedIdentities.InventoryMeans | src/phantowd-api/storage_identity_mounted.go:136-181 | what an accepted inventory tells: absolute anchors below the root, each once, usable devices, one UUID per device, and exactly the conflicting UUIDs in order |
| MountedIdentities.GroupMounted | src/phantowd-api/mountguard/inventory_linux.go:109-135 | fails exactly when a device has two UUIDs; otherwise reports the same roots in the order of their anchors |
| MountedIdentities.ReportIsAccepted | src/phantowd-api/mountguard/inventory_linux.go:109-135 | what the mount guard reports about usable roots is what the correlation accepts |
| MountedJoins.BindingsCover | src/phantowd-api/storage_identity_mounted.go:94-101 | accepted bindings cover every array of the inventory, so the lookup of an array never fails |
| MountedJoins.CorrelateMounted | src/phantowd-api/storage_identity_mounted.go:60-134 | succeeds exactly when inventory, mounts and bindings hold and every mount resolves; each identity names the one node of its device, every physical disk below it in device order, field by field, and the binding of every MD array in its stack |
| MountedJoins.OneIdentity | src/phantowd-api/storage_identity_mounted.go:83-132 | rebuilding the identity of a filesystem gives the same identity |
| MountedCensus.PlanCensus | src/phantowd-api/storage_mounted_census_linux.go:125-170 | a plan exists exactly for admissible, distinct mounts with at most 64 roots; its anchors are, in order, exactly the mount points of ext2, ext3 and ext4 roots on block devices below the process root, and each counter is the number of mounts meeting its own condition |
| MountedCensus.PlannableMeans | src/phantowd-api/storage_mounted_census_linux.go:125-152 | what a plannable table tells: its scope and flags, and mounts with ids and points of their own, clean paths and observed devices |
| MountedCensus.CensusCoversRoots | src/phantowd-api/storage_mounted_census_linux.go:177-196 | a census observes every ext root of its table once, on the device the table shows, and nothing else |
| MountedCensus.CoverageSums | src/phantowd-api/storage_mounted_census_linux.go:137-168 | the coverage counters add up to the number of mounts |
| MountedCensus.Collect | src/phantowd-api/storage_mounted_census_linux.go:76-123 | collects exactly when every stage can be carried out and nothing moved meanwhile, and what it returns holds |
| MountedCensus.SampleIsStable | src/phantowd-api/storage_identity.go:105-147 | in an accepted sample the second look at the arrays determines the same bindings as the first |
| MountedCensus.TableIsStable | src/phantowd-api/storage_mounted_census_linux.go:76-123 | the second look at the mount table gives the same plan as the first |
| MountedCensus.ValidateCensus | src/phantowd-api/storage_mounted_review_linux.go:105-149 | accepts exactly the censuses that their own observations determine |
| MountedCensus.CollectThenValidate | src/phantowd-api/storage_mounted_review_linux.go:105-149 | for every environment, a census the collector returns is accepted by the validator, also when no root was observed |
| MountedCensus.RecheckCoversIdentities | src/phantowd-api/storage_mounted_census_linux.go:60-73 | equal observations leave equal identities, although the recheck does not compare them |
| MountedCensus.Recheck | src/phantowd-api/storage_mounted_census_linux.go:60-73 | succeeds exactly when the context lives and a fresh valid collection shows the same observations as a valid census |
| VolumeReviews.ReviewVolumes | src/phantowd-api/storage_mounted_review_linux.go:44-101 | succeeds exactly on a valid policy and census; one observation per claim in order of the ids, with the number of devices and mounts of its UUID, and unresolved exactly when some physical disk below one of them is not identified; all and unclaimed objects are counted |
| VolumeReviews.ObjectsConserved | src/phantowd-api/storage_mounted_review_linux.go:74-99 | the objects of all claims and the unclaimed ones are all objects |
| VolumeReviews.AmbiguousMeansConflict | src/phantowd-api/storage_mounted_review_linux.go:80-87 | a volume is ambiguous exactly when the census lists its UUID as conflicting |
| VolumeReviews.BackingIgnoresAlias | src/phantowd-api/storage_registry_backing_linux.go:53-92 | the mounts of a volume observed once agree on source, disks and arrays, so whichever is kept the backing is the same |
| VolumeReviews.ReviewBacking | src/phantowd-api/storage_registry_backing_linux.go:36-94 | one backing per reviewed volume; of a volume observed once it counts the physical leaves and the MD arrays reachable from the mounted node, and each kind has its exact condition on the inventory; its lookups cannot fail |
| VolumeReviews.BackingIsMeant | src/phantowd-api/storage_registry_backing_linux.go:62-92 | a backing counts what is reachable from the mounted node, and its kind is decided by that node, its parent and the MD arrays below it |
| Sampling.Reader.ReadRelation | src/phantowd-api/storage.go:312-350 | listing a relation directory and reading its links one by one gives the one relation those reads determine, or none |
| Sampling.EveryWorldHasRelations | src/phantowd-api/storage.go:312-350 | every trace of worlds determines its relations, so the collector's hypothesis about them can always be met |
| Sampling.Reader.ObserveMetadata | src/phantowd-api/storage.go:231-310 | reading attribute by attribute and link by link succeeds exactly when those reads, each at its own instant, give metadata |
| Sampling.TwicePinned | src/phantowd-api/storage.go:231-310 | every attribute of a disk read alike in two passes was read at least once, with all of its reads between two reads of the same sequence |
| StorageCollection.Collect | src/phantowd-api/storage.go:88-200 | publishes exactly when listing, both passes, topology and final listing all agree, and then the snapshot of what both passes read |
| StorageCollection.PublishedIsConsistent | src/phantowd-api/storage.go:88-200 | if sequences never return, of every record in a published snapshot: a whole disk held its published generation at one instant between the passes, and each published field, token and lower block was read as published under it, the holders read being exactly the nodes stacked on it; a partition was read as published and takes its parent and removable flag from the whole disk at the directory of its path |
| StorageCollection.BuildObservations | src/phantowd-api/storage.go:351-385 | succeeds exactly when every partition has one parent disk, targets are distinct, and holders and slaves are mutual |
| StorageCollection.AttachParents | src/phantowd-api/storage.go:455-484 | every partition gets the one whole disk at the directory of its path |
| StorageCollection.MarkedMeansShared | src/phantowd-api/storage.go:527-538 | a valid serial or WWN is marked ambiguous exactly when another disk reports it |
| StorageCollection.PublishedIsCompleteWhen | src/phantowd-api/storage_source_set.go:25-106 | a published snapshot passes the completeness check exactly when its device numbers are usable and its topology is sound; its partitions have no lower blocks |
| StorageCollection.PublishedSearchesAgree | src/phantowd-api/storage.go:88-200 | every published inventory has the collector's shape, so all three searches fail on it exactly over a cycle, the leaf search also over a virtual leaf, and a successful leaf search gives the reachable leaves |
| PartitionTables.Correlate | src/phantowd-api/storage_partition_correlation.go:48-163 | succeeds exactly when the disk is a sized record of a complete inventory and table and kernel agree; entries and kernel partitions then correspond one to one with equal number, start and size, field by field in the order of the table |
| PartitionTables.MatchIsBijection | src/phantowd-api/storage_partition_correlation.go:130-162 | matching by number with equal counts is the same as that bijection |
| PartitionTables.EntriesStayInside | src/phantowd-api/storage_partition_correlation.go:137-143 | every accepted entry ends inside the disk, also in bytes, without wrapping |
| GptIdentities.Classify | src/phantowd-api/storage_partition_classification.go:62-167 | succeeds exactly on a present list of valid bindings without a repeated disk name, device number or partition name; the copied list is absent exactly for no bindings |
| GptIdentities.ComparedMeans | src/phantowd-api/storage_partition_classification.go:75-132 | what a classified set tells of every disk and partition: valid names, usable devices and numbers, canonical identifiers and the hint of the type |
| GptIdentities.GuidMarks | src/phantowd-api/storage_partition_classification.go:139-146 | a disk GUID is ambiguous exactly when another GPT disk carries it |
| GptIdentities.UuidMarks | src/phantowd-api/storage_partition_classification.go:147-154 | a PARTUUID is ambiguous exactly when another partition carries it |
| GptIdentities.NeverExactlyOneGuid | src/phantowd-api/storage_partition_classification.go:139-146 | the number of ambiguous GUIDs is never one |
| GptIdentities.NeverExactlyOneUuid | src/phantowd-api/storage_partition_classification.go:147-154 | the number of ambiguous PARTUUIDs is never one |
| GptIdentities.DispositionsSum | src/phantowd-api/storage_partition_classification.go:92-132 | the table dispositions add up to the number of candidates |
| GptIdentities.Summarise | src/phantowd-api/storage_partition_observation.go:45-78 | a summary is returned exactly when the list of bindings is present and counted and the validator accepts the result |
| GptIdentities.SummaryAcceptedExactly | src/phantowd-api/storage_partition_observation.go:45-112 | a classification is summarised exactly from one to six candidates with at most 1536 partitions |
| GptIdentities.EmptySetIsRefused | src/phantowd-api/storage_partition_classification.go:66-69 | the empty candidate set classifies and would summarise to a valid value, but is refused |
| GptIdentities.Publish | src/phantowd-api/storage_broker_linux.go:545-549 | classifying and then summarising succeeds exactly within those limits on comparable bindings; the summary counts GPT disks, partitions and those that share an identifier, and its coverage says none, some or all |
| VpdPages.SplitPrinted | src/phantowd-api/storage.go:607-633 | splitting a printed descriptor list gives the list back |
| VpdPages.PrintSplit | src/phantowd-api/storage.go:607-633 | a payload that splits is the print of that list |
| VpdPages.ParseNaaPage | src/phantowd-api/storage.go:602-652 | every page gets the verdict of the one list it prints: unavailable, present or ambiguous by its distinct logical-unit NAA designators, invalid for an unfit one; a page that prints no list is invalid |
| VpdPages.PrintedOnce | src/phantowd-api/storage.go:643-652 | a page prints at most one list |
| VpdPages.HexInjective | src/phantowd-api/storage.go:627 | different designators have different texts, so counting texts counts designators |
| VpdPages.HexReads | src/phantowd-api/storage.go:627 | a designator is written with two lower-case digits for every byte, the higher half first |
| VpdPages.HeaderBits | src/phantowd-api/storage.go:617-621 | a descriptor counts exactly with binary code set, logical-unit association and NAA type, whatever its other bits |
| VpdPages.NaaFormats | src/phantowd-api/storage.go:622-625 | the accepted designators: NAA 2, 3 and 5 in eight bytes, 6 in sixteen |
| MdStatusTexts.ParseText | src/phantowd-api/mdraid.go:323-414 | the records of a text, with distinct valid names, exactly when every line that counts parses, nothing conflicts and counts and slots agree |
| MdStatusTexts.MemberRoundTrip | src/phantowd-api/mdraid.go:633-663 | a member is read back with any index and any suffix of its state |
| MdStatusTexts.SuffixMeans | src/phantowd-api/mdraid.go:651-661 | no suffix or (A) is an active member, (S) a spare, (F) a faulty one, and nothing else is any |
| MdStatusTexts.MembersRefused | src/phantowd-api/mdraid.go:358-366 | the members of a header are refused exactly when one of its fields is malformed |
| MdStatusTexts.CountsRoundTrip | src/phantowd-api/mdraid.go:665-683 | printed counts are read back and are never taken for slots |
| MdStatusTexts.CountsExactly | src/phantowd-api/mdraid.go:665-683 | two texts around one slash are counts exactly for 32-bit numbers with an expected count from one to thirty-two, and malformed otherwise |
| MdStatusTexts.FieldsRefused | src/phantowd-api/mdraid.go:379-394 | the fields of a line are refused exactly when one of them is malformed as counts |
| MdStatusTexts.SlotsRoundTrip | src/phantowd-api/mdraid.go:685-699 | a printed slot text is read back and is never taken for counts |
| MdStatusTexts.HeaderRoundTrip | src/phantowd-api/mdraid.go:335-374 | a printed header is read back with its state, level and members, with or without a remark in parentheses |
| MdStatusTexts.TextRoundTrip | src/phantowd-api/mdraid.go:323-403 | a text of header lines with optional remarks and of lines with any number of words, counts, slot texts and a sync, starting with a header, is read back as exactly what it says |
| MdStatusTexts.AcceptedPrintsBack | src/phantowd-api/mdraid.go:323-403 | the tokens of every accepted text can be printed as such a text, and reading it again gives them back |
| MdHealth.ParseRecords | src/phantowd-api/mdraid.go:323-414 | the records of the status tokens, with distinct valid names, returned exactly when nothing conflicts and counts and slots agree |
| MdHealth.CountsAgree | src/phantowd-api/mdraid.go:380-387 | every count given anywhere for an array is the count of its record in the result |
| MdHealth.SlotsAgree | src/phantowd-api/mdraid.go:388-393 | every slot text given anywhere for an array is the one of its record in the result |
| MdHealth.HeaderAgrees | src/phantowd-api/mdraid.go:335-374 | every header starts the record that keeps its name, state, level and members for good |
| MdHealth.ActionAgrees | src/phantowd-api/mdraid.go:395-400 | the action of a record is idle until its first sync line, and then what the last one says |
| MdHealth.ReadArray | src/phantowd-api/mdraid.go:416-579 | the comparison of both sources, with active and degraded adding up to the number of disks; what a failed read leaves is what the record says; a blank level never agrees |
| MdHealth.MatchedMeans | src/phantowd-api/mdraid.go:500-579 | what it takes for a record to match sysfs: members, faulty members, counts, level, action and state, each in its own terms |
| MdHealth.EveryVerdict | src/phantowd-api/mdraid.go:784-810 | the exact condition of every health verdict on record and attributes |
| MdHealth.HealthyExactly | src/phantowd-api/mdraid.go:784-810 | healthy means exactly that both sources agree on members, counts, level, state and action, nothing is degraded or faulty, and given slots are all up and as many as the disks; no count wraps |
| MdHealth.CollectHealth | src/phantowd-api/mdraid.go:102-257 | one report for every record and every other array of sysfs, of which the first sixteen by name come out in order, and the status of the inventory for every outcome of the status text, partial after a cut |
| MdHealth.StatusExactly | src/phantowd-api/mdraid.go:102-213 | when each inventory status is reported, on the block names, the status text and the agreement of both sources |
| MdHealth.OtherReported | src/phantowd-api/mdraid.go:184-213 | an array that only sysfs shows is reported inactive when it says so and unknown otherwise |
| MdHealth.FinishedIsUnique | src/phantowd-api/mdraid.go:215-221 | the reported names are distinct, so the finished list strictly ascends and is one and the same whatever the sort does |
| MdHealth.HealthyIsConfirmed | src/phantowd-api/mdraid.go:168-257 | a healthy report in the finished list rests on a record of the status text that sysfs confirms |
| MdHealth.AvailableIsAgreed | src/phantowd-api/mdraid.go:168-213 | an available inventory has every array in both sources, in full agreement |
| WitnessSets.Retain | src/phantowd-api/smart_census_witness_set_linux.go:34-63 | all witnesses or none: on failure every witness already retained is released |
| WitnessSets.WitnessSet.Check | src/phantowd-api/smart_census_witness_set_linux.go:91-117 | succeeds exactly when open, not in review and both censuses and all witnesses hold; any failure sets review |
| WitnessSets.WitnessSet.Close | src/phantowd-api/smart_census_witness_set_linux.go:124-146 | attempts every release once, and closes only if all are certain |
| WitnessSets.ReleasedAtMostOnce | src/phantowd-api/smart_census_witness_set_linux.go:124-146 | over any calls each witness is released at most once, and exactly once when the set is closed |
| WitnessSets.ReviewIsSticky | src/phantowd-api/smart_census_witness_set_linux.go:91-117 | once review is set no later check succeeds |
| WitnessSets.ReviewExactly | src/phantowd-api/smart_census_witness_set_linux.go:91-146 | a set is under review exactly when an earlier call met a census or witness that did not hold, or a release that was not certain |
| WitnessSets.CheckSucceedsExactly | src/phantowd-api/smart_census_witness_set_linux.go:91-117 | a check succeeds exactly when it enters a set that is open and not under review, and both censuses and every witness hold |
| WitnessSets.UncertainStaysUncertain | src/phantowd-api/smart_census_witness_set_linux.go:129-145 | an uncertain release never becomes a successful close and is never repeated |
| WitnessSets.CloseSucceedsExactly | src/phantowd-api/smart_census_witness_set_linux.go:124-146 | a close succeeds exactly when already closed, or when no release was uncertain and all are certain |

## Left out

- HTTP handlers, cookies, JSON and origin checks, and the routing around the modelled calls: thin gates.
- Argon2, SHA-256, base64 and constant-time comparison: a derivation is an arbitrary relation, equality is equality.
- The text of sysfs and proc attributes: values arrive parsed, or as unreadable.
- MdStatusTexts.ParseText: starts from lines split at white space, each with the sync action found in it or with the fact that its progress is malformed; the size limits, the percentages and their search in the line are local.
- The ownership marks that reject a copied witness set, and absent lists where no collector makes one.
- The times of session creation, password change and logout are any numbers: only a request reads the clock of the run.
- Distinct error values where the source returns one and the same error.
- Candidate-by-candidate correlation (`correlateCandidatePartitionTables`): a loop over `PartitionTables.Correlate`.
- The table of well-known GPT type GUIDs is a parameter, and the fixed limitation texts of snapshots and summaries are not compared.
- Policy and registry validation beyond distinct volume ids and UUIDs.
- Swap observation, descriptor opening and closing in discovery, mount-table parsing and mount-path decoding.
- The serial-number page 80h, memory and uptime readers, storage brokers, fixtures and self-tests.
- Sorting in place: `sort.Slice` and `sort.Strings` are a sorting function on values; keys that are compared are distinct wherever the order matters.
- StorageCollection.AttachParents: observations are rebuilt as a new list instead of written in place.
