# subconv-next: models and proofs

subconv-next turns proxy subscriptions into Mihomo configurations. This project models, in Dafny, the parts of
it where state, interleaving or independent computations of the same thing make mistakes likely, and proves what
those parts are for. `dafny verify dfyconfig.toml` checks all of it.

The program's own form is kept. Objects that are updated in place are classes (`LockTable`, `TokenIndex`,
`AccessBuffer`, `RefreshGate`, `RequestRateLimiter`, `ParseCache`, `Host`), loops are methods with invariants, and
each is proved equal to a specification function; the theorems are then about that function, over all inputs, all
runs or all reachable states. Protocols are transition systems with one atomic step per critical section.

**Concurrent server protocols.** `WorkspaceLocks` is the reference-counted keyed lock manager; `LockSessions` is
every caller that takes several locks in sorted order. `PublishedIndex` is the token index in memory against the
metadata on disk, with writers, lookups and first-time loads in between their critical sections.
`PublishedAccess` is the batched access counter with its timers, failed saves and requeues. `RefreshAdmission` is
the claim of keys and a slot by a refresh. `RateLimiter` refines the limiter to the full history of accepts. `Common` and `Text` hold what all share.

**Node identity and the final node list.** `SanitizeText`, `Nodes`, `NodeIdentity`, `Collection` and `ProxyNames`
are normalisation, deduplication, ids and names. `NodeDeletion`, `DeletionRuns`, `DeletionOutcomes` and
`HiddenAgreement` are deletion records that survive changing ids, followed up to the final list in
`DeletedNotRendered` and told by the fields of nodes in `DeletionByName`. `FinalNodes` and `FinalNodeLaws` are the
pipeline of filters, overrides and audit; `ParseCache` is the bounded cache in front of the parser.

**Generator and linter.** `RuleText`, `RuleCatalog`, `CustomRules`, `ProxyGroups`, `RuleBuilder` model the three
builders of groups, rules and providers for an arbitrary well-formed catalog; `PlannedGroups` and `GroupContents` say
which groups there are and what is in them, `RulesInOrder` in which order rules are written. `ConfigLint` is the
linter; `GeneratedConfig` is what the builders make together, with the conditions on their inputs, and
`GeneratorLint` proves that it passes exactly under these; `UserAdditions` adds the user's own groups, rules and
providers. `YamlBatches` is the batched encoder.

**Backup.** `BackupArchive` with `ArchiveNames` is export and the acceptance of archives, which `ArchiveAcceptance`
tells with every limit written out; `UciConfig` with `ConfigSections` the forced data directory, `BackupRestore` the
transactional restore with a failure possible at every file and service operation, `BackupRoundTrip` the two together.

## What the proofs found

Where a promise does not hold of the code, the model follows the code; a lemma gives the input, or the exact
condition is proved for all inputs.

- A rolled-back restore gives the configuration its text back but leaves it with mode 0600, because the rollback
  copy is made with that mode. `BackupRestore.Host.Restore` says exactly when;
  `BackupRoundTrip.ExportedConfigLosesMode` is the case of a 0644 configuration.
- Export can write archives that the scan refuses: it does not check the size of the configuration file, the
  member names, the size of the manifest, the total including the manifest, that there is a
  version, or that file names survive JSON. `BackupArchive.Export` says exactly when; `ExportsTooMuch`,
  `VersionlessIsRefused` and `ChangedPathIsRefused` are such archives.
- The name ".." passes the check of archive names (`ArchiveNames.ValidNameIff`); it is refused later, as no data.
- Restoring a draft prunes the record of a deleted node that is still collected, if every subscription the record was
  seen in is gone (`DeletionOutcomes.RestoringPrunes`); listing the deleted nodes would keep it.
- The time of last access can be lost when two hits enter the critical section in another order than they read
  the clock (`PublishedAccess.HitKeepsNewestIff`; `OutOfOrderHitLosesTime` is a run).
- A batch of hits that is in flight when a deleted publication is forgotten is put back after it fails, and its timer
  is armed again for ever (`PublishedAccess.ForgottenForGoodIff`, `RemovedNeverDrains`).
- A stored custom node whose source has another kind than custom gets one id in the editor and another in the
  generator (`NodeIdentity.IdsAgreeIff`; `OtherKindGetsTwoIds` is a node). Nothing the editor stores is like that
  (`StoredIdsAgree`): such a node comes only from a state file edited by hand or restored, or from a client that
  writes a whole node state.
- `EnsureUniqueProxyNames` compares numbered names with nothing (`ProxyNames.UniqueIff`; `NumberedNameClashes`).
- A user rule that repeats the generated MATCH line moves that line forward (`RuleBuilder.MatchStaysLastIff`;
  `RepeatedMatchMoves`).
- With region groups on, custom rules are resolved with other reserved names for groups than for rules
  (`CustomRules.RegionResolutionsAgreeIff`; `RegionNameIsTaken`); the rule then points at the region group. The
  linter is still satisfied (`GeneratorLint.CreatedTargetsExist`).
- The linter compares trimmed references with untrimmed proxy names, so a node name with outer space fails unless
  its trimmed form happens to exist (`GeneratorLint.GeneratorSatisfiesLinterIff`; `OuterSpaceIsRejected`).
- The linter checks neither the target of the MATCH rule nor an earlier MATCH rule (`ConfigLint.LintRules`).

## Assumptions

- Ids, dedupe keys, fingerprints, digests and token hashes are injective; fresh tokens, publish ids, timers and
  lock entries never repeat.
- Metadata reads do not fail spuriously and a metadata file is written atomically.
- The limiter's clock does not go back.
- The compensating operations of the rollback, whose errors the program ignores, succeed.
- Case folding, sanitising, region inference, keyword matching, the parser, SHA-256, JSON, time parsing and YAML
  encoding are parameters; what is assumed of each is a named predicate (`Sound`, `Lawful`, `Injective`,
  `SameShaReflexive`, `EncodesBlocks`).

## Model

| member | source | states |
|---|---|---|
| WorkspaceLocks.LockTable.constructor | internal/api/workspace_locks.go:9-19 | a new lock table has no entry and no caller, which is the state every run theorem starts from |
| WorkspaceLocks.LockTable.Register | internal/api/workspace_locks.go:25-36 | the first critical section of lock and tryLock: the caller is registered on the entry its key maps to, a new one only when there is none, and the whole state changes by exactly one Register step |
| WorkspaceLocks.LockTable.TryAcquire | internal/api/workspace_locks.go:68-78 | TryLock succeeds exactly when nobody holds the entry; a failed attempt leaves the caller registered until it unregisters |
| WorkspaceLocks.LockTable.Unlock | internal/api/workspace_locks.go:39-40 | unlocking frees the entry of a holder and of nobody else |
| WorkspaceLocks.LockTable.Unregister | internal/api/workspace_locks.go:41-46 | the last section: the count goes down and the key is unmapped exactly when nobody is registered any more |
| WorkspaceLocks.StepKeepsInv | internal/api/workspace_locks.go:20-86 | every critical section of every caller keeps: callers of a key share one entry, counts are the numbers of registered callers, mapped means count positive, at most one holder per entry |
| WorkspaceLocks.RunKeepsInv | internal/api/workspace_locks.go:20-86 | the invariant holds after every interleaving of critical sections |
| WorkspaceLocks.MutualExclusion | internal/api/workspace_locks.go:20-86 | in every reachable state callers of a key share one entry object and at most one of them holds it, across creation, reclamation and failed tryLocks |
| WorkspaceLocks.CountsAreExact | internal/api/workspace_locks.go:25-46 | in every reachable state a key is mapped if and only if some caller uses it, and its reference count is the number of callers on that key |
| WorkspaceLocks.IdleManagerIsEmpty | internal/api/workspace_locks.go:41-46 | when no call is in flight nothing is retained: no entry is mapped and no mutex is locked |
| WorkspaceLocks.LeavingCanUnregister | internal/api/workspace_locks.go:41-46 | a caller that has unlocked can always unregister, and the count it decrements is positive |
| LockSessions.LockOrder | internal/api/workspace_locks.go:92-108 | the keys that are locked are strictly ascending, and are exactly the trimmed non-blank hashes that were passed |
| LockSessions.StepKeepsSystemInv | internal/api/workspace_locks.go:92-116 | every step of every session keeps the agreement between what a session thinks it holds and what the manager says |
| LockSessions.NoDeadlock | internal/api/workspace_locks.go:92-116 | while some session that locks through lockWorkspaceHashes is unfinished, some session can take a step |
| LockSessions.ScheduleKeeps | internal/api/workspace_locks.go:92-116 | the invariant holds throughout every schedule, and each step uses up work |
| LockSessions.EverySessionFinishes | internal/api/workspace_locks.go:92-116 | every schedule is bounded, and one that cannot be continued has let every session lock, run and unlock, leaving the lock table empty |
| PublishedIndex.TokenIndex.Replace | internal/api/published.go:308-320 | removes the old hash only if it still names this publication, then maps the new one; nothing else changes |
| PublishedIndex.TokenIndex.Remove | internal/api/published.go:322-328 | removes a hash only if it still names this publication |
| PublishedIndex.TokenIndex.MergeDiscovered | internal/api/published.go:359-369 | the first-time load adds what it found on disk without overwriting entries made meanwhile |
| PublishedIndex.StepKeepsInv | internal/api/published.go:285-369 | every critical section of create, rotate, update, delete, load and lookup keeps the index invariant, with any number of requests in between their sections |
| PublishedIndex.RunKeepsInv | internal/api/published.go:285-369 | the index invariant after every interleaving |
| PublishedIndex.DeadStays | internal/api/published.go:873-888 | a token hash that a publication has given up never becomes its live token again, which is why a late removal is harmless |
| PublishedIndex.EntryStays | internal/api/published.go:308-328 | no step by anybody removes the index entry of a live token |
| PublishedIndex.RetiredTokensLeave | internal/api/published.go:308-328 | the index write of a rotation or deletion and the repair of a lookup take the retired token out, and no step takes out a live one |
| PublishedIndex.CoveredStays | internal/api/published.go:285-306 | a stored publication that is indexed, or has a writer between its metadata save and its index write, stays so through every step |
| PublishedIndex.MergeCovers | internal/api/published.go:336-369 | a finished load covers every publication that no writer covers, although it read the disk before |
| PublishedIndex.IndexAgreesWithStore | internal/api/published.go:227-369 | after any interleaving from a restart: once loaded, every stored, non-revoked publication is indexed under its current hash or has a writer about to index it, and no entry names a publication its hash was not issued for |
| PublishedIndex.TokensIdentify | internal/api/published.go:844-871 | no two publications ever answer to the same token hash |
| PublishedIndex.LookupIsExact | internal/api/published.go:844-871 | with no writer in between, a lookup finds exactly the stored, non-revoked publication with the hash, and reports a missing one exactly when there is none |
| PublishedIndex.LookupAnswers | internal/api/published.go:844-871 | a lookup by itself answers from a fresh read of the metadata, so a stale entry never yields a publication with another hash |
| PublishedIndex.LookupNeverMisses | internal/api/published.go:844-871 | a lookup begun while a token is live, indexed or without a writer about to index it, is never told that the token is missing and can only answer with its publication, through any repairs, writers, other lookups and loads, its own first load after a restart included, until the token is rotated or deleted |
| PublishedIndex.BeginTracks | internal/api/published.go:849-856 | the first section of such a lookup finds the publication indexed, or an index that nobody has finished loading and whose loads in progress will all find it |
| PublishedIndex.FindableStays | internal/api/published.go:336-369 | no step but a rotation or deletion of the publication changes that |
| PublishedAccess.AccessBuffer.Record | internal/api/published.go:622-657 | the section that counts a hit: whether it takes the batch out at once or arms a timer, and the exact new buffer |
| PublishedAccess.AccessBuffer.Flush | internal/api/published.go:659-678 | the section of a fired timer: it takes out all that is pending for its publication and nothing else |
| PublishedAccess.AccessBuffer.Requeue | internal/api/published.go:690-705 | after a failed save the counts are put back, the later time is kept, and a timer is armed unless one is |
| PublishedAccess.AccessBuffer.Forget | internal/api/published.go:707-714 | forgetting a publication drops its buffer and stops its timer |
| PublishedAccess.RecordConservesAt | internal/api/published.go:622-657 | a hit raises the total of its own publication by one and of no other |
| PublishedAccess.StepConserves | internal/api/published.go:622-705 | record, fire, flush, persist, failed persist, requeue and removal all keep stored + pending + taken out equal to the hits so far |
| PublishedAccess.StepSchedules | internal/api/published.go:622-705 | pending hits always have a timer armed or its callback queued |
| PublishedAccess.HitsAreConserved | internal/api/published.go:622-705 | over every interleaving, for a publication that is not deleted: hits recorded equal the rise of the stored count plus pending plus counts in flight, and pending hits have a timer of their own |
| PublishedAccess.SavesAreSpaced | internal/api/published.go:622-660 | hits that are saved at once are at least thirty seconds apart while the publication is not forgotten |
| PublishedAccess.SavesIff | internal/api/published.go:622-660 | a hit is saved at once if and only if hits on the publication were not taken out within thirty seconds |
| PublishedAccess.LastAccessNeverMovesBack | internal/api/published.go:680-688 | the stored time of last access never decreases over any run |
| PublishedAccess.StaysRemoved | internal/api/published.go:285-306 | a deleted publication is never stored again by a late flush or requeue |
| PublishedAccess.RemovedNeverDrains | internal/api/published.go:659-705 | until it is forgotten, no hit on a deleted publication is dropped: it goes from the buffer into a batch that fails and back, with a timer or a batch at all times |
| PublishedAccess.ForgottenForGoodIff | internal/api/published.go:707-714 | after it is forgotten, memory holds nothing for it if and only if no batch was in flight then and no late hit comes |
| PublishedAccess.OtherStepsKeepNewest | internal/api/published.go:659-705 | no step but a hit can lose the time of the newest hit |
| PublishedAccess.HitKeepsNewestIff | internal/api/published.go:622-657 | a hit keeps the newest time exactly when its clock reading is not older than the newest one, or the newest one is already stored or in a batch |
| PublishedAccess.NewestHitIsStored | internal/api/published.go:622-705 | if hits enter the section in clock order, then once nothing is left in memory the stored time is at least that of the newest hit |
| PublishedAccess.OutOfOrderHitLosesTime | internal/api/published.go:622-657 | a concrete run of three hits, all counted, in which the newest time is lost because an older reading entered the section later |
| RefreshAdmission.RunKeys | internal/api/refresh.go:99-110 | a run claims one or two different keys, the first of them the service key exactly when there is no workspace |
| RefreshAdmission.ContendIff | internal/api/refresh.go:99-110 | two runs contend if and only if they are for the same workspace, both for the service, or write the same file |
| RefreshAdmission.RunsDoNotContend | internal/api/refresh.go:68-128 | no two runs in progress do |
| RefreshAdmission.RefreshGate.TryStart | internal/api/refresh.go:68-97 | admission decides on any claimed key, then on capacity, and claims all keys and one slot at once or nothing |
| RefreshAdmission.RefreshGate.AnyKey | internal/api/refresh.go:71-76 | the scan for a running refresh answers whether any of the keys is claimed |
| RefreshAdmission.RefreshGate.Finish | internal/api/refresh.go:112-125 | exactly the keys that still map to the run's channel are freed, one slot if there was any such key, and the flag follows the occupied slots |
| RefreshAdmission.FinishNeverBlocks | internal/api/refresh.go:112-129 | a finishing run always owns all its keys, the slot it receives is there, and its channel is not yet closed |
| RefreshAdmission.FinishOwns | internal/api/refresh.go:112-129 | after a finish none of its keys is claimed, and every claimed key still has its running owner |
| RefreshAdmission.StepKeepsInv | internal/api/refresh.go:68-129 | start, finish and close keep the admission invariant |
| RefreshAdmission.AdmissionIsSafe | internal/api/refresh.go:68-129 | in every reachable state running refreshes own disjoint keys, occupied slots are the running refreshes and never more than capacity, the Refreshing flag says whether there is one, and a key is claimed exactly if a running refresh owns it |
| RefreshAdmission.IdleGateIsEmpty | internal/api/refresh.go:112-129 | once every run has closed its channel, no key and no slot is claimed and the flag is down |
| RefreshAdmission.WaitingIsSound | internal/api/refresh.go:131-147 | a waiter that finds no channel may conclude there is no run; one that sees its channel closed may conclude that run is over |
| RateLimiter.RequestRateLimiter.Allow | internal/api/security.go:38-69 | decision and new table of one request |
| RateLimiter.RequestRateLimiter.Cleanup | internal/api/security.go:45-53 | at most once a minute, exactly the keys without a recent request are dropped |
| RateLimiter.TrimmedIsLastMinute | internal/api/security.go:57-62 | trimming leaves as many entries as the key has accepts in the last closed minute |
| RateLimiter.SameLastMinute | internal/api/security.go:57-62 | the trimmed list of what the limiter kept equals the trimmed list of the whole history |
| RateLimiter.DecisionRefinesHistory | internal/api/security.go:38-69 | a request is rejected if and only if the last closed minute of its full history is full, or its key is not in a table that is full |
| RateLimiter.NextRepresents | internal/api/security.go:38-69 | every request, allowed or not, keeps the table a faithful remainder of the full history |
| RateLimiter.NoWindowExceedsLimit | internal/api/security.go:38-69 | over every sequence of requests with non-decreasing clocks no closed 60-second window holds more than limit accepts of a key, and the table never outgrows its cap |
| RateLimiter.IdleKeysGo | internal/api/security.go:38-69 | after every request of a run no key is kept whose last accept is two minutes old |
| ParseCache.ParseCache.constructor | internal/pipeline/parse_cache.go:36-41 | a new cache is empty and valid |
| ParseCache.ParseCache.LookUp | internal/pipeline/parse_cache.go:47-57 | the first critical section: a hit returns the stored result and moves its entry to the front |
| ParseCache.ParseCache.MakeRoom | internal/pipeline/parse_cache.go:70-77 | the eviction loop ends with room for the entry, never takes from an empty list, and leaves map, list and counters in step |
| ParseCache.ParseCache.StoreEntry | internal/pipeline/parse_cache.go:64-82 | an entry that another thread has stored meanwhile is kept, any other is stored in front |
| ParseCache.ParseCache.Insert | internal/pipeline/parse_cache.go:63-82 | the second critical section on the object |
| ParseCache.ParseCache.Parse | internal/pipeline/parse_cache.go:43-82 | the cache is transparent: the result is the parser's, hit or miss, cacheable or not |
| ParseCache.EvictKeepsLongest | internal/pipeline/parse_cache.go:70-77 | eviction keeps the longest run of recent entries that leaves room within all three budgets |
| ParseCache.TouchKeeps | internal/pipeline/parse_cache.go:49-51 | moving to the front keeps the bijection of map and list, the counters and the budgets |
| ParseCache.StoreKeeps | internal/pipeline/parse_cache.go:63-82 | storing keeps the bijection, the counters and all three budgets |
| ParseCache.CacheIsTransparentAndBounded | internal/pipeline/parse_cache.go:43-82 | after any interleaving of lookups and insertions by any threads, a hit is what the parser would return and entries, bytes and nodes are within their budgets |
| SanitizeText.Run | internal/model/node.go:721-753 | the function with its fast path returns, for every string including malformed UTF-8, what the builder, Fields and Join return |
| SanitizeText.ResultIsNormal | internal/model/node.go:733-753 | every result has no control characters, single inner spaces and none at its ends |
| SanitizeText.NormalFormIsFixed | internal/model/node.go:721-753 | such strings are fixed points |
| SanitizeText.SanitizeIsIdempotent | internal/model/node.go:721-753 | sanitising twice is sanitising once |
| SanitizeText.SplitJoin | internal/model/node.go:752 | splitting a singly spaced string at spaces and joining it gives it back |
| Nodes.MergeIsIdempotent | internal/model/node.go:379-399 | merging a source list again, with the primary source in front once more, changes nothing although the list is sorted by name in between |
| Nodes.SourcesNormalOnce | internal/model/node.go:359-377 | normalising a source list twice is normalising it once |
| Nodes.NormalizeIsIdempotent | internal/model/node.go:144-196 | normalising a node twice is normalising it once |
| Nodes.FixedIffNormal | internal/model/node.go:144-196 | normalising leaves a node as it is if and only if it is normal: lowered protocol and server, a port, an id, a name, clean texts, its region tags, sources sorted by name, each once, none empty, with its own first among those of its name |
| Nodes.NormalizedIsNormal | internal/model/node.go:144-196 | so every normalised node is |
| NodeIdentity.DedupeNodesByScope | internal/model/node.go:327-357 | the loop with its index table computes the specified deduplication, for all three scopes |
| NodeIdentity.DedupeKeysAreExact | internal/model/node.go:327-357 | outside scope none the collected connection keys are the keys of the input, each exactly once |
| NodeIdentity.CollectedWithoutCopies | internal/model/node.go:327-357 | on node fields: outside scope none each node has a collected node with the same protocol, lowered server, port, SNI, coarse credentials and transport (and source id per source), each collected node is such a copy of some node, and no two are |
| Collection.NothingIsLost | internal/model/node.go:327-357 | outside scope none each downloaded node has a collected copy with its tags, warnings and source, and whatever a collected node has comes from a downloaded copy or says that one was skipped |
| Collection.LabelIsCollected | internal/model/node.go:327-357 | the subscription, URL and protocol of a downloaded node are what some collected copy of it is called by |
| NodeIdentity.DedupeIdentifies | internal/model/node.go:327-357 | every collected node carries the id that its own fields and position give, in every scope; scope none drops nothing |
| NodeIdentity.CleanKeepsId | internal/model/node.go:198-222 | normalising a normalised node again does not move its id |
| NodeIdentity.CollectedIdsAgree | internal/pipeline/final_nodes.go:17-29 | the generator recomputes, for every collected node in every scope, the id the collection gave it |
| NodeIdentity.IdsAgreeIff | internal/pipeline/node_state.go:36-66 | editor and generator agree on every id, custom nodes included, if and only if every stored custom node has the custom kind |
| NodeIdentity.CustomNodesAreReady | internal/model/node_state.go:133-154 | custom nodes come out of state normalisation with the prefix and the clean fields that agreement needs, and pass the generator's custom test if and only if they were stored without a kind or as custom |
| NodeIdentity.LoadCustomNodes | internal/model/node_state.go:133-155 | the loop keeps the first custom node of every id, each normalised |
| NodeIdentity.CustomKeeps | internal/model/node_state.go:133-155 | a stored custom node keeps its id, under the prefix, its connection, its name, and what its source has; the rest of its source is filled up |
| NodeIdentity.LoadedIds | internal/model/node_state.go:133-155 | loading loses no id |
| NodeIdentity.LoadedIff | internal/model/node_state.go:133-155 | and gives exactly the first normalised node of each |
| NodeIdentity.AddedKeeps | internal/api/nodes.go:734-738 | an added node has its own id or that of its connection, under the prefix |
| NodeIdentity.AddedIsCustom | internal/api/nodes.go:734-738 | whatever node is sent, the editor stores it with the prefix and the custom kind |
| NodeIdentity.LoadedAreCustom | internal/model/node_state.go:133-155 | loading keeps custom kinds, so adding, loading and deleting never leave another kind |
| NodeIdentity.StoredIdsAgree | internal/pipeline/node_state.go:36-66 | with custom nodes as the program stores them, editor and generator agree on every id in every scope |
| NodeIdentity.OtherKindGetsTwoIds | internal/pipeline/final_nodes.go:24-28 | a stored custom node of kind subscription keeps its stored id in the editor and gets a connection id in the generator |
| ProxyNames.EnsureUniqueProxyNames | internal/model/node.go:574-590 | the counting loop computes the specified numbering |
| ProxyNames.DefaultStyleIsInjective | internal/model/node.go:592-628 | the default suffix style gives different names for different bases or numbers |
| ProxyNames.UniqueIff | internal/model/node.go:574-590 | the resulting names are pairwise distinct if and only if no given name is the numbered form that a repeated name will take |
| ProxyNames.NumberedNameClashes | internal/model/node.go:574-590 | a concrete input on which names are not unique |
| FinalNodes.Sift | internal/pipeline/final_nodes.go:40-60 | one filtering stage keeps and logs exactly as its test says, in order |
| FinalNodes.ApplyNodeOverrides | internal/pipeline/node_state.go:68-134 | overrides are applied by id and the id survives the new normalisation |
| FinalNodes.DedupeFinalNodes | internal/pipeline/final_nodes.go:129-152 | the loop with its index table computes the specified merging and its audit entries |
| FinalNodes.BuildFinalNodes | internal/pipeline/final_nodes.go:14-103 | the staged loops compute nodes, audit and the three counts of the specification |
| FinalNodes.StageConserves | internal/pipeline/final_nodes.go:40-60 | a stage keeps or logs every node exactly once |
| FinalNodes.MergeConserves | internal/pipeline/final_nodes.go:129-152 | deduplication keeps or logs every node exactly once |
| FinalNodeLaws.EveryCandidateIsAccountedFor | internal/pipeline/final_nodes.go:14-103 | each candidate ends up exactly once, in the final list or in the audit, and RawCount = FinalCount + ExcludedCount |
| FinalNodeLaws.SurvivorsAreExact | internal/pipeline/final_nodes.go:40-91 | the staged pipeline keeps exactly the candidates that no filter, validation, disabling or deletion rejects, each in its overridden form |
| FinalNodeLaws.AuditIsExact | internal/pipeline/final_nodes.go:120-127 | the audit of the stages holds exactly one reason for each candidate that does not survive: the first that applies |
| FinalNodeLaws.CandidateSurvivesIff | internal/pipeline/final_nodes.go:43-91 | by the settings alone: a candidate survives, with its overrides, if and only if it is shown if informational, included, not excluded, renderable before and after overrides if that is asked for, and neither disabled nor deleted |
| FinalNodeLaws.AuditSaysWhy | internal/pipeline/final_nodes.go:43-126 | the stages log exactly the candidates against which one of these holds, with the first that does, under the id of the candidate and the name it then had |
| FinalNodes.OverrideChanges | internal/pipeline/node_state.go:68-134 | an override changes what it gives, restores the id, and leaves of a normal node everything else as it is |
| FinalNodes.OverrideTags | internal/pipeline/node_state.go:68-134 | tags are replaced if given and gain the region tags of the resulting name |
| FinalNodeLaws.MergeViews | internal/pipeline/final_nodes.go:154-172 | a merged node is shown with the union of the sources of both |
| FinalNodeLaws.FinalConnectionsAreExact | internal/pipeline/final_nodes.go:129-152 | unless the scope is none the final connection keys are pairwise distinct and exactly those of the survivors, with exactly their sources, tags and warnings; with scope none nothing is lost |
| Nodes.SameIdIff | internal/model/node.go:202-222 | two nodes have equal ids if and only if protocol, lowered server, port, credentials, transport and TLS parameters agree, with the source id and the index where the scope says so |
| FinalNodeLaws.FinalNodesAreConnections | internal/pipeline/final_nodes.go:129-152 | on node fields: unless the scope is none, each survivor has a final node that agrees with it in all of these, each final node has such a survivor with its id, two final nodes never agree in all, and a final node shows exactly the sources, tags and warnings of the survivors that agree with it |
| FinalNodeLaws.NothingHiddenGetsThrough | internal/pipeline/final_nodes.go:78-91 | no final node is disabled or resolved as deleted |
| FinalNodeLaws.FinalNamesAreDistinctIff | internal/pipeline/final_nodes.go:199-201 | the final names are distinct if and only if no displayed name is the number form that a repeated one will take |
| FinalNodeLaws.FinalNamesAre | internal/pipeline/final_nodes.go:180-201 | the final nodes carry displayed names, sorted by these if asked for; a blank one is replaced by protocol and place, and the k-th of equal names becomes its k-th numbered form |
| NodeDeletion.UniqueSignatures | internal/model/node_deletion.go:28-42 | the loop computes the table of signature owners |
| NodeDeletion.OwnersAreExact | internal/model/node_deletion.go:28-42 | the table holds an id for a signature if and only if that id alone carries it |
| NodeDeletion.RememberDeletedNodeSignatures | internal/model/node_deletion.go:44-56 | exactly the deleted ids gain exactly the signatures they own |
| NodeDeletion.ResolveDeletedNodes | internal/model/node_deletion.go:58-81 | the loops compute the relation between current ids and the deletion records that hide them |
| NodeDeletion.HiddenIff | internal/model/node_deletion.go:58-81 | a node is hidden if and only if its own id is deleted, or some deletion record has a signature that this id alone carries |
| NodeDeletion.AmbiguousIsInert | internal/model/node_deletion.go:28-42 | a signature that two ids share hides nothing: without the records that carry it the resolution is the same |
| NodeDeletion.RememberDeletedNodeSources | internal/api/node_state_cleanup.go:91-115 | exactly the deleted ids gain exactly the subscriptions they are seen in |
| DeletionRuns.PruneDeleted | internal/api/node_state_cleanup.go:147-181 | the loop computes which records stay, and reports the ones that go |
| DeletionRuns.PruneForConfigChange | internal/api/node_state_cleanup.go:10-43 | what a configuration change does to the deletion records, including when it has to collect |
| DeletionRuns.RememberFromAudit | internal/api/node_state_cleanup.go:117-145 | exactly the deleted ids gain the subscriptions the last audit saw them in |
| DeletionRuns.HandleToggle | internal/api/nodes.go:432-476 | enabling removes the requested ids and all records they resolve to from the deleted and the disabled ids; disabling adds the requested ids to the disabled ones |
| DeletionRuns.HandleDelete | internal/api/nodes.go:478-545 | the deletion is refused unless every id is listed or already deleted, and the whole new state otherwise |
| DeletionOutcomes.AllowedIff | internal/api/nodes.go:478-503 | a deletion is allowed if and only if some id is requested and each is deleted already or, if not blank, listed |
| DeletionOutcomes.RefusedChangesNothing | internal/api/nodes.go:478-503 | a refused deletion changes nothing |
| DeletionOutcomes.DeletingIds | internal/api/nodes.go:505-536 | id by id: requested custom nodes are gone without a record, other requested ids are deleted, none of them stays disabled, and nothing else changes |
| DeletionOutcomes.DeletingRemembers | internal/api/nodes.go:505-536 | a deleted id is remembered with exactly the subscriptions it is found in and the signatures it alone has, besides what was known |
| DeletionOutcomes.ListingPrunes | internal/api/node_state_cleanup.go:54-67 | listing the deleted nodes keeps a record if and only if its node is listed, or a subscription it was seen in, by state, audit or nodes, is configured, or it was seen in none and the collection was incomplete |
| DeletionOutcomes.RestoringPrunes | internal/api/node_state_cleanup.go:76-89 | restoring a draft decides by state and audit alone where they know of any subscription, and by the nodes otherwise |
| DeletionOutcomes.NothingRemovedKeeps | internal/api/node_state_cleanup.go:10-43 | where no subscription is removed no record is |
| DeletionRuns.StepKeepsRecord | internal/api/node_state_cleanup.go:10-181 | no event in which its subscription stays configured and it is not re-enabled loses a deletion record, its evidence or its signature |
| DeletionRuns.RunKeepsRecord | internal/api/node_state_cleanup.go:10-181 | the same over whole runs |
| DeletionRuns.DeletionIsRecorded | internal/api/nodes.go:512-536 | deleting a subscription node with an unambiguous name leaves a record with evidence and signature |
| DeletionRuns.DeletedStaysHidden | internal/model/node_deletion.go:44-81 | after any run of refreshes that rotate ids, deletions, toggles, configuration changes and prunes, whatever id then alone carries the name of a deleted node is hidden, while its subscription stays configured and it is not re-enabled |
| DeletionRuns.EnableRemovesRecords | internal/api/nodes.go:450-460 | re-enabling removes exactly the requested records from the resolution, so it hides nothing new |
| DeletionRuns.EnabledIsVisible | internal/api/nodes.go:450-460 | a re-enabled node is visible, whatever records hid it |
| DeletionOutcomes.RecordSurvivesIff | internal/api/node_state_cleanup.go:10-43 | when a subscription is removed, a record survives if and only if the program had to collect and still finds its node, or a subscription it was seen in, by any evidence, is still configured, or it was seen in none and the collection was incomplete |
| DeletionRuns.ClearingShowsEverything | internal/api/nodes.go:820-822 | clearing overrides forgets every deletion: nothing is hidden and no evidence or signature is left |
| HiddenAgreement.CandidateKeepsSignatures | internal/pipeline/final_nodes.go:17-29 | the candidate the generator makes of a listed node has the same deletion signatures |
| HiddenAgreement.SameNodesAreHidden | internal/pipeline/final_nodes.go:29-91 | the generator leaves out exactly the ids that the editor shows as deleted, although both resolve on their own, if stored custom nodes have the custom kind |
| HiddenAgreement.StoredNodesAreHiddenAlike | internal/pipeline/final_nodes.go:29-91 | the same for custom nodes as the program stores and loads them, with no such premise |
| DeletedNotRendered.HiddenIsNotRendered | internal/pipeline/final_nodes.go:14-103 | what the editor shows as deleted is in no output, whatever the filters, overrides and scope |
| DeletedNotRendered.DeletedIsNeverRendered | internal/pipeline/final_nodes.go:14-103 | from the request to the output: after any run in which the subscription of a deleted node stays configured and it is not re-enabled, the node that then alone carries its name is not in the final list, whatever its id |
| DeletedNotRendered.DisablingAddsIds | internal/api/nodes.go:450-476 | an id is disabled after the request if and only if it was before or is requested; deletion records, evidence and custom nodes stay |
| DeletedNotRendered.DisabledIsNotRendered | internal/api/nodes.go:450-476 | after the request no node of the final list has a requested id |
| DeletedNotRendered.EnabledIsBack | internal/api/nodes.go:450-460 | after re-enabling no requested id is disabled, deleted or hidden, and an id outside the expansion of the request is disabled or deleted if and only if it was |
| DeletionByName.CalledIsSigned | internal/model/node_deletion.go:13-26 | a node has a deletion signature if and only if it has that name and protocol, the name is not blank, and it is in that subscription with that URL |
| DeletionByName.NameStaysHidden | internal/model/node_deletion.go:44-81 | on node fields: a node that alone had its subscription, URL, protocol and name is deleted; after any sparing run the node that alone has the same four is hidden, whatever its id is |
| DeletionByName.NameIsNeverRendered | internal/pipeline/final_nodes.go:14-103 | and it is in no final list |
| DeletionByName.RecordsAreNames | internal/model/node_deletion.go:44-56 | a deletion adds records only for what deleted nodes alone are called |
| DeletionByName.RecordsHideTheirNameOnly | internal/model/node_deletion.go:58-81 | an id that is not deleted itself is hidden only if it alone has the subscription, URL, protocol and name of a record |
| DeletionByName.OtherNamesStayVisible | internal/model/node_deletion.go:44-81 | a first deletion hides no node that is called otherwise than every deleted node |
| RuleText.GoIsLawful | internal/renderer/mihomo.go:1443-1449 | trimming, splitting and rule writing of the program satisfy every law the generator proofs use of text |
| RuleText.RuleLineParts | internal/renderer/mihomo.go:1443-1449 | between its commas a rule line is RULE-SET, the provider, the target, and no-resolve exactly if asked for |
| RuleText.UniqueOrdered | internal/renderer/mihomo.go:1716-1731 | the loop computes trimmed first occurrences in order |
| RuleText.UniqueIsDistinct | internal/renderer/mihomo.go:1716-1731 | its result has no repetitions |
| RuleText.InUnique | internal/renderer/mihomo.go:1716-1731 | its result has exactly the trimmed non-blank values |
| RuleCatalog.NormalizeEnabledRuleKeys | internal/renderer/rule_catalog.go:822-861 | the recursive closure over its seen set computes the specified normal form, and terminates although expansions may name themselves |
| RuleCatalog.NormalizeIsIdempotent | internal/renderer/rule_catalog.go:822-861 | normalising enabled keys twice is normalising them once, order included |
| RuleCatalog.OrderedByOrder | internal/renderer/rule_catalog.go:775-791 | the loop lists the enabled categories in the given order |
| RuleCatalog.OrderedCategoriesForRules | internal/renderer/rule_catalog.go:757-773 | the loops of the rule order compute its specification |
| RuleCatalog.SameCategories | internal/renderer/rule_catalog.go:753-773 | rules come from exactly the categories that groups and providers come from, in whatever order, and these are the enabled ones |
| RulesInOrder.OrderIs | internal/renderer/rule_catalog.go:757-773 | everything enabled: the full order; a trigger enabled: the front keys, then the others in their order; otherwise the plain order |
| RulesInOrder.InOrderIsPlaced | internal/renderer/rule_catalog.go:775-791 | the categories are exactly the enabled ones, where the order has them |
| RuleCatalog.FullModeIsEverything | internal/renderer/rule_catalog.go:793-805 | full mode enables every category exactly once and rules follow the full order |
| ConfigLint.ValidateMihomoConfig | internal/renderer/lint.go:13-177 | for every configuration and every code: the linter reports the code if and only if the configuration has that problem, stated without loops |
| ConfigLint.ProblemIsWrong | internal/renderer/lint.go:13-177 | each code means what is wrong with proxies, groups, providers or rules, told without the functions of the linter |
| ConfigLint.AcceptedIff | internal/renderer/lint.go:243-265 | a configuration is accepted if and only if nothing is wrong with it except, possibly, rules without providers |
| ConfigLint.LintProviders | internal/renderer/lint.go:58-86 | duplicate paths and unfit formats are reported exactly when two providers share a file or one has a forbidden shape, in whatever order the map is walked |
| ConfigLint.LintRules | internal/renderer/lint.go:106-156 | the rule loop reports exactly the problems of single rules and finds the last MATCH rule |
| ConfigLint.FailOnCriticalWarnings | internal/renderer/lint.go:243-265 | fails if and only if some warning has one of the critical codes |
| CustomRules.FirstFree | internal/renderer/mihomo.go:1389-1403 | the search for a free name ends, because only finitely many names are reserved, at the first free number |
| CustomRules.UniqueGroupName | internal/renderer/mihomo.go:1389-1403 | the loop computes that name, which is not reserved |
| CustomRules.ResolveCustomRules | internal/renderer/mihomo.go:1130-1201 | the loop over custom rules, with its growing reserved set, computes the specified resolution |
| CustomRules.ResolvedAre | internal/renderer/mihomo.go:1153-1198 | by the fields of the rules: one entry, in order, for each enabled rule with a key and a caption; it has the key of the rule; its target is the direct or the reject policy in these modes, the trimmed named group in mode existing_group unless that is blank, PROXY or the node selection, and otherwise a new group with the first free form of its own name or of icon and caption; its line sends that key to that target unless the rule is for a group only |
| CustomRules.CreatedAreNew | internal/renderer/mihomo.go:1130-1201 | created groups are pairwise distinct and take no reserved name |
| CustomRules.ResolutionsAgree | internal/renderer/mihomo.go:838-847 | with region groups off, the resolutions for groups, rules and providers are identical although one of them starts from keys normalised once more |
| CustomRules.RegionResolutionsAgreeIff | internal/renderer/mihomo.go:838-847 | with region groups on, the resolution for groups equals the one for rules if and only if no created group is named like a region group |
| CustomRules.CreatedAreWanted | internal/renderer/mihomo.go:1389-1403 | a created group is called what a rule that creates one wants, or a numbered form of it |
| CustomRules.RegionsOutOfTheWay | internal/renderer/mihomo.go:838-847 | so, before anything is resolved: they are equal if no such rule wants the name of a region group or a name it is a numbered form of |
| CustomRules.NamesAreTaken | internal/renderer/mihomo.go:1130-1201 | also where they differ, every name the rules use is in use among the groups |
| CustomRules.RegionNameIsTaken | internal/renderer/mihomo.go:838-847 | a concrete family where they differ: the rule points at the region group and the group made for it stands unused |
| ProxyGroups.ResolveRegionProxyGroups | internal/renderer/mihomo.go:948-976 | the loops compute the regions that have nodes, with their trimmed names |
| ProxyGroups.AddAllIsLive | internal/renderer/mihomo.go:822-834 | adding groups fails if and only if two groups with members share a name, and otherwise gives exactly the groups with members |
| ProxyGroups.BuildProxyGroups | internal/renderer/mihomo.go:803-942 | the builder with its error path computes the specified groups, also for an empty node list |
| ProxyGroups.LintedIsWritten | internal/renderer/mihomo.go:2146-2170 | the second filtering before serialisation changes nothing, whatever groups the user added: the groups written are the groups linted |
| RuleBuilder.BuildRules | internal/renderer/mihomo.go:1405-1441 | the loops compute the specified rule list |
| RulesInOrder.BaseRulesInOrder | internal/renderer/mihomo.go:1414-1437 | the base rules are those of ordinary categories in the order of categories and within them, then the one for domestic traffic, then those for unusual ports |
| RulesInOrder.FinalRuleIs | internal/renderer/mihomo.go:1405-1460 | lines of custom rules precede all others, and the last rule sends the rest to the final group, to the node selection by its short name, or to the policy asked for |
| RuleBuilder.MergeRuleLists | internal/renderer/mihomo.go:1462-1492 | the merge of user and base rules computes its specification |
| RuleBuilder.MatchStaysLastIff | internal/renderer/mihomo.go:1462-1480 | the generated MATCH rule stays last if and only if the user's rules do not contain that line, or end in it and contain all generated rules too |
| RuleBuilder.RepeatedMatchMoves | internal/renderer/mihomo.go:1462-1480 | a concrete user rule that repeats the MATCH line and moves it to the front |
| RuleBuilder.BuildRuleProviders | internal/renderer/mihomo.go:1541-1597 | the loops compute the specified provider map |
| RuleBuilder.PutAllMerges | internal/renderer/mihomo.go:1541-1597 | later providers replace earlier ones of the same name and no others |
| RuleBuilder.CatalogProvidersMembers | internal/renderer/mihomo.go:1541-1560 | every provider of an enabled category is there under its name, and nothing else is |
| PlannedGroups.PlanNames | internal/renderer/mihomo.go:849-924 | for any well-formed catalog no two planned groups share a name, with region groups, category groups and created groups together |
| PlannedGroups.CreatedAreNewNames | internal/renderer/mihomo.go:838-847 | what custom rules create in the group builder collides with no group the generator names itself |
| PlannedGroups.AllPresent | internal/renderer/mihomo.go:822-942 | every group that rules or other groups may refer to is really built, none is dropped for lack of members |
| PlannedGroups.GroupsAreSound | internal/renderer/mihomo.go:803-942 | building the groups succeeds, their names are distinct, all references are built in, groups that exist or regular nodes, and one group lists every regular node |
| PlannedGroups.GroupNamesAreExact | internal/renderer/mihomo.go:803-942 | the groups are exactly the node selection, the final group, the automatic selection if there are regular nodes, those of regions with nodes, of enabled categories and of custom rules that create one |
| GroupContents.SelectionIs | internal/renderer/mihomo.go:846-875 | the node selection offers, automatic selection first, the two policies, all regions and all regular nodes, and without nodes the policies, direct first |
| GroupContents.AutomaticIs | internal/renderer/mihomo.go:864-875 | the automatic selection holds exactly the trimmed names of the regular nodes |
| GroupContents.CategoryGroupsAre | internal/renderer/mihomo.go:1106-1128 | the group of an enabled category chooses first to block for advertising, to go out directly for private and domestic traffic, and the node selection otherwise, and offers exactly the named groups and, in full mode, the nodes |
| GroupContents.OtherGroupsAre | internal/renderer/mihomo.go:1106-1128 | so do the groups of custom rules and the one for the remaining traffic |
| GroupContents.RegionGroupsAre | internal/renderer/mihomo.go:948-976 | the group of a region with nodes offers its automatic group first, direct, and exactly the regular nodes with that code |
| GroupContents.RegionAutosAre | internal/renderer/mihomo.go:948-976 | its automatic group holds exactly these nodes |
| GroupContents.AutomaticKeepsNodes | internal/renderer/mihomo.go:1058-1093 | a user group that chooses by itself keeps exactly the nodes among its members, other groups all members |
| GeneratorLint.MergedLines | internal/renderer/mihomo.go:1462-1480 | merging custom lines in front loses no line, adds none, and keeps MATCH last |
| GeneratorLint.ReferencesCloseIff | internal/renderer/lint.go:88-104 | references of the groups close if and only if every regular node's trimmed name resolves |
| GeneratorLint.CreatedTargetsExist | internal/renderer/mihomo.go:1130-1201 | the group a custom rule points at exists, even if the group builder gave the rule's own group another name |
| GeneratorLint.GroupsDoNotFail | internal/renderer/mihomo.go:803-942 | the group builder never reports a duplicate group of its own making |
| GeneratorLint.GeneratorSatisfiesLinterIff | internal/renderer/mihomo.go:403-447 | for every well-formed catalog, non-empty node list, enabled keys, plain custom rules, final policy and options: the configuration passes the linter if and only if node names are distinct; every regular node's trimmed name is built in, a node's name, or the name of a fixed group, a region with nodes, an enabled category or a created group; every target that custom rules name is likewise built in or such a group; and the providers of custom rules have allowed shapes and files of their own |
| GeneratorLint.InputsFitIff | internal/renderer/lint.go:58-156 | what the linter looks up in the configuration is decided by those inputs |
| GeneratorLint.MergedFitIff | internal/renderer/lint.go:58-86 | providers of custom rules over catalog providers: the merged map is free of clashes if and only if the custom ones fit among themselves and with those they do not replace |
| GeneratedConfig.GivenAre | internal/renderer/mihomo.go:1130-1201 | resolution, with its growing reserved set, neither loses nor changes the targets that rules name themselves |
| GeneratorLint.LoneNodeIsRejected | internal/renderer/lint.go:88-104 | a single node whose name has outer space is rejected, unless its trimmed name is built in or a group |
| GeneratorLint.OuterSpaceIsRejected | internal/renderer/lint.go:88-104 | so the node name space-A is rejected |
| RuleText.GoTrimsNames | internal/renderer/mihomo.go:1716-1731 | the program's own trimming makes A of it, which is not built in |
| GeneratorLint.TrimmedNamesAreAccepted | internal/renderer/mihomo.go:403-447 | without enabled custom rules, distinct names without outer space always pass, also when every node is informational |
| GeneratorLint.WithoutNodesIff | internal/renderer/mihomo.go:811-819 | without any nodes the configuration passes if and only if no enabled rule needs a group of its own, custom rules point at the node selection or built-in targets, and the providers of custom rules do not clash |
| GeneratorLint.BaseLinesAre | internal/renderer/mihomo.go:1405-1441 | the base rules are exactly the lines of the rules of enabled categories and the one for domestic traffic |
| UserAdditions.GroupsExtend | internal/renderer/mihomo.go:926-941 | if no custom group is called like a created one, the user's groups with members come after the generated ones, and building fails exactly when a name repeats |
| UserAdditions.RulesWithLines | internal/renderer/mihomo.go:1462-1480 | the user's lines are added to the rules, none is lost, and the MATCH rule stays last unless one of them repeats it |
| UserAdditions.ProvidersMerge | internal/renderer/mihomo.go:1560-1592 | the user's providers are added except those that a custom rule's replaces |
| UserAdditions.ExtensionPassesIff | internal/renderer/lint.go:13-177 | for any configuration that passes the linter and any groups, lines and providers added to it: the result passes if and only if group names stay distinct, members, providers and targets exist in it or among the additions, and providers have allowed shapes and files of their own |
| UserAdditions.AdditionsPassIff | internal/renderer/mihomo.go:403-447 | a generated configuration that passes, with the user's own groups, rules and providers, is built and passes if and only if they fit it in that sense |
| UserAdditions.NothingAdded | internal/renderer/mihomo.go:403-447 | without additions it is the generated configuration of the theorem above |
| UserAdditions.Render | internal/renderer/mihomo.go:403-447 | the three builders and the linter run in order with everything the user adds; the result is accepted exactly if building succeeds and the linter passes: without additions exactly if the inputs fit, and with additions to inputs that fit exactly if they fit in turn |
| GeneratorLint.SmallCatalogIsWellFormed | internal/renderer/rule_catalog.go:714-736 | well-formed catalogs exist, so the theorem is not about nothing |
| YamlBatches.EncodeSection | internal/renderer/mihomo.go:2090-2136 | batched encoding equals encoding the section at once, and the batches partition the children |
| YamlBatches.EncodeBatches | internal/renderer/mihomo.go:2120-2135 | the loop writes every child once, in order |
| YamlBatches.BatchesFit | internal/renderer/mihomo.go:2120-2143 | a batch of more than one child has at most 1024 nodes at any depth |
| YamlBatches.PartitionCovers | internal/renderer/mihomo.go:2120-2135 | the batches are non-empty, joined they are the children, and only a single child may exceed the budget |
| YamlBatches.ContinuationText | internal/renderer/mihomo.go:2105-2114 | dropping the first line of a continuation batch drops exactly the repeated header |
| ConfigSections.CutOfWhole | internal/backup/archive.go:563-595 | the cut into before, main header, body and after is unique |
| ConfigSections.PreserveForces | internal/backup/archive.go:563-595 | the result has exactly one data_dir option in its main section, right after the header, keeps every other line in place, and forcing again changes nothing |
| ConfigSections.FindSection | internal/backup/archive.go:563-580 | the loop finds the main section and its end |
| ConfigSections.PreserveLines | internal/backup/archive.go:563-595 | the loops compute the specified lines, or fail exactly without a main section |
| UciConfig.DataDirLineParses | internal/backup/archive.go:597-604 | the forced line is read back as a data_dir option and as no section header |
| UciConfig.PreserveTextForces | internal/backup/archive.go:563-595 | the same on text, line breaks included; restoring twice forces the directory once |
| UciConfig.AlreadyForcedIff | internal/backup/archive.go:563-595 | forcing leaves the text as it is, to the character, if and only if the main section begins with the forced line and has no other such option |
| UciConfig.PreserveDataDir | internal/backup/archive.go:563-595 | the function computes the specified text or error |
| UciConfig.ShippedDirIsSafe | internal/backup/archive.go:35 | the data directory of the shipped configuration is one the laws cover |
| UciConfig.AcceptedIff | internal/backup/archive.go:563-585 | forcing succeeds if and only if some line of the text consists of at least three words, of which the first is config and the next two are subconv-next and main, each bare or between quotation marks |
| UciConfig.ShippedIsAccepted | internal/backup/archive.go:563-585 | every text that begins with the shipped header is accepted |
| UciConfig.HeadersAreText | internal/backup/archive.go:568-580 | the tests for headers are these conditions on the words of the line |
| UciConfig.DataDirsAreText | internal/backup/archive.go:601-604 | a line sets data_dir if and only if it has at least three words, the first is option and the second data_dir, bare or between quotation marks |
| UciConfig.SingleQuotedOption | internal/backup/archive.go:601-604 | a quoted data_dir option is recognised |
| UciConfig.RestoredText | internal/backup/archive.go:587-595 | the text is cut at the first header of the main section and at the next header of any kind; in between, the forced line comes first, lines that set data_dir are gone and all others remain as often as they were |
| Text.FieldsAreTheWords | internal/backup/archive.go:568 | the fields of a line are the words that spell it between white space, and nothing else |
| ArchiveNames.ValidNamesStayInside | internal/backup/archive.go:543-548 | a valid name under data/ consists of proper components only, so its file lies strictly inside the data directory |
| ArchiveNames.CleanNameParts | internal/backup/archive.go:543-548 | a name that is its own clean form has exactly the components cleaning keeps |
| ArchiveNames.ValidNameIff | internal/backup/archive.go:543-548 | a name is accepted if and only if it has no backslash and every component is a proper name, or it is two dots alone |
| BackupArchive.ScanAcceptsExactly | internal/backup/archive.go:442-495 | the loop over members accepts exactly the lists stated without the loop (valid distinct names, regular files, size bounds, count) and gathers every member |
| BackupArchive.CheckFiles | internal/backup/archive.go:519-539 | the loop over manifest records accepts exactly when counts agree, no record repeats and each matches its file |
| BackupArchive.ScanArchive | internal/backup/archive.go:420-541 | an archive is accepted with a manifest if and only if it meets the acceptance condition with that manifest |
| ArchiveAcceptance.AcceptsIff | internal/backup/archive.go:420-541 | an archive is accepted, with its manifest, if and only if its members, header and records meet conditions in which every limit and name is written out |
| BackupArchive.FilesAreTheManifest | internal/backup/archive.go:519-539 | by counting, manifest records and archive files are in bijection |
| BackupArchive.AcceptedArchive | internal/backup/archive.go:420-541 | in an accepted archive every member but the manifest has a record with its size and hash, and data members stay inside the data directory |
| BackupArchive.SortSources | internal/backup/archive.go:378 | the loop computes that order |
| BackupArchive.SortedLaws | internal/backup/archive.go:378 | sorting by path is a permutation in ascending order and keeps the total size |
| BackupArchive.CollectSources | internal/backup/archive.go:325-380 | collecting fails exactly on an oversized data file, an oversized total or too many files, and otherwise gives the configuration and the files found, sorted by path |
| BackupArchive.FoundIsCollected | internal/backup/archive.go:325-380 | files with distinct paths under data/, with the configuration, are what the acceptance theorem assumes of sources |
| BackupArchive.CollectedInAnyOrder | internal/backup/archive.go:378 | and sorting does not change that |
| BackupArchive.GatheringIsCollected | internal/backup/archive.go:325-380 | what collecting returns is an ascending permutation of configuration and files, of their total size |
| BackupArchive.Export | internal/backup/archive.go:96-167 | export fails exactly on its own limits; what it writes is accepted with its own manifest if and only if the configuration, the names, the manifest and the total with the manifest are within the limits of the scan, there is a version, and the manifest survives JSON |
| BackupArchive.ExportsTooMuch | internal/backup/archive.go:325-333 | a configuration one byte over the limit is exported, and the archive is refused by the scan |
| BackupArchive.VersionlessIsRefused | internal/backup/archive.go:506-508 | an archive exported without a version is refused, whatever is in it |
| BackupArchive.WriteArchive | internal/backup/archive.go:96-167 | export writes members and records in one pass |
| BackupArchive.ExportIsAcceptedIff | internal/backup/archive.go:96-167 | an exported archive is accepted, with its own manifest, if and only if it is within the limits that export does not check itself, has a version, and its manifest reads back from JSON as it was |
| BackupArchive.ChangedPathIsRefused | internal/backup/archive.go:519-531 | if a path reads back from JSON as another one, as for a file name that is not UTF-8, the exported archive is refused |
| BackupRestore.DataTreeIsExact | internal/backup/archive.go:230-246 | the extracted tree has exactly the data members of the archive |
| BackupRestore.BelowIff | internal/backup/archive.go:230-243 | a path conflicts with another below it: its components begin with those of the other and go on |
| BackupRestore.Host.WriteEntry | internal/backup/archive.go:230-243 | the sink writes the configuration and data entries, and fails exactly where a file would lie below another |
| BackupRestore.NestedGrows | internal/backup/archive.go:236-240 | the next data entry is refused exactly when it makes two entries lie one below the other |
| BackupRestore.Host.ExtractAll | internal/backup/archive.go:230-246 | extraction succeeds exactly if no entry fails and no data entry lies below another, and then leaves exactly that tree and the archived configuration |
| BackupRestore.Host.Unpack | internal/backup/archive.go:230-257 | unpacking succeeds exactly if extraction does, the configuration has a main section and can be written |
| BackupRestore.Host.Prepare | internal/backup/archive.go:204-257 | nothing but temporary files is touched before the service is stopped, and it is reached exactly if the archive is accepted, fits, and unpacks |
| BackupRestore.Host.Swap | internal/backup/archive.go:288-319 | the replacement steps and what each leaves when it fails |
| BackupRestore.Host.Rollback | internal/backup/archive.go:266-286 | what the deferred rollback restores, given which replacements had happened |
| BackupRestore.Host.Commit | internal/backup/archive.go:259-322 | stop, replace, restart: all of it, or the originals; the service runs as before except when stopping it failed and left it down |
| BackupRestore.Host.Restore | internal/backup/archive.go:173-323 | all or nothing under every failing step: success exactly if no step is at fault, and then exactly the archive's data and its configuration with the directory forced; on failure the originals, absent ones included; the service runs as before except when stopping it failed and left it down; the configuration loses its mode exactly if every step up to its replacement succeeds, the last chmod or the restart is at fault, and its mode was not 0600 |
| BackupRoundTrip.ExportedTree | internal/backup/archive.go:230-246 | the data entries of an exported archive are exactly the files that were found, with their contents |
| BackupRoundTrip.ExportedIsUnnested | internal/backup/archive.go:236-240 | files of a directory tree unpack without conflict |
| BackupRoundTrip.ExportedPrepares | internal/backup/archive.go:204-257 | an exported archive that is accepted passes everything before the service is stopped |
| BackupRoundTrip.RoundTrip | internal/backup/archive.go:96-323 | export then restore with no step at fault leaves exactly the files that were found as data and the exported configuration with the current directory forced, on any host |
| BackupRoundTrip.ExportedConfigLosesMode | internal/backup/archive.go:279-282 | an exported archive restored over a configuration of mode 0644 whose last chmod alone fails leaves the old text with mode 0600 |
| BackupRoundTrip.RolledBackConfigIsPrivate | internal/backup/archive.go:279-282 | a configuration of mode 0644 comes back from a restore that fails at the last chmod with mode 0600 |

## Left out

- GeneratorLint.GeneratorSatisfiesLinterIff: what the user adds is treated in UserAdditions, on top of a configuration that passes without it.
- UserAdditions.Render: the condition for acceptance is given for custom rules whose keys and targets have no commas or outer space and whose lines normalisation leaves alone, and for custom groups that are not called like a created one; the normalisation of rule lines itself and the providers custom rules build are parameters.
- ConfigLint.ValidateMihomoConfig: warnings that never stop a configuration (protocol options, group roles) and the message texts are not modelled, and a provider name cannot repeat because providers are a map.
- ProxyNames.UniqueIff: the other suffix styles are covered only as far as they are injective.
- FinalNodes.BuildFinalNodes: decorations beyond the name and node fields such as UDP, WireGuard or ALPN are carried along without being modelled.
- Nodes.NormalizeIsIdempotent: fields that no identity, filter or signature depends on are not part of a node.
- DeletionRuns.HandleToggle: the program sorts the ids it stores; they are a set here. Trimming of stored ids and the pruning of subscription metadata and old audit entries are not modelled, nor is a client that writes a whole node state at once.
- NodeDeletion.ResolveDeletedNodes: a map from ids to sorted lists is a set of pairs here, so the order of resolved ids is not captured.
- PublishedIndex.IndexAgreesWithStore: the migration of legacy publications and failing or partial disk reads are not modelled.
- LockSessions.NoDeadlock: `clearPublishedAssociations` locks other workspaces while one is held and is outside this theorem.
- ParseCache.ParseCache.Parse: results are values, so the deep copies that keep callers from changing cached entries are not captured.
- BackupArchive.CollectSources: walking the directory, following links and the exclusion list are not modelled; the files found are an input.
- BackupArchive.WriteArchive: compression is a parameter, so the compressed size is arbitrary.
- BackupRestore.Host.Restore: the archive is the same at both scans, directories have no modes of their own, and the restore lock file is not modelled.
- YamlBatches.EncodeSection: encoder errors are not modelled.
- HTTP handlers, sessions, cookies, CSRF, redaction, logs and the user interface.
- Fetching, DNS, logos, self-update and the scheduler.
- URI, YAML and WireGuard parsers: the parser is an arbitrary deterministic function.
- DNS, sniffer, profile and per-protocol proxy rendering, region labels and emoji.
- The concrete rule catalog: only what makes a catalog well-formed is used.
