# Verified models of the CMDB and governance core

This project models, in Dafny, the services of the platform that carry real algorithms, and proves what they promise
over every input, every run and every interleaving. `dafny verify dfyconfig.toml` checks all of it.

| module | what it models |
|---|---|
| `Identifiers` | extraction of asset identifiers from an observation: the keyed table, which entry survives, the sorted result |
| `Survivors` | which identifier of a key the extraction keeps, over all orders of arrival |
| `Candidates` | scored evidence and the candidate assets it adds up to |
| `Correlation` | gathering evidence from a database snapshot and deciding link, create, review or conflict |
| `IdentityLocks` | concurrent ingestions that lock their strong identifiers, decide and attach, as a state machine |
| `Precedence` | attribute precedence between sources, manual locks, the mirrored columns and the change list |
| `Batches` | from the rules and the attributes of one batch to the value that a path holds |
| `Endings` | what a path holds after its attribute offers, whatever was stored |
| `Convergence` | when the order of attribute offers matters |
| `Replays` | when attribute offers can be replayed without effect |
| `Projection` | the in-memory projection with its ordered write queue, checksum skipping, outbox, flush and transactions |
| `ProjectionMerge` | publishing a committed projection as a three-way merge |
| `Keyset` | the keyset boundary predicate under SQL three-valued logic, and paging with it |
| `CursorJson` | the JSON text of a cursor in UTF-8: its length, and why it can be read back |
| `CursorCodec` | base64url, the signed cursor token and the filter scope |
| `CursorPaging` | paging through the inventory with signed tokens, on top of `Keyset` and `CursorCodec` |
| `Csv` | the one-pass CSV reader, against a declarative reader and against any RFC 4180 section 2 writer |
| `Approval` | approval quorum modes, delegation, sequential discipline, early settlement and reapproval |
| `NameMatch` | greedy name similarity and the claiming of directory users |
| `Scheduler` | any number of concurrent schedulers of Cortex inventory runs |
| `LikeSearch` | LIKE escaping against the semantics of LIKE |
| `Wrappers` | optional values and results, shared by the others |
| `Ordering` | stable sorting by a caller-supplied order; shared by the others |

Where the source updates something in place (the identifier table, the approval chain, the attribute rows and columns of
an asset, the write queue, the parameter list of a query, the run tables) the model is a class or a loop, proved against
a function of its old state; the theorems are about that function. The concurrent protocols are state machines whose
steps are those of the database transactions.

Parameters stand for what the repository does not define: SHA-256, HMAC and `stableJson` (injective where a theorem says
so), `hashtextextended` (an arbitrary function), JSON and date parsing, NFKC and case folding, address parsing,
identifier normalisation, and the collations (strict total orders). Clocks are parameters.

Findings that the proofs made precise:

- Which confidence and primary flag the extraction keeps for a key can depend on the order of the reported identifiers.
  The possible survivors of the reports are characterised exactly (`Survivors.PossibleSurvivorsExactly`); the order is
  irrelevant if and only if the named fields and MAC addresses that follow lead from all of them to the same identifier
  (`Survivors.ExtractedSurvivorExactly`). The keys, and everything `resolve` returns, never depend on it.
- A linked record seen again with exactly the strong identifiers of its asset is nevertheless a conflict when two of them
  differ in the value alone, such as two serial numbers (`Correlation.RescanRelinksExactly`, `Correlation.RescanCanConflict`).
- Sorted identity locks allow a deadlock if and only if the lock hash confuses the outer two, but not the middle one, of
  three ascending lock keys (`IdentityLocks.DeadlocksExactly`). Collisions between neighbours in the order do no harm.
- The order of a run of attribute offers is irrelevant if and only if the offers of each path settle: where nothing is
  stored, those that tie for the greatest precedence, time and confidence leave the same state; where no offer rewrites
  the stored state, those that refresh it agree; otherwise the greatest agree and, unless the stored state is one that
  offers leave, one of them rewrites it (`Convergence.RunsConvergeExactly`). So on a manually locked path order can matter
  even between offers that never tie (`Convergence.LockedPathDependsOnOrder`). When replays of a run are idle is
  `Replays.ReplayIsIdle`.
- A chain can be left pending for good with nothing to decide: by any accepted answer other than a delegation to a known
  user that closes the last open step while the undecided steps would still be enough for a mode that counts them
  (`Approval.StuckForeverExactly`). How every full ballot ends, in any order, is `Approval.AnswersDecide`;
  `CHANGES_REQUESTED` and a delegation to an unknown user are concrete causes (`Approval.OneStepSticks`).
- A persist nested in a failing `transaction()` can make durable what the transaction took back in memory, data and events
  alike, exactly when it is not skipped and the operations before it had left other data or emitted an event
  (`Projection.FailedTransactionLeaksExactly`, `Projection.DataLandsExactly`, `Projection.EventLandsExactly`).
- After a commit outside the queue, writes queued before it undo it unless none of them succeeds or the last that does has
  the committed data for its snapshot (`Projection.OlderWriteUndoesExactly`); the next persist after the publication
  brings the merged data back (`Projection.OutsideCommitIsRestored`). Between the two, a persist of unchanged data over an
  empty queue is skipped although the database holds other data (`Projection.WindowPersistExactly`).
- A cursor is decoded again only when its JSON text has at most 6111 bytes (`CursorCodec.RoundTrip`), although the schema
  admits longer ones (`CursorCodec.LongCursorIsRefused`). Cursors at rows of the inventory always fit unless the snapshot
  text, which grows with the transactions in progress, exceeds 1773 characters (`CursorPaging.ListedCursorFits`).

## Model

| member | source | states |
|---|---|---|
| Identifiers.IdentifierMap.AddIdentifier | src/server/services/cmdb-correlation.service.ts:59-75 | an identifier that does not normalise leaves the table alone; otherwise the table holds it under its key, replacing the older entry only when more confident or newly primary |
| Identifiers.ExtractDiscoveryIdentifiers | src/server/services/cmdb-correlation.service.ts:77-88 | the loops over reports, named fields and MAC addresses produce exactly the specified sorted table, or fail |
| Identifiers.ExtractIsExact | src/server/services/cmdb-correlation.service.ts:77-88 | extraction fails exactly when some report does not normalise; otherwise it lists every reported key once, strictly ascending |
| Identifiers.ExtractedKeysAre | src/server/services/cmdb-correlation.service.ts:59-88 | end to end, exactly which keys an observation has: those of its identifiers, under GLOBAL when they name no namespace, of its named fields and of its MAC addresses |
| Identifiers.FieldsAreReported | src/server/services/cmdb-correlation.service.ts:80-85 | exactly what named fields and MAC addresses report, with kind, namespace, confidence and primary flag |
| Identifiers.StrengthIs | src/server/services/cmdb-correlation.service.ts:53-57 | which kinds are strong and which composite |
| Identifiers.KeysForgetOrder | src/server/services/cmdb-correlation.service.ts:59-88 | observations with the same facts, however ordered or repeated, give the same sorted keys or both fail |
| Identifiers.LookupAfterPut | src/server/services/cmdb-correlation.service.ts:64-74 | adding an entry changes what the table holds for its own key only, and only when nothing is there or it replaces what is |
| Identifiers.ChampionSurvives | src/server/services/cmdb-correlation.service.ts:74 | a report that dominates every other report of its key survives in every order in which the table is filled |
| Identifiers.SurvivorForgetsOrderExactly | src/server/services/cmdb-correlation.service.ts:74 | for the table on its own: over all permutations of what is added, the surviving entry is the same if and only if one report dominates the different ones |
| Identifiers.SurvivorCanDependOnOrder | src/server/services/cmdb-correlation.service.ts:74 | two concrete reports of one serial number whose survivor is the later one, whichever that is |
| Survivors.PossibleSurvivorsExactly | src/server/services/cmdb-correlation.service.ts:59-79 | the identifiers that survive some order of the reports are exactly the contenders: the reports no other replaces or, when there are none, the primary ones and those more confident than a primary one |
| Survivors.SurvivorContinues | src/server/services/cmdb-correlation.service.ts:79-85 | the named fields and MAC addresses act on the survivor of the reports, in their order |
| Survivors.ExtractedSurvivorExactly | src/server/services/cmdb-correlation.service.ts:77-88 | what the extraction keeps for a key is the same for all orders of the reported identifiers if and only if the named fields and MAC addresses, which always follow, lead from every contender to the same identifier |
| Survivors.ExtractHoldsSurvivors | src/server/services/cmdb-correlation.service.ts:77-88 | the extraction returns exactly the survivors of its keys |
| Survivors.NamedFieldCanDecide | src/server/services/cmdb-correlation.service.ts:74-82 | two reports without a dominating one, in either order, followed by a named serial number that survives both |
| Candidates.CandidateMap | src/server/services/cmdb-correlation.service.ts:90-109 | updating counters in place yields the summary of each asset's own evidence, sorted |
| Candidates.EvidenceIsConserved | src/server/services/cmdb-correlation.service.ts:90-109 | the candidates partition the evidence by asset with exact scores and counts, distinct assets, best score first then by asset, nothing lost or added |
| Candidates.ScoreBounds | src/server/services/cmdb-correlation.service.ts:142-188 | 100s + 30m + 5w <= score <= 100s + 30m + 10w for evidence graded as the source grades it, and the three counts add up |
| Candidates.OneCandidate | src/server/services/cmdb-correlation.service.ts:233-236 | there is one candidate exactly when all evidence names one asset, and none exactly when there is no evidence |
| Correlation.GatherMatches | src/server/services/cmdb-correlation.service.ts:136-152 | the loop over identifiers appends one piece of evidence per holder, in order |
| Correlation.GatherAddresses | src/server/services/cmdb-correlation.service.ts:154-163 | the loop over the distinct sorted addresses appends weak evidence per holder |
| Correlation.GatherFamily | src/server/services/cmdb-correlation.service.ts:167-179 | OS evidence comes only from recorded values of FQDN matches that agree with the incoming family |
| Correlation.GatherSources | src/server/services/cmdb-correlation.service.ts:181-190 | source evidence comes only from FQDN matches that another connector actively reports |
| Correlation.Resolve | src/server/services/cmdb-correlation.service.ts:130-249 | the imperative gathering and the decision cascade equal the specification, which reads identifiers through their keys only |
| Correlation.OverrideWins | src/server/services/cmdb-correlation.service.ts:196-208 | an active manual override that names an asset decides, with confidence 100, whatever the evidence and an earlier link say |
| Correlation.OverrideForIs | src/server/services/cmdb-correlation.service.ts:196-208 | only an active override that names an asset counts |
| Correlation.GatheredIs | src/server/services/cmdb-correlation.service.ts:136-190 | a piece of evidence is present exactly when the rows behind it are |
| Correlation.EvidenceExactly | src/server/services/cmdb-correlation.service.ts:136-190 | a piece of evidence is gathered if and only if the rows behind it are there, with exactly the strength and score of its signal, in terms of columns alone |
| Correlation.FamilyIs | src/server/services/cmdb-correlation.service.ts:111-117 | the operating system family of a text: Windows first, then the Linux names, then macOS |
| Correlation.AssetsAreTouched | src/server/services/cmdb-correlation.service.ts:136-190 | supporting evidence introduces no asset: evidence names an asset exactly when it holds an incoming identifier or address |
| Correlation.StrongAssetsAre | src/server/services/cmdb-correlation.service.ts:194 | the strong candidates are exactly the holders of incoming strong identifiers |
| Correlation.CountIsHits | src/server/services/cmdb-correlation.service.ts:97-107 | the strong and composite counts of an asset are the numbers of incoming identifiers of that strength it holds |
| Correlation.CorroboratedExactly | src/server/services/cmdb-correlation.service.ts:236-241 | the three signals meet on an asset exactly when it holds an incoming FQDN, its recorded OS family agrees and another connector actively reports it |
| Correlation.LinksExactly | src/server/services/cmdb-correlation.service.ts:226-241 | an unlinked record is linked to an asset if and only if that asset alone holds its strong identifiers, or nobody does, nothing else matches and two composite identifiers or a corroborated FQDN do |
| Correlation.ConflictsExactly | src/server/services/cmdb-correlation.service.ts:230-232 | an unlinked record is a conflict if and only if two different assets hold strong identifiers of it |
| Correlation.CreatesExactly | src/server/services/cmdb-correlation.service.ts:242-248 | a new asset is created if and only if no link and no strong holder exists and a strong identifier came in or nothing matched |
| Correlation.RelinksExactly | src/server/services/cmdb-correlation.service.ts:210-224 | a linked record is a conflict, with confidence 0, if and only if another asset holds one of its strong identifiers or its own asset has another value for one of them; otherwise it stays linked with confidence 100 |
| Correlation.RescanRelinksExactly | src/server/services/cmdb-correlation.service.ts:210-224 | a linked record seen again with exactly the strong identifiers of its asset stays linked if and only if no two of them differ in the value alone |
| Correlation.RescanCanConflict | src/server/services/cmdb-correlation.service.ts:215-220 | an asset with two serial numbers, seen again with both, is a conflict |
| Correlation.RescanCanRelink | src/server/services/cmdb-correlation.service.ts:215-224 | the same asset with one serial number stays linked |
| Correlation.ChosenAssetIsSoleHolder | src/server/services/cmdb-correlation.service.ts:210-248 | without an override, AUTO_LINK names the holder of every incoming strong identifier that is held, and CREATE_NEW means none is held |
| Correlation.WeakEvidenceNeverMerges | src/server/services/cmdb-correlation.service.ts:226-248 | without a strong holder, two composite hits or a corroborated FQDN, no unlinked record is linked or put in conflict |
| Correlation.ResolveForgetsOrder | src/server/services/cmdb-correlation.service.ts:59-249 | end to end, the order and repetition of reported identifiers, MAC addresses and IP addresses change nothing in the resolution |
| Correlation.ConfidenceExactly | src/server/services/cmdb-correlation.service.ts:226-248 | for an unlinked record the confidence says why: 100 exactly for strong or new identity, 85 for two composite identifiers, 80 for a corroborated name, 0 for a conflict, and for a review the best score, at least 5, capped at 79 |
| Correlation.CandidateScores | src/server/services/cmdb-correlation.service.ts:136-192 | every returned candidate is touched, counts its hits and obeys the score bounds |
| IdentityLocks.HoldsStrongLocks | src/server/services/cmdb-correlation.service.ts:120-128 | a transaction that has been through its list holds the lock of each of its strong identifiers |
| IdentityLocks.OverrideIsSafeExactly | src/server/services/cmdb-correlation.service.ts:196-208 | attaching what a manual override decided keeps every strong identifier with one asset if and only if the override names the holder of every incoming strong identifier that is held |
| IdentityLocks.ReadingHasHolders | src/server/services/cmdb-correlation.service.ts:137-141 | the identifiers are looked up one by one, each at its own time; when all have been, the collected rows still have every present holder of the strong ones, whatever other transactions did in between |
| IdentityLocks.DecisionIsSafe | src/server/services/discovery-ingestion.service.ts:409-421 | a decision made from any reading that has the present holders of the locked identifiers is safe to attach |
| IdentityLocks.LockedAreApart | src/server/services/cmdb-correlation.service.ts:120-128 | two transactions that have all their locks share no strong identifier |
| IdentityLocks.CommitIsFunctional | src/server/services/discovery-ingestion.service.ts:643-674 | attaching all incoming identifiers at commit leaves every strong identifier with one asset |
| IdentityLocks.CommitAttachesExactly | src/server/services/discovery-ingestion.service.ts:423-453 | a commit gives every incoming identifier to the linked or the created asset and adds no other holding |
| IdentityLocks.IngestionCanCommit | src/server/services/discovery-ingestion.service.ts:409-453 | from any world without open transactions an ingestion can lock, read, decide and commit: afterwards the database holds exactly what it held and, as the decision calls for, the incoming identifiers at the linked or the created asset |
| IdentityLocks.ReadFindsExactly | src/server/services/cmdb-correlation.service.ts:137-141 | one read adds exactly the present rows of the next identifier |
| IdentityLocks.EndsAndBegins | src/server/services/discovery-ingestion.service.ts:409-453 | a new transaction holds and has read nothing, one that ends releases its locks, and only a decided one commits |
| IdentityLocks.LockNamesDiffer | src/server/services/cmdb-correlation.service.ts:121-124 | two identifiers share a lock key only when they are equal, where kinds and namespaces carry no colon |
| IdentityLocks.StepKeepsInv | src/server/services/discovery-ingestion.service.ts:409-453 | every begin, acquire, read, decide, commit, abort and retire step keeps the locking and identity invariant |
| IdentityLocks.StrongIdentityStaysFunctional | src/server/services/cmdb-correlation.service.ts:120-249 | in every interleaving of ingestions without an override, or with one that names the sole holder, no active strong identifier is ever held by two assets |
| IdentityLocks.WaitsClimb | src/server/services/cmdb-correlation.service.ts:121-127 | unless the lock hash confuses the outer two, but not the middle one, of three ascending lock keys, a transaction that is waited for and waits itself waits for a strictly later lock key |
| IdentityLocks.NoWaitCycle | src/server/services/cmdb-correlation.service.ts:121-127 | under the same condition the wait-for graph has no cycle |
| IdentityLocks.IngestionsNeverDeadlock | src/server/services/cmdb-correlation.service.ts:120-128 | under the same condition, in every reachable state each transaction holds exactly a prefix of its sorted list, locks are exclusive, no wait cycle exists and some open transaction is not blocked |
| IdentityLocks.CollisionDeadlocks | src/server/services/cmdb-correlation.service.ts:125-127 | any hash that breaks the condition has a reachable two-transaction deadlock |
| IdentityLocks.DeadlocksExactly | src/server/services/cmdb-correlation.service.ts:120-128 | a wait cycle is reachable if and only if the hash confuses the outer two, but not the middle one, of three ascending lock keys of strong identifiers |
| IdentityLocks.InjectiveIsConvex | src/server/services/cmdb-correlation.service.ts:126 | an injective hash meets the condition |
| Precedence.RuleFor | src/server/services/cmdb-precedence.service.ts:64-73 | the chosen rule applies and no applicable rule is preferred: connector-specific first, then precedence, then version |
| Precedence.AssetTables.ProtectExistingBusinessFields | src/server/services/cmdb-precedence.service.ts:30-46 | the loop inserts locked manual state for each non-empty governed column that has none |
| Precedence.ProtectsExactly | src/server/services/cmdb-precedence.service.ts:20-46 | exactly the six governed paths without state whose column has a value get that value, as manual state of precedence 1000 and confidence 100, locked |
| Precedence.AssetTables.WriteCanonicalField | src/server/services/cmdb-precedence.service.ts:179-196 | writes the mapped column and bumps the version, or does nothing for an unmapped path |
| Precedence.ColumnsAre | src/server/services/cmdb-precedence.service.ts:180-191 | which column each mapped path has, and that no other path has one |
| Precedence.AssetTables.ApplyOffer | src/server/services/cmdb-precedence.service.ts:106-174 | one attribute against the stored state: kept, refreshed or rewritten with its change |
| Precedence.AssetTables.ApplyDiscoveryAttributes | src/server/services/cmdb-precedence.service.ts:48-177 | the loop over a batch has the tables and changes of applying its offers one by one |
| Batches.OffersCarry | src/server/services/cmdb-precedence.service.ts:62-109 | a batch offers exactly its defined attributes, in order, each with the precedence and the override right of a rule that applies and that no applicable rule precedes, or 50 and none when no rule applies |
| Batches.BatchDecides | src/server/services/cmdb-precedence.service.ts:48-177 | end to end, whatever was stored: a path shows the most confident attribute of the batch, the last among ties, under the rule that governs it, unless the stored state is locked against it or above it |
| Batches.BatchSpares | src/server/services/cmdb-precedence.service.ts:62-63 | a path without a defined attribute in the batch keeps its state |
| Batches.RuleRaises | src/server/services/cmdb-precedence.service.ts:64-109 | a rule of precedence 90 lets a batch replace a value stored at 70 |
| Precedence.PathsAreIndependent | src/server/services/cmdb-precedence.service.ts:104-126 | what a run does to a path depends only on the offers for that path |
| Endings.GreatestHolds | src/server/services/cmdb-precedence.service.ts:106-149 | after any offers a path without stored state holds the greatest (precedence, observedAt, confidence), latest processed among ties |
| Endings.EndingHolds | src/server/services/cmdb-precedence.service.ts:106-149 | after any offers over any stored state, locked or not, a path holds the greatest of the offers from the first on that rewrites the stored value or, when none does, the stored value with the greatest offer that refreshed it |
| Convergence.RunHoldsEndings | src/server/services/cmdb-precedence.service.ts:48-177 | after any run over interleaved paths and any tables, each path holds what its own offers end in |
| Convergence.ConvergesExactly | src/server/services/cmdb-precedence.service.ts:106-149 | all permutations of the offers of one path end in one state if and only if they settle over what is stored, locked or not |
| Convergence.StoredOfferSettles | src/server/services/cmdb-precedence.service.ts:106-149 | over a state that an offer left, offers settle if and only if the greatest ones agree or all are below the stored one |
| Convergence.RunsConvergeExactly | src/server/services/cmdb-precedence.service.ts:48-177 | all permutations of a whole run, over interleaved paths and any stored states, end in one state map if and only if the offers of each path settle |
| Convergence.TiedOffersDependOnOrder | src/server/services/cmdb-precedence.service.ts:109-114 | two offers that tie on precedence, time and confidence but differ in value: the later one wins, in either order |
| Convergence.LockedPathDependsOnOrder | src/server/services/cmdb-precedence.service.ts:106-108 | a locked value and two offers that never tie, of which the greater may not override the lock: the one processed last wins, in either order |
| Convergence.DistinctKeysConverge | src/server/services/cmdb-precedence.service.ts:48-177 | when offers for one path have pairwise different keys, the order of a run is irrelevant if and only if, on each path with a stored state no offer leaves, the greatest offer rewrites it whenever some offer does |
| Replays.ReplayIsIdle | src/server/services/cmdb-precedence.service.ts:48-177 | replaying any offers of a run, in any order and number, changes and reports nothing if and only if each path rests: the greatest offers agree and one came after the first that rewrote the stored value or, when none did, those that refreshed it agree and stand above all that would rewrite it |
| Replays.ConvergentRunsRest | src/server/services/cmdb-precedence.service.ts:48-177 | a run whose order is irrelevant can be replayed without effect, over any stored states |
| Precedence.LockedPathIsFrozen | src/server/services/cmdb-precedence.service.ts:107-108 | a manually locked path is untouched by every run in which no offer may override it |
| Precedence.BusinessFieldsSurvive | src/server/services/cmdb-precedence.service.ts:30-46 | a business value present before discovery survives every such run |
| Precedence.RunIsConsistent | src/server/services/cmdb-precedence.service.ts:96-196 | over any run the columns mirror the effective values, the change list replays the old values into the new ones and the version grows by the mapped changes |
| Precedence.ChangesAreReal | src/server/services/cmdb-precedence.service.ts:128-174 | each reported change starts from the value in force and moves to a different one |
| Precedence.ProtectConsistent | src/server/services/cmdb-precedence.service.ts:20-46 | protecting business fields keeps columns and states in agreement |
| Projection.Database.constructor | src/server/db/database.ts:170-176 | a hydrated store counts its own snapshot as queued and meets the invariant of the write queue |
| Projection.HydrationIsQueued | src/server/db/database.ts:170-190 | persisting the hydrated data unchanged queues nothing |
| Projection.Database.PersistData | src/server/db/database.ts:182-214 | queues the snapshot with the pending events unless an equal one is queued and nothing is pending; nothing inside a staged projection |
| Projection.Database.WriteSucceeded | src/server/db/database.ts:200-204 | the oldest open write becomes durable and its events stop being pending |
| Projection.Database.WriteFailed | src/server/db/database.ts:205-208 | a failed write is remembered and forgets the queued checksum |
| Projection.Database.FlushEnd | src/server/db/database.ts:233-235 | a flush that resumes either throws the last write error or finds the data and events owed to it in the database |
| Projection.Database.PersistAsync | src/server/db/database.ts:237-240 | persist, then flush: the flush is owed the data and the pending events of this call |
| Projection.Database.RunTransaction | src/server/db/database.ts:216-228 | performs the operation, then persists or restores data and outbox |
| Projection.SuccessfulTransactionQueues | src/server/db/database.ts:216-222 | a successful transaction leaves the data and events of its operations, and queues their snapshots and, if and only if it persists and the data differ from the last persist or events are pending, the final one |
| Projection.CommittedTransactionIsDurable | src/server/db/database.ts:182-235 | a flush after a successful persisting transaction that resumes without an error finds what the operations left in the database, data and events |
| Projection.Database.PublishCommittedProjection | src/server/db/database.ts:250-269 | merges collection by collection, forgets the queued checksum and changes nothing else |
| Projection.FlushMeansDurable | src/server/db/database.ts:182-235 | if a flush returns normally, the data of the last persist before it and every event pending then are durable, in all runs with skipped persists and failed writes |
| Projection.FlushFromHydration | src/server/db/database.ts:182-235 | the same in every run from hydration, with no condition on the state |
| Projection.FailureIsRetried | src/server/db/database.ts:191-208 | whatever failed before, a persist after which the open writes succeed leaves its data and all events then pending durable, and no error |
| Projection.NoEventLost | src/server/services/outbox.service.ts:21-47 | outside rollbacks every event stays pending or durable |
| Projection.FailedTransactionRestores | src/server/db/database.ts:216-228 | a failed transaction leaves data, pending events and durable state as they were |
| Projection.PerformQueues | src/server/db/database.ts:182-228 | an operation leaves the data, events and checksum that can be read off its steps, and queues one snapshot for each nested persist that is not skipped |
| Projection.FailedTransactionQueues | src/server/db/database.ts:216-228 | a failed transaction leaves the write queue unchanged if and only if every nested persist was skipped, by a condition on the operations before it |
| Projection.FailedTransactionLeaksExactly | src/server/db/database.ts:216-228 | a failed transaction has queued data or events it took back if and only if, at some nested persist that was not skipped, the operations before it had left other data or emitted an event |
| Projection.DataLandsExactly | src/server/db/database.ts:182-228 | data taken back in memory can become durable if and only if a nested persist that was not skipped saw other data |
| Projection.EventLandsExactly | src/server/db/database.ts:182-228 | a new event emitted by a failed transaction, no longer pending, can reach the database if and only if a nested persist that was not skipped came after it |
| Projection.PartialSnapshotCanLand | src/server/db/database.ts:216-228 | a nested persist can make rolled-back data durable |
| Projection.EventCanLand | src/server/db/database.ts:216-228 | an emitted event, a nested persist and a failure: the event is stored although it was taken back |
| Projection.OlderWriteUndoesExactly | src/server/db/database.ts:182-269 | after a commit outside the queue, in any run in which only writes queued before it complete, with any mix of successes and failures and published at any point, the committed data are in the database if and only if none of those writes succeeded or the last that did has them for its snapshot |
| Projection.WindowPersistExactly | src/server/services/ldap-sync.service.ts:667-675 | between such a commit and its publication, a persist whose writes succeed leaves the live data in the database if and only if they are the committed ones or it is not skipped over an empty queue |
| Projection.OutsideCommitIsRestored | src/server/services/ldap-sync.service.ts:667-675 | whatever happens between the commit and its publication, and whatever writes, failures and persists follow, the next persist whose writes succeed stores the merge: every id not edited locally has its committed outcome |
| ProjectionMerge.MergeItems | src/server/db/database.ts:256-265 | the retained list is the specified merge |
| ProjectionMerge.MergeIsThreeWay | src/server/db/database.ts:250-269 | an id changed, added or deleted locally keeps its local outcome; every other id takes the committed one |
| ProjectionMerge.MergeKeepsIdsUnique | src/server/db/database.ts:250-269 | unique ids stay unique |
| ProjectionMerge.NoLocalEdits | src/server/db/database.ts:250-269 | without local edits the result is the committed collection by id |
| ProjectionMerge.NoCommittedChange | src/server/db/database.ts:250-269 | without a committed change the current list is returned unchanged |
| ProjectionMerge.MergeKeepsAnonymous | src/server/db/database.ts:258-264 | items without an id are neither dropped, duplicated nor reordered |
| Keyset.AssetCursorBoundary | src/server/services/cmdb-cursor.ts:41-52 | refuses unknown columns; otherwise appends its parameters and refers to them by position |
| Keyset.SortColumnsAre | src/server/services/cmdb-cursor.ts:42 | the columns a listing may be sorted by |
| Keyset.BoundaryExact | src/server/services/cmdb-cursor.ts:45-51 | under SQL null logic the condition is true exactly for the rows strictly after the boundary, ASC with nulls last and DESC with nulls first |
| Keyset.TruthTables | src/server/services/cmdb-cursor.ts:45-51 | AND and OR of the condition follow the three-valued truth tables |
| Keyset.OrderIsTotal | src/server/services/cmdb-api.service.ts:333-343 | the listing order is a strict total order |
| Keyset.RemainingAfter | src/server/services/cmdb-api.service.ts:335-343 | continuing from a listed row leaves exactly the rows behind it |
| Keyset.NextPage | src/server/services/cmdb-api.service.ts:369-373 | a page is the next slice and its cursor leaves the rest |
| Keyset.TraverseExact | src/server/services/cmdb-api.service.ts:329-374 | from any boundary the pages concatenate to exactly the rows behind it, in the least number of pages |
| Keyset.PaginationIsExact | src/server/services/cmdb-cursor.ts:41-52 | for every page size, paging lists the whole table sorted, no row skipped or repeated |
| CursorCodec.Base64RoundTrip | src/server/services/cmdb-cursor.ts:22-34 | unpadded base64url decodes to the encoded bytes |
| CursorCodec.Base64Length | src/server/services/cmdb-cursor.ts:22-28 | the exact length of the encoding |
| CursorJson.JsonDiffers | src/server/services/cmdb-cursor.ts:22 | no two cursors of one version share their JSON text |
| CursorJson.CharBytesAre | src/server/services/cmdb-cursor.ts:22 | every character of a text, as `JSON.stringify` and UTF-8 write it: short escapes, lower-case hexadecimal escapes, and the shortest UTF-8 form, from which the character can be computed |
| CursorJson.JsonLength | src/server/services/cmdb-cursor.ts:22 | the JSON text spends one byte on each character of a plain snapshot, one to six on each other character, one on each digit of the expiry time and at most 110 on the rest |
| CursorCodec.SoundRuntimeExists | src/server/services/cmdb-cursor.ts:21-38 | for any signature of 32 bytes and any date test there is a reader that gets every valid cursor back from its JSON text, so the assumptions on the runtime can be met |
| CursorCodec.CursorLength | src/server/services/cmdb-cursor.ts:5-22 | bounds the JSON text of every valid cursor from below and above |
| CursorCodec.TokenSplits | src/server/services/cmdb-cursor.ts:21-30 | every token splits at its dot into exactly a non-empty payload and a 43-character signature |
| CursorCodec.DecodeOfEncoded | src/server/services/cmdb-cursor.ts:21-38 | an encoded cursor is accepted if and only if it fits, the signature and scope agree and it has not expired, and then it is the encoded one |
| CursorCodec.DecodeAcceptsExactly | src/server/services/cmdb-cursor.ts:26-39 | a token is accepted if and only if it has at most 8192 characters and is a base64url payload and its signature, which reads as a valid cursor of the scope that has not expired |
| CursorCodec.SnapshotShapeIs | src/server/services/cmdb-cursor.ts:7 | the automaton recognises exactly two numbers and a list of numbers with colons between them |
| CursorCodec.RoundTrip | src/server/services/cmdb-cursor.ts:21-38 | an unexpired cursor decodes to itself if and only if its JSON text has at most 6111 bytes |
| CursorCodec.LongCursorIsRefused | src/server/services/cmdb-cursor.ts:5-38 | any live valid cursor, given texts of the greatest admitted lengths, is still valid and encoded, but its token is refused |
| CursorCodec.AssetCursorScope | src/server/services/cmdb-cursor.ts:15-19 | the loop digests the filters without navigation keys, lists deduplicated and sorted |
| CursorCodec.CanonicalExact | src/server/services/cmdb-cursor.ts:16-17 | two filter sets are digested alike exactly when they agree up to navigation keys and the order and repetition in lists |
| CursorCodec.ScopeBinds | src/server/services/cmdb-cursor.ts:15-19 | with an injective digest two requests share a scope exactly when actor and filters agree |
| CursorPaging.SameRest | src/server/services/cmdb-api.service.ts:321-324 | requests over a table that changes only by rows outside the snapshot find the same rows behind a boundary |
| CursorPaging.ReplyIs | src/server/services/cmdb-api.service.ts:329-374 | a request succeeds if and only if its own cursor and the one at its last row are valid, and hands one out if and only if rows are left |
| CursorPaging.NextState | src/server/services/cmdb-api.service.ts:277-288 | the token handed out is read back by the next request as the state at the last row exactly while it fits and is in time at that request, and leaves the rows behind the page |
| CursorPaging.PageEndAt | src/server/services/cmdb-api.service.ts:368-372 | the page ends are the rows at every multiple of the page size short of the last row |
| CursorPaging.FollowExactly | src/server/services/cmdb-api.service.ts:277-374 | from any state the tokens lead to the end if and only if the state is valid and the cursors at all page ends are valid, short enough and each used in time, and then the pages are the remaining visible rows |
| CursorPaging.TokenPagingIsExact | src/server/services/cmdb-api.service.ts:277-374 | whatever is inserted between the requests, paging through the signed tokens lists exactly the rows visible in the first snapshot, in order, if and only if the cursors at all page ends are valid, short enough and each used in time |
| CursorPaging.ListedCursorFits | src/server/db/postgres/schema.sql:180-184 | a cursor at a row with the column widths of the inventory fits unless the snapshot text exceeds 1773 characters |
| CursorPaging.InventoryPagingIsExact | src/server/services/cmdb-api.service.ts:277-374 | with such rows, paging lists exactly the visible rows if and only if every cursor is used in time |
| Csv.ReadRecords | src/server/scripts/import-asset-export.ts:29-49 | the index loop with its look-ahead and four variables yields the records of the declarative reader, in which a separator counts only at even quote parity |
| Csv.ParseCsv | src/server/scripts/import-asset-export.ts:28-53 | fails exactly on an odd number of quotes; otherwise the loop equals the declarative reader |
| Csv.ParseFailsExactly | src/server/scripts/import-asset-export.ts:28-43 | a text is refused if and only if its number of quotation marks is odd |
| Csv.ReadCell | src/server/scripts/import-asset-export.ts:32-46 | reading back a written cell, quoted or not, yields exactly its text |
| Csv.ReadLines | src/server/scripts/import-asset-export.ts:30-49 | reading back written lines yields exactly the lines with text |
| Csv.RoundTrip | src/server/scripts/import-asset-export.ts:28-53 | parsing inverts every RFC 4180 section 2 writer: CRLF, LF or CR, optional or forced quoting, with or without a final break |
| Csv.RoundTripExact | src/server/scripts/import-asset-export.ts:43-49 | the whole table comes back if and only if every row has a non-empty field |
| Csv.ZipLooksUp | src/server/scripts/import-asset-export.ts:50-52 | each header names the last column carrying it, missing cells are empty and byte order marks are stripped |
| Csv.TableIsParsed | src/server/scripts/import-asset-export.ts:28-53 | end to end: a written table is parsed into one object for each row after the first, with exactly the names of the first row and the texts of their last columns |
| Approval.ApprovalChain.SubmitDecision | src/server/services/approval.service.ts:195-302 | refuses with the first applicable error and changes nothing, or signs one step and settles the chain |
| Approval.AcceptedExactly | src/server/services/approval.service.ts:180-227 | a decision is accepted if and only if it decides an open step of a pending chain, by an active and entitled user who is not barred as the requester, in sequential order, with a comment where one is mandatory and delegating only where allowed |
| Approval.RefusedExactly | src/server/services/approval.service.ts:205-227 | which error a refused decision gets: the first objection that applies |
| Approval.DecisionIsRecorded | src/server/services/approval.service.ts:229-258 | what an accepted decision writes on its step, and that it writes nothing else |
| Approval.DecisionSettles | src/server/services/approval.service.ts:260-292 | status and completion time after a decision |
| Approval.ApprovalChain.TriggerReapproval | src/server/services/approval.service.ts:329-361 | a material change reopens an approved chain and resets its reapprovable steps |
| Approval.ReopensExactly | src/server/services/approval.service.ts:329-349 | which changes reopen which chains, and what is left of each step |
| Approval.ThresholdRule | src/server/services/approval.service.ts:260-288 | every mode approves at its threshold and rejects exactly when the threshold is out of reach |
| Approval.QuorumMeans | src/server/services/approval.service.ts:260-288 | what each mode asks, in numbers of approvals, rejections and open steps |
| Approval.PercentageMeans | src/server/services/approval.service.ts:276-279 | a percentage quorum approves if and only if 100 times the approvals reach the percentage times the steps, and rejects if and only if the steps not yet rejected cannot reach it |
| Approval.NeverBoth | src/server/services/approval.service.ts:267-288 | approved and rejected never hold together, whatever the step statuses |
| Approval.SettlesWhenForced | src/server/services/approval.service.ts:260-292 | a chain settles exactly when every way of deciding its open steps gets the same verdict from the quorum code |
| Approval.VoteCounts | src/server/services/approval.service.ts:195-302 | a fitting final answer, of any kind, is accepted and moves exactly one step from open to its decision |
| Approval.AnswersDecide | src/server/services/approval.service.ts:195-302 | a full ballot of final answers of any kind, in any order, ends approved when its approvals reach the threshold, rejected when the threshold is out of reach, and otherwise stuck, by the starting counts and the ballot alone |
| Approval.BallotDecides | src/server/services/approval.service.ts:195-302 | a full ballot of approvals and rejections always settles a plain chain, by its number of approvals alone |
| Approval.OrderIndependence | src/server/services/approval.service.ts:195-302 | any two orders of a full ballot of final answers end in the same status; approvals and rejections on a plain chain end settled |
| Approval.SequentialDecidesFirst | src/server/services/approval.service.ts:183-186 | a sequential chain decides only its first open step |
| Approval.SequentialPrefix | src/server/services/approval.service.ts:180-302 | over any run of requests the decided steps of a sequential chain form a growing prefix |
| Approval.StuckExactly | src/server/services/approval.service.ts:260-292 | with nothing open, exactly which chains stay unsettled |
| Approval.NothingOpenIsForever | src/server/services/approval.service.ts:211-227 | a chain with nothing open refuses every later request, of any kind, and never changes |
| Approval.StuckForeverExactly | src/server/services/approval.service.ts:195-302 | an accepted decision leaves the chain stuck if and only if, before it, it would close the last open step, is not a delegation to a known user, and the undecided steps would still be enough for a mode that counts them; what is stuck stays so |
| Approval.OneStepSticks | src/server/services/approval.service.ts:235-292 | any final answer other than an approval or a rejection sticks on a chain of one step that all must approve |
| Approval.ChangesRequestedCanStick | src/server/services/approval.service.ts:235-292 | a concrete chain left pending with nothing to decide |
| Approval.DelegationCanStick | src/server/services/approval.service.ts:242-258 | a concrete chain left stuck by a delegation to an unknown user |
| Approval.ReapprovalRestoresStart | src/server/services/approval.service.ts:329-361 | after votes that approve a fresh chain, a material change restores the start, comments aside |
| Approval.ReopenedStuckExactly | src/server/services/approval.service.ts:336-347 | exactly when a reopened chain has nothing to decide |
| NameMatch.NameSimilarity | src/server/scripts/audit-directory-baseline.ts:21-46 | the nested loops compute the specified greedy similarity |
| NameMatch.BestIsBest | src/server/scripts/audit-directory-baseline.ts:28-39 | the inner loop finds the best unused word with a positive score |
| NameMatch.GreedyTakesExactly | src/server/scripts/audit-directory-baseline.ts:25-43 | each token takes the first of the best unused words if that scores at least 0.55, and nothing otherwise |
| NameMatch.SimilarityIs | src/server/scripts/audit-directory-baseline.ts:21-46 | the similarity shares the matched points out over the longer name |
| NameMatch.SimilarityBound | src/server/scripts/audit-directory-baseline.ts:40-45 | the similarity lies in [0, 1] and is at most min(length)/max(length) |
| NameMatch.PerfectIffSameWords | src/server/scripts/audit-directory-baseline.ts:21-46 | it is 1 exactly when both names have the same multiset of words |
| NameMatch.PerfectIsSymmetric | src/server/scripts/audit-directory-baseline.ts:21-46 | a perfect match does not depend on which name comes first |
| NameMatch.ClaimUsers | src/server/scripts/audit-directory-baseline.ts:48-104 | exactly who is claimed: a record gets its sole free match by employee number or, failing that, by a name unique in the baseline; nobody is claimed twice, and a record stays unmatched only when its sole matches were claimed before |
| NameMatch.SoleMatchIs | src/server/scripts/audit-directory-baseline.ts:48-104 | what a sole match is, by employee number or by a name that occurs once |
| Scheduler.RunTables.EnqueueLocked | src/server/services/cortex-inventory-scheduler.service.ts:15-27 | over distinct connectors the loop inserts exactly one run, with one event, for each that has no queued or running run, in order: a reconciliation unless one has succeeded since midnight |
| Scheduler.PlanAllExactly | src/server/services/cortex-inventory-scheduler.service.ts:15-23 | the planned runs are exactly those wanted, whatever runs there are |
| Scheduler.LocksExactly | src/server/services/cortex-inventory-scheduler.service.ts:9-14 | a scheduling transaction locks exactly the eligible connectors whose last synchronisation is long enough ago and which no other transaction has locked |
| Scheduler.SchedulingCanRun | src/server/services/cortex-inventory-scheduler.service.ts:7-28 | in any world a scheduling transaction can begin, visit what it locked and commit, and leaves exactly the wanted runs, each with its event |
| Scheduler.ManualSteps | src/server/db/postgres/migrations/009_cmdb_discovery_foundation.sql:322-324 | a manual run needs an idle connector that no transaction has locked |
| Scheduler.WorkerSteps | src/server/db/postgres/migrations/009_cmdb_discovery_foundation.sql:322-324 | a queued run can start, and an active one can end, now, in any final state |
| Scheduler.CompletionPostpones | src/server/services/discovery-ingestion.service.ts:225-236 | a run that succeeds, even in part, puts its connector off until its schedule has elapsed; a failed one does not |
| Scheduler.PlanIsSafe | src/server/services/cortex-inventory-scheduler.service.ts:17-23 | a planned run finds its connector idle and, as a reconciliation, opens a fresh day |
| Scheduler.CompleteKeepsDays | src/server/services/cortex-inventory-scheduler.service.ts:19-20 | a scheduled reconciliation that succeeds is the first of its connector on that day |
| Scheduler.StepKeepsInv | src/server/services/cortex-inventory-scheduler.service.ts:7-28 | every step of schedulers, workers and manual requests keeps the invariant |
| Scheduler.SchedulingIsSafe | src/server/db/postgres/migrations/009_cmdb_discovery_foundation.sql:322-324 | in all runs each connector has at most one active run, each run exactly one event, and at most one scheduled reconciliation succeeds per connector and day |
| Scheduler.LoopIsVisits | src/server/services/cortex-inventory-scheduler.service.ts:15-27 | the loop of one transaction is a sequence of visit steps of the state machine |
| LikeSearch.EscapedMatchesPrefix | src/server/services/cmdb-search-query.ts:4 | an escaped text followed by a percent sign matches exactly the strings that start with it |
| LikeSearch.UnescapedFinds | src/server/services/cmdb-search-query.ts:4 | why they need one: unescaped, a percent sign finds every text, an underscore any single character, and a lone backslash is no pattern |
| LikeSearch.EscapedIs | src/server/services/cmdb-search-query.ts:4 | exactly percent signs, underscores and backslashes get a backslash in front |
| LikeSearch.SearchIsExact | src/server/services/cmdb-search-query.ts:4 | the escaped, percent-wrapped pattern is well formed and matches exactly the strings that contain the text literally |
| LikeSearch.LowerEscaped | src/server/services/cmdb-search-query.ts:4-39 | folding and escaping commute, also where folding expands a character |
| LikeSearch.FoldedSearchIsExact | src/server/services/cmdb-search-query.ts:12-39 | with lower() on the pattern, the search finds exactly the stored texts that contain the folded search text; a column folded in the query is one such text |

## Left out

- HTTP routing, user interface, permissions, dashboards, caches, LDAP, queues and object storage: no invariant beyond a single branch.
- PostgreSQL itself: tables are sets, sequences and maps, transactions are steps; SQL text is modelled only for the cursor boundary and LIKE.
- Correlation.Resolve: the rows of the OS-family query come in the order of the snapshot, the source-coverage rows in asset order; the source leaves both orders open. The human-readable summary and the recording of the decision (`persistDecision`) are omitted.
- Correlation.ResolveForgetsOrder: assumes both calls see the same snapshot.
- Identifiers.IdentifierMap.AddIdentifier: `normalizeAssetIdentifier` is a parameter that may refuse a value; its per-type rules are not modelled.
- Identifiers.ExtractIsExact: `localeCompare` is taken as a strict total order on strings.
- Candidates.CandidateMap: the insertion-ordered map is a sequence with distinct assets.
- IdentityLocks.StrongIdentityStaysFunctional: a manual override that names another asset than the holder is excluded, since it is not safe (OverrideIsSafeExactly); other writers of identifiers than retirement, and the database trigger that claims strong identifiers a second time (migration 023), are not part of this model.
- IdentityLocks.IngestionsNeverDeadlock: covers the identity locks; row locks on runs, source records and assets and the locks of the claim trigger are not part of this model.
- IdentityLocks.CommitIsFunctional: attaching is one step at commit; first-seen and last-seen times, confidence and the primary flag of stored identifiers are omitted.
- Precedence.AssetTables.ApplyDiscoveryAttributes: the observation log, `updated_at` and the inserted change id are omitted; a change records only whether it is to be inserted. Times are numbers and values stand for their stable JSON text.
- Convergence.RunsConvergeExactly: the rule table is fixed during a run; convergence is about the stored states, the columns and the version follow from RunIsConsistent.
- Projection.Database.RunTransaction: operations are sequences of data changes, emitted events and nested persists; nothing is claimed about durable atomicity.
- Projection.Database.FlushEnd: assumes a flush resumes when the link it waits for has resolved and before a later write completes.
- Projection.Database.PersistData: the early returns for other database types and unit-test processes are omitted; the asynchronous context of `stageProjection` is a flag.
- Projection.OlderWriteUndoesExactly: a write stores its whole snapshot, while the repository writes the records that differ from the last accepted ones and keeps rows that a snapshot lacks in some tables.
- Projection.FlushMeansDurable: runs with publications, but without a commit outside the queue: right after one a flush can return normally over other data, as WindowPersistExactly says.
- Projection.Database.PublishCommittedProjection: every collection is a list of records given by id and JSON text; the repository's own bookkeeping of the committed snapshot is omitted.
- Keyset.PaginationIsExact: the table is fixed between pages; filters, enrichment and the offset mode are omitted.
- CursorPaging.TokenPagingIsExact: the visible rows keep their sort values and are not archived between pages, and the scope is the same; the request schema and the row mapping are omitted.
- CursorCodec.DecodeOfEncoded: `JSON.parse`, date parsing and the HMAC are parameters. Expiry times go up to 2^53-1; the schema admits larger integral numbers, which no listing produces.
- CursorJson.JsonLength: texts are sequences of characters; one outside the basic multilingual plane counts once here and twice in JavaScript, and unpaired surrogates are not modelled.
- Csv.ParseCsv: the mappings of row objects to assets that follow the reader are omitted.
- Approval.ApprovalChain.SubmitDecision: the lookup of the chain, its default mode, names and signature hash, and the audit and automation side effects are omitted; `resolveApprovers` and `getPendingApprovalsForUser` are not modelled. A comment is blank when it consists of spaces, tabs and line breaks; JavaScript trims further Unicode spaces.
- Approval.ThresholdRule: percentages are exact reals; JavaScript's rounding can raise the ceiling of a product by one.
- NameMatch.NameSimilarity: takes the words of both names; their normalisation is not modelled, scores are exact reals, and characters are compared by position without surrogate pairs.
- Scheduler.SchedulingIsSafe: days are 1440 minutes of one monotone clock, at which every transaction starts no later than it runs; correlation ids and payloads of events are omitted.
- LikeSearch.FoldedSearchIsExact: case folding depends on each character alone, and keeps the three special characters; the union of search branches and the exact-identifier mode are omitted.
