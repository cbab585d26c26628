# Synaptica protocols in Dafny

A model of the bookkeeping behind the Synaptica marketplace: the registry sync
and its caches, contacting HOL agents and remembering how that went, proofs of
datasets, credits and run jobs, agent reputation, HOL registration, and the two
older spending algorithms. Every outside call (registry contracts, HOL broker,
Pinata, Hedera, Stripe, HTTP) is an arbitrary outcome passed in; clocks are
parameters; floats are `real`.

Where the source changes objects in place the model has a class whose methods
are proved equal, on the whole state, to a specification function. The results
are then proved about that function over every run, every interleaving and every
outcome of the outside calls. What an operation answers is stated once more in
plain terms, on inputs and histories alone, without the function that computes it.

| modules | what they model |
|---|---|
| `MetadataCache`, `MetadataFetch`, `DomainResolution`, `RegistryFetch`, `Confluence` | one registry fetch: workers sharing a cache at the grain of single cache accesses, metadata jobs, both completion orders left open |
| `RegistryApply`, `SecondSync`, `RegistryRuns`, `SyncLock` | reconciling the tables over runs of syncs, a repeated sync, the whole life of the table, and the threads around the lock |
| `RepeatedUris` | domains that share a metadata URI, over an arbitrary starting cache |
| `AgentsCache` | the cached listing |
| `HolErrors`, `HolUsability`, `RankedSelection`, `HolFailover`, `DiscoveryRuns`, `HolSession` | error readings, verification rows, ranking, the failover loop, discovery after discovery, session retries |
| `DatasetProof`, `DatasetOverlap` | the proof record of a dataset, one request at a time and with overlapping requests |
| `Credits`, `WebhookDelivery`, `RunJobs` | the ledger with reservations, overlapping webhook deliveries, executor tasks |
| `Reputation` | running averages and payment bands |
| `HolRegistration`, `RegistrationOverlap`, `MetadataPublish` | registration status, one request at a time and with overlapping requests, and publish-on-change |
| `BudgetSelection`, `PhasedPipeline` | budgeted selection and phased spending |
| `Options`, `Text`, `RegistryTypes`, `Gathering` | shared types and helpers |

Statements the code does not keep in full are proved in their exact form, beside
an input that shows how they fail:

- A reputation reported just above 1 is read as a percentage and scores lower
  than one just below (`RegistryTypes.ScoreDropsExactlyWhen`).
- A crash while applying snapshots leaves the status "running" behind a free
  lock: with the lock free, the status tells exactly how the last sync ended
  (`SyncLock.MutualExclusion`, `SyncLock.ApplyCrashLooksRunning`).
- Staleness is not looked at again under the lock: an unforced sync starts on a
  fresh cache exactly when a success recorded since its check is younger than
  the TTL (`SyncLock.UnforcedSyncOfFreshCacheExactlyWhen`, reached in
  `SyncLock.FreshCacheIsSyncedAgainReachably`).
- An anchoring repeated half way keeps the old payload beside the new manifest
  (`DatasetProof.HalfReanchorLeavesStalePayload`). A HOL use takes a dataset back
  to "unanchored" exactly when it started while the row was unanchored, and an
  anchoring is lost exactly to a request that started when another was recorded
  (`DatasetOverlap.UnanchoredReenteredInRunExactlyWhen`,
  `DatasetOverlap.AnchoringLostExactlyWhen`, `DatasetOverlap.HolUseErasesAnchoring`).
- Overlapping purchases by one user in different processes lose grants exactly
  when some accepted commit worked from an outdated balance
  (`WebhookDelivery.GrantsConservedExactlyWhen`, `WebhookDelivery.OverlapLosesAGrant`).
- Metadata is published again by an identical request exactly when the URLs do
  not survive being stored or the override is blank, and then by every repetition
  whose upload succeeds (`MetadataPublish.RepublishesExactlyWhen`,
  `MetadataPublish.EveryRepetitionPins`).
- With the qualities the supported agents report a success can lower the payment
  (`Reputation.SuccessCanLowerPayment`): any task does so exactly when it takes
  0.6 k + 0.4 Q below a payment threshold it had reached
  (`Reputation.PaymentMovesExactlyWhen`). A negative gain lowers the score
  (`Reputation.ScoreMovesExactlyWhen`), which need not lower the payment
  (`Reputation.ScoreCanFallAlone`). With the base class's own qualities a success
  lowers neither, but one early failure can cost two bands
  (`Reputation.MovesAtMostOneBand`).
- The verification row decides the tier of its history exactly when the last
  recorded events have the last word that the latest ones have, which a clock
  that steps back can break (`HolUsability.RowDecidesTierExactlyWhen`,
  `HolUsability.SteppedBackClockLosesASuccess`).
- A crash during a re-registration forgets that the agent was registered
  (`HolRegistration.CrashForgetsRegistration`), and a stored UAID is lost exactly
  when a request that loaded the row before there was one publishes metadata and
  is granted none (`RegistrationOverlap.UaidLostExactlyWhen`).

Other lemmas state conditions that every real run meets, and beside them the
theorem that it does: entries under CID keys carry their CID and name an address
over the table's whole life (`RegistryRuns.CacheAgreesAlways`, from the store-level
`MetadataCache.StoreKeepsAgreementExactlyWhen`); the schedule could change what
domains sharing a URI get only from a cache no sync leaves behind
(`RepeatedUris.DeterminedExactlyWhenSettled`, `RegistryRuns.SyncIsConfluentAlways`);
and no agent in the table costs less than the 2.0 at which the budget loop breaks
(`BudgetSelection.BreakMattersExactlyWhen`, `BudgetSelection.RealSelectionIsFeasibleAndMaximal`).

## Model

| member | source | states |
|---|---|---|
| `MetadataCache.CacheTable.StoreEntry` | shared/registry_sync.py:479-491 | a store without payload changes nothing; otherwise exactly the URI key and the CID key take the new entry |
| `MetadataCache.CacheTable.LoadExisting` | shared/registry_sync.py:438-460 | the dictionary built row by row is the specified load of the rows |
| `MetadataCache.StoreKeepsAgreementExactlyWhen` | shared/registry_sync.py:479-495 | entries under CID keys keep carrying that CID if and only if the stored URI is not itself a CID key of another CID |
| `MetadataCache.LoadedCache` | shared/registry_sync.py:438-460 | for any table in any row order: exactly the written keys are present, every entry comes from a row that writes its key, holds a payload, and is found by its CID |
| `MetadataCache.LoadAgrees` | shared/registry_sync.py:438-495 | a step of `RegistryRuns.CacheAgreesAlways`: rows that are not miskeyed load into a cache whose CID keys carry their CIDs |
| `MetadataCache.LoadIsSound` | shared/registry_sync.py:438-460 | sound rows, in any order, load into a cache in agreement whose entries name an address |
| `MetadataCache.StoresCommute` | shared/registry_sync.py:301-303 | stores that agree on common keys may come in any order and be repeated |
| `MetadataCache.FoundByUriThenCid` | shared/registry_sync.py:463-476 | an entry is found by a URI that has one, else by the CID, never by an empty text |
| `MetadataFetch.BuildMetadataFetchJob` | shared/registry_sync.py:498-522 | a job results exactly for IPFS and HTTP URIs, with the specified addresses |
| `MetadataFetch.JobAddresses` | shared/registry_sync.py:506-522 | a job's addresses never repeat and are exactly the resolved one and the gateways' |
| `MetadataFetch.IpfsJob` | shared/registry_sync.py:920-930 | the job of an IPFS URI carries what follows the scheme as its CID, tries the main gateway's address first and then exactly the other gateways' in their order, none twice |
| `MetadataFetch.OtherJobs` | shared/registry_sync.py:920-930 | an HTTP URI is its own one address without a CID, and any other URI has no job |
| `MetadataFetch.FetchMetadataFromJob` | shared/registry_sync.py:566-590 | a payload is obtained exactly when the first address that answers sends one that is not null |
| `DomainResolution.ProcessDomain` | shared/registry_sync.py:357-420 | the uninterrupted code is three consecutive worker steps of the interleaved model |
| `DomainResolution.InvAlways` | shared/registry_sync.py:277-289 | under every schedule the shared cache is the loaded one plus copies of CID entries under URIs, and every worker's private findings stay true of it |
| `DomainResolution.StageIsScheduleIndependent` | shared/registry_sync.py:272-289 | whatever the schedule, the finished stage has the same cache, the same jobs, and per domain the same yield up to echoes; skipped and raising domains yield nothing |
| `DomainResolution.TwinsAlways` | shared/registry_sync.py:388-404 | only a domain whose URI another domain also has can yield an echo |
| `DomainResolution.InTurnIsASchedule` | shared/registry_sync.py:272-275 | the sequential branch is one of the schedules |
| `RegistryFetch.ResolveInTurn` | shared/registry_sync.py:272-275 | the sequential loop completes exactly when no domain raises, and then collects what the specification collects |
| `RegistryFetch.CollectAsCompleted` | shared/registry_sync.py:282-289 | results are collected in the order of completion, raising domains passed over |
| `RegistryFetch.FetchAndStore` | shared/registry_sync.py:298-303 | storing the fetched documents in their completion order |
| `RegistryFetch.BuildSnapshots` | shared/registry_sync.py:310-333 | each snapshot prefers what the final cache has over what it carried |
| `RegistryFetch.FetchSequentially` | shared/registry_sync.py:251-340 | the sequential fetch as a whole is a complete execution: same snapshots, same final cache |
| `RegistryFetch.JobsAreCanonical` | shared/registry_sync.py:343-354 | under every schedule and completion order the jobs are exactly those of the fetchable URIs cached neither by URI nor by CID |
| `Confluence.SameFinalCache` | shared/registry_sync.py:272-308 | two executions over the same answers end with the same cache |
| `Confluence.SnapshotIsDetermined` | shared/registry_sync.py:310-333 | a domain's snapshot depends only on its answer, the loaded cache and the final cache |
| `Confluence.SyncIsConfluent` | shared/registry_sync.py:272-333 | any two executions give the same cache and the same snapshots up to order; with distinct agent ids, equal agent and reputation tables and permuted id lists |
| `Confluence.DistinctCidsAgree` | shared/registry_sync.py:541-563 | distinct CIDs suffice for the fetched documents to be compatible |
| `Confluence.DistinctUrisSettle` | shared/registry_sync.py:388-404 | distinct metadata URIs suffice for there to be no echo |
| `Confluence.ParallelEqualsSequential` | shared/registry_sync.py:272-289 | with distinct metadata URIs, CIDs and agent ids, every parallel execution leaves the cache and tables of the completed sequential branch and a permutation of its ids |
| `RepeatedUris.EchoIsHarmlessExactlyWhen` | shared/registry_sync.py:388-404 | the two ways a repeated URI can be resolved give one snapshot if and only if the copied entry has an address and a CID |
| `RepeatedUris.UnsettledTwinsDiffer` | shared/registry_sync.py:388-404 | otherwise two complete executions over the same answers give the domain different snapshots |
| `RepeatedUris.DeterminedExactlyWhenSettled` | shared/registry_sync.py:272-333 | over any starting cache, the schedule cannot change a domain's snapshot if and only if every repeated URI cached only by its CID has an address and a CID |
| `RegistryRuns.TablesAreSound` | shared/registry_sync.py:593-672 | from an empty database, through any syncs and any other edits, also between a sync's load and its apply, no stored document is filed under a foreign CID key or lacks its address |
| `RegistryRuns.CacheAgreesAlways` | shared/registry_sync.py:438-495 | at every point of every life, in the loaded and in the final cache under any schedule, entries hold a payload and an address, and an entry under a CID key carries that CID |
| `RegistryRuns.SyncIsConfluentAlways` | shared/registry_sync.py:272-333 | confluence of every sync of every life, repeated URIs included, when wanted URIs that differ have distinct CIDs |
| `RegistryRuns.CidsAreDistinctExactlyWhen` | shared/registry_sync.py:920-930 | wanted URIs that differ have distinct CIDs if and only if no two IPFS ones are equal up to the white space around them |
| `RegistryRuns.SyncOfStrippedUrisIsConfluent` | shared/registry_sync.py:272-333 | the same confluence with no assumption on CIDs when URIs come without surrounding white space |
| `RegistryRuns.SnapshotIsRebuiltAlways` | shared/registry_sync.py:310-333 | when no two rows share a URI or CID but not its document, the second sync rebuilds identically every obtained snapshot whose domain delivers again |
| `RegistryApply.RegistryTables.UpsertSnapshot` | shared/registry_sync.py:597-656 | one snapshot rewrites exactly its agent's and its reputation's row |
| `RegistryApply.RegistryTables.ApplySnapshots` | shared/registry_sync.py:593-672 | both tables equal the specified reconciliation, and the ids are returned in order |
| `RegistryApply.RegistryTables.RetireUnlisted` | shared/registry_sync.py:658-669 | exactly the managed rows outside the list become inactive |
| `RegistryApply.UpsertAllAt` | shared/registry_sync.py:597-656 | each row is what one snapshot of its id makes of the original row, or untouched |
| `RegistryApply.LastSnapshotDecides` | shared/registry_sync.py:597-656 | after the upserts of one list an agent's rows are what its last snapshot makes of them |
| `RegistryApply.RowsHoldLastListing` | shared/registry_sync.py:616-644 | over any sequence of syncs the rows of an agent ever listed hold its last listing's name, URI, address, CID, document and registry info, and its score, kept in [0, 1] and raised to 0.8 for a supported built-in agent |
| `RegistryApply.ExtrasAreKept` | shared/registry_sync.py:623-644 | whatever else both rows hold, no sync changes |
| `RegistryApply.LaterDuplicateWins` | shared/registry_sync.py:597-656 | of two snapshots of one agent the later one decides the row |
| `RegistryApply.ReconciliationIgnoresOrder` | shared/registry_sync.py:593-672 | with distinct ids the order of the snapshots changes neither table |
| `RegistryApply.EmptyListChangesNothing` | shared/registry_sync.py:658-672 | a sync without snapshots changes no row of either table |
| `RegistryApply.ActiveManagedAreLastList` | shared/registry_sync.py:658-669 | after any sequence of syncs the active managed agents are exactly the ids of the last list that was not empty |
| `RegistryApply.ManagedIsForever` | shared/registry_sync.py:623-644 | no row disappears and managed is never cleared |
| `RegistryApply.OthersAreUntouched` | shared/registry_sync.py:658-669 | agents neither managed nor ever listed keep both rows as they were |
| `RegistryTypes.ScoreDropsExactlyWhen` | shared/registry_sync.py:880-890 | a higher positive report gives a lower score if and only if it exceeds 1, the other does not, and it is below a hundred times the other |
| `RegistryTypes.NormalizedScoreIs` | shared/registry_sync.py:880-890 | the score of every report: zero counts as missing, negatives are cut off, values above one are percentages |
| `RegistryTypes.SnapshotIdentity` | shared/registry_sync.py:745-748 | a snapshot goes by its document's id and name where that has them, else by its domain and its id |
| `RegistryTypes.EffectiveScore` | shared/registry_sync.py:893-899 | scores stay in [0, 1], supported built-in agents never fall below 0.8, others keep a valid score |
| `SecondSync.CacheOnlyGrows` | shared/registry_sync.py:298-308 | nothing cached before the fetches is overwritten or dropped by them |
| `SecondSync.NextCacheIsKnown` | shared/registry_sync.py:438-460 | the cache loaded from the updated table knows nothing the first sync's final cache did not |
| `SecondSync.RefetchesExactlyTheMissing` | shared/registry_sync.py:388-404 | a domain that delivers in two syncs of an unchanged registry has its fetchable URI wanted in the second if and only if the first did not obtain its document |
| `SecondSync.SecondJobsAreTheMissing` | shared/registry_sync.py:298-308 | the second sync's jobs, under any schedule, are exactly the fetchable URIs of delivering domains whose document was not obtained or, for a domain that failed before, is not on record; domains may fail in either sync |
| `SecondSync.SnapshotIsRebuilt` | shared/registry_sync.py:310-333 | an obtained snapshot is rebuilt identically when every row cached under its URI records the same; `RegistryRuns.SnapshotIsRebuiltAlways` removes the assumption |
| `SyncLock.MutualExclusion` | shared/registry_sync.py:115-152 | in every interleaving at most one thread is inside, the lock is held exactly while one is, and with the lock free the status is that of the last sync's end |
| `SyncLock.ThreadsEnd` | shared/registry_sync.py:133-136 | each own step, raising or not, brings a thread nearer its end, and at the end the lock is free |
| `SyncLock.CallSyncsExactlyWhen` | shared/registry_sync.py:126-134 | a call starts a sync if and only if the lock is free and it is forced, however fresh the cache, or found it stale |
| `SyncLock.TriggerStartsExactlyWhen` | shared/registry_sync.py:139-152 | a background refresh starts a thread exactly when forced or the cache is stale |
| `SyncLock.SyncWithoutErrorSucceeds` | shared/registry_sync.py:196-236 | a sync that meets no error records "running", then "ok" and the time, and frees the lock |
| `SyncLock.FailedFetchIsRecorded` | shared/registry_sync.py:209-221 | a fetch that fails is recorded as "error" and moves no success |
| `SyncLock.LastSuccessNeverGoesBack` | shared/registry_sync.py:226-234 | the last success is non-decreasing over every run |
| `SyncLock.SuccessMovesOnlyAfterFetchAndApply` | shared/registry_sync.py:209-234 | it moves only in a step of a thread inside that passed its fetch and its apply |
| `SyncLock.ApplyCrashLooksRunning` | shared/registry_sync.py:223-236 | a crash while applying frees the lock and leaves "running" recorded |
| `SyncLock.FreshCacheIsSyncedAgain` | shared/registry_sync.py:126-134 | a thread that saw a stale cache syncs again right after another success |
| `SyncLock.FreshCacheIsSyncedAgainReachably` | shared/registry_sync.py:126-134 | two overlapping calls lead to that state from the start |
| `SyncLock.FreshAgainExactlyWhen` | shared/registry_sync.py:183-191 | a cache found stale is fresh later if and only if a success recorded since is younger than the TTL |
| `SyncLock.UnforcedSyncOfFreshCacheExactlyWhen` | shared/registry_sync.py:126-134 | an unforced thread found the cache stale, starts exactly when the lock is free, and then syncs a fresh cache if and only if there was such a success since its check |
| `AgentsCache.BuildSource` | shared/agents_cache.py:25-45 | the list built with seen ids is the managed agents followed by the others |
| `AgentsCache.BuildAgentsPayload` | shared/agents_cache.py:25-61 | the payload lists the public agents of that list, with `total` its length |
| `AgentsCache.ListingIsStablePartition` | shared/agents_cache.py:25-61 | exactly the public agents, nobody twice, managed before local, each group newest first and, among equal times too, in the order of the query |
| `AgentsCache.AgentsCacheTable.Rebuild` | shared/agents_cache.py:79-100 | reading the cache afterwards returns the payload just built |
| `AgentsCache.AgentsCacheTable.ChangeTables` | shared/agents_cache.py:64-76 | whatever happens to the tables, the cached payload stays until the next rebuild |
| `HolErrors.AddedTextKeepsTransient` | shared/hol_client.py:38-54 | text appended to a message never hides that it is transient |
| `HolUsability.VerificationTable.RecordSuccess` | shared/hol_agent_usability.py:88-111 | a blank UAID is refused, otherwise exactly one row changes as specified |
| `HolUsability.VerificationTable.RecordHardFailure` | shared/hol_agent_usability.py:139-162 | the same for hard failures |
| `HolUsability.TableHoldsEachHistory` | shared/hol_agent_usability.py:88-162 | the table keeps each agent's history apart |
| `HolUsability.RowSummarises` | shared/hol_agent_usability.py:88-162 | the row's two times are the latest of their kind and its counters count |
| `HolUsability.RowRemembersTexts` | shared/hol_agent_usability.py:88-162 | the row keeps the last success's mode, the last failure's reason and the last transport given, stripped |
| `HolUsability.TierIs` | shared/hol_agent_usability.py:190-261 | each tier in terms of the row's two times, the 24 hours in microseconds, and what HOL says |
| `HolUsability.TierOfStranger` | shared/hol_agent_usability.py:190-261 | the tier of an agent without a row |
| `HolUsability.FieldsAre` | shared/hol_agent_usability.py:190-261 | the other computed fields: flag, last success, its mode and the reason given for the tier |
| `HolUsability.RowRefinesHistory` | shared/hol_agent_usability.py:190-261 | for non-decreasing times, tier and verified flag computed from the row equal those read off the whole history |
| `HolUsability.VerifiedExactlyWhenVouchedFor` | shared/hol_agent_usability.py:190-261 | "verified" if and only if HOL does not report the agent down and some success of the last 24 hours has no strictly later hard failure |
| `HolUsability.TimeAloneOnlyExpires` | shared/hol_agent_usability.py:190-261 | time alone changes a tier only when a verification expires, and never lifts a block |
| `HolUsability.SteppedBackClockLosesASuccess` | shared/hol_agent_usability.py:88-111 | a clock that steps back makes the row forget a later success |
| `HolUsability.RowDecidesTierExactlyWhen` | shared/hol_agent_usability.py:88-261 | for any clock, the row decides the tier for all agents and times if and only if the last recorded failure outweighs the last recorded success exactly when the latest ones do, and otherwise the last recorded success is the latest |
| `RankedSelection.FirstRankedIsBest` | api/routes/data_agent.py:1238-1242 | the first match of the stable descending ranking is the best match, the earliest among equals |
| `HolFailover.TryOne` | api/routes/data_agent.py:1265-1337 | which session, reply, mode and errors one candidate yields, spelled out for each combination of outcomes |
| `HolFailover.ChatableExactlyWhen` | api/routes/data_agent.py:556-574 | who is chatable, in terms of tier, transports, protocol, adapter and source URL |
| `HolFailover.RecordedAre` | api/routes/data_agent.py:1273-1334 | what is recorded against agents are exactly the hard ones among the errors met |
| `HolFailover.RankingIsByMerit` | api/routes/data_agent.py:529-553 | whoever does not rank below is in no worse tier, and among equals not worse on being verified, then broker-marked, then online, then reachable, then not stale |
| `HolFailover.TryCandidates` | api/routes/data_agent.py:1251-1347 | session, reply and selection all belong to the first candidate that answers; errors and recorded hard failures are those up to it; it fails iff nobody answers |
| `HolFailover.ErrorsOfUnanswered` | api/routes/data_agent.py:1265-1337 | each candidate tried in vain contributes one or two errors |
| `HolFailover.UseDiscovered` | api/routes/data_agent.py:1219-1347 | of the discovered agents, the best-ranked chatable one that answers is used: none that is chatable and answers is in a better tier or, tier for tier, better on its own fields; 404 and 502 exactly when none is chatable or none answers |
| `HolFailover.UnreachableIsNeverContacted` | api/routes/data_agent.py:556-574 | an agent whose last word is a hard failure is never contacted by discovery |
| `DiscoveryRuns.Discover` | api/routes/data_agent.py:1197-1356 | one discovery, from the rows that rank the agents to the rows it records, against the log of interactions |
| `DiscoveryRuns.BlockedStaysBlocked` | api/routes/data_agent.py:1219-1347 | over any sequence of discoveries, an agent blocked by a hard failure is never contacted and stays blocked whatever HOL says of it |
| `DiscoveryRuns.HardFailureBlocksForGood` | api/routes/data_agent.py:1268-1334 | an agent that fails hard without answering, later than anything known of it, is contacted by no later discovery |
| `HolSession.CreateSession` | shared/hol_client.py:620-688 | between 1 and retries+1 posts, every one but the last a timeout or a 502, 503 or 504, the result decided by the last alone as spelled out, and the no-response branch never reached |
| `HolSession.DelaysNeverShrink` | shared/hol_client.py:179-184 | delays never decrease |
| `HolSession.TotalSleepBounded` | shared/hol_client.py:179-184 | the total sleep is at most 15 seconds per retry |
| `HolSession.SleepIs` | shared/hol_client.py:179-184 | the sleep after attempt k is the base doubled k - 1 times, or 15 seconds if that is less |
| `HolSession.UncappedSleep` | shared/hol_client.py:179-184 | below the cap the total sleep is base * (2^n - 1) |
| `HolSession.ConnectErrorsAreFinal` | shared/hol_client.py:620-683 | a connection error that is met is the last attempt, it is met exactly when all before it were retryable, and it alone raises the configuration error |
| `DatasetProof.DataAsset.ApplyVerification` | api/routes/data_agent.py:801-816 | only the verification fields change |
| `DatasetProof.DataAsset.AnchorDataset` | api/routes/data_agent.py:855-914 | the whole stored value after success and after failure at either stage |
| `DatasetProof.DataAsset.AppendHolSessionTrace` | api/routes/data_agent.py:669-693 | the trace is appended and the last 20 are kept |
| `DatasetProof.DataAsset.RecordDatasetReuse` | api/routes/data_agent.py:1397-1417 | the counter grows by one and its value is returned |
| `DatasetProof.CoherentAlways` | api/routes/data_agent.py:855-914 | over every run: anchored means the recorded payload was submitted and names the stored CID and hash; CID, hash and gateway URL come from one pin; failures carry an error |
| `DatasetProof.StoredValueIsHistory` | api/routes/data_agent.py:855-914 | status, manifest, payload, reuse count and traces are what the whole history calls for |
| `DatasetProof.NewestTracesAreKept` | api/routes/data_agent.py:679-693 | over every run the traces kept are the newest 20 of all, in their order |
| `DatasetProof.OtherFieldsAreHistory` | api/routes/data_agent.py:855-914 | verification, topic, message status, times, error text and gateway URL are those the history calls for |
| `DatasetProof.UnanchoredNeverReentered` | api/routes/data_agent.py:245-262 | a dataset whose stored status is "unanchored" has been so all along, and no anchoring was tried |
| `DatasetProof.HalfReanchorLeavesStalePayload` | api/routes/data_agent.py:887-900 | after a half-failed re-anchoring the old payload matches if and only if CID and hash did not change |
| `DatasetProof.VerificationOutdatesHash` | api/routes/data_agent.py:801-816 | a later verification outdates the anchored hash exactly when the digest changes |
| `DatasetOverlap.InvAlways` | api/routes/data_agent.py:855-914 | every interleaving of requests keeps the row and all copies coherent |
| `DatasetOverlap.UnanchoredReenteredExactlyWhen` | api/routes/data_agent.py:1357-1366 | "unanchored" is re-entered if and only if a HOL use writes back a copy from before the first anchoring |
| `DatasetOverlap.UnanchoredReenteredInRunExactlyWhen` | api/routes/data_agent.py:1133-1366 | over every run, an event takes the row back to "unanchored" if and only if it ends a HOL use that started while the row was unanchored |
| `DatasetOverlap.AnchoringLostExactlyWhen` | api/routes/data_agent.py:855-914 | over every run, an event without a submission changes the recorded anchoring if and only if it writes back, for a request of any kind, a row with another anchoring from that request's start |
| `DatasetOverlap.ReusesLostExactlyWhen` | api/routes/data_agent.py:1397-1409 | reuses are lost exactly when a copy with a smaller count is written back |
| `DatasetOverlap.UndisturbedRunsAreSequential` | api/routes/data_agent.py:1125-1374 | if no row changes under a waiting request, overlapping requests act as if run one after another |
| `DatasetOverlap.HolUseErasesAnchoring` | api/routes/data_agent.py:1357-1366 | a HOL use spanning the first anchoring erases it while the submission stands |
| `Credits.CreditTables.GetBalance` | api/routes/credits.py:69-79 | a missing row opens with 50, otherwise nothing changes |
| `Credits.CreditTables.DeductCredits` | api/routes/credits.py:236-244 | deduction clamped at zero, a missing row opened first |
| `Credits.CreditTables.StripeWebhook` | api/routes/credits.py:155-222 | a new paying session is granted and completed once whatever the transfer does |
| `Credits.CreditTables.ReserveCredits` | api/routes/research_runs.py:340-358 | a reservation is taken exactly when the default user has a row with at least the budget |
| `Credits.ReservationTakenExactlyWhen` | api/routes/research_runs.py:340-358 | over every run, accepted if and only if seed + grants - deductions - reservations of the default user is at least the budget, of which the balance then loses exactly the budget |
| `Credits.TransactionsAreFirstDeliveries` | api/routes/credits.py:177-220 | a transaction row names the first delivery's user and credits and how its transfer ended |
| `Credits.CreditsAreConserved` | api/routes/credits.py:69-244 | over every run: balance = seed + grants of distinct sessions - amounts actually deducted - reservations, never negative |
| `Credits.ReplaysChangeNothing` | api/routes/credits.py:167-175 | a replayed session changes nothing, whatever it claims |
| `Credits.OneTransferPerSession` | api/routes/credits.py:202-220 | one transfer attempt for each granted session and no other |
| `Credits.ReservationNeverCreatesRow` | api/routes/research_runs.py:354-356 | the branch that adds a row for a reservation is never taken |
| `Credits.PurchaseFirstForfeitsSeed` | api/routes/credits.py:188-193 | buying before the first balance request forfeits the 50 opening credits |
| `WebhookDelivery.AtMostOnce` | api/routes/credits.py:167-220 | however deliveries overlap, a session is granted once, its transfer attempted once, and only after the commit |
| `WebhookDelivery.LoneDelivery` | api/routes/credits.py:163-220 | a delivery of a new paying session that nothing overlaps is granted and transferred once; any other does nothing |
| `WebhookDelivery.CommitConservesExactlyWhen` | api/routes/credits.py:188-200 | a commit adds its credits if and only if the balance has not moved since it was read |
| `WebhookDelivery.GrantsConservedExactlyWhen` | api/routes/credits.py:188-200 | over every interleaving a user ends with all credits granted if and only if every accepted commit found the balance it had read, and otherwise with less |
| `WebhookDelivery.OverlapLosesAGrant` | api/routes/credits.py:188-200 | two overlapping purchases of one user lose the first grant |
| `RunJobs.JobTable.EnsureResearchRunJob` | api/routes/research_runs.py:325-330 | a task is started and registered exactly when the registered one is missing or done |
| `RunJobs.JobTable.FinishTask` | api/routes/research_runs.py:317-322 | the end of a task pops its run and nothing else |
| `RunJobs.FinishEndsTask` | api/routes/research_runs.py:317-322 | a finishing task is done afterwards and its run unregistered; no other task or run changes |
| `RunJobs.AtMostOneExecutor` | api/routes/research_runs.py:317-330 | at most one unfinished task per run in every interleaving, and it is the registered one |
| `RunJobs.PopNeverEvictsSuccessor` | api/routes/research_runs.py:317-322 | the pop by run id removes the task's own entry, and other unfinished tasks stay registered |
| `RunJobs.EnsureStartsOnce` | api/routes/research_runs.py:325-330 | afterwards the run has an unfinished task, new exactly when it had none |
| `Reputation.ReputationRow.UpdateReputation` | agents/research/base_research_agent.py:294-322 | every field of the row after one outcome |
| `Reputation.AverageIsMean` | agents/research/base_research_agent.py:294-305 | after n outcomes of any quality the average is their mean and total = successful + failed |
| `Reputation.GeneralClosedForm` | agents/research/base_research_agent.py:294-322 | for any qualities, n times the score is 0.6 k + 0.4 Q |
| `Reputation.MultiplierIs` | agents/research/base_research_agent.py:314-322 | the multiplier is 1.2, 1.0, 0.9 or 0.8 by where 0.6 k + 0.4 Q stands between 0.8 n, 0.6 n and 0.4 n, and 1.0 before the first task |
| `Reputation.ScoreMovesExactlyWhen` | agents/research/base_research_agent.py:294-312 | for any qualities, a task does not lower (raise) the score if and only if 0.6 (n - k) + 0.4 (n q - Q), for a failure -0.6 k + 0.4 (n q - Q), is not negative (positive) |
| `Reputation.PaymentMovesExactlyWhen` | agents/research/base_research_agent.py:294-322 | for any qualities, a task lowers (raises) the multiplier if and only if it takes 0.6 k + 0.4 Q across t n, for t = 0.4, 0.6 or 0.8, downwards (upwards) |
| `Reputation.ScoreCanFallAlone` | agents/research/phase2_knowledge/literature_miner/agent.py:647-648 | successes of 0.88 and 0.6 lower the score and leave the multiplier at 1.2 |
| `Reputation.SuccessCanLowerPayment` | agents/research/phase2_knowledge/literature_miner/agent.py:647-648 | three successes with qualities the literature miner reports take the multiplier from 1.2 to 1.0 |
| `Reputation.ClosedForm` | agents/research/base_research_agent.py:250-268 | with the qualities of the base class's `execute`, 0.8 and 0.0, the score is 0.92 k/n |
| `Reputation.BandInIntegers` | agents/research/base_research_agent.py:314-322 | with those qualities, the payment bands as integer inequalities on k and n |
| `Reputation.OneOutcomeMovesTheRightWay` | agents/research/base_research_agent.py:250-268 | with those qualities, a success never lowers the band, a failure never raises it |
| `Reputation.MovesAtMostOneBand` | agents/research/base_research_agent.py:250-268 | with those qualities, one outcome moves two bands if and only if it is a failure that comes first or follows a single success |
| `Reputation.NextTaskMovesPayment` | agents/research/base_research_agent.py:250-268 | the same on the rows of an agent that keeps the base class's `execute`: multipliers move the right way, and by one band at most from the fifth task on |
| `Reputation.ReputationRow.OverwriteScore` | shared/registry_sync.py:692-693 | a registry sync replaces the score and no other field |
| `Reputation.OverwrittenScoresAreForgotten` | agents/research/base_research_agent.py:307-322 | scores written by a registry sync do not survive the next task |
| `HolRegistration.AgentRow.RegisterLocalAgent` | api/main.py:1786-1885 | the stored status, UAID and error after quote and register, for every broker outcome |
| `HolRegistration.RegisteredExactlyWhen` | api/main.py:475-482 | registered if and only if some register call was granted a UAID and all later ones failed transiently |
| `HolRegistration.StatusIsThatOfLastRegister` | api/main.py:475-482 | "pending", "error" and "unregistered" read off the last register request |
| `HolRegistration.ErrorIsThatOfLastRegister` | api/main.py:1809-1848 | the stored error is the last register request's text, with the diagnostics of a credit error after it |
| `HolRegistration.StoredUaid` | api/main.py:450-472 | the stored UAID is the last one granted, and a registered agent has one |
| `HolRegistration.UaidNeverLost` | api/main.py:450-472 | a stored UAID survives every further request that does not overlap another |
| `RegistrationOverlap.RegisteredHasUaid` | api/main.py:1768-1885 | in every interleaving of requests a registered agent has a UAID |
| `RegistrationOverlap.UaidChangesExactlyWhen` | api/main.py:564-603 | over every run, an event without a grant changes the stored UAID if and only if its request published metadata and had loaded the row with another one |
| `RegistrationOverlap.UaidLostExactlyWhen` | api/main.py:564-603 | a stored UAID is lost if and only if a request that loaded the row before there was one publishes metadata and is granted none |
| `RegistrationOverlap.QuoteErasesRegistration` | api/main.py:564-603 | a quote that publishes while another request registers erases the registration |
| `RegistrationOverlap.UndisturbedRunsAreSequential` | api/main.py:1768-1885 | if no publishing request finds another row than it loaded, overlapping requests act as if run one after another |
| `HolRegistration.CrashForgetsRegistration` | api/main.py:1803-1885 | a crash and then a transient failure report a registered agent as unregistered |
| `HolRegistration.DiagnosticsOnlySoften` | api/main.py:475-482 | diagnostics added to a credit error never turn a transient failure into a hard one |
| `MetadataPublish.AgentRow.PrepareRegistration` | api/main.py:564-658 | the committed row, the pin and the payload for every combination of URLs and upload outcome |
| `MetadataPublish.PublicUrls` | api/main.py:613-629 | the endpoint and health URL as given, rewritten where they are not public, or the 400 |
| `MetadataPublish.PublishesOnChange` | api/main.py:606-658 | without override a data agent is published exactly when it has no URI or its URLs differ from those last published |
| `MetadataPublish.PayloadNames` | api/main.py:606-700 | the payload names the asked endpoint, rewritten if it is not public, and the metadata just pinned or else the asked URI |
| `MetadataPublish.RefusesExactlyWhen` | api/main.py:661-690 | a payload is refused exactly when no endpoint or no metadata URI is there to name |
| `MetadataPublish.OthersNeverPublish` | api/main.py:632-648 | agents that are not data agents, and requests that name their metadata, never publish |
| `MetadataPublish.CommitRecordsPin` | api/main.py:564-603 | a committed pin records what was pinned and the URLs it was pinned for, and nothing else is ever committed |
| `MetadataPublish.RepublishesExactlyWhen` | api/main.py:606-658 | after a request that pinned, committed or not, an identical one pins again if and only if the URLs or the override do not settle |
| `MetadataPublish.EveryRepetitionPins` | api/main.py:606-658 | when they do not settle, the pins of any number of repetitions are exactly their successful uploads |
| `MetadataPublish.AtMostOnePin` | api/main.py:606-658 | any number of identical requests pins at most once when they settle |
| `BudgetSelection.SelectAgentsForBudget` | api/pipeline.py:188-229 | both loops with their early break compute the specified selection; a zero reputation raises |
| `BudgetSelection.ByRatioIsAscending` | api/pipeline.py:211-214 | agents are considered from the best price per reputation upwards |
| `BudgetSelection.RatioIsPriceOverReputation` | api/pipeline.py:211-214 | for positive reputations the order is that of price per reputation, compared crosswise |
| `BudgetSelection.SelectionIsGreedy` | api/pipeline.py:188-229 | first essential agents, then others; an eligible agent left out did not fit after them and those selected that cost less per reputation |
| `BudgetSelection.EssentialsAreGreedy` | api/pipeline.py:201-209 | an essential agent the first loop leaves out did not fit after the essential ones before it |
| `BudgetSelection.BreakIsHarmless` | api/pipeline.py:216-227 | the early break changes nothing when every price is at least 2.0 |
| `BudgetSelection.SelectionIsFeasibleAndMaximal` | api/pipeline.py:188-229 | the books balance, nobody is taken twice, and no eligible agent left out fits in what remains |
| `BudgetSelection.EssentialsAreIncluded` | api/pipeline.py:198-209 | all eligible essential agents are taken when the budget covers them together |
| `BudgetSelection.BreakMattersExactlyWhen` | api/pipeline.py:216-227 | for any prices, the early break changes the result if and only if, at the purchase that leaves less than 2.0, an agent still to come is wanted |
| `BudgetSelection.RealSelectionIsFeasibleAndMaximal` | api/pipeline.py:45-61 | over the table as it is, no budget or minimum reputation makes the function raise, overspend, stop short or miss an agent that fits |
| `BudgetSelection.BreakCanMissACheapAgent` | api/pipeline.py:224-227 | the bound on prices is needed: a table with an agent at 1.0, unlike the real one, would lose it to the break |
| `PhasedPipeline.ResearchPipeline.StartPipeline` | agents/research/research_pipeline.py:82-146 | five pending phases and nothing spent |
| `PhasedPipeline.ResearchPipeline.ExecutePhase` | agents/research/research_pipeline.py:148-214 | the record, spending and outputs after a success and after a failure |
| `PhasedPipeline.ResearchPipeline.ExecuteFullPipeline` | agents/research/research_pipeline.py:401-466 | the loop stops where and in the state the specification says |
| `PhasedPipeline.SpentIsSumOfSuccesses` | agents/research/research_pipeline.py:148-214 | `spent` is the cost of all successful executions, repeated ones included |
| `PhasedPipeline.FullRunIsAccounted` | agents/research/research_pipeline.py:401-466 | completed phases form a prefix and cost what was spent; success means five phases within budget; only a budget stop overshoots, by at most its last phase |
| `PhasedPipeline.FullRunIsExplained` | agents/research/research_pipeline.py:401-466 | the five phases in their order; where a run stops is explained by what that phase or the one before delivered, and the records carry costs and statuses |
| `PhasedPipeline.SucceedsExactlyWhen` | agents/research/research_pipeline.py:401-466 | a full run succeeds if and only if every phase delivers completely and the total stays within budget |

## Left out

- HTTP routes, FastAPI and pydantic validation, SQLAlchemy sessions, and failures of commits that the code does not handle itself.
- Hashing, JSON encoding, signatures, `urllib` parsing and IPFS: parameters or opaque values.
- Environment readers: worker counts, gateways, base URLs, retries and TTLs are parameters; gateway addresses come without trailing slashes.
- Floats are `real`: rounding is not modelled, and reputation values that are not numbers are not represented.
- `Text.Lower` covers the ASCII letters only; every marker it is compared with is ASCII.
- RegistryTypes.BuildSnapshot: profile fields other than id and name are functions of the metadata document and are not listed separately; metadata that is JSON but not an object, for which the source raises, is not represented.
- RegistryApply.RegistryTables.ApplySnapshots: does not model the payment profile sync, or the second reputation row that two snapshots of one known agent without a reputation row would add in one session.
- RegistryApply.RegistryTables.RetireUnlisted: leaves `registry_synced_at` of retired rows alone, because the in-place edit of the JSON value is not seen as a change and so not written.
- RegistryFetch.Complete: both worker pools are modelled as free schedules; their sizes and timeouts are not.
- RegistryRuns.TablesAreSound: edits by other code are any that leave a row's URI, address, CID and document alone, publish it, or bring a row without a document.
- SecondSync.FirstSync: the first sync applies its snapshots to the table it loaded its cache from; `RegistryRuns` lets others write in between.
- SecondSync.SnapshotIsRebuilt: is about snapshots that got their document; a retried one depends on what the network answers the second time.
- SyncLock.MutualExclusion: the rebuild of the listing after a sync, whose errors are swallowed, is not a step of its own.
- HolFailover.UseDiscovered: the searches, the required-capability filter and the explicit-UAID mode, which skips filter and ranking, come before the modelled part.
- DiscoveryRuns.BlockedStaysBlocked: discoveries one after another; the chat routes and the explicit-UAID mode contact agents without the filter and can record a success that lifts a block.
- HolSession.CreateSession: payload parsing is reduced to the presence of a session id.
- DatasetOverlap.InvAlways: a write that equals the copy it started from is modelled as a write, though the ORM may skip it.
- Credits.CreditTables.StripeWebhook: the commit that fails is in `WebhookDelivery`, not here.
- WebhookDelivery.AtMostOnce: unique session and user ids are the database's; a transfer whose second commit fails is not followed further.
- WebhookDelivery.GrantsConservedExactlyWhen: is about overlapping webhook deliveries; balance and deduction requests, which run on threads and can overlap them too, are single steps in `Credits` only.
- RunJobs.AtMostOneExecutor: one event loop; the executor itself is not part of this model.
- RegistrationOverlap.UaidLostExactlyWhen: one event loop, in which the synchronous broker call cannot be interleaved; several processes could also interleave there.
- HolRegistration.AgentRow.RegisterLocalAgent: readiness checks that answer 4xx before anything is stored are one case, and the balance lookup behind the diagnostics is a parameter.
- PhasedPipeline.ResearchPipeline.ExecutePhase: the agents' outputs are reduced to their cost and to whether the next phase's required outputs are all there.
- Search and matching of agents, LLM agents, the human approval flow, the frontend and `generateSlug`: easy members, or resting on code outside the modelled files.
