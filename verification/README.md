# Verification of the suite's protocols and cores

A Dafny model of the parts of this repository that keep promises over time: the governed write
protocol of the knowledge base, KMS keys and envelope encryption with cryptoshredding and restore
drills, the tenant module lifecycle, the audit hash chain, token replay protection, the OIDC key
cache and the RS256 padding check, PDF literal strings, the migration runner and the text chunker.
`dafny verify dfyconfig.toml` checks all of it.

Every component has one specification made of functions over values. Where the program changes
things in place, a class or a looping method is proved equal to that specification, and the
properties are lemmas about it.

- Knowledge base: `KnowledgeTypes`, `KnowledgeEvidence` (records and evidence builders),
  `KnowledgeProtocol` (the state machine), `KnowledgeFacts`, `KnowledgeInvariant` (why a cleared
  execution commits), `KnowledgeUniqueness` (when exactly it does), `KnowledgeRuns` (whole runs),
  `KnowledgeCompletion` (approvals and approved writes go through), `KnowledgeDuplicates` (what
  happens to articles that share an id), `KnowledgeService` (the stores and the service as objects).
- Keys: `KeyReference`, `KmsAdapter`, `Envelope`, `EnvelopeRoundTrip`, `RestoreDrill`,
  `RestoreDrillRuns`.
- Modules: `Modules`, `ModuleRegistry`, `ModuleLifecycle`, `ModuleReachability`.
- Audit: `AuditChain`. Tokens: `JwtReplay`, `JwtReplayGuard`, `JwtClaims`, `ReplayDatabase`,
  `OidcKeyCache`, `OidcKeyCacheRuns`, `Pkcs1`.
- Others: `PdfLiterals`, `Migrations`, `Chunker`; shared `Text`, `Sorting`, `Wrappers`.

Hashes. Where the program hashes a record into text, the model takes a function from payloads to
numbers and, where a theorem needs it, assumes that it has no collisions among payloads of one
kind. HMAC and SHA-256 as used inside the cipher are functions to 32-byte blocks of which nothing
else is assumed. Clocks, random bytes, generated identifiers, network answers and whether a piece
of SQL runs are inputs.

## Where the code and a natural reading of it differ

- `encrypt` wraps the data key under the key reference as given, the manifest records it trimmed.
  Encrypting and decrypting is guaranteed to round-trip exactly for trimmed references
  (`RoundTripNeedsTrimmed`).
- Rotation does not look the new key version up among the destroyed ones. A rewrap onto a destroyed
  version succeeds and the result no longer opens (`RewrapOntoDestroyedLocks`); a run of the adapter
  leads there for every class that may be shredded (`LockingRunExists`).
- A key reference whose tenant contains a slash prints to a text that does not parse
  (`CanonicalRoundTrip`).
- The in-memory article repository, unlike the PostgreSQL one with its primary key, can be seeded
  with two articles of one tenant that share an id.
  For such a tenant, and only for it, the preview of an approved write is refused: its answer counts
  hashes by article and lists them by id (`PreviewAnswersExactly`). The execution has no such check.
  A caller who computes the preview hash himself passes everything before the first write, and the
  execution then fails with receipt, source version and article stored (`TwoArticlesOneId` is an
  input, `DuplicatesHalfCommit` the general case). Execution commits exactly if it passes its checks
  and the tenant's ids are unique, whatever other tenants hold (`ExecutesExactly`).
- `disable` passes its guard but is refused by the state validator exactly when a decommissioning
  was cancelled earlier and a feature is on (`GuardsSufficeExceptDisable`,
  `CancelThenEnableLeadsThere`).
- A module disabled or suspended before it was provisioned can never be provisioned nor
  decommissioned, and the first `disable` of a seeded module leads there (`SeedFallsIntoTrap`). A
  module can be decommissioned exactly if it is provisioned or still AVAILABLE
  (`DecommissionableExactly`).
- Provisioning builds a fresh state. It is the one command that drops decommission evidence, and it
  does so exactly if the state it replaces has some (`OnlyProvisioningDropsEvidence`).
- `PgAuditLogger` inherits `verify`, which looks at the events its own process recorded; it succeeds
  exactly when those are the first events of one tenant (`ProcessVerifies`), so a process that served
  two tenants fails it (`TwoTenantsFail`).
- Verifiers accept a token for some seconds past its expiry, the replay store forgets it at its
  expiry, and the two read the clock one after the other. A token is accepted again exactly from its
  expiry, by the store's clock, until its expiry plus the tolerance, by the validator's
  (`TokenAcceptedAgainExactly`, with two such histories in `TokensAcceptedTwice`). With a clock that
  goes back, a forgotten token is accepted before its expiry (`BackwardClockReplays`, exact condition
  in `JwtReplayGuard.AcceptedAgainExactly`).
- The file-backed replay store is poisoned for good by a blank issuer or token id, which token
  validation rules out (`PoisonedForGood`).
- The database replay store keeps one row per issuer and token id for all tenants, while its lookup
  is per tenant and ignores expired rows (`CheckAndInsertDisagree`). Retention takes any positive
  bound; purged too early, a token is accepted again before its expiry (`UntimelyPurgeReplays`, exact
  condition in `ReplayDatabase.AcceptedAgainExactly`).

## Model

| member | source | states |
|---|---|---|
| KeyReference.CanonicalRoundTrip | app/suite/kms/adapter.py:58-91 | Printing a valid reference and parsing it gives it back exactly when its tenant has no slash; with one it is rejected for its shape |
| KeyReference.ParsedPrintsBack | app/suite/kms/adapter.py:62-91 | Whatever parses is a valid slash-free reference and prints back to the trimmed input |
| KnowledgeFacts.RestoreForgetsOrder | app/suite/platform/knowledge_base.py:3705-3757 | For articles with unique ids restore evidence does not depend on the order in which they are listed |
| KnowledgeFacts.EditProjection | app/suite/platform/knowledge_base.py:3629-3653 | The projection of an edit is the sorted list of current hashes with the edited article's replaced, rejected on duplicates |
| KnowledgeFacts.CreateProjection | app/suite/platform/knowledge_base.py:3629-3653 | The projection of a creation is the sorted list of current hashes with the new one added, rejected on duplicates |
| KnowledgeFacts.ViewStable | app/suite/platform/knowledge_base.py:3259-3338 | Storing further source versions changes nothing a tenant's evidence rests on |
| KnowledgeInvariant.NoSourceReasons | app/suite/platform/knowledge_base.py:2338-2385 | The guard finds no fault with a proposed record exactly when it is storable, is the approved one field by field, and is internal, standard-retained and unheld |
| KnowledgeInvariant.NoTargetReasons | app/suite/platform/knowledge_base.py:2311-2336 | The guard finds no fault with the target exactly when a creation addresses none and an edit the expected, unheld, standard-retained version |
| KnowledgeInvariant.ClearedMeansAllowed | app/suite/platform/knowledge_base.py:2988-3006 | An execution whose re-evaluated guard reference matches was allowed on the very record it writes |
| KnowledgeInvariant.WriteMeetsProjection | app/suite/platform/knowledge_base.py:3050-3071 | Projection commutes with the write: the hashes recomputed after it, in title order again, equal the projection made before it, and hold the approved evidence |
| KnowledgeInvariant.ReceiptAccepted | app/suite/storage/source_objects.py:370-380 | The receipt of an execution whose source version is not stored yet is never refused, neither for its hash nor as a duplicate |
| KnowledgeInvariant.ClearedCommits | app/suite/platform/knowledge_base.py:2951-3071 | For a tenant with unique ids, an execution that passes its gates completes all three writes, touches one article of its tenant, and passes both post-write comparisons |
| KnowledgeInvariant.FreshSnapshot | app/suite/platform/knowledge_base.py:3756-3757 | Restore evidence over a source version nobody had equals no earlier restore evidence |
| KnowledgeUniqueness.ExecutionNeedsUniqueIds | app/suite/platform/knowledge_base.py:3050-3071 | An execution commits only if the articles of its tenant have unique ids |
| KnowledgeUniqueness.DuplicateIdsHalfCommit | app/suite/platform/knowledge_base.py:3008-3071 | In every sound state, with two articles of one id in its tenant, an execution that passes its gates fails with receipt and source version stored |
| KnowledgeUniqueness.CommitsExactly | app/suite/platform/knowledge_base.py:2951-3071 | An execution commits if and only if it passes its gates and the ids of its own tenant are unique; one that fails has changed nothing exactly if it did not pass its gates |
| KnowledgeUniqueness.OtherTenantsUntouched | app/suite/platform/knowledge_base.py:1486-1530 | An execution, committed, refused or failed part-way, leaves every other tenant's articles and evidence alone |
| KnowledgeRuns.ExecutionIsAtomic | app/suite/platform/knowledge_base.py:2951-3071 | For a tenant with unique ids an execution commits exactly when it passes the checks before its first write, and otherwise changes nothing |
| KnowledgeRuns.NextKeepsInv | app/suite/platform/knowledge_base.py:2516-3071 | Every step of any tenant, and any other writer of the source store, keeps the protocol invariant of each tenant with unique ids, whatever other tenants hold |
| KnowledgeRuns.ExecutesExactly | app/suite/platform/knowledge_base.py:2951-3071 | In every run from any seeded articles an execution commits exactly if it passes its gates and its tenant started with unique ids, and changes something exactly if it passes its gates |
| KnowledgeRuns.ApprovalIsSound | app/suite/platform/knowledge_base.py:2605-2668 | An approval carries over the proposal of an existing dry run of its tenant, its snapshot is current, and no other entry stems from that dry run |
| KnowledgeRuns.LedgerLineage | app/suite/platform/knowledge_base.py:2012-2017 | In every state reachable from any seeded articles entries stand for good, each approval names one dry run of its tenant with the same hashes, and no dry run is approved twice |
| KnowledgeRuns.SnapshotNeverReturns | app/suite/platform/knowledge_base.py:2985-2986 | No ABA: for a tenant with unique ids the restore hash is the same at two moments exactly when it executed nothing in between, and then its articles are the same |
| KnowledgeRuns.StaleStaysStale | app/suite/platform/knowledge_base.py:2985-2986 | For a tenant with unique ids: once an entry's snapshot has moved on, no later preview, skeleton or execution accepts it |
| KnowledgeRuns.OneExecutionPerSnapshot | app/suite/platform/knowledge_base.py:2951-3071 | Two executions of a tenant rest on different snapshots and different approvals |
| KnowledgeRuns.ExecutionStoresNewVersion | app/suite/platform/knowledge_base.py:3210-3224 | An executed write stores a source version absent at every earlier moment |
| KnowledgeCompletion.GroundsProject | app/suite/platform/knowledge_base.py:3629-3653 | An approved write whose snapshot stands always has a projection, whatever ids the articles have |
| KnowledgeCompletion.PreviewAnswersExactly | app/suite/platform/knowledge_base.py:2688-2804 | On a standing approval the preview is answered if and only if the tenant's article ids are unique |
| KnowledgeCompletion.GuardDecides | app/suite/platform/knowledge_base.py:3226-3257 | On a standing approval the guard allows a write exactly when record and target fit |
| KnowledgeCompletion.ApprovalSucceedsExactly | app/suite/platform/knowledge_base.py:2599-2668 | For a tenant with unique ids, at any later moment of a run, the approval of a dry run succeeds exactly if the tenant has executed nothing since and the dry run has not been approved |
| KnowledgeCompletion.ApprovedWriteCompletes | app/suite/platform/knowledge_base.py:2688-3071 | For a tenant with unique ids: after an approval, while its tenant executes nothing, preview and guard succeed, an allowed write's skeleton succeeds, and its execution succeeds exactly when the source version is absent |
| KnowledgeDuplicates.OwnCommandClears | app/suite/platform/knowledge_base.py:2988-3035 | A command with a preview hash computed by the caller passes every gate of the execution, if the guard allows the write and the source version is absent, also where the preview is refused |
| KnowledgeDuplicates.DuplicatesHalfCommit | app/suite/platform/knowledge_base.py:2951-3071 | From every initial state in which a tenant with a duplicate id has well-formed evidence, any storable creation can be dry-run, approved and executed so that it fails with everything written |
| KnowledgeDuplicates.TwoArticlesOneId | app/suite/platform/knowledge_base.py:1396-1398 | A concrete such input: two seeded articles of one id resting on different stored versions |
| KnowledgeService.ArticleRepository.ApplyWrite | app/suite/platform/knowledge_base.py:1489-1530 | The repository appends or replaces exactly as specified, and is unchanged on every error |
| KnowledgeService.ApprovalLedger.Append | app/suite/platform/knowledge_base.py:2012-2017 | Appends under tenant and hash, refusing a key already present |
| KnowledgeService.SourceRepository.Add | app/suite/storage/source_objects.py:710-717 | Adds a guarded record under an absent key, otherwise changes nothing |
| KnowledgeService.ReceiptStore.Append | app/suite/storage/source_objects.py:370-380 | Appends a receipt whose hash is its own, unless its key or its object version is known |
| KnowledgeService.EvaluateWrite | app/suite/platform/knowledge_base.py:2251-2309 | The reasons appended one by one are the specified decision |
| KnowledgeService.ArticleService.DryRunWrite | app/suite/platform/knowledge_base.py:2516-2597 | The call's result and the new state are those of the state machine, whose invariants it keeps |
| KnowledgeService.ArticleService.ApproveWrite | app/suite/platform/knowledge_base.py:2599-2686 | The call's result and the new state are those of the state machine, whose invariants it keeps |
| KnowledgeService.ArticleService.FindGrounds | app/suite/platform/knowledge_base.py:2957-2986 | The checks every step after approval begins with, as one answer |
| KnowledgeService.ArticleService.PreviewRefresh | app/suite/platform/knowledge_base.py:2688-2804 | The answer, with its own validation, is the one specified |
| KnowledgeService.ArticleService.Execute | app/suite/platform/knowledge_base.py:2951-3071 | Result and state are those of the state machine; for a tenant with unique ids an error leaves the state as it was |
| KmsAdapter.LocalKmsAdapter.RecordKeyDestruction | app/suite/kms/adapter.py:417-442 | Adds exactly the validated key's canonical reference, or nothing on an error |
| KmsAdapter.ValidatesExactlyLive | app/suite/kms/adapter.py:444-455 | A text is honoured as a key exactly when, trimmed, it is the canonical text of a live key of that tenant and class |
| KmsAdapter.PolicyForIsUnique | app/suite/kms/adapter.py:124-166 | Under a valid policy every class has one entry, and that entry is the one consulted |
| KmsAdapter.RotationStepsOne | app/suite/kms/adapter.py:384-415 | Rotation moves one version up, whether or not the new version is destroyed |
| KmsAdapter.DestroyedGrows | app/suite/kms/adapter.py:417-424 | The destroyed set only grows |
| KmsAdapter.OnlyShreddableDestroyed | app/suite/kms/adapter.py:457-471 | A key that a run destroyed is neither GoBD nor legal-hold, and every policy entry of its class allows destruction and demands human approval |
| KmsAdapter.DestructionIsExact | app/suite/kms/adapter.py:417-455 | A destroyed key is refused for good, and the destruction changes the answer for no other reference |
| KmsAdapter.NextVersionFirst | app/suite/kms/adapter.py:384-424 | For every live key of a shreddable class a run destroys its next version first, after which rotation leads to a destroyed key |
| Envelope.BuildKeystream | app/suite/kms/envelope.py:581-593 | The block loop yields byte i of block i/32 at every position, or the counter overflow |
| Envelope.BuildWrapStream | app/suite/kms/envelope.py:600-607 | The same for the wrapping stream |
| EnvelopeRoundTrip.SealedDecrypts | app/suite/kms/envelope.py:323-382 | A sealed envelope opens to its plaintext exactly when the adapter honours its manifest's reference, and otherwise with the adapter's refusal |
| EnvelopeRoundTrip.RewrapSeals | app/suite/kms/envelope.py:384-458 | A rewrap succeeds exactly when the current version is not destroyed, and keeps the envelope sealed under the next |
| EnvelopeRoundTrip.EncryptRewrapDecrypt | app/suite/kms/envelope.py:270-464 | Encrypt, any number of rewraps, decrypt: versions count up, content hashes stay, manifests link back, and each opens to the plaintext until its own version is destroyed |
| EnvelopeRoundTrip.OpensUntilDestroyed | app/suite/kms/envelope.py:345-358 | Over a run of destructions a manifest opens until its version is destroyed and never after |
| EnvelopeRoundTrip.RewrapOntoDestroyedLocks | app/suite/kms/envelope.py:420-436 | A rewrap onto a destroyed version succeeds and leaves an envelope that does not open |
| EnvelopeRoundTrip.LockingRunExists | app/suite/kms/envelope.py:418-458 | For every envelope sealed under a shreddable class there is a run of the adapter after which its rewrap succeeds and the result is refused for its destroyed key |
| EnvelopeRoundTrip.DecryptionsAgree | app/suite/kms/envelope.py:373-375 | Successful decryptions under equal plaintext hashes agree |
| EnvelopeRoundTrip.UntrimmedFails | app/suite/kms/envelope.py:299-306 | For every untrimmed reference there are primitives under which what it sealed does not open |
| EnvelopeRoundTrip.RoundTripNeedsTrimmed | app/suite/kms/envelope.py:94-116 | The round trip is guaranteed, whatever the primitives, exactly for trimmed references |
| RestoreDrill.CryptoshredSimulator.Simulate | app/suite/kms/cryptoshred.py:165-218 | Result and destroyed set are those of the specification |
| RestoreDrill.UniqueChecks | app/suite/operations/restore_drill.py:473-479 | The nested loops keep each check's first occurrence |
| RestoreDrill.UniqueKeepsFirsts | app/suite/operations/restore_drill.py:473-479 | The list has no duplicates, the same members, and first-occurrence order |
| RestoreDrillRuns.SimulationDestroys | app/suite/kms/cryptoshred.py:165-300 | A simulation goes through exactly when record, retention manifest, retention time, class policy and live key all allow it, and then destroys exactly the record's key; a refused one changes nothing |
| RestoreDrillRuns.RestoredMeansOpened | app/suite/operations/restore_drill.py:203-257 | A drill reports RESTORED exactly when the evidence matches and the envelope opens, and its report satisfies the status rules |
| RestoreDrillRuns.RestoredContentIsPlaintext | app/suite/operations/restore_drill.py:229-232 | The content a RESTORED report released is the envelope's plaintext |
| RestoreDrillRuns.ShreddedNeverRestores | app/suite/operations/restore_drill.py:203-257 | After a simulation no later drill under that key reference reports RESTORED |
| RestoreDrillRuns.ShreddingSparesOthers | app/suite/kms/cryptoshred.py:165-186 | The simulation changes no drill's answer under another reference |
| RestoreDrillRuns.SealedRestoresUntilDestroyed | app/suite/operations/restore_drill.py:203-257 | A sealed envelope with matching storage evidence is reported RESTORED exactly while its key version stands |
| RestoreDrillRuns.SimulationProvesUnrecoverable | app/suite/operations/restore_drill.py:259-287 | The simulation's manifest proves the object unrecoverable exactly when the storage manifest fits the record and its reference is trimmed |
| ModuleRegistry.InMemoryModuleRegistry.Upsert | app/suite/platform/modules.py:606-611 | Stores a valid state of an installed module, and nothing else |
| ModuleRegistry.InMemoryModuleRegistry.CollectEvidence | app/suite/platform/modules.py:656-684 | The loop over required versions yields the specified evidence or its first error |
| ModuleRegistry.InMemoryModuleRegistry.ProvisionTenantModule | app/suite/platform/modules.py:754-806 | Stores a fresh DISABLED state with complete startup evidence for a module not provisioned yet; on any refusal the table is as it was |
| ModuleRegistry.InMemoryModuleRegistry.EnableTenantModule | app/suite/platform/modules.py:808-843 | Stores ENABLED only for a provisioned module outside the workflow with all startup migrations; on any refusal the table is as it was |
| ModuleRegistry.InMemoryModuleRegistry.DisableTenantModule | app/suite/platform/modules.py:845-874 | Stores DISABLED outside the workflow if the validator accepts; on any refusal the table is as it was |
| ModuleRegistry.InMemoryModuleRegistry.SuspendTenantModule | app/suite/platform/modules.py:876-904 | Stores SUSPENDED outside the workflow if the validator accepts; on any refusal the table is as it was |
| ModuleRegistry.InMemoryModuleRegistry.RequestDecommission | app/suite/platform/modules.py:945-987 | Turns all features off, merges complete request evidence and stores the request; on any refusal the table is as it was |
| ModuleRegistry.InMemoryModuleRegistry.BlockDecommission | app/suite/platform/modules.py:989-1032 | Merges complete blocker evidence into an open workflow and stores it blocked; on any refusal the table is as it was |
| ModuleRegistry.InMemoryModuleRegistry.CancelDecommission | app/suite/platform/modules.py:1034-1080 | Merges complete cancel evidence into an open workflow and stores the module DISABLED; on any refusal the table is as it was |
| ModuleRegistry.InMemoryModuleRegistry.ReopenDecommission | app/suite/platform/modules.py:1082-1125 | Merges complete reopen evidence into a blocked workflow and stores it requested; on any refusal the table is as it was |
| ModuleRegistry.InMemoryModuleRegistry.CompleteDecommission | app/suite/platform/modules.py:1127-1170 | Merges complete final evidence into an open workflow and stores it DECOMMISSIONED; on any refusal the table is as it was |
| ModuleLifecycle.StartupEvidenceComplete | app/suite/platform/modules.py:656-684 | Startup evidence covers every required version with blocking entries of the module or the core, and nothing else |
| ModuleLifecycle.GuardsSufficeExceptDisable | app/suite/platform/modules.py:420-496 | On a sound state a command that passes its guards with a well-formed call is accepted by the validator, except disable after a cancellation with a feature on |
| ModuleLifecycle.PerformsExactly | app/suite/platform/modules.py:754-1170 | Whether a command succeeds, as an if and only if over guards, call and that one exception |
| ModuleLifecycle.DisableAfterCancelRefused | app/suite/platform/modules.py:478-483 | Such a module passes the guard of disable and is refused, and can be suspended |
| ModuleReachability.CancelThenEnableLeadsThere | app/suite/platform/modules.py:1034-1080 | Every provisioned disabled module reaches such a state by a request, its cancellation and an enablement |
| ModuleLifecycle.EvidenceNeverLost | app/suite/platform/modules.py:967-985 | From any table on, a module that cannot be provisioned any more, or has no evidence yet, never loses an evidence key |
| ModuleLifecycle.OnlyProvisioningDropsEvidence | app/suite/platform/modules.py:754-806 | A successful command drops evidence exactly if it provisions a module that has some, and then it drops all of it |
| ModuleLifecycle.EvidenceKeptUnlessProvisioned | app/suite/platform/modules.py:967-985 | From any table on, evidence keys stay as long as the module is not provisioned |
| ModuleLifecycle.DecommissionedStays | app/suite/platform/modules.py:1127-1170 | A decommissioned module never changes again |
| ModuleLifecycle.WorkflowNeedsRequest | app/suite/platform/modules.py:945-987 | A module in or through the workflow owes it to a successful request that no successful cancellation has followed |
| ModuleLifecycle.UnprovisionedTrap | app/suite/platform/modules.py:769-777 | Unprovisioned DISABLED and SUSPENDED modules stay so for good |
| ModuleReachability.SeedFallsIntoTrap | app/suite/platform/modules.py:845-904 | Disabling or suspending a freshly seeded module succeeds and leaves it unprovisioned DISABLED or SUSPENDED |
| ModuleReachability.DecommissionableExactly | app/suite/platform/modules.py:754-1170 | Some sequence of commands decommissions a module if and only if it is provisioned or still AVAILABLE |
| ModuleLifecycle.LifecycleInvariant | app/suite/platform/modules.py:686-734 | In every reachable state no feature is on in the workflow, ENABLED means provisioned with all startup migrations, and the normal gate opens exactly for enabled modules and features |
| ModuleReachability.CanBeDecommissioned | app/suite/platform/modules.py:754-1170 | Every module that is provisioned or still AVAILABLE gets to DECOMMISSIONED in at most three commands |
| AuditChain.VerifyChain | app/suite/ai_control_plane/audit.py:70-93 | Reports the longest valid prefix, what is wrong after it, and ok exactly for valid chains |
| AuditChain.InMemoryAuditLogger.Record | app/suite/ai_control_plane/audit.py:104-136 | Appends one event that continues the valid chain |
| AuditChain.ChainsAgree | app/suite/ai_control_plane/audit.py:27-29 | Valid chains with the same hash at position n agree on their first n events |
| AuditChain.KeyFree | app/suite/ai_control_plane/audit.py:189-221 | Under the tenant lock the next sequence number is never taken |
| AuditChain.EveryChainVerifies | app/suite/ai_control_plane/audit.py:177-254 | Under every interleaving of processes each tenant's chain verifies and its length is its last sequence number |
| AuditChain.CheckpointPinsPrefix | app/suite/ai_control_plane/audit.py:256-302 | A checkpoint covers as many events as it says, the chain keeps them, and any valid chain carrying its last hash there starts with exactly them |
| AuditChain.OwnEventsVerify | app/suite/ai_control_plane/audit.py:138-139 | A list of stored rows verifies exactly when it is the first events of one tenant |
| AuditChain.ProcessVerifies | app/suite/ai_control_plane/audit.py:138-139 | In every run the inherited verification of a process succeeds exactly when what it recorded are the first events of one tenant |
| AuditChain.TwoTenantsFail | app/suite/ai_control_plane/audit.py:177-223 | A concrete run in which one process serves two tenants: both chains verify, its own list does not |
| JwtReplay.InMemoryJwtReplayStore.Contains | app/suite/platform/context.py:107-110 | Purges the expired and answers about the rest |
| JwtReplay.InMemoryJwtReplayStore.Record | app/suite/platform/context.py:112-124 | Purges the expired and stores the pair |
| JwtReplay.JsonFileJwtReplayStore.WriteRecords | app/suite/platform/context.py:210-223 | The file holds exactly the records, in sorted order |
| JwtReplay.JsonFileJwtReplayStore.ReadRecords | app/suite/platform/context.py:183-208 | Reads exactly the unexpired records, of several with one pair the last, and leaves the file with them; a file that is garbled or holds a blank key is refused and stays as it is |
| JwtReplay.JsonFileJwtReplayStore.Contains | app/suite/platform/context.py:148-151 | Answers about the unexpired records; the same answer and the same content as the in-memory store if the file lists no pair twice |
| JwtReplay.JsonFileJwtReplayStore.Record | app/suite/platform/context.py:153-169 | The same content as the in-memory store if the file lists no pair twice; poisoned exactly by a blank pair |
| JwtReplayGuard.RequireNotReplayed | app/suite/platform/context.py:230-255 | The guard over the in-memory store is the specified guard |
| JwtReplayGuard.RequireNotReplayedOnFile | app/suite/platform/context.py:230-255 | Answer and new state are those of the specified guard over the file, poisoned or not; over a file that lists a pair twice, those of the guard over what is live in it |
| JwtReplayGuard.FileAgrees | app/suite/platform/context.py:183-255 | On every sequence of calls with storable pairs the file guard and the in-memory guard give the same answers |
| JwtReplayGuard.PoisonedForGood | app/suite/platform/context.py:183-208 | Once poisoned the file guard refuses every later token that has an id |
| JwtReplayGuard.AcceptedAgainExactly | app/suite/platform/context.py:230-255 | After an acceptance a pair is accepted again exactly once some call since has seen its expiry pass, whatever the clock does |
| JwtReplayGuard.NoReplayBeforeExpiry | app/suite/platform/context.py:103-141 | With a clock that never goes back no pair is accepted again before its expiry |
| JwtReplayGuard.BackwardClockReplays | app/suite/platform/context.py:138-141 | A concrete history with a clock that goes back accepts a token twice before its expiry |
| JwtClaims.VerifyToken | app/suite/platform/context.py:485-548 | Validates the claims and then asks the guard; a refusal for the claims leaves the store as it was |
| JwtClaims.PairAcceptedAgainExactly | app/suite/platform/context.py:547-548 | After an acceptance a token with the same pair is accepted exactly if its claims are in order and the guard's clock has reached the first token's expiry |
| JwtClaims.AcceptedTwiceInWindow | app/suite/platform/context.py:492-493 | Any second acceptance of a token lies at or past its expiry by the guard's clock and within the tolerance after it by the validator's |
| JwtClaims.TokenAcceptedAgainExactly | app/suite/platform/context.py:485-497 | The next showing of an accepted token is accepted exactly in that window |
| JwtClaims.NoSkewNoReplay | app/suite/platform/context.py:492-493 | Without tolerance, and with agreeing clock reads, no token is accepted twice |
| JwtClaims.TokensAcceptedTwice | app/suite/platform/context.py:547-548 | Two concrete histories with a token accepted twice: one with the default tolerance, one without any but with a clock that passes the expiry between the two reads |
| ReplayDatabase.OneAcceptanceUntilPurged | app/suite/platform/jwt_replay_store.py:36-102 | Under every interleaving of checks and inserts two acceptances of an issuer and token id have a purge of its row between them |
| ReplayDatabase.AcceptedAgainExactly | app/suite/platform/jwt_replay_store.py:36-102 | With no assumption on clocks or retention, the next insert of an accepted pair, if its rows keep the checks of both tables, succeeds exactly if its row has been purged since |
| ReplayDatabase.NoReplayBeforeExpiry | app/suite/platform/authz_admin.py:733-759 | With a clock that never goes back a pair is accepted again before its expiry only if its row has been purged with a bound past the clock |
| ReplayDatabase.UntimelyPurgeReplays | app/suite/platform/authz_admin.py:733-759 | A concrete run with a monotone clock and a bound past it accepts a token twice before its expiry |
| OidcKeyCache.KeyCache.BuildIndex | app/suite/platform/context.py:948-974 | The loop yields the specified index or its first error |
| OidcKeyCache.IndexHolds | app/suite/platform/context.py:948-974 | An index exists exactly when no entry is broken and no key id repeats, and holds exactly the usable entries |
| OidcKeyCache.KeyCache.CheckAnswer | app/suite/platform/context.py:453-467 | The checks of an answer in order give the specified index or the first reason against it |
| OidcKeyCache.KeyCache.RefreshIssuer | app/suite/platform/context.py:453-471 | Replaces the issuer's keys as a whole after the whole answer is checked, else changes nothing |
| OidcKeyCache.KeyCache.RefreshEvery | app/suite/platform/context.py:417-419 | Refreshes issuer by issuer and stops at the first failure, keeping what was refreshed before it |
| OidcKeyCache.KeyCache.FindKey | app/suite/platform/context.py:421-451 | Result and cache, with the recorded reason for a failed refresh, are those of the specification |
| OidcKeyCacheRuns.InstallReplacesOne | app/suite/platform/context.py:468-471 | A refresh gives its issuer exactly the new keys and leaves every other issuer's alone |
| OidcKeyCacheRuns.RefreshAllReflects | app/suite/platform/context.py:417-419 | After refreshing all issuers the cache holds for each the keys of its latest success, whether or not a later issuer failed |
| OidcKeyCacheRuns.ServedKeysAreCurrent | app/suite/platform/context.py:417-483 | In runs of lookups and refreshes of all issuers, every served key belongs to its issuer's latest successful refresh and is young enough for its outage policy |
| Pkcs1.ToBytesReadsBack | app/suite/platform/context.py:1072 | The conversion overflows exactly from 256^length on, and its bytes read back |
| Pkcs1.FitsByteLength | app/suite/platform/context.py:1067 | A modulus is below 256 to its byte length |
| Pkcs1.MatchesExactlyEncoding | app/suite/platform/context.py:1077-1089 | The matcher accepts exactly the EMSA-PKCS1-v1_5 encoding with at least eight padding bytes |
| Pkcs1.VerifiesExactly | app/suite/platform/context.py:1066-1074 | Verification never overflows and accepts exactly the signatures whose power is that encoding |
| PdfLiterals.ReadLiteral | app/suite/rag/rich_document_parser.py:193-214 | The loop returns the specified value and index, or the unterminated error |
| PdfLiterals.LiteralStrings | app/suite/rag/rich_document_parser.py:180-191 | The scan loop returns the specified list |
| PdfLiterals.EscapeRoundTrip | app/suite/rag/rich_document_parser.py:193-214 | Escaping any bytes and parsing gives them back and stops just past the closing parenthesis |
| PdfLiterals.BalancedReadsItself | app/suite/rag/rich_document_parser.py:193-214 | Text without backslashes parses to itself exactly when its parentheses balance |
| PdfLiterals.ScanFindsAll | app/suite/rag/rich_document_parser.py:180-191 | Scanning literals between filler yields exactly their trimmed non-empty values in order |
| Migrations.MigrationDatabase.ApplyMigrations | app/suite/persistence/migrator.py:111-166 | The loop inside one transaction, which first brings an older table up to date, commits the specified outcome or changes nothing |
| Migrations.MigrationDatabase.VerifyStartup | app/suite/persistence/migrator.py:169-209 | The check returns the specified verdict |
| Migrations.RunSplitsCatalog | app/suite/persistence/migrator.py:111-166 | A run raises with the database unchanged, or splits the catalog in order into applied and skipped and runs the SQL of exactly the applied |
| Migrations.RunSucceedsExactly | app/suite/persistence/migrator.py:124-140 | A run succeeds exactly when no stored checksum differs and the SQL of the missing migrations runs |
| Migrations.RowAfter | app/suite/persistence/migrator.py:88-108 | A run adds exactly the catalog's versions and leaves every unknown row alone |
| Migrations.OwnRow | app/suite/persistence/migrator.py:88-158 | After a run every migration of the catalog has its own row |
| Migrations.AppliedVerifies | app/suite/persistence/migrator.py:169-209 | After a run the startup check accepts exactly when no unknown startup-blocking row was stored before |
| Migrations.SecondRunSkipsAll | app/suite/persistence/migrator.py:111-166 | A second run applies nothing, skips everything and changes nothing |
| Migrations.UpgradedOnce | app/suite/persistence/migrator.py:34-58 | Bringing a table up to date that a run has stored changes nothing |
| Chunker.ChunkText | app/suite/rag/source_indexing.py:289-314 | Chunks are the specified segments with consecutive ids; the only error is a blank text, never a text without chunks |
| Chunker.SegmentsCover | app/suite/rag/source_indexing.py:298-310 | Every character that is not white space lies in some chunk at its own place |
| Chunker.SegmentsBounded | app/suite/rag/source_indexing.py:298-310 | No chunk is empty, untrimmed or longer than the maximum |
| Chunker.SegmentsCounted | app/suite/rag/source_indexing.py:295-310 | There are at most as many chunks as steps fit the text |
| Chunker.StepsRoundUp | app/suite/rag/source_indexing.py:295-310 | That number is the text's length divided by the step, rounded up |
| Chunker.ChunksKeepText | app/suite/rag/source_indexing.py:289-314 | Without overlap the chunks carry the text's characters other than white space, each once and in order |
| Chunker.IdsDistinct | app/suite/rag/source_indexing.py:304 | No two chunks have the same id |

## Left out

- HTTP routing, header parsing, environment variables and default construction: plumbing.
- SQL and connections: a table is a value and a transaction one step, except for the audit logger and the replay store, whose separate steps and lock are modelled.
- The PostgreSQL repositories of the knowledge base and the source store: only the in-memory ones are modelled.
- Audit events written by the knowledge-base steps: they decide nothing; their ids are inputs.
- Patterns and timestamps of text fields that no decision reads; the fields that are trimmed or matched are modelled where a property uses them.
- Lower-casing of letters beyond ASCII in the title order: no property depends on it.
- The `latest` index of the source repository: no modelled step reads it.
- Real SHA-256, HMAC, base64 and JSON text: functions as described above; base64 is the identity.
- ModuleRegistry.InMemoryModuleRegistry.Upsert: the public `upsert_tenant_module` can store any valid state; runs use only the nine commands.
- AuditChain.EveryChainVerifies: advisory locks are taken per tenant; two tenants whose lock numbers collide only wait longer.
- Checkpoint signatures and WORM exports: records derived from a checkpoint without further decisions.
- The boolean claims of a cryptoshred manifest: its validator fixes them, so the drill's three checks of them never fire.
- JwtClaims.VerifyToken: header, signature and the types of the claims have been checked before; of these only the signature's padding is modelled, in `Pkcs1`.
- Concurrent processes on one replay file: the source takes no lock there, and the model runs calls one after the other.
- Chunk content hashes and byte lengths: one call each on the chunk's text.
- ZIP, XML, zlib, PDF stream matching, mail parsing, embeddings, vector benchmarks, registries and the policy engine.
