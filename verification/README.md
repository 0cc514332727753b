# CTRT artifact store, governance gates and evaluation counts: a verified model

Content Tone & Revenue Transparency (CTRT) measures digital content with governed analysis instruments and
keeps every piece of evidence. This project models the parts of it that everything else rests on, and proves
what they are for.

* **The append-only artifact store.** `ArtifactStore` is the store as one process sees it: a class over a
  map of content-addressed blobs and a map of index files, with a fault parameter for every place an append
  can stop. `StoreProtocol` is the same store as a step system: any number of writers, files written byte by
  byte, crashes anywhere; `StoreProgress` says when a writer may be refused and when it must succeed, and
  `StoreProjection` that whole runs are, through lookups, runs of atomic appends. `AppendScript` and `Interleaving` lift single appends to scripts and to many scripts sharing a store.
  `ExperimentBundle` is the bundle manifest on top.
* **The revocation ledger and its checkpoint log.** `EventHistory` and `RevocationLedger` cover grouping,
  linear supersession and the as-of fold; `CheckpointLog` covers the hash-linked checkpoints over a ledger.
* **Credentials, witnesses, adjudication.** `CredentialGate` and `WitnessGate` are the validators whose
  decisions let execution through.
* **Publication.** `StoredRecords` reads stored documents back as records. `Publication` is one persist call and
  the matching loads, at any of four levels; `PublicationRuns` is any number of such calls as a step system,
  and `PublicationExample` a concrete case of two levels sharing one document.
* **The staged runners.** `WitnessRunner` and `AdjudicatedRunner` are the two runners as classes over a store,
  each reading its evidence from the store for itself; `RunHistory` reasons about every history of their calls,
  `RunFinals` about what the finals in such a store record, and `RunArtifactIds` about the IDs they store under.
* **The evaluation counts.** `CandidateEvaluation` goes from six response options to the contingency table.

Modelling choices that hold everywhere:

* SHA-256 and canonical JSON are uninterpreted functions passed as parameters. Where a result needs digests
  not to collide or serialization to be injective, its `requires` says so; the sequential store needs neither.
* Timestamps are integers, thresholds are reals. Parsing is uninterpreted: a `Parser` has one function per kind
  of record, records come out of it through their constructors, and a document is of one kind only, because each
  record type accepts its own fields.
* A record constructor's checks are a `Constructed` predicate. Validators are proved to accept exactly the
  inputs a declarative predicate describes, to return exactly the report it determines, and (where a row says
  so) to refuse only for reasons that are true. Branches the constructors make unreachable are kept in the
  methods and proved unreachable.
* A crash, a full disk or a concurrent delegated runner is an argument of the operation, so each contract
  holds for all of them.

Two places where the code and its promise differ, stated as results:

* The repository's README (line 121) and the docstring of `append` promise that identical repeats are
  idempotent. After an append that stopped inside a file write this is false: the torn file stays, and no
  repeat can ever succeed. `ArtifactStore.RepeatIsNotAlwaysIdempotent` is a concrete case and
  `ArtifactStore.RetryAfterStop` the exact condition; `StoreProtocol.AbandonedBlobBlocksForGood` is the
  concurrent form.
* A stored corpus document does not by itself mean that the load at a given level succeeds, because several
  levels share one document. `PublicationExample.LowerLevelMayPublishFirst` is a concrete case: two accepted calls
  on records that satisfy their constructors, and a reachable store in which the document is there and the load
  returns no evidence whatever. `PublicationRuns.MatchingLoadExactly` is the exact condition: every member of the
  load is of a kind that each accepted call of the document stores, or was in the store before.
  `PublicationRuns.PresenceMeansMatchingLoad` is the positive half, with the loaded evidence. The adjudication level
  stores the witness records again, so it may stand in for the witness level, and it alone.

## Model

| member | source | states |
|---|---|---|
| ArtifactStore.FileSystemArtifactStore.constructor | src/ctrt/artifact_store.py:211-217 | A new store holds nothing and can read nothing. |
| ArtifactStore.FileSystemArtifactStore.WriteBlobExclusive | src/ctrt/artifact_store.py:228-239 | Creates a blob only if its path is free; a stop leaves a truncated file; an existing file is untouched. |
| ArtifactStore.FileSystemArtifactStore.WriteIndexExclusive | src/ctrt/artifact_store.py:228-239 | Creates an index record only if its path is free; a stop leaves a torn file; an existing record is untouched. |
| ArtifactStore.FileSystemArtifactStore.RunStages | src/ctrt/artifact_store.py:251-282 | Blob, index and verification stage, each with its own failures and stops, amount to the specification function. |
| ArtifactStore.FileSystemArtifactStore.Append | src/ctrt/artifact_store.py:251-282 | Success adds exactly its own binding, refusal changes no lookup, a stop changes no lookup or has bound its own unused ID; nothing is ever overwritten. |
| ArtifactStore.FileSystemArtifactStore.Get | src/ctrt/artifact_store.py:284-311 | Returns exactly the readable artifact under the ID, verified, if the expected hash agrees. |
| ArtifactStore.ViewIsGet | src/ctrt/artifact_store.py:284-327 | The abstract ID-to-artifact map is exactly what lookups retrieve, hash expectations included. |
| ArtifactStore.ViewsAreKeyed | src/ctrt/artifact_store.py:284-311 | Whatever can be looked up under an ID is an artifact of that ID. |
| ArtifactStore.AppendRefinesInsertion | src/ctrt/artifact_store.py:251-282 | The two-map store refines an append-only map, one append at a time, with no digest assumed injective. |
| ArtifactStore.AppendSucceedsExactly | src/ctrt/artifact_store.py:251-282 | An undisturbed append succeeds if and only if nothing different or torn is in its way; a conflict is reported exactly when the ID is bound to another hash; a stored artifact is stored again without any change. |
| ArtifactStore.AppendResultsExactly | src/ctrt/artifact_store.py:228-282 | Every append is interrupted exactly if its fault lies on the way it takes, and otherwise ends as the undisturbed append does; "not found" is never its answer. |
| ArtifactStore.LookupFailsExactly | src/ctrt/artifact_store.py:284-327 | On any disk, corrupt ones included, a lookup fails as not found exactly where a file is missing, and on integrity exactly where the index file is torn, another ID's or of another hash, or the blob's digest is wrong; after appends only the index file can fail it. |
| ArtifactStore.BlockedForever | src/ctrt/artifact_store.py:251-282 | What blocks an append once blocks it in every later store. |
| ArtifactStore.RetryAfterStop | src/ctrt/artifact_store.py:228-282 | After a stopped append the identical repeat succeeds if and only if the stop tore no file; otherwise it fails in every later store. |
| ArtifactStore.RepeatIsNotAlwaysIdempotent | src/ctrt/artifact_store.py:252 | A concrete input on which the promised idempotent repeat fails. |
| ArtifactStore.RunIsAppendOnly | src/ctrt/artifact_store.py:251-327 | Over any run of appends, stopped or not, bindings only accumulate and each is a requested artifact. |
| ArtifactStore.BindingSurvivesEveryRun | src/ctrt/artifact_store.py:251-327 | An append that succeeded is retrieved, bytes and hash, after every later run. |
| StoreProtocol.StepKeeps | src/ctrt/artifact_store.py:228-282 | Every step of every writer, crashes included, keeps the protocol invariant and never loses or shrinks a file. |
| StoreProtocol.RunKeeps | src/ctrt/artifact_store.py:228-282 | The invariant holds in every state of every interleaving, and later states only extend earlier ones. |
| StoreProtocol.IndexImpliesFullBlob | src/ctrt/artifact_store.py:251-282 | An index file, even a half-written one, exists only if the blob it names already holds the full payload, then and later. |
| StoreProtocol.LookupReturnsAppendedBytes | src/ctrt/artifact_store.py:284-327 | A lookup whose two reads happen in different states returns exactly the bytes some writer appended under that ID. |
| StoreProtocol.ChecksNeverFail | src/ctrt/artifact_store.py:277-282 | The verification at the end of an append cannot fail. |
| StoreProtocol.SuccessIsPermanent | src/ctrt/artifact_store.py:251-282 | A writer that returned success finds its artifact in every later state. |
| StoreProtocol.OneArtifactPerId | src/ctrt/artifact_store.py:266-276 | Two writers that succeeded under one ID appended the same artifact. |
| StoreProtocol.StepRefinesInsertion | src/ctrt/artifact_store.py:228-327 | Through lookups, a step changes nothing or inserts one fresh ID; only the write completing an index record inserts. |
| StoreProjection.StepInsertsAtMostOnce | src/ctrt/artifact_store.py:228-327 | As maps: a step keeps everything that can be looked up, or adds exactly its writer's artifact under an ID nobody could look up. |
| StoreProjection.RunProjects | src/ctrt/artifact_store.py:251-327 | Every run of the protocol is, seen through lookups, a run of atomic appends, one per writer: its states are views of that run in order, each the same as the one before or the next. |
| StoreProtocol.AbandonedBlobBlocksForGood | src/ctrt/artifact_store.py:228-264 | A blob whose writer crashed is never completed and no append of that payload ever succeeds. |
| StoreProtocol.AbandonmentHappens | src/ctrt/artifact_store.py:228-239 | Every strict prefix of every payload can be left behind by a crashed writer in some run. |
| StoreProgress.RefusesExactly | src/ctrt/artifact_store.py:251-282 | A step refuses its writer exactly if it compares and the file holds something else; any other step goes on to the next stage in order, moves nobody else, and the final checks refuse nobody. |
| StoreProgress.RefusalHasACause | src/ctrt/artifact_store.py:259-276 | In any interleaving a refused writer met an incomplete copy of its payload, an incomplete index record, or the complete record of another reference; what is incomplete belongs to a writer still writing or crashed. |
| StoreProgress.AloneSucceedsExactly | src/ctrt/artifact_store.py:251-282 | From any reachable state, a writer left alone ends in success exactly if no other content stands in its way, and is otherwise refused; no other writer is moved. |
| StoreProgress.AloneFinishes | src/ctrt/artifact_store.py:251-282 | A writer never has to wait for another: from any state it can go on alone to its end in at most nine steps. |
| StoreProgress.RepeatSucceedsAlone | src/ctrt/artifact_store.py:251-282 | An append of what a lookup returns, run alone, writes nothing, is never refused, and can reach success. |
| AppendScript.AppendAll | src/ctrt/artifact_store.py:358-379 | A list of appends leaves exactly a prefix of its bindings; a list already stored is stored again without change. |
| ExperimentBundle.ManifestIsConstructed | src/ctrt/artifact_store.py:157-174 | The manifest constructor accepts the manifest of every bundle: roles unique, required roles present, two results. |
| ExperimentBundle.RolesNameTheirArtifacts | src/ctrt/artifact_store.py:341-372 | In a bundle's manifest each role, results by number included, names exactly its own artifact. |
| ExperimentBundle.Verify | src/ctrt/artifact_store.py:382-404 | True exactly if the manifest and every artifact it names are stored under their references. |
| ExperimentBundle.Load | src/ctrt/artifact_store.py:407-431 | Loads exactly the complete bundles. |
| ExperimentBundle.Persist | src/ctrt/artifact_store.py:358-379 | Members first, manifest last; a stop leaves a prefix; its own verification cannot fail. |
| ExperimentBundle.PersistedBundleLoadsBack | src/ctrt/artifact_store.py:358-431 | Round trip: in every later store the reference of a persisted bundle loads its manifest and no other. |
| Interleaving.SameIdSameArtifact | src/ctrt/artifact_store.py:266-276 | In any interleaving, scripts that got past one ID appended the same artifact. |
| Interleaving.NewIdWasAppended | src/ctrt/artifact_store.py:251-282 | Every newly bound ID was appended by some script. |
| EventHistory.LinearChainIsLinked | src/ctrt/adjudicator_credential_revocation_ledger.py:848-866 | The chain check on the grouped list equals a rule on ledger positions: supersede the adjudicator's latest earlier event and do not predate it. |
| EventHistory.EffectiveIsLongestPrefix | src/ctrt/adjudicator_credential_revocation_ledger.py:868-875 | On a linear chain the applied events are the longest prefix in effect at the evaluation time. |
| EventHistory.AppliedGrowsByPrefix | src/ctrt/adjudicator_credential_revocation_ledger.py:868-875 | Applied lists grow by prefix as time moves on. |
| EventHistory.LaterEventsDoNotApply | src/ctrt/adjudicator_credential_revocation_ledger.py:871-875 | Events that take effect later change nothing now. |
| EventHistory.StatusByPosition | src/ctrt/adjudicator_credential_revocation_ledger.py:868-875 | The folded status is the effect of the adjudicator's last ledger event in effect, or the attested status if there is none. |
| EventHistory.AppliedIsAllInEffect | src/ctrt/adjudicator_credential_revocation_ledger.py:868-875 | The applied events are the adjudicator's ledger events in effect, each as often as the ledger holds it. |
| RevocationLedger.GroupEvents | src/ctrt/adjudicator_credential_revocation_ledger.py:796-837 | No failure exactly if every event is acceptable; each group is the adjudicator's chain of the events that were kept, which are all of them if none failed; every failure recorded is true. |
| RevocationLedger.EventsAreAcceptedExactly | src/ctrt/adjudicator_credential_revocation_ledger.py:796-837 | An event is accepted exactly if it speaks for the attestation it refers to, by its registered issuer and with a permitted effect; otherwise the failure named is true of it. |
| RevocationLedger.CheckChain | src/ctrt/adjudicator_credential_revocation_ledger.py:848-866 | No failure exactly if the chain is linear; every failure recorded is true. |
| RevocationLedger.FoldChain | src/ctrt/adjudicator_credential_revocation_ledger.py:868-875 | Status, applied IDs and effective ID are those of the effective events. |
| RevocationLedger.SummarizeRegistry | src/ctrt/adjudicator_credential_revocation_ledger.py:839-894 | No failure exactly if every record is covered by a linear chain, and then the summaries are the declarative ones; every failure is true of some record; the summaries cover exactly the attested records. |
| RevocationLedger.CheckHistory | src/ctrt/adjudicator_credential_revocation_ledger.py:787-908 | The three kinds of check together fail exactly on invalid histories, and only for true reasons. |
| RevocationLedger.Validate | src/ctrt/adjudicator_credential_revocation_ledger.py:701-924 | Reports exactly the inputs whose references agree and whose history is valid, with exactly the declarative decision, which abstains exactly if the ledger shows some registered adjudicator in a status the policy abstains on; otherwise every failure it lists is true; skipping a bad event never changes the verdict. |
| RevocationLedger.DecisionIsConstructed | src/ctrt/adjudicator_credential_revocation_ledger.py:594-616 | The report's constructor accepts every such decision, and it covers the registry exactly. |
| RevocationLedger.OutcomeByLedger | src/ctrt/adjudicator_credential_revocation_ledger.py:868-924 | The decision abstains exactly if some registered adjudicator's status, read off attestation and ledger positions, is one the policy abstains on. |
| RevocationLedger.ConstructedPolicyIsStrict | src/ctrt/adjudicator_credential_revocation_ledger.py:168-209 | Under a policy its constructor accepts, execution means every registered adjudicator is active by the ledger, and the other way round unless the policy abstains on active credentials too; every accepted event is the attesting issuer's. |
| RevocationLedger.SummariesReadTheLedger | src/ctrt/adjudicator_credential_revocation_ledger.py:868-894 | Each summary gives its adjudicator's attestation, the status the ledger shows at the evaluation time, the last event in effect, and that status as a reason exactly if the policy abstains on it. |
| RevocationLedger.ReportNamesItsRecords | src/ctrt/adjudicator_credential_revocation_ledger.py:914-924 | The report names the experiment and the records plan and corpus bind it to; all are in force, and any two that name a third name the same. |
| RevocationLedger.DuplicateEventIsDead | src/ctrt/adjudicator_credential_revocation_ledger.py:803-805 | Derived artifact IDs and unique ledger references make the duplicate-event branch unreachable. |
| RevocationLedger.AttestationsAreExact | src/ctrt/adjudicator_credential_revocation_ledger.py:787-795 | Equal population sizes and full coverage leave each adjudicator exactly one attestation. |
| RevocationLedger.NoEventIsIgnored | src/ctrt/adjudicator_credential_revocation_ledger.py:796-847 | Each event stands in exactly one registered adjudicator's chain, in ledger order, and names that adjudicator's own attestation. |
| RevocationLedger.ChainsLinearIffLinked | src/ctrt/adjudicator_credential_revocation_ledger.py:839-866 | Checking registered adjudicators' chains checks every event. |
| RevocationLedger.LinksAreAcyclicAndUnforked | src/ctrt/adjudicator_credential_revocation_ledger.py:848-866 | Supersession runs strictly backwards within one adjudicator, never forks, and only a first event supersedes nothing. |
| RevocationLedger.TrailIsTheChain | src/ctrt/adjudicator_credential_revocation_ledger.py:848-866 | Following links from an event visits exactly its adjudicator's events up to it. |
| RevocationLedger.TrailCoversTheAdjudicator | src/ctrt/adjudicator_credential_revocation_ledger.py:848-866 | From an adjudicator's last event the links reach all of that adjudicator's events: one simple path each. |
| RevocationLedger.PrefixIsValid | src/ctrt/adjudicator_credential_revocation_ledger.py:796-902 | Every prefix of an accepted ledger is itself accepted. |
| RevocationLedger.PrefixDecidesAlike | src/ctrt/adjudicator_credential_revocation_ledger.py:868-924 | A prefix decides as the whole ledger does if and only if every later event takes effect after the evaluation time. |
| RevocationLedger.ReorderingIsHarmless | src/ctrt/adjudicator_credential_revocation_ledger.py:796-894 | A reordering that keeps each adjudicator's order is accepted alike and yields the same summaries. |
| CheckpointLog.CheckLink | src/ctrt/adjudicator_credential_revocation_checkpoints.py:732-750 | Accepts exactly a checkpoint that names, extends and postdates its predecessor, and refuses for a true reason. |
| CheckpointLog.CheckChain | src/ctrt/adjudicator_credential_revocation_checkpoints.py:721-755 | Accepts exactly the valid chains; every refusal is true; the roll-back check never fires. |
| CheckpointLog.Validate | src/ctrt/adjudicator_credential_revocation_checkpoints.py:671-797 | Accepts exactly the valid logs with exactly the determined report; every refusal is true; roll-back, head and head-count checks never fire. |
| CheckpointLog.ReportIsOfTheHead | src/ctrt/adjudicator_credential_revocation_checkpoints.py:757-797 | The report, determined by plan, corpus and ledger alone, is that of the last checkpoint: its reference, position, events and hash. |
| CheckpointLog.SliceIsPrefix | src/ctrt/adjudicator_credential_revocation_checkpoints.py:737-744 | The slice comparison is a prefix test, so a shorter list never reaches the roll-back check. |
| CheckpointLog.ValidLogIsGloballyOrdered | src/ctrt/adjudicator_credential_revocation_checkpoints.py:721-784 | Neighbour checks give global order: every earlier event list is a prefix of every later one and of the ledger, times strictly increase. |
| CheckpointLog.SharedReferenceFixesThePast | src/ctrt/adjudicator_credential_revocation_checkpoints.py:716-761 | Two validated logs sharing one checkpoint reference agree on its position, every earlier checkpoint and its events. |
| CheckpointLog.SameHeadSameHistory | src/ctrt/adjudicator_credential_revocation_checkpoints.py:716-777 | Two validated logs with one head are the same checkpoints over the same ledger. |
| CheckpointLog.CheckpointIsAHistory | src/ctrt/adjudicator_credential_revocation_checkpoints.py:721-777 | The events behind any checkpoint are a ledger the ledger rules accept, and decide as the head does exactly when all later events take effect later. |
| CredentialGate.CheckCredentials | src/ctrt/adjudicator_credential_attestation.py:763-852 | No failure exactly if every credential is sound, and then the summaries are complete; every failure recorded is true. |
| CredentialGate.RefusalIsTrue | src/ctrt/adjudicator_credential_attestation.py:765-822 | A credential is refused for a reason that is true of it, under its registered adjudicator's ID. |
| CredentialGate.CheckAdjudication | src/ctrt/adjudicator_credential_attestation.py:854-866 | Passes exactly if the recorded adjudicator is registered, attested and in role. |
| CredentialGate.Validate | src/ctrt/adjudicator_credential_attestation.py:710-888 | Accepts exactly the valid evidence, whatever the time, with that time's report; every failure is true; the role check on the adjudication never fires under the policy's exact-role rule. |
| CredentialGate.DecisionIsConstructed | src/ctrt/adjudicator_credential_attestation.py:585-607 | The report's constructor accepts every such decision. |
| CredentialGate.SummaryReadsTheCredential | src/ctrt/adjudicator_credential_attestation.py:823-852 | Each summary repeats its adjudicator's credential and carries each reason to abstain exactly when it holds. |
| CredentialGate.ReportNamesItsRecords | src/ctrt/adjudicator_credential_attestation.py:877-888 | The report names the experiment and the records that were validated, all in force and naming each other. |
| CredentialGate.ExecutionIsOneWindow | src/ctrt/adjudicator_credential_attestation.py:763-888 | Acceptance is independent of time; the times that execute are one half-open window from latest start to earliest end, empty unless every issuer is active and every credential active. |
| WitnessGate.CheckWitness | src/ctrt/adjudicator_checkpoint_witness_attestation.py:323-372 | One attestation passes only if it speaks for the witness at its position; a refusal is true and fails the population. |
| WitnessGate.ObserveWitnesses | src/ctrt/adjudicator_checkpoint_witness_attestation.py:323-394 | The loop passes exactly if every attestation speaks for the registered witness at its position; every refusal is true. |
| WitnessGate.LookupIsPositional | src/ctrt/adjudicator_checkpoint_witness_attestation.py:339-345 | The registry lookup finds the witness at the attestation's own position, so the unknown-witness branch is unreachable. |
| WitnessGate.ValidateWitnesses | src/ctrt/adjudicator_checkpoint_witness_attestation.py:268-411 | Accepts exactly the valid witness populations with exactly the determined decision; every refusal is true. |
| WitnessGate.WitnessDecisionIsConstructed | src/ctrt/adjudicator_checkpoint_witness_attestation.py:168-191 | The decision's constructor accepts it. |
| WitnessGate.DecisionReadsTheAttestations | src/ctrt/adjudicator_checkpoint_witness_attestation.py:375-412 | One observation per registered witness, in order, read off that witness's attestation; a reason exactly where another head was seen; the decision names the validated records. |
| WitnessGate.OneConflictAbstains | src/ctrt/adjudicator_checkpoint_witness_attestation.py:373-401 | The gate abstains exactly when at least one witness saw another head, however many agree. |
| WitnessGate.ForksAreTheConflicts | src/ctrt/adjudicator_checkpoint_witness_conflict_adjudication.py:360-373 | Fork evidence is kept for exactly the conflicting observations. |
| WitnessGate.ForksKeepTheOrder | src/ctrt/adjudicator_checkpoint_witness_conflict_adjudication.py:353-363 | Each conflicting observation's evidence stands right behind that of the earlier ones. |
| WitnessGate.ValidateAdjudication | src/ctrt/adjudicator_checkpoint_witness_conflict_adjudication.py:273-447 | Accepts exactly the valid adjudications with exactly the determined decision; every refusal is true; three checks never fire. |
| WitnessGate.DecisionKeepsEveryFork | src/ctrt/adjudicator_checkpoint_witness_conflict_adjudication.py:353-367 | The decision's fork evidence is that of exactly the witnesses that saw another head. |
| WitnessGate.DecisionKeepsEveryDissent | src/ctrt/adjudicator_checkpoint_witness_conflict_adjudication.py:433-447 | Once an adjudicator decided, every witness that saw another head has its dissent in the decision, with its attestation, the head it saw and the recorded note. |
| WitnessGate.DecisionInventsNoDissent | src/ctrt/adjudicator_checkpoint_witness_conflict_adjudication.py:433-447 | The decision holds no other dissent, and none while nobody has decided. |
| WitnessGate.DecisionReadsTheAdjudication | src/ctrt/adjudicator_checkpoint_witness_conflict_adjudication.py:419-447 | Outcome, resolution, reason text and references of the decision follow from whether the witnesses conflicted and what the adjudication records. |
| WitnessGate.AdjudicationNamesItsRecords | src/ctrt/adjudicator_checkpoint_witness_conflict_adjudication.py:286-352 | The records the decision names are in force and are the very ones the adjudication record names, in the required order. |
| WitnessGate.WitnessGateFeedsAdjudication | src/ctrt/adjudicator_checkpoint_witness_conflict_adjudication.py:374-388 | The witness gate's decision executes exactly when it carries no fork, which is what adjudication relies on. |
| WitnessGate.ExecutionRestsOnTheDeclaredHead | src/ctrt/adjudicator_checkpoint_witness_conflict_adjudication.py:360-447 | Across all three gates: execution exactly if nobody saw another head or the conflict is resolved; a resolution selects the validated chain's head, whose events are the ledger, under an authorized adjudicator, with every dissent kept. |
| WitnessGate.OutcomeIgnoresCounts | src/ctrt/adjudicator_checkpoint_witness_conflict_adjudication.py:419-431 | Only whether a conflict exists and whether it was resolved reaches the outcome, never counts of witnesses. |
| WitnessGate.ResolvedHeadFixesTheLedger | src/ctrt/adjudicator_checkpoint_witness_conflict_adjudication.py:411-418 | Executions that rest on one resolved head rest on one checkpoint history and one ledger. |
| StoredRecords.LoadAll | src/ctrt/adjudicator_checkpoint_witness_attestation.py:227-244 | Loads exactly if every expected artifact is stored byte for byte, and returns exactly those. |
| StoredRecords.LoadRecords | src/ctrt/adjudicator_credential_revocation_checkpoints.py:618-631 | Reads a population reference by reference; fails exactly if no records of those references can be read. |
| StoredRecords.ReadIsUnique | src/ctrt/adjudicator_checkpoint_witness_attestation.py:245-256 | Two reads of one population in one store give the same records. |
| StoredRecords.ReadStays | src/ctrt/adjudicator_checkpoint_witness_attestation.py:245-256 | What was read once is read again, unchanged, in every later store. |
| Publication.LoadLevel | src/ctrt/adjudicator_credential_revocation_ledger.py:658-698 | Each level's load returns what its documents and population read as, and fails exactly if nothing can be read. |
| Publication.LoadableLoads | src/ctrt/adjudicator_credential_revocation_checkpoints.py:634-668 | Stored documents load as exactly the evidence they were written from. |
| Publication.RunValidator | src/ctrt/adjudicator_checkpoint_witness_conflict_adjudication.py:481-504 | Each level's persist call runs its own validator; the adjudication level adjudicates the decision its own witness validation returned. |
| Publication.Persist | src/ctrt/adjudicator_credential_revocation_checkpoints.py:800-862 | Failed guards or validation and a missing predecessor, told apart exactly, write nothing; a stop leaves a prefix; success leaves exactly the script and loads back the very evidence it was given; a repeat changes nothing. |
| Publication.AcceptedExtendsItsPredecessor | src/ctrt/adjudicator_checkpoint_witness_conflict_adjudication.py:466-474 | At every level an accepted call's own evidence names the predecessor it was handed, and the content population is the predecessor's and the plan's. |
| Publication.LoadsExactlyTheStored | src/ctrt/adjudicator_credential_revocation_checkpoints.py:634-668 | The load succeeds exactly if the documents are stored, and returns exactly the records they were written from, where digests in play do not collide. |
| Publication.OneDocumentOneMembership | src/ctrt/adjudicator_credential_revocation_checkpoints.py:652-660 | Two calls or loads of one document at one level have the same member documents, given that digests in play do not collide. |
| Publication.WitnessMembersAreShared | src/ctrt/adjudicator_checkpoint_witness_conflict_adjudication.py:495-515 | An adjudication level consists of the member documents of the same document's witness level, in order, and three of its own. |
| Publication.SharedByKind | src/ctrt/adjudicator_checkpoint_witness_conflict_adjudication.py:495-515 | Of one document read at any two levels, a call stores exactly those members of the other level whose kind its own level stores. |
| Publication.LevelsShareNoMember | src/ctrt/adjudicator_credential_revocation_checkpoints.py:652-660 | Calls at different levels share no member document, except at the witness and adjudication levels. |
| Publication.UpperDocumentLoadsOneLevelDown | src/ctrt/adjudicator_checkpoint_witness_attestation.py:429-452 | The persist guards on the predecessor make the load one level below find the members its predecessor stored, and return them. |
| PublicationRuns.StepKeeps | src/ctrt/adjudicator_credential_revocation_ledger.py:927-999 | One step of any publication among many, refused or crashed, keeps the publication invariant. |
| PublicationRuns.AbandonsExactly | src/ctrt/adjudicator_credential_revocation_ledger.py:927-999 | A publication gives up exactly without an accepting validator or a stored predecessor, at an append whose ID another artifact has, or in a crash; otherwise it goes on by one document, and its closing load never fails it. |
| PublicationRuns.ManifestMeansCompleteGraph | src/ctrt/adjudicator_checkpoint_witness_attestation.py:414-482 | In any interleaving a corpus document in the store was published whole by a call whose validator accepts its records, as was its predecessor, down to the initial store; the validated chain still stands in every later state. |
| PublicationRuns.PublishedStaysLoadable | src/ctrt/adjudicator_credential_revocation_ledger.py:994-999 | A call that reported success loads, with its own evidence, in every later state. |
| PublicationRuns.LoadNeverFails | src/ctrt/adjudicator_credential_revocation_ledger.py:994-999 | The load at the end of a call that wrote its whole script cannot fail. |
| PublicationRuns.CoveringCallsSuffice | src/ctrt/adjudicator_credential_revocation_checkpoints.py:634-668 | If every accepted call of a document covers a load, the document's presence means that load's members are stored. |
| PublicationRuns.CallCoversExactly | src/ctrt/adjudicator_checkpoint_witness_conflict_adjudication.py:495-515 | An accepted call of the document brings a load's members along exactly if each is of a kind its level stores or is in the store already. |
| PublicationRuns.SameLevelCallCovers | src/ctrt/adjudicator_credential_revocation_checkpoints.py:652-660 | An accepted call of the document covers every load at its own level, and an adjudication call every witness load. |
| PublicationRuns.OtherLevelCallCovers | src/ctrt/adjudicator_credential_revocation_checkpoints.py:652-660 | A call at an unrelated level covers the load exactly if the store already held every member. |
| PublicationRuns.LoadsExactlyInRuns | src/ctrt/adjudicator_credential_revocation_checkpoints.py:634-668 | In every reachable store the load succeeds exactly if its documents are stored, and returns nothing but their records. |
| PublicationRuns.UncoveringCallBreaksLoad | src/ctrt/adjudicator_credential_revocation_checkpoints.py:634-668 | A runnable call that lacks a member can publish the document while the load returns no evidence whatever. |
| PublicationRuns.PresenceMeansMatchingLoad | src/ctrt/adjudicator_credential_revocation_checkpoints.py:634-668 | If every accepted call of a document is at a level that includes the load's, then in any interleaving its presence means that the load succeeds and returns exactly the records the document stands for. |
| PublicationRuns.MatchingLoadExactly | src/ctrt/adjudicator_credential_revocation_checkpoints.py:634-668 | Presence of the document means in every run that its load succeeds if and only if every accepted call of it carries the load: each member is of a kind that call stores or was in the store from the start; calls that carry too little are taken to be able to run. |
| PublicationRuns.UpperPublicationAlsoLoads | src/ctrt/adjudicator_checkpoint_witness_attestation.py:429-452 | A document published one level up over a predecessor published at the load's level also loads, in any interleaving, with the evidence the load names. |
| PublicationExample.LowerLevelMayPublishFirst | src/ctrt/adjudicator_credential_revocation_checkpoints.py:549-553 | Two accepted calls on constructed records, a revocation level and a checkpoint level, publish one document; the lower one can run first, and then the document is present and the checkpoint load returns no evidence whatever, for every digest function. |
| RunArtifactIds.IdsAreInjective | src/ctrt/adjudicator_checkpoint_witness_runner.py:695-706 | Equal run artifact IDs come from one run and one name, whatever colons run IDs contain. |
| WitnessRunner.LoadEvidence | src/ctrt/adjudicator_checkpoint_witness_runner.py:534-562 | Reads witness and checkpoint evidence from the store; fails exactly if the store does not hold it. |
| WitnessRunner.LaterLoadsAgree | src/ctrt/adjudicator_checkpoint_witness_runner.py:534-562 | Every later load of the same request reads the same records, whatever was appended in between. |
| WitnessRunner.ResolvedIsRead | src/ctrt/adjudicator_checkpoint_witness_runner.py:534-607 | What a call validates is what its request names and the store holds, with the last checkpoint read as the head the witnesses are checked against. |
| WitnessRunner.ResolvedIsWired | src/ctrt/adjudicator_checkpoint_witness_runner.py:534-562 | Records read from the store satisfy what the validators require of constructed records and stay retrievable. |
| WitnessRunner.RecordsAreConstructed | src/ctrt/adjudicator_checkpoint_witness_runner.py:172-280 | The final manifest's and receipt's constructors accept what a call builds. |
| WitnessRunner.PreflightPassesExactly | src/ctrt/adjudicator_checkpoint_witness_runner.py:300-330 | A call gets past preflight exactly if it works on the frozen plan's own content, at least two items of it, with the corpus and witness records plan and corpus name. |
| WitnessRunner.FinalNamesTheOutcome | src/ctrt/adjudicator_checkpoint_witness_runner.py:625-732 | A run ends in an abstention exactly if some witness saw another head, otherwise in a completion or a terminal abstention exactly as the delegated run executed or abstained; the final carries that receipt's outcomes, or none. |
| WitnessRunner.FinalIsGrounded | src/ctrt/adjudicator_checkpoint_witness_runner.py:397-459 | Every reference in a completed run's final leads to the stored document of its kind. |
| WitnessRunner.MarkersNameTheRecords | src/ctrt/adjudicator_checkpoint_witness_runner.py:349-392 | The experiment's two markers name the plan, corpus, policies, log, registry and head that were validated. |
| WitnessRunner.VerificationReadsBack | src/ctrt/adjudicator_checkpoint_witness_runner.py:397-459 | What a successful final verification has read back is exactly the final, the three records, report, decision, attestations and checkpoints. |
| WitnessRunner.CheckpointWitnessRunner.PersistWithMarker | src/ctrt/adjudicator_checkpoint_witness_runner.py:332-395 | Stores report or decision under the run, reads it back, then stores the experiment's marker; a stop leaves a prefix. |
| WitnessRunner.CheckpointWitnessRunner.Decide | src/ctrt/adjudicator_checkpoint_witness_runner.py:561-624 | Checkpoint report and witness decision are stored before anything executes; an invalid log writes nothing; the failing stage tells which check failed and what was stored by then. |
| WitnessRunner.CheckpointWitnessRunner.Delegate | src/ctrt/adjudicator_checkpoint_witness_runner.py:625-694 | Delegates once if the witnesses execute and not at all if they abstain. |
| WitnessRunner.CheckpointWitnessRunner.VerifyFinal | src/ctrt/adjudicator_checkpoint_witness_runner.py:397-459 | Succeeds exactly if final, evidence documents, report and decision are stored byte for byte and every reference they rest on is held. |
| WitnessRunner.CheckpointWitnessRunner.Finish | src/ctrt/adjudicator_checkpoint_witness_runner.py:695-776 | Stores the final; its verification cannot fail once it is stored. |
| WitnessRunner.CheckpointWitnessRunner.Run | src/ctrt/adjudicator_checkpoint_witness_runner.py:462-800 | Without readable evidence nothing is appended; otherwise, whatever stops it, the store gains a prefix of the script of the evidence it read; a completed call stored the whole script after all checks, delegated exactly when it should, and returns the determined receipt under the final its outcome demands; the stage a failed call names is true of its evidence and of what it left in the store. |
| AdjudicatedRunner.LoadAdjudication | src/ctrt/adjudicator_checkpoint_witness_conflict_adjudication.py:223-257 | True exactly if the adjudication records of the request are in the store. |
| AdjudicatedRunner.DecisionIsReproduced | src/ctrt/adjudicated_adjudicator_checkpoint_witness_runner.py:510-614 | The decision the outer layer reaches on the evidence it read is the one the inner layer reaches on its own later read, however the store grew in between. |
| AdjudicatedRunner.RecordsAreConstructed | src/ctrt/adjudicated_adjudicator_checkpoint_witness_runner.py:181-298 | The outer final manifest's and receipt's constructors accept what a call builds. |
| AdjudicatedRunner.PreflightPassesExactly | src/ctrt/adjudicated_adjudicator_checkpoint_witness_runner.py:321-353 | Whatever the inner run will decide, it is run exactly for the plan's own content and the witness and adjudication records plan and corpus name. |
| AdjudicatedRunner.FinalNamesTheOutcome | src/ctrt/adjudicated_adjudicator_checkpoint_witness_runner.py:656-776 | An adjudicated call ends in an abstention exactly if a conflict was left unresolved, otherwise as the delegated run of the layer that executed it ended. |
| AdjudicatedRunner.FinalIsGrounded | src/ctrt/adjudicated_adjudicator_checkpoint_witness_runner.py:376-420 | Every reference in a concluded call's final leads to the stored document of its kind, the inner final included. |
| AdjudicatedRunner.VerificationReadsBack | src/ctrt/adjudicated_adjudicator_checkpoint_witness_runner.py:376-420 | What a successful final verification has read back is exactly the final, corpus, decision, the adjudication records, the inner final and the attestations. |
| AdjudicatedRunner.LayersDelegateOnce | src/ctrt/adjudicated_adjudicator_checkpoint_witness_runner.py:656-724 | Inner and outer layer together delegate once if adjudication executes and never if it abstains. |
| AdjudicatedRunner.AdjudicatedCheckpointWitnessRunner.Adjudicate | src/ctrt/adjudicated_adjudicator_checkpoint_witness_runner.py:601-638 | Validates the evidence this layer read, returns the decision it reached, and succeeds exactly if the adjudication of that decision is valid. |
| AdjudicatedRunner.AdjudicatedCheckpointWitnessRunner.VerifyFinal | src/ctrt/adjudicated_adjudicator_checkpoint_witness_runner.py:376-420 | Succeeds exactly if final, corpus and decision are stored byte for byte and every reference they rest on is held. |
| AdjudicatedRunner.AdjudicatedCheckpointWitnessRunner.Conclude | src/ctrt/adjudicated_adjudicator_checkpoint_witness_runner.py:640-854 | Decision, optional delegation and final follow the inner run's script, in order. |
| AdjudicatedRunner.AdjudicatedCheckpointWitnessRunner.Run | src/ctrt/adjudicated_adjudicator_checkpoint_witness_runner.py:422-856 | Others may append between the two layers' loads. Without a passing preflight or readable evidence nothing is appended; otherwise a prefix of the script, and the stage a failed call names is true. A completed call adjudicated the decision it validated itself, which is what the store holds as the run's witness decision; the delegated runner executed exactly once or not at all; decision and inner final are retrievable. |
| AdjudicatedRunner.InnerIsKept | src/ctrt/adjudicated_adjudicator_checkpoint_witness_runner.py:376-420 | Adjudication adds to what the inner run stored and takes nothing away. |
| RunHistory.RunsAreLegal | src/ctrt/adjudicated_adjudicator_checkpoint_witness_runner.py:510-638 | Every adjudicated run whose evidence loads adjudicates its own inner decision, so it is one of the calls the histories are made of. |
| RunHistory.CallDecidesFirst | src/ctrt/adjudicator_checkpoint_witness_runner.py:366-395 | In every call's script each final stands behind a decision with its outcome for its run, and an adjudication abstention also behind a witness abstention decision. |
| RunHistory.FinalMeansDecision | src/ctrt/adjudicator_checkpoint_witness_runner.py:609-732 | In every history a final in the store means the decision allowing it is there. |
| RunHistory.NoContradictoryFinals | src/ctrt/adjudicator_checkpoint_witness_runner.py:609-732 | In every interleaved history of both runners, repeated or cut short, a run never shows an abstention final and a completion or terminal abstention of the same gate. |
| RunHistory.GatesDoNotContradict | src/ctrt/adjudicated_adjudicator_checkpoint_witness_runner.py:640-776 | In every such history a run never shows a witness completion or terminal abstention together with an adjudication abstention, whichever calls wrote them. |
| RunHistory.OneDecisionPerRun | src/ctrt/adjudicator_checkpoint_witness_runner.py:366-395 | Two calls of one run, of either runner, that both stored a witness decision stored the same one. |
| RunHistory.OneAdjudicationPerRun | src/ctrt/adjudicated_adjudicator_checkpoint_witness_runner.py:355-374 | Two adjudicated calls of one run that both stored an adjudication decision stored the same one. |
| RunHistory.SelfNamedRunStops | src/ctrt/adjudicator_checkpoint_witness_runner.py:332-364 | A run named exactly like its experiment and version never gets past its first artifact, under either runner. |
| RunFinals.FinalsRecordTheirOutcome | src/ctrt/adjudicator_checkpoint_witness_runner.py:695-732 | In every history of both runners, what is stored under a final's ID is a manifest of that run with the outcomes the ID names. |
| RunFinals.WitnessFinalIsAsNamed | src/ctrt/adjudicator_checkpoint_witness_runner.py:695-732 | Whoever reads a witness final finds an executed terminal outcome exactly under a completion's ID, and a delegated final exactly if the witnesses let it execute. |
| RunFinals.AdjudicationFinalIsAsNamed | src/ctrt/adjudicated_adjudicator_checkpoint_witness_runner.py:726-776 | The same of the finals of the adjudicated runner. |
| CandidateEvaluation.EveryCompoundHasOneBucket | src/ctrt/candidate_reference_evaluation_protocol.py:405-422 | Every compound in [-1, 1] falls in exactly one frozen interval, in order; none is an abstention. |
| CandidateEvaluation.CollapseIsTheMapping | src/ctrt/candidate_reference_evaluation_protocol.py:424-451 | The collapse is the declared option mapping bucket by bucket and keeps every response. |
| CandidateEvaluation.CollapseAcceptsExactly | src/ctrt/candidate_reference_evaluation_protocol.py:424-451 | Counts are collapsed exactly if every one of the six options has one and none is negative. |
| CandidateEvaluation.EvaluationAcceptsExactlyTheUsable | src/ctrt/_candidate_reference_evaluation_lifecycle.py:770-826 | An item is evaluated exactly if its result is usable, and no record constructor rejects what is built. |
| CandidateEvaluation.EvaluationFailsExactly | src/ctrt/_candidate_reference_evaluation_lifecycle.py:740-826 | Each way an item evaluation fails is reported exactly when it is the case: counts, status, missing or unclassified compound output, other outputs. |
| CandidateEvaluation.ItemReadsItsInputs | src/ctrt/_candidate_reference_evaluation_lifecycle.py:770-826 | An item's direction is the frozen interval its compound output lies in, at either coverage, and none without success; status, correspondence and reasons follow from result and coverage, and the correspondence counts the original responses. |
| CandidateEvaluation.OutputsAreTheLastScores | src/ctrt/_candidate_reference_evaluation_lifecycle.py:740-757 | The four outputs kept are the result's last scores under the four keys. |
| CandidateEvaluation.PreservedExactly | src/ctrt/_candidate_reference_evaluation_lifecycle.py:740-757 | A successful result's outputs are kept exactly if the four keys appear first in the declared order and the last score under each lies within its own bounds. |
| CandidateEvaluation.KeysAreFirstAppearances | src/ctrt/_candidate_reference_evaluation_lifecycle.py:743-744 | Keys are compared in the order of their first appearance, each once. |
| CandidateEvaluation.BuildContingency | src/ctrt/_candidate_reference_evaluation_lifecycle.py:829-879 | The loop's nine counts are the sums over described items; it refuses exactly a described item without a direction. |
| CandidateEvaluation.TableConservesResponses | src/ctrt/_candidate_reference_evaluation_lifecycle.py:829-915 | Cells sum to the directional responses described, the diagonal to the items' same-direction counts, rows to their denominators; the table's constructor accepts it. |
| CandidateEvaluation.TableReadsTheCompounds | src/ctrt/_candidate_reference_evaluation_lifecycle.py:770-879 | Each cell counts the original responses to the options of its human direction, over the successful items on sufficient coverage whose compound output lies in the interval of its candidate direction; rows likewise. |
| CandidateEvaluation.OrderIsIrrelevant | src/ctrt/_candidate_reference_evaluation_lifecycle.py:829-915 | Table and summary depend on which items there are, not on their order. |
| CandidateEvaluation.ResponsesAreConserved | src/ctrt/_candidate_reference_evaluation_lifecycle.py:785-915 | Original responses equal described directions plus directions of excluded items plus preserved abstentions. |
| CandidateEvaluation.StatusesPartitionTheCorpus | src/ctrt/_candidate_reference_evaluation_lifecycle.py:882-915 | The four statuses partition the corpus, agree with the summary's counts, and its constructor accepts it. |
| CandidateEvaluation.SummaryCountsItems | src/ctrt/_candidate_reference_evaluation_lifecycle.py:882-915 | Every count of the summary is the number of items with that result, coverage or status. |

## Left out

- Near-copy layers of the witness, credential and runner pattern: modelled once, their repetition would add the same members again.
- JSON syntax, field-type and most blank-string checks, the format of digests, ISO timestamp parsing, error message texts.
- SHA-256 and canonical serialization internals, the canonicalization-version and media-type constants of a reference: uninterpreted or omitted.
- Disk durability (fsync, directory sync), paths and operating-system errors beyond "a step may stop here".
- The delegated checkpoint-gated runner's internals: it is an environment that appends artifacts of its own and returns a receipt.
- The registry, policy and ledger lifecycle enumerations are one enumeration; checks on the single-valued role enumerations cannot fail and are not modelled.
- The credential-bound corpus persist function: it stores its members and then the document like `Publication.Persist`, but also refuses a decision to abstain, and its closing load reads records stored by its predecessor.
- The evaluation run's own persistence: a script like that of `ExperimentBundle.Persist`.
- `artifact_pipeline.py`, `candidate_eligibility.py`, `behavioral_probe_corpus.py`, `candidate_reference_evaluation.py`, Markdown rendering, the command line and VADER itself: flat checks or outside the logic.
- PublicationRuns.MatchingLoadExactly: assumes that accepted calls carrying too little can run (predecessor stored, no ID taken); without that, `PublicationRuns.CoveringCallsSuffice` and `PublicationRuns.UncoveringCallBreaksLoad` give the two directions separately. Also assumes that digests do not collide on the documents of calls and load, nor of the load and the initial store; with a collision a load may succeed on other documents.
- PublicationRuns.PresenceMeansMatchingLoad: assumes that digests of the documents in play do not collide and that the store did not hold the document from the start.
- StoredRecords.LoadRecords: parsing is an uninterpreted function per record type, so no field syntax is checked; the runners read the adjudication record, and go on with the one the caller handed over, as the repository does.
- Publication.Persist: the parts of a corpus document that several levels read are one document with several readings; its JSON layout is not part of the model.
- RunHistory.NoContradictoryFinals: assumes that delegated runners and other writers use none of the runs' own decision and final names, and that decisions serialize injectively.
- StoreProtocol.StepKeeps: assumes well-formed artifacts whose distinct payloads have distinct hashes, and that a truncated index record never parses (`Sound`); the sequential store assumes no injectivity.
- StoreProgress.AloneSucceedsExactly: no scheduler and so no fairness between writers is modelled; it says what a writer comes to once the others have stopped.
- CandidateEvaluation.ItemReadsItsInputs: of the raw output only the compound value is modelled, and the item's text, content hash and two evidence references are not.
