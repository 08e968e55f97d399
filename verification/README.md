# Event contract quality gateway: a verified model

This project models the gateway that registers typed event contracts and validates producer traffic
before it reaches a stream, and proves what its parts promise together. It is written for Dafny 4.11;
`dafny verify dfyconfig.toml` checks all of it.

## What is modelled

| file | part of the gateway |
|---|---|
| `Text.dfy`, `Sorting.dfy`, `Values.dfy` | strings, Go's sorting functions, decoded JSON values, and the `Host` record of library functions left open (number rendering and scanning, regular expressions, HMAC, SHA-256) |
| `Schemas.dfy` | schemas, canonical form, validation, the compatibility report |
| `Typecheck.dfy`, `Types.dfy` | payload validation, which gives schemas their meaning, and what the type names accept |
| `Evolution.dfy` | what a compatible report guarantees for payloads, for one step and along a chain of versions |
| `Fingerprints.dfy` | the text a fingerprint hashes |
| `Contracts.dfy`, `Registry.dfy` | contracts, the memory store, the application service, and interleaved read-modify-write sessions |
| `Ties.dfy` | stored versions whose names collide after trimming |
| `Rules.dfy`, `Catalogs.dfy` | quality rules, their evaluation, the versioned rule catalogue and the live rules |
| `DeadLetters.dfy`, `Ingestion.dfy` | letters, and the locked sections of publishing and replaying as functions |
| `Machine.dfy` | the gateway as a step machine: one step per locked section, calls interleaving freely |
| `Conservation.dfy`, `Idempotency.dfy`, `Replays.dfy`, `Quotas.dfy`, `Acceptance.dfy` | what every interleaving keeps |
| `Pagination.dfy`, `Summaries.dfy`, `Filters.dfy` | event listing with cursors, event summaries, and what filters select |
| `Services.dfy` | the ingestion service as an object, and its serial calls as runs of the machine |
| `Readers.dfy` | reading pages while the gateway runs |
| `Scenarios.dfy` | runs from the empty gateway that show what can go wrong |

Three conventions run through the project.

* Code that updates an object in place is a class whose methods are proved against functions on values;
  the theorems are about those functions. Code that loops over a Go map picks its next key with `:|`, so
  what is proved holds for every iteration order, and `sort.Slice` is a method of which callers learn only
  that it returns a sorted permutation.
* Time is an integer number of nanoseconds, read once per locked section and passed in as a parameter; the
  zero time is an absent value. Fresh identifiers are parameters too: they are not empty, and the identifier
  of a new letter is not in use. Everything else a caller may choose is unrestricted.
* A run is a sequence of actions from the empty gateway. An action that is not enabled changes nothing, so
  every sequence is a run, and a statement about `Run(cfg, START, actions)` is about every interleaving.

## What the code does not do

Some properties one would expect are false of the code. For each there is a witness and a condition under
which the property holds.

* A compatible report does not mean that payloads stay valid: defaults are never applied, an enum put on a
  field that had none is not reported, unknown keys may meet a new restricted field, forward mode lets fields be
  demanded at once, and a field whose name differs from another's only by white space is checked but not compared
  (`Evolution.DefaultIsNotApplied`, `Evolution.FirstEnumRejects`, `Evolution.UnknownKeysMatter`,
  `Evolution.ForwardDemands`, `Evolution.ShadowedFieldMatters`). Among schemas whose names stay apart when trimmed
  `Evolution.GuaranteedIff` says, for every mode, exactly when it is a guarantee.
* Versions that are each compatible with the one before need not be compatible with older ones, because a
  default can be dropped (`Evolution.DroppedDefaultBreaksChain`; exactly when they are:
  `Contracts.VersionsCompatible`).
* `Canonical` sorts on raw names and trims afterwards, so it is not idempotent: trimmed names may be out of
  order, or tie, and a second sort may then swap them (`Schemas.CanonicalNotIdempotent`; exactly when it is:
  `Schemas.CanonicalIdempotentIff`). Names that only white space keeps apart collide
  (`Schemas.TrimmedNamesCollide`; exactly when names still identify fields: `Schemas.IdentifiedIff`).
* What may follow a stored version with colliding names is not determined by the contract: `sort.Slice` does not
  promise an order of equal names, and the field left last is the one compared (`Ties.TiedVersionUnsettled`). The
  order matters to no candidate exactly when fields of one name agree in type, in being required and in their enum
  values (`Ties.VerdictSettledIff`).
* The README of the repository promises optimistic `If-Match` protection. The tag is compared with the copy a
  session read, not with the stored contract, so two overlapping sessions publish with one tag, and a stale
  save turns a published version back into a draft (`Registry.OverlapPublishesTwice`,
  `Registry.OverlapUnpublishes`; without stale saves neither happens: `Registry.SerialRun`). A save is stale exactly
  when it does not raise the stored revision by one (`Registry.StaleIffRevisionFalters`), so comparing revisions
  would keep the promise (`Registry.RevisionsSuffice`). An accepted event can after a stale save name a version that
  is no longer published (`Scenarios.StaleSaveRevokes`).
* Contracts are stored under organization and id joined by a slash, so a tenant can find the contract of an
  organization with a slash in its name (`Registry.ForeignContractFound`; exactly when it is its own:
  `Registry.FindsOwnIff`, over runs `Registry.TenantsFindOwn`).
* Publishing is not idempotent while calls with one key overlap (`Scenarios.KeyCommitsTwice`): once nothing is in
  flight for a key, it was committed at most once exactly when it was never admitted while in flight
  (`Idempotency.CommittedAtMostOnce`, by tenant and key `Idempotency.TenantCommitsAtMostOnce`). An event can then
  also lose its receipt, and summaries no longer add up (`Scenarios.OverlapLosesReceipt`). A tenant
  is answered with the receipt of another one with a slash in its name (`Scenarios.AnsweredWithAnothers`).
* Poisoned is not a final state while a replay of the letter is in flight (`Scenarios.OverlapRevives`); a poisoned
  letter is never touched again exactly when none is (`Replays.PoisonedFinalIff`).
* While a secret is set, a replay of a signed event never succeeds, since the signature covers the idempotency key
  and a replay takes a new one (`Services.SignedReplayFails`; when a replay that runs alone succeeds:
  `Services.SerialReplayOutcome`).
* A replay does not always publish the event its letter was made for, because events are stored by id alone: it
  publishes whatever was last committed under the id (`Scenarios.ReplayTakesOver`, `Replays.ReplaysLastCommitted`;
  exactly when the letter keeps its own event: `Replays.OwnRunIff`).
* Quota windows bound an arbitrary minute only if the clock readings do not decrease in lock order
  (`Quotas.AtMostTwice`). Without that, there is a bound for all runs exactly if the quota is at most
  one (`Quotas.UnorderedBoundedIff`).
* A reader that follows cursors can miss events. A replay moves the event under the cursor to the end of the
  listing, and everything in between is skipped (`Readers.ReplayMovesCursor`). An event is stamped before it is
  committed, so one that was in flight during a page can land ahead of the reader (`Scenarios.LateCommitMissed`).
  What was delivered stays a prefix of the listing exactly when no harmful event is stored
  (`Pagination.PrefixKeptIff`, `Pagination.StoreKeepsIff`), and it is safe to go on exactly when no publish in
  flight is harmful (`Readers.SafeToContinueIff`).
* The duplicate count of a summary is always zero, since the flag is set only on the copy that is returned
  (`Summaries.SummaryAddsUp`).
* A fingerprint ignores defaults, on which compatibility depends, and its text is ambiguous when names or
  enum values contain separators or enum values are empty (`Fingerprints.DefaultNotFingerprinted`,
  `Fingerprints.UncleanFieldsCollide`).

## Model

| member | source | states |
|---|---|---|
| Schemas.Canonicalize | internal/contract/domain/model.go:84-96 | the sort and the loop compute a canonical form for whatever order equal names get, and the canonical form if names identify the fields |
| Schemas.CanonicalIdempotentIff | internal/contract/domain/model.go:84-96 | canonicalising twice changes nothing, however the sort orders equal names, exactly when trimming keeps the order of the raw names and makes no two different fields tie |
| Schemas.CanonicalNotIdempotent | internal/contract/domain/model.go:84-115 | a valid schema whose canonical form no second sort leaves as it is, and one whose names keep their order but tie |
| Schemas.TrimmedNamesCollide | internal/contract/domain/model.go:84-115 | a schema that validates but whose trimmed names no longer identify its fields |
| Schemas.IdentifiedIff | internal/contract/domain/model.go:84-96 | names identify the fields of the canonical form exactly when no two different fields have raw names that trim alike |
| Schemas.CanonicalForgetsOrder | internal/contract/domain/model.go:84-96 | writing the fields, and then the values of each enum, in another order gives the same canonical form |
| Schemas.StoredFields | internal/contract/domain/model.go:84-96 | a stored schema, canonicalised again by a comparison, has the same fields by name |
| Schemas.Validate | internal/contract/domain/model.go:97-115 | accepts exactly the schemas of a known kind with at least one field, complete fields and distinct names, which then identify the fields |
| Schemas.CheckContainsAll | internal/contract/domain/model.go:184-195 | every wanted value is among the others |
| Schemas.KeptOrRemoved | internal/contract/domain/model.go:149-171 | the changes listed for one old field are exactly those the declarative reading gives, without repetition |
| Schemas.CompareSchemas | internal/contract/domain/model.go:139-183 | for every map iteration order the list holds each change of the declarative reading once, sorted by path |
| Schemas.BreakingIffIncompatible | internal/contract/domain/model.go:125-183 | a breaking change is listed exactly when the fields are not compatible in the declarative sense |
| Schemas.ReportReads | internal/contract/domain/model.go:149-182 | the change list is empty exactly when both schemas have the same names, no kept field breaks and no annotation changed; it warns exactly of changed annotations and, in forward mode, of removed fields |
| Schemas.Compare | internal/contract/domain/model.go:125-138 | for every map iteration order and every order of equal names the verdict and the changes are the declarative ones on the fields as sorted; for identified names there is one such order |
| Schemas.ChangeListUnique | internal/contract/domain/model.go:139-183 | with dot-free names there is only one possible sorted change list |
| Schemas.ReportUnique | internal/contract/domain/model.go:125-183 | reports on the same schemas written in any field and enum order, with maps visited in any order, list the same changes in the same order |
| Typecheck.TypeSpelling | internal/quality/domain/typecheck.go:48-75 | case and white space in a type name do not change the values it accepts |
| Text.LowerIff | internal/contract/domain/model.go:84-96 | lower-casing identifies exactly the texts that differ in the case of letters only |
| Text.TrimCuts | internal/contract/domain/model.go:84-96 | trimming cuts all white space off both ends and nothing else |
| Typecheck.Issues | internal/quality/domain/typecheck.go:27-46 | the issues are exactly those of the single fields, and none is left exactly when every field is satisfied |
| Typecheck.IssuesTold | internal/quality/domain/typecheck.go:27-46 | an issue is reported exactly when its reason speaks against a field: missing of required fields without a value, the wrong type of values, the enum of values of the right type |
| Typecheck.EnumContains | internal/quality/domain/typecheck.go:77-84 | membership |
| Typecheck.ValidatePayload | internal/quality/domain/typecheck.go:27-46 | the loop computes the issues in field order |
| Types.SpellingsFallTogether | internal/quality/domain/typecheck.go:48-75 | which type names accept the same values |
| Types.UnknownNamesAccept | internal/quality/domain/typecheck.go:70-74 | any other type name accepts everything |
| Types.NumbersAccepted | internal/quality/domain/typecheck.go:56-61 | "number" accepts exactly the numbers, "int" exactly the whole ones from -2^63 to 2^63-1, "uint" exactly those that are not negative |
| Types.NumericTypesNarrow | internal/quality/domain/typecheck.go:56-61 | an uint is an int is a number; an int is no uint exactly when negative, a number no int exactly when fractional or out of range |
| Types.BasicTypesPartition | internal/quality/domain/typecheck.go:48-75 | every decoded value but null is of exactly one of the types string, bool, number, object and array, its own |
| Evolution.CompatibilitySound | internal/contract/domain/model.go:125-183 | a payload valid under the old schema, with no other keys and no field getting its first enum, has under a compatible new schema only missing fields that carry a default; without such fields it is valid |
| Evolution.GuaranteedIff | internal/contract/domain/model.go:125-183 | in every mode, for schemas whose trimmed names stay apart: every payload valid for the stored old fields and with no other keys is valid for the stored new ones exactly when the old schema accepts nothing, or nothing becomes required and every first enum admits all values of its type |
| Evolution.CoversDecided | internal/quality/domain/typecheck.go:41-75 | no enum admits every value of a text, bytes or custom type, nor of a number, array or object type if different values print differently, nor of an integer type unless it is enormous; an enum admits every boolean exactly when it lists both |
| Evolution.CanonicalKeepsMeaning | internal/contract/domain/model.go:84-96 | for trimmed names a payload is valid for a schema as written exactly when it is valid for the stored canonical form |
| Evolution.ChainKeeps | internal/contract/domain/model.go:139-183 | along a chain of which neighbours are compatible every field keeps its presence, its type and its enum values |
| Evolution.ChainCompatibleIff | internal/contract/domain/model.go:139-183 | distant versions are compatible exactly when every field the later one demands was required by the earlier one |
| Evolution.ChainCompatible | internal/contract/domain/model.go:205-220 | if no step drops the default of a field that stays required, any two versions are compatible |
| Evolution.ChainSound | internal/quality/domain/typecheck.go:27-46 | along a chain a valid payload can only come to miss fields |
| Evolution.DefaultIsNotApplied | internal/quality/domain/typecheck.go:27-46 | for all names, types and values: valid, compatible schemas and a payload that misses only a field with a default, which the new schema rejects |
| Evolution.UnknownKeysMatter | internal/contract/domain/model.go:172-180 | for all names, types and values: valid, compatible schemas and a payload with a key the old one does not know, which the new one rejects |
| Evolution.FirstEnumRejects | internal/contract/domain/model.go:165-167 | for all names, types and values: the first enum of a field is compatible and rejects a payload that was valid |
| Evolution.ForwardDemands | internal/contract/domain/model.go:172-180 | for all names, types and values: in forward mode a field demanded at once is compatible and rejects a payload that was valid |
| Evolution.ShadowedFieldMatters | internal/contract/domain/model.go:139-147 | for all names, types and values: of two fields whose names trim alike only the last is compared and both are validated, so a payload that was valid is rejected |
| Evolution.DroppedDefaultBreaksChain | internal/contract/domain/model.go:160-164 | for all names, types and defaults: three valid schemas, neighbours compatible, the first and the last not |
| Fingerprints.Fingerprint | internal/contract/domain/model.go:116-124 | the hash of the encoded canonical fields |
| Fingerprints.FingerprintForgetsOrder | internal/contract/domain/model.go:116-124 | field and enum order do not matter |
| Fingerprints.DecodeEncode | internal/contract/domain/model.go:116-124 | round trip: the hashed text of fields free of separators reads back as kind and fields |
| Fingerprints.FingerprintFaithful | internal/contract/domain/model.go:116-124 | equal texts mean equal kind and, field by field, equal name, type, requiredness, enum and annotation |
| Fingerprints.UncleanFieldsCollide | internal/contract/domain/model.go:116-124 | valid schemas with different fields and one hashed text: for every field, with an empty enum value or without, and for every way to move a colon from the name to the type |
| Fingerprints.UncleanFieldsExist | internal/contract/domain/model.go:116-124 | witness: a name and a type between which a colon can move |
| Fingerprints.DefaultNotFingerprinted | internal/contract/domain/model.go:116-124 | for all names, types and defaults: valid schemas with one fingerprint, of which one is compatible with a third and the other is not |
| Contracts.Contract.AddVersion | internal/contract/domain/model.go:205-220 | adds a draft with the next number, the canonical form, the fingerprint and a new tag exactly if the schema is valid and compatible with the last version as compared; otherwise nothing changes |
| Contracts.CanAddIff | internal/contract/domain/model.go:205-220 | if names identify the fields of the last version, a schema can be added exactly if it is valid and compatible, whatever the order in which it is compared |
| Ties.VerdictSettledIff | internal/contract/domain/model.go:139-171 | the order of equal stored names matters to no candidate exactly when fields of one name agree in type, in being required and in their enum values |
| Ties.TiedVersionUnsettled | internal/contract/domain/model.go:139-171 | from the empty store, for all names and types: a registered contract whose only version has names that tie and for which the order decides |
| Ties.SchemaOf | internal/contract/domain/model.go:84-115 | every map of stored fields is what a comparison sees of some valid schema |
| Contracts.Contract.Publish | internal/contract/domain/model.go:221-243 | succeeds exactly when the first version of that number is a draft with that tag, and then publishes it under a new tag; otherwise nothing changes |
| Contracts.NewWellFormed | internal/contract/domain/model.go:196-204 | a contract can be made exactly with an id, an organization and a name that is not blank; it satisfies the contract invariant, and its mode is forward only if asked for |
| Contracts.AddWellFormed | internal/contract/domain/model.go:205-220 | adding keeps numbering from one, revision = 1 + versions + published, distinct tags and the chain of checked links |
| Contracts.PublishWellFormed | internal/contract/domain/model.go:221-243 | publishing keeps the same invariant |
| Contracts.PublishSucceeds | internal/contract/domain/model.go:221-243 | publishing raises the revision by one, changes no schema and no published version, and spends the tag |
| Contracts.VersionsCompatible | internal/contract/domain/model.go:205-220 | in a contract built by adding, outside forward mode and with trimmed names, any later version keeps the fields of any earlier one; they compare as compatible exactly when all demands are old, in particular if no default was dropped |
| Contracts.VersionsSound | internal/quality/domain/typecheck.go:27-46 | a payload valid for an earlier version has only missing-field issues with a later one |
| Registry.MemoryContracts.Create | internal/platform/store/memory.go:20-29 | stores under the contract's own key unless taken |
| Registry.MemoryContracts.Find | internal/platform/store/memory.go:30-38 | returns exactly what is stored under the key |
| Registry.MemoryContracts.Save | internal/platform/store/memory.go:39-48 | replaces what is stored under the key, if anything is |
| Registry.ContractService.Register | internal/contract/application/service.go:32-39 | stores a well-formed new contract or nothing |
| Registry.ContractService.AddVersion | internal/contract/application/service.go:40-50 | a session that runs alone adds a version to the stored contract or leaves the store alone |
| Registry.ContractService.Publish | internal/contract/application/service.go:51-61 | a session that runs alone publishes a stored version or leaves the store alone |
| Registry.ContractService.Check | internal/contract/application/service.go:65-77 | the verdict is whether adding would succeed for the order the check saw, and for every order if names identify the fields of the last version |
| Registry.AlwaysWellFormed | internal/contract/application/service.go:40-61 | in every interleaving of sessions every stored contract satisfies the contract invariant |
| Registry.StoredVersionsKeep | internal/contract/application/service.go:40-61 | in every interleaving any later stored version keeps the fields of any earlier one |
| Registry.StoredVersionsValid | internal/contract/domain/model.go:97-115 | in every interleaving every stored version has a known kind and a field |
| Registry.StepEvolves | internal/platform/store/memory.go:39-48 | a save that replaces what its session read raises the revision by one and loses nothing |
| Registry.SerialRun | internal/contract/application/service.go:40-61 | without stale saves nothing published is lost, revisions never shrink and no tag publishes twice |
| Registry.StaleIffRevisionFalters | internal/platform/store/memory.go:39-48 | in every interleaving some save was stale exactly when some save did not raise the stored revision by one |
| Registry.RevisionsSuffice | internal/platform/store/memory.go:39-48 | a run in which every save raises the revision by one loses nothing published at any point and lets no tag publish twice |
| Registry.FindsOwnIff | internal/platform/store/memory.go:19-38 | a tenant without a slash finds a contract of its own exactly when the contract's organization has no slash |
| Registry.TenantsFindOwn | internal/platform/store/memory.go:19-38 | in every interleaving in which only organizations without a slash register, such a tenant finds only its own contracts |
| Registry.ForeignContractFound | internal/platform/store/memory.go:19-38 | from the empty store, a tenant finds the contract of an organization with a slash in its name |
| Registry.OverlapPublishesTwice | internal/contract/application/service.go:51-61 | from every state with a draft two overlapping sessions publish with one tag |
| Registry.OverlapUnpublishes | internal/contract/application/service.go:40-61 | from every state with a draft a stale save takes a published version back to a draft |
| Registry.Publishable | internal/contract/application/service.go:32-61 | every valid schema can be registered, added and published |
| Registry.PublicationRevoked | internal/contract/application/service.go:40-61 | from the empty store, a session opened before the publication takes it back by saving after it |
| Rules.Evaluate | internal/quality/domain/catalog.go:72-94 | for all rules, verdicts and failure codes of the enabled ones in id order, with passed plus failed counting them all; no result exactly if one panics, which valid rules do not |
| Rules.EvaluationMeans | internal/quality/domain/model.go:51-92 | an evaluation passes exactly when the payload meets what every enabled rule demands, its failure codes are the ids of those it does not meet, and it has a verdict for each |
| Rules.BoundsDemandInterval | internal/quality/domain/model.go:70-86 | a minimum and a maximum rule together pass exactly for the numbers between the bounds, with equal bounds exactly for that number |
| Rules.EqualsExclude | internal/quality/domain/model.go:60-64 | two equality rules with different values never both pass, and both fail without the field |
| Rules.NullReadsNil | internal/quality/domain/model.go:60-64 | a null that is present equals the text "<nil>" only |
| Rules.TighterAddsFailures | internal/quality/domain/model.go:70-86 | raising a minimum or lowering a maximum only ever adds failures to an evaluation |
| Rules.EvaluationForgetsOrder | internal/quality/domain/catalog.go:72-94 | the configured order of rules with distinct ids does not matter |
| Rules.EnabledCounted | internal/quality/domain/catalog.go:72-94 | passed plus failed is the number of enabled rules |
| Rules.FailuresAgree | internal/quality/domain/catalog.go:72-94 | the failure codes are, as a multiset, the failures of a pass in the configured order |
| Ingestion.RuleProblemsAgree | internal/ingestion/application/service.go:152-163 | the rules that validation reports are, in order, the failing ones |
| Ingestion.ValidationAgreesWithEvaluation | internal/ingestion/application/service.go:152-163 | the rule ids validation reports are, as a multiset, the failure codes of an evaluation of the same rules |
| Catalogs.ValidateSet | internal/quality/domain/catalog.go:45-63 | accepts exactly named, positive, valid and duplicate-free rule sets |
| Catalogs.Catalog.Put | internal/quality/domain/catalog.go:112-140 | appends a valid newer set, clears other flags if it is active and keeps the last ones; otherwise nothing changes |
| Catalogs.Catalog.Activate | internal/quality/domain/catalog.go:148-162 | flags the version and succeeds exactly if it is kept; a failure clears every flag |
| Catalogs.Catalog.Active | internal/quality/domain/catalog.go:164-173 | the first flagged set, if any |
| Catalogs.CanSetIff | internal/ingestion/application/service.go:46-60 | rules can be set exactly if the contract is named and the rules are valid with distinct ids |
| Catalogs.CanActivateIff | internal/ingestion/application/policy.go:27-39 | a version can be activated exactly if it is among the last ten |
| Catalogs.ActRefines | internal/ingestion/application/policy.go:27-39 | setting and activating, failures included, keep the catalogue a bounded view of the history that agrees with the live rules |
| Catalogs.ActivatesNamed | internal/ingestion/application/policy.go:27-39 | activating a kept version makes its list the live one and it alone active; any other activation fails, leaves the live rules and no version active |
| Catalogs.SetsNamed | internal/ingestion/application/service.go:46-60 | setting rules makes the list live and its version alone active |
| Catalogs.CatalogueRefinesHistory | internal/quality/domain/catalog.go:112-173 | over every run the catalogue holds the last ten accepted rule lists in ascending order, with at most one active and that one live |
| DeadLetters.DeadLetter.BeginReplay | internal/deadletter/domain/model.go:34-43 | starts and audits a replay exactly while budget is left and the letter is not poisoned |
| DeadLetters.DeadLetter.FinishReplay | internal/deadletter/domain/model.go:44-58 | ends and audits a replay as replayed, pending or, with the budget spent, poisoned |
| Ingestion.SeenKeyInjective | internal/ingestion/application/service.go:74-94 | tenants without a slash cannot produce each other's keys |
| Ingestion.NoReasonsIff | internal/ingestion/application/service.go:118-166 | validation gives no reason exactly for events that name tenant and contract, carry a payload, are signed if a secret is set, are in the time window, name a published version their payload is valid for, and fail no live rule |
| Ingestion.ReasonsReport | internal/ingestion/application/service.go:118-166 | if different problems read differently, validation reports exactly the problems that speak against the event, branch by branch |
| Ingestion.WindowEdges | internal/ingestion/application/service.go:132-134 | an event is in the window unless it is more than 24 hours old or more than 5 minutes ahead; one without a time gets that of its reception |
| Ingestion.SignatureBinds | internal/ingestion/application/service.go:167-171 | a signature is good for one id, one contract and one key, if id and contract have no separator |
| Conservation.BalancedStep | internal/ingestion/application/service.go:61-105 | every step keeps what was opened equal to what was closed plus what is in flight |
| Conservation.CommitCoupled | internal/ingestion/application/service.go:89-104 | committing keeps receipts, events, attempts and lineage coupled |
| Conservation.CommitLetters | internal/ingestion/application/service.go:85-102 | committing keeps one letter per dead-lettered attempt |
| Conservation.AlwaysConserved | internal/ingestion/application/service.go:73-117 | in every interleaving attempts stored and publishes in flight are the admissions, every receipt is that of a stored attempt, unpruned lineage holds exactly the last attempt, and an event has as many letters as dead-lettered attempts |
| Conservation.LineageRemovedIff | internal/ingestion/application/query.go:289-300 | in every run a lineage record is removed exactly by a pruning more than thirty days after it was made |
| Idempotency.CommittedAtMostOnce | internal/ingestion/application/service.go:73-95 | a key never admitted while in flight is committed at most once, and once nothing is in flight only such a key is |
| Idempotency.TenantCommitsAtMostOnce | internal/ingestion/application/service.go:73-95 | the same by tenant and key, in runs that admit only tenants without a slash |
| Scenarios.AnsweredWithAnothers | internal/ingestion/application/service.go:73-78 | from the empty gateway, after a tenant with a slash in its name has published, another is answered with the first one's receipt and nothing of its event is stored |
| Scenarios.KeyCommitsTwice | internal/ingestion/application/service.go:73-105 | from the empty gateway, any two events with one key are both committed by overlapping calls |
| Idempotency.DuplicateChangesNothing | internal/ingestion/application/service.go:73-78 | after any further run a publish with a known key returns the stored receipt flagged as duplicate and changes nothing |
| Idempotency.ReceiptForever | internal/ingestion/application/service.go:91-95 | without overlap the receipt of a key never changes |
| Idempotency.KeysRequired | internal/ingestion/application/service.go:70-72 | in every run only events with an idempotency key are admitted and committed |
| Replays.BudgetKept | internal/ingestion/application/service.go:198-220 | in every interleaving attempts are replays begun, at most three and as audited; those not ended are in flight; pending has budget left, poisoned none, replaying a replay in flight |
| Replays.StateTold | internal/deadletter/domain/model.go:34-58 | in every interleaving the state of a letter is a function of its audit trail: created pending, started replaying, succeeded replayed, failed pending or, after three starts, poisoned |
| Replays.LettersReasoned | internal/ingestion/application/service.go:97-102 | in every run a letter gives the first reason of a dead-lettered attempt of its event, and a new one is of the event just stored |
| Services.SerialReplayOutcome | internal/ingestion/application/service.go:198-220 | a replay that runs alone leaves its letter replayed exactly when its publish was accepted, which once admitted is exactly when the event is acceptable; the trail gains start and outcome |
| Services.SignedReplayFails | internal/ingestion/application/service.go:167-171 | with a secret, no replay of an event signed for its own key is accepted, because the signature covers the key that a replay replaces |
| Replays.AuditGrows | internal/deadletter/domain/model.go:34-58 | letters are never removed and audit trails only grow at the end |
| Replays.PoisonedForever | internal/deadletter/domain/model.go:34-37 | a poisoned letter with no replay in flight is never touched again |
| Replays.PoisonedFinalIff | internal/ingestion/application/service.go:198-220 | a poisoned letter is never touched again, whatever runs, exactly when no replay of it is in flight |
| Scenarios.OverlapRevives | internal/ingestion/application/service.go:198-220 | from the empty gateway, for every schema and payload valid for it, three overlapping replays poison a letter and then make it replayed |
| Replays.LetterHasEvent | internal/ingestion/application/service.go:209-210 | the event of a letter is always a stored one |
| Replays.ReplaysLastCommitted | internal/ingestion/application/service.go:209-210 | in every run a replay publishes the event last committed under the id, so its own exactly when that one had the letter's tenant and payload |
| Replays.OwnStepIff | internal/ingestion/application/service.go:92-93 | a step takes a letter's own event from it exactly when it commits another tenant or payload under the same id |
| Replays.OwnRunIff | internal/ingestion/application/service.go:92-93 | a letter keeps its own event throughout a run exactly when no step of the run does that |
| Scenarios.ReplayTakesOver | internal/ingestion/application/service.go:198-213 | from the empty gateway, after two tenants published under one id the letter of the first replays the event of the second |
| Quotas.WindowsBounded | internal/ingestion/application/service.go:106-117 | in every run, whatever the clock readings, windows start a minute apart and none admits more than the quota; without a positive quota nothing is admitted |
| Quotas.AtMostTwice | internal/ingestion/application/service.go:106-117 | with clock readings that do not decrease, any half-open minute admits at most twice the quota per tenant |
| Quotas.UnorderedBoundedIff | internal/ingestion/application/service.go:106-117 | with arbitrary clock readings some bound on a half-open minute holds of all runs exactly for a quota of at most one |
| Quotas.TenantsIsolated | internal/ingestion/application/service.go:106-117 | a step that admits nothing of a tenant leaves its counter alone |
| Acceptance.AcceptedMeansValid | internal/ingestion/application/service.go:135-151 | in every interleaving without stale saves an event whose last attempt was accepted is valid against the published version it names |
| Acceptance.AcceptedForGood | internal/ingestion/application/service.go:84-95 | that version stays published with the same schema in every later state |
| Scenarios.StaleSaveRevokes | internal/contract/application/service.go:40-61 | from the empty gateway, for every schema and payload valid for it, a stale save takes the version of an accepted event back to a draft |
| Acceptance.RulesAlwaysAgree | internal/ingestion/application/policy.go:27-39 | in every interleaving the catalogue refines the history, an active rule set is the live one, and every live rule is named, on a field, of a known operator and cannot panic |
| Acceptance.LiveRulesAreNamed | internal/ingestion/application/policy.go:27-39 | in every interleaving the live rules of a contract are the list last set or, if a kept version was activated since, that of the version last activated; failed activations do not move them |
| Pagination.Select | internal/ingestion/application/query.go:30-36 | for every iteration order the selection holds each matching event once |
| Pagination.FindEvents | internal/ingestion/application/query.go:18-56 | the page is that of the one sorted listing of the matching events, with a status for every event that has a receipt; an unsupported status is refused |
| Pagination.PageSizes | internal/ingestion/application/query.go:22-54 | a page has at most 500 events, is full unless it is the last, and takes 50 as the default |
| Filters.NamesNarrow | internal/ingestion/application/query.go:58-90 | adding a tenant, contract, partition, text or status to a filter leaves, in order, exactly the events that have it |
| Filters.BoundsNarrow | internal/ingestion/application/query.go:68-79 | adding a bound leaves exactly the events strictly after or before it |
| Filters.ContainsIff | internal/ingestion/application/query.go:80-85 | a text contains another exactly when it can be cut around it |
| Filters.EverythingListed | internal/ingestion/application/query.go:58-90 | without a filter every stored event is listed once |
| Filters.ReceptionPartitions | internal/ingestion/application/query.go:74-79 | the listings before a time, at it and after it are, one behind the other, the whole listing |
| Filters.OccurrencePartitions | internal/ingestion/application/query.go:68-73 | by time of occurrence every listed event is in exactly one of the three |
| Filters.TenantsReadOwn | internal/ingestion/application/query.go:18-56 | in every interleaving a page under a tenant holds only committed events of that tenant, and the listing holds all of its events that the rest of the filter lets through |
| Pagination.EventStatus | internal/ingestion/application/query.go:92-99 | the status of some receipt of the event, or none if there is no receipt |
| Pagination.FindCursor | internal/ingestion/application/query.go:101-111 | the position behind the event the cursor names, or the start |
| Pagination.ListingUnique | internal/ingestion/application/query.go:37-42 | there is only one listing |
| Pagination.PrefixKeptIff | internal/ingestion/application/query.go:37-54 | what was delivered is a prefix of any listing exactly when it is ordered, all of it is listed and all else listed comes behind |
| Pagination.StoreKeepsIff | internal/ingestion/application/query.go:18-56 | storing an event, new or again, keeps what was delivered a prefix exactly when it replaces none of it by something else and, if listed, comes behind |
| Pagination.PagesFollowListingIff | internal/ingestion/application/query.go:43-54 | page after page the events delivered are a prefix of the current listing, and all of it when the cursor comes back empty, exactly when between pages what was delivered stays a prefix |
| Readers.DeliveredStepIff | internal/ingestion/application/service.go:91-93 | a step keeps what was delivered a prefix exactly when it commits no harmful event |
| Readers.SafeToContinueIff | internal/ingestion/application/service.go:61-93 | every run that admits nothing harmful keeps what was delivered a prefix exactly when no publish in flight is harmful |
| Readers.PagesFollowRun | internal/ingestion/application/query.go:18-56 | in every interleaving that commits nothing harmful between pages, the pages are a prefix of the current listing, and all of it at the end |
| Readers.ConsiderateCalls | internal/ingestion/application/service.go:61-93 | nothing harmful is committed between two pages if nothing in flight at the first and nothing admitted since is harmful |
| Readers.PagesFollowPublishes | internal/ingestion/application/query.go:18-56 | so it is while any number of events with new ids are published at later times between pages, for every filter without a status |
| Readers.EventsNamed | internal/ingestion/application/service.go:63-65 | in every run events are stored under their own non-empty ids |
| Scenarios.LateCommitMissed | internal/ingestion/application/service.go:62-93 | from the empty gateway, an event that enters before a page and commits after it is never delivered, and the reader is told that it has seen all |
| Pagination.PagesOnStableStore | internal/ingestion/application/query.go:43-54 | on an unchanged store the k-th page ends after k times the limit, so reading ends after max(1, ceil(n / limit)) pages |
| Pagination.MovedCursorSkips | internal/ingestion/application/query.go:101-111 | if the event under the cursor is received again later than all, the new listing has it at the end, and the next page is empty and the last |
| Readers.ReplayMovesCursor | internal/ingestion/application/service.go:198-220 | a replay of the event under the cursor, run between two pages, does that, and all events behind the cursor are skipped |
| Summaries.ReceiptFor | internal/ingestion/application/query.go:196-203 | some receipt of the event, exactly if there is one |
| Summaries.Summarize | internal/ingestion/application/query.go:159-194 | for every iteration order total and extremes are those of the selected events; an event counts for a status if all its receipts have it and only if one has; accepted and dead-lettered add up exactly if every event has a receipt |
| Filters.SummaryCountsListing | internal/ingestion/application/query.go:159-165 | a summary counts exactly the events that a listing with its tenant and contract lists |
| Summaries.SummaryAddsUp | internal/ingestion/application/query.go:159-194 | in every run without overlapping keys the counts add up to the total; in every run the duplicate count is zero |
| Scenarios.OverlapLosesReceipt | internal/ingestion/application/service.go:93-94 | from the empty gateway, any two events with one key that overlap leave one without receipt, and its tenant's summary short of its total |
| Services.IngestionService.SetRules | internal/ingestion/application/service.go:46-60 | the call changes catalogue and live rules as its section does, and fails exactly when it must |
| Services.IngestionService.ActivateRuleVersion | internal/ingestion/application/policy.go:27-39 | the call changes catalogue and live rules as its section does, flags included on failure |
| Services.IngestionService.EvaluateEvent | internal/ingestion/application/policy.go:41-50 | the whole evaluation of the live rules on a stored event |
| Services.IngestionService.Consume | internal/ingestion/application/service.go:106-117 | the counter advances in the current or a new window, or the call is refused |
| Services.IngestionService.Validate | internal/ingestion/application/service.go:118-166 | the loops compute the reasons |
| Services.IngestionService.Store | internal/ingestion/application/service.go:89-104 | the last section commits event, receipt, attempt, letter and lineage |
| Services.IngestionService.Publish | internal/ingestion/application/service.go:61-105 | a publish that runs alone enters, validates and commits, and answers accordingly |
| Services.IngestionService.Replay | internal/ingestion/application/service.go:198-220 | a replay that runs alone begins, publishes again under a fresh key and ends, or is refused without effect |
| Services.IngestionService.PruneExpiredLineage | internal/ingestion/application/query.go:289-300 | exactly the expired records are removed, and counted |
| Services.SerialPublish | internal/ingestion/application/service.go:61-105 | the four sections of a publish run in a row are the method |
| Services.SerialReplay | internal/ingestion/application/service.go:198-220 | the six sections of a replay run in a row are the method |

## Left out

- HTTP routing, request decoding, response envelopes, metrics, configuration, both main packages, deployment files, SQL and proto: plumbing without a property of its own.
- `MemoryContracts.List`: no handler calls it; its paging is that of the event listing without a time order.
- `ReplayMany` and `ReplayManyForTenant`: loops over `Replay` with a check of the letter's tenant, which would add easy members only.
- `Letters`, `ListLetters`, `GetEvent`, `GetLineage`, `LineageSnapshot`, `Attempts`, `Quality`, `Rules`, `RuleHistory` and `RuleResults`: copies of what is stored.
- Durations, latencies, rule timeouts and the expected and actual texts of type issues: no property depends on them.
- Several clock readings inside one locked section are one reading.
- Numbers of types other than float64, byte slices and structs in payloads: decoding a JSON request yields none.
- Infinite bounds and readings in minimum and maximum rules: parsed numbers are reals, and a text that parses to not-a-number reads as no number, which fails the rule as the source does.
- Unicode case folding and white space: ASCII only.
- Aliasing of slices and maps behind defensive copies: stored values are immutable here.
- Schemas.KeptOrRemoved: models the body of the first loop of the comparison as a method of its own; explanation texts of changes are not modelled, because kind and types determine them.
- Pagination.FindEvents: looks statuses up for all events before filtering rather than one by one, because the outcome of a status filter depends only on which receipts are found.
- Acceptance.AcceptedMeansValid: speaks of runs without stale saves of contracts only, because a stale save can unpublish a version.
- Deprecated and retired versions, the worker and the outbox: no code performs them.
