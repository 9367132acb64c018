# Changeset rewiring and correlation pruning, modelled in Dafny

This project models two parts of Sourcegraph.

**The campaign changeset rewirer** (`enterprise/internal/campaigns/changeset_rewirer.go`).
A campaign is applied from a new campaign spec. The rewirer starts from:

- the campaign's changesets (those attached to it, or owned by it but detached);
- the changeset specs of the new campaign spec;
- the repositories the user can access.

The rewirer then works in three steps:

1. `indexAssociations` builds three maps: changesets by (repository, external ID), changesets by (repository, prefixed head ref), and the current spec of each changeset.
2. `Plan` emits one operation per spec: none, reenqueue, attach-tracked or track for an import spec; update or create for a branch spec. It then sweeps the changesets no spec claimed, emitting close, delete or unlink.
3. `Rewire` runs the plan against the store. It then replaces the campaign's changeset IDs with the set of attached IDs.

**Correlation pruning** in the precise-code-intel worker (`enterprise/cmd/precise-code-intel-worker/internal/correlation/prune.go`).
`prune` drops every document whose path does not exist in the git clone. `pruneFromDefinitionReferences` then removes the dropped documents from every definition and reference table.

## Structure

- `wrappers.dfy`: `Option` and `Result`.
- `campaign_types.dfy`: the records the rewirer reads and writes.
  - `Changeset`, `ChangesetSpec` and its description, `Repo`, `Campaign`, `DiffStat`.
  - The reconciler and publication states.
- `campaign_store.dfy`: the four store writes the rewirer issues (`r.tx`), as a class. Its row maps are ghost state.
  - Any write may fail, and a failed write persists nothing.
  - New rows get their IDs from a counter.
  - The store's own implementation is not part of this model.
- `rewirer_plan.dfy`: the indexing and planning logic as pure specification functions (`IndexSpec`, `SpecOp`, `SpecOps`, `SweepOps`, `PlanSpec`), with lemmas about them. It also models plan rendering (`rewirerPlan.String`) and proves a parse round-trip for it.
- `rewirer_apply.dfy`: the effect of each plan operation (`ApplyOp`) and of a whole plan (`ApplyOps`), with lemmas about them.
  - The state holds the persisted rows, the store's next free ID, the attached set and the in-memory records of the loaded changesets.
  - The plan's operations in Go hold pointers to those records. So a mutation by one operation is visible to later operations on the same changeset. The `live` map models this.
- `changeset_rewirer.dfy`: the imperative `ChangesetRewirer` class with the source's fields and loops. Each method is proved to compute the specification functions:
  - `IndexAssociations` computes `IndexSpec`;
  - `Plan` computes `PlanSpec`;
  - each `RewireStep` is an `ApplyOp`;
  - `Rewire` follows `ApplyOps`.
- `correlation_prune.dfy`: the correlation `State` as a class over maps. `Prune` changes it in place and is proved against `KeepExisting` and `PruneTable`.

The source calls several helpers whose code is not part of this model. They are fields of the `RewirerPlan.Env` datatype, taken as arbitrary values:

- `git.EnsureRefPrefix`, `checkRepoSupported` and `IsImportingExisting`;
- `Changeset.Published`, `ResetQueued` and `RemoveCampaignID`;
- `ChangesetSpec.DiffStat`;
- the answers of the store reads `GetChangeset` and `ListChangesetSpecs` by IDs.

The existence checker of `prune` is also a parameter: a function from the path list to either a membership test or an error.

### Behaviour of the code that the model keeps

- **Positional pairing of current specs** (`changeset_rewirer.go:421-428`). The i-th spec returned by the store is recorded as the current spec of the i-th loaded changeset, whatever that changeset's current spec ID is.
  - The source's own TODO says this assumption is wrong.
  - `PairSpecsPositional` states the pairing.
  - `PositionalPairingQuirk` gives two changesets for which the spec is recorded for the wrong one. Indexing then reaches the nil dereference at line 458.
  - The model keeps both panics as errors: `IndexOutOfRangePanic` when more specs than changesets come back, and `NilSpecPanic`.
- **Early return on attach-tracked** (`changeset_rewirer.go:328-330`). A non-errored attach-tracked operation returns the result of its store write straight away. The rest of the plan is skipped, and the campaign's changeset IDs are never written.
  - `RewireStep` and `ApplyOp` model this as `Stopped`.
  - `ApplyOpsStops` proves that a run stops exactly when the plan holds such an operation.
  - `StopsAtFirstPlainAttach` proves that the stored state is the state right after the first such operation.
  - `Rewire`'s doc comment (`changeset_rewirer.go:202`) says it also updates the campaign's changeset IDs. The early return at line 329 skips that update, and the model follows the code.
- **Claimed changesets stay matchable.** Claiming a changeset marks it attached. The attached set is used only to skip changesets in the sweep (`changeset_rewirer.go:169-171`), so a later spec can still match a changeset an earlier spec claimed.
  - Two branch specs with the same repository and head ref therefore both update the same changeset (`ChangesetMatchedByTwoSpecs`).
  - A changeset with both an external ID and a current spec sits in both indexes.
  - The model follows the code.
- **Duplicate campaign IDs.** The campaign ID is appended to the changeset's campaign list without a check for duplicates, on update and on attach-tracked (`UpdateEffect`, `AttachTrackedEffect`).

## Model

| member | source | states |
|---|---|---|
| RewirerPlan.KindNameRoundTrip | enterprise/internal/campaigns/changeset_rewirer.go:43-55 | each operation kind has a distinct, non-empty, comma-free string value, from which the kind can be read back |
| RewirerPlan.KindName | enterprise/internal/campaigns/changeset_rewirer.go:45-55 | definition: the string value of each of the nine operation kinds |
| RewirerPlan.Join | enterprise/internal/campaigns/changeset_rewirer.go:28-34 | definition: `strings.Join` of the kind names with a separator; its round trip is `PlanStringRoundTrip` |
| RewirerPlan.KindNames | enterprise/internal/campaigns/changeset_rewirer.go:29-32 | the rendered name list has one entry per plan operation |
| RewirerPlan.KindNamesAt | enterprise/internal/campaigns/changeset_rewirer.go:30-32 | entry i of the name list is the string value of operation i's kind |
| RewirerPlan.PlanStringRoundTrip | enterprise/internal/campaigns/changeset_rewirer.go:28-34 | parsing the `", "`-joined rendering of a plan gives back exactly the kinds of its operations, in order |
| ChangesetRewirer.PlanString | enterprise/internal/campaigns/changeset_rewirer.go:28-34 | the loop builds the names of the operations in order and joins them with `", "` |
| RewirerPlan.CurrentSpecIDsSpec | enterprise/internal/campaigns/changeset_rewirer.go:415-420 | the queried IDs are at most one per changeset, and are exactly the non-zero current spec IDs of the loaded changesets |
| RewirerPlan.CurrentSpecIDs | enterprise/internal/campaigns/changeset_rewirer.go:415-420 | definition: the current spec IDs collected from the loaded changesets; `CurrentSpecIDsSpec` states what they are |
| ChangesetRewirer.CollectCurrentSpecIDs | enterprise/internal/campaigns/changeset_rewirer.go:415-420 | the first loop of indexAssociations yields the non-zero current spec IDs in changeset order |
| RewirerPlan.PairSpecsPositional | enterprise/internal/campaigns/changeset_rewirer.go:421-428 | the i-th returned spec is recorded under the i-th changeset's ID, and nothing else is recorded |
| RewirerPlan.PairSpecs | enterprise/internal/campaigns/changeset_rewirer.go:421-428 | definition: the loop that records the i-th returned spec for the i-th changeset, defined only when no more specs than changesets come back; `PairSpecsPositional` states the pairing |
| RewirerPlan.PositionalPairingQuirk | enterprise/internal/campaigns/changeset_rewirer.go:421-458 | for changesets [A without a current spec, B with current spec 7], spec 7 is recorded for A, and indexing fails with the nil-spec panic on B |
| ChangesetRewirer.ChangesetRewirer.PairCurrentSpecs | enterprise/internal/campaigns/changeset_rewirer.go:421-428 | more specs than changesets gives the index-out-of-range panic; otherwise the current-spec map is the positional pairing |
| RewirerPlan.ExternalIDIndexExact | enterprise/internal/campaigns/changeset_rewirer.go:430-434 | every changeset with an external ID has its (repository, external ID) key in the index; every indexed changeset is a loaded one with that key |
| RewirerPlan.ExternalIDIndexLastWins | enterprise/internal/campaigns/changeset_rewirer.go:430-434 | when several changesets share a key, the index holds the last of them |
| RewirerPlan.ExternalIDIndex | enterprise/internal/campaigns/changeset_rewirer.go:430-434 | definition: the (repository, external ID) index, later changesets overwriting earlier ones; `ExternalIDIndexExact` and `ExternalIDIndexLastWins` state its content |
| RewirerPlan.HeadRefIndexExact | enterprise/internal/campaigns/changeset_rewirer.go:435-461 | each changeset the rules place in the head-ref index has its key there; every entry is a loaded changeset placed under that key |
| RewirerPlan.HeadRefIndexRules | enterprise/internal/campaigns/changeset_rewirer.go:435-461 | a tracked import (external ID, no current spec) is never in the head-ref index; a non-empty external branch decides the key; otherwise the key is the paired current spec's head ref, and that spec exists |
| RewirerPlan.HeadRefEntryOf | enterprise/internal/campaigns/changeset_rewirer.go:435-460 | definition: where one changeset goes in the head-ref index: nowhere for a tracked import, under its external branch, under its current spec's head ref, or the nil-spec panic; `HeadRefIndexRules` states the cases |
| RewirerPlan.HeadRefIndex | enterprise/internal/campaigns/changeset_rewirer.go:430-461 | definition: the (repository, prefixed head ref) index over all changesets; `HeadRefIndexExact` states its content |
| ChangesetRewirer.ChangesetRewirer.IndexChangesets | enterprise/internal/campaigns/changeset_rewirer.go:430-463 | the third loop fails with the nil-spec panic exactly when some changeset needs a missing current spec; otherwise it builds exactly the external-ID and head-ref indexes |
| ChangesetRewirer.ChangesetRewirer.IndexAssociations | enterprise/internal/campaigns/changeset_rewirer.go:410-464 | the three maps are the indexes `IndexSpec` defines, or the method returns the store error or panic at which the source stops |
| RewirerPlan.IndexSpec | enterprise/internal/campaigns/changeset_rewirer.go:410-464 | definition: the three maps indexAssociations builds, or the panic at which it stops; `IndexAssociations` is proved to compute it |
| RewirerPlan.SpecOpsPointwise | enterprise/internal/campaigns/changeset_rewirer.go:86-163 | a successful spec walk has one operation per spec, each that spec's own operation; a failed walk fails with the error of a spec all of whose predecessors succeeded |
| RewirerPlan.SpecOpsErrorPrefix | enterprise/internal/campaigns/changeset_rewirer.go:92-123 | once the walk over a prefix of the specs fails, the whole walk fails with that error |
| RewirerPlan.SpecOp | enterprise/internal/campaigns/changeset_rewirer.go:92-162 | definition: the operation the plan loop emits for one new spec, or its error; `SpecOpErrors`, `SpecOpWellFormed`, `PlanTrackMatched`, `PlanTrackUnmatched` and `PlanBranch` state its cases |
| RewirerPlan.SpecOps | enterprise/internal/campaigns/changeset_rewirer.go:87-163 | definition: the walk over all new specs, stopping at the first error; `SpecOpsPointwise` and `SpecOpsErrorPrefix` state it |
| RewirerPlan.SpecOpErrors | enterprise/internal/campaigns/changeset_rewirer.go:92-123 | a spec fails only when its repository is inaccessible, is unsupported, or the GetChangeset lookup of an import spec fails with something other than "no results"; the first two always fail |
| RewirerPlan.PlanFirstError | enterprise/internal/campaigns/changeset_rewirer.go:87-123 | planning fails with the error of the first failing spec |
| RewirerPlan.PlanRejectsInaccessibleRepo | enterprise/internal/campaigns/changeset_rewirer.go:92-95 | a spec in an inaccessible repository makes planning fail |
| RewirerPlan.PlanRequiresSupportedRepos | enterprise/internal/campaigns/changeset_rewirer.go:92-99 | if a plan exists, every spec's repository is accessible and supported |
| RewirerPlan.PlanTrackMatched | enterprise/internal/campaigns/changeset_rewirer.go:102-113 | an import spec whose key is indexed reuses that changeset: reenqueue if its reconciler state is Errored, otherwise none; the changeset is claimed, and the sweep does not touch it |
| RewirerPlan.PlanTrackUnmatched | enterprise/internal/campaigns/changeset_rewirer.go:114-133 | an import spec whose key is not indexed attaches the store's changeset (attach-tracked, claimed) or, on "no results", emits track |
| RewirerPlan.PlanBranch | enterprise/internal/campaigns/changeset_rewirer.go:148-162 | a branch spec updates the changeset indexed under (repository, prefixed head ref), claims it and keeps it out of the sweep; with no such changeset it emits create |
| RewirerPlan.ChangesetMatchedByTwoSpecs | enterprise/internal/campaigns/changeset_rewirer.go:148-162 | two branch specs with the same repository and head ref both update the same changeset |
| RewirerPlan.ClaimedAppend | enterprise/internal/campaigns/changeset_rewirer.go:86-163 | the set of attached IDs from two runs of operations together is the union of each run's set |
| RewirerPlan.ClaimedMembers | enterprise/internal/campaigns/changeset_rewirer.go:86-163 | an ID is marked attached exactly when some none, reenqueue, update or attach-tracked operation carries that changeset |
| RewirerPlan.Claimed | enterprise/internal/campaigns/changeset_rewirer.go:86-163 | definition: the attached set the spec walk builds; `ClaimedMembers` and `ClaimedAppend` state its members |
| RewirerPlan.SweepOpsAppend | enterprise/internal/campaigns/changeset_rewirer.go:168-193 | the sweep emits its operations in changeset order |
| RewirerPlan.SweepOpsExact | enterprise/internal/campaigns/changeset_rewirer.go:168-193 | every sweep operation is the one for some loaded changeset, and every changeset that gets an operation has it in the sweep |
| RewirerPlan.SweepOp | enterprise/internal/campaigns/changeset_rewirer.go:169-192 | definition: the close, delete or unlink operation for one unclaimed changeset in an accessible repository, or none; `SweepOpsRules` states the cases |
| RewirerPlan.SweepOps | enterprise/internal/campaigns/changeset_rewirer.go:168-193 | definition: the sweep over the loaded changesets in order; `SweepOpsAppend` and `SweepOpsExact` state its content |
| RewirerPlan.PlanSpecShape | enterprise/internal/campaigns/changeset_rewirer.go:73-195 | a plan is the operations of all the specs in spec order, followed by the sweep over the changesets the specs did not claim |
| RewirerPlan.PlanSpec | enterprise/internal/campaigns/changeset_rewirer.go:73-195 | definition: Plan as a function of the loaded associations; `Plan` is proved to compute it, and the lemmas below state its properties |
| RewirerPlan.PlanSweepRules | enterprise/internal/campaigns/changeset_rewirer.go:165-193 | each sweep operation carries a loaded, unclaimed changeset in an accessible repository, with no spec or repository; close if the changeset has a current spec, this campaign owns it and it is published; delete in that case when unpublished; otherwise unlink |
| RewirerPlan.SweepAvoidsClaimed | enterprise/internal/campaigns/changeset_rewirer.go:168-171 | no sweep operation touches a changeset that a spec claimed |
| RewirerPlan.PlanSweepComplete | enterprise/internal/campaigns/changeset_rewirer.go:168-193 | every unclaimed loaded changeset in an accessible repository gets a sweep operation |
| RewirerPlan.PlanWellFormed | enterprise/internal/campaigns/changeset_rewirer.go:109-191 | every planned operation carries the changeset, spec and repository fields its kind uses; create and track carry no changeset |
| ChangesetRewirer.ChangesetRewirer.PlanForSpec | enterprise/internal/campaigns/changeset_rewirer.go:87-162 | one iteration over the new specs yields that spec's operation and marks its changeset attached when the operation claims one, or returns the error at which planning stops |
| ChangesetRewirer.ChangesetRewirer.Plan | enterprise/internal/campaigns/changeset_rewirer.go:73-195 | the method's plan or error is exactly `PlanSpec` of the loaded associations |
| RewirerApply.ApplyOpsAppend | enterprise/internal/campaigns/changeset_rewirer.go:259-336 | running two plans back to back is running the first, then the second from where it left off, unless the first stopped |
| RewirerApply.ApplyOp | enterprise/internal/campaigns/changeset_rewirer.go:260-335 | definition: the effect of one plan operation on the rows, the next free ID, the in-memory records and the attached set; the `…Effect` lemmas state each kind |
| RewirerApply.ApplyOps | enterprise/internal/campaigns/changeset_rewirer.go:259-336 | definition: the effect of running a plan in order, halting at an early return; `ApplyOpsAppend`, `ApplyOpsStops` and `ApplyMembership` state it |
| RewirerApply.LiveOf | enterprise/internal/campaigns/changeset_rewirer.go:57-71 | definition: the in-memory record of each loaded changeset, keyed by ID; `LiveOfSpec` states its content |
| RewirerApply.ApplyOpsStops | enterprise/internal/campaigns/changeset_rewirer.go:317-330 | a run stops early exactly when the plan holds an attach-tracked operation whose changeset is not errored |
| RewirerApply.StopsAtFirstPlainAttach | enterprise/internal/campaigns/changeset_rewirer.go:328-330 | the first such operation is the last one applied; every operation before it ran |
| RewirerApply.ApplyMembership | enterprise/internal/campaigns/changeset_rewirer.go:258-336 | a run that does not stop adds to the attached set exactly the claimed changesets plus the IDs of the rows it inserted; the next free ID moves past one row per create or track |
| RewirerApply.ApplyOpMembership | enterprise/internal/campaigns/changeset_rewirer.go:260-335 | one step adds its claimed changeset, or its new row's ID for create and track, and nothing else |
| RewirerApply.SweepOpsAttachNothing | enterprise/internal/campaigns/changeset_rewirer.go:263-278 | unlink, close and delete never stop the run, never attach anything and never insert a row |
| RewirerApply.FullRunAttached | enterprise/internal/campaigns/changeset_rewirer.go:258-346 | after a full run, the attached set (the campaign's new changeset IDs) is the changesets the specs claimed plus the inserted rows; no swept changeset is in it |
| RewirerApply.CreateEffect | enterprise/internal/campaigns/changeset_rewirer.go:349-367 | when the next free ID holds no row, create inserts under it, adding exactly that key, an unpublished, queued changeset in the spec's repository, owned by the campaign and attached to it alone, pointing at the spec, with its diff stat; the new ID is attached, and no other row changes |
| RewirerApply.NewChangesetForSpec | enterprise/internal/campaigns/changeset_rewirer.go:350-364 | definition: the record createChangesetForSpec builds; `CreateEffect` states its fields |
| RewirerApply.TrackEffect | enterprise/internal/campaigns/changeset_rewirer.go:295-316 | when the next free ID holds no row, track inserts under it, adding exactly that key, a published, queued, unsynced changeset with the spec's external ID, added to the campaign, with no owner and no current spec; the new ID is attached, and no other row changes |
| RewirerApply.TrackedChangeset | enterprise/internal/campaigns/changeset_rewirer.go:296-310 | definition: the record the track branch builds; `TrackEffect` states its fields |
| RewirerApply.UpdateEffect | enterprise/internal/campaigns/changeset_rewirer.go:369-384 | update moves the current spec ID to the previous one, points at the new spec, appends the campaign ID, copies the diff stat, leaves every other field alone, and persists the re-enqueued record; the changeset is attached |
| RewirerApply.UpdatedToSpec | enterprise/internal/campaigns/changeset_rewirer.go:370-378 | definition: the record updateChangesetToNewSpec builds before re-enqueueing; `UpdateEffect` states its fields |
| RewirerApply.ReenqueueEffect | enterprise/internal/campaigns/changeset_rewirer.go:290-294 | reenqueue persists the re-enqueued in-memory record, which the shared in-memory record now equals, and attaches it; no other row changes |
| RewirerApply.UnlinkEffect | enterprise/internal/campaigns/changeset_rewirer.go:263-267 | unlink persists the record with this campaign's ID removed, which the shared in-memory record now equals; nothing is attached, and no other row changes |
| RewirerApply.CloseEffect | enterprise/internal/campaigns/changeset_rewirer.go:268-274 | close persists the record marked closing and queued, with this campaign's ID removed, which the shared in-memory record now equals; nothing is attached |
| RewirerApply.DeleteEffect | enterprise/internal/campaigns/changeset_rewirer.go:275-278 | delete removes the row and changes nothing else |
| RewirerApply.AttachTrackedEffect | enterprise/internal/campaigns/changeset_rewirer.go:317-332 | attach-tracked marks the record added and appends the campaign ID; an errored one is re-enqueued, persisted and attached, and the run goes on; any other one is persisted and the run stops without attaching it |
| RewirerApply.AddedToCampaign | enterprise/internal/campaigns/changeset_rewirer.go:320-321 | definition: the record marked added with the campaign ID appended; `AttachTrackedEffect` states it |
| ChangesetRewirer.ChangesetRewirer.UpdateAndReenqueue | enterprise/internal/campaigns/changeset_rewirer.go:466-469 | the record is re-enqueued and persisted under its ID; a failed write persists nothing |
| ChangesetRewirer.ChangesetRewirer.UpdateChangesetToNewSpec | enterprise/internal/campaigns/changeset_rewirer.go:369-384 | the persisted record is the re-enqueued record pointed at the new spec, with the old current spec as previous, the campaign ID appended and the spec's diff stat |
| ChangesetRewirer.ChangesetRewirer.CreateChangesetForSpec | enterprise/internal/campaigns/changeset_rewirer.go:349-367 | on success the new changeset is stored under the next free ID, which advances by one; on failure nothing is stored |
| ChangesetRewirer.ChangesetRewirer.RewireStep | enterprise/internal/campaigns/changeset_rewirer.go:259-336 | one loop iteration: a successful step changes the rows, the next ID, the in-memory records and the attached set exactly as `ApplyOp`, and says whether Rewire returns; a failed write leaves the rows as they were |
| ChangesetRewirer.IDsOf | enterprise/internal/campaigns/changeset_rewirer.go:341-344 | the new changeset ID list holds every attached ID exactly once, in some order |
| ChangesetRewirer.ChangesetRewirer.Rewire | enterprise/internal/campaigns/changeset_rewirer.go:203-347 | a planning error returns before any write; a failed changeset write returns with the writes of some run-through prefix of the plan, the in-memory and stored campaign unchanged; an early stop leaves the rows of `ApplyOps` and the in-memory and stored campaign unchanged; a failed campaign write leaves the rows of `ApplyOps`, the stored campaign unchanged and the in-memory one with its IDs replaced; a full run leaves the rows of `ApplyOps` and writes the campaign with its changeset IDs replaced by the attached set, without duplicates |
| ChangesetRewirer.ChangesetRewirer.constructor | enterprise/internal/campaigns/changeset_rewirer.go:57-71 | a rewirer holds what loadAssociations loaded, empty indexes, and an in-memory record for each loaded changeset |
| CampaignStore.Store.CreateChangeset | enterprise/internal/campaigns/changeset_rewirer.go:312-314 | the store's insert, as the rewirer relies on it: a new ID, the row stored under it, nothing on failure |
| CampaignStore.Store.UpdateChangeset | enterprise/internal/campaigns/changeset_rewirer.go:466-469 | the store's update: the row replaced under its ID, nothing on failure |
| CampaignStore.Store.DeleteChangeset | enterprise/internal/campaigns/changeset_rewirer.go:275-278 | the store's delete: the row removed, nothing on failure |
| CampaignStore.Store.UpdateCampaign | enterprise/internal/campaigns/changeset_rewirer.go:346 | the store's campaign update: the campaign replaced under its ID, nothing on failure |
| CorrelationPrune.KeepExistingSpec | enterprise/cmd/precise-code-intel-worker/internal/correlation/prune.go:25-30 | the kept documents are exactly the documents whose path exists, with their paths unchanged |
| CorrelationPrune.KeepExisting | enterprise/cmd/precise-code-intel-worker/internal/correlation/prune.go:25-30 | definition: the document map after the deletion loop; `KeepExistingSpec` states its content |
| CorrelationPrune.PruneTableSpec | enterprise/cmd/precise-code-intel-worker/internal/correlation/prune.go:37-46 | pruning a table keeps its outer keys; each inner map keeps exactly the surviving documents, with their range sets unchanged |
| CorrelationPrune.PruneTable | enterprise/cmd/precise-code-intel-worker/internal/correlation/prune.go:37-46 | definition: a definition or reference table after pruning; `PruneTableSpec` and `PruneTableIdempotent` state its content |
| CorrelationPrune.PruneTableIdempotent | enterprise/cmd/precise-code-intel-worker/internal/correlation/prune.go:37-46 | pruning twice against the same documents is pruning once |
| CorrelationPrune.CollectPaths | enterprise/cmd/precise-code-intel-worker/internal/correlation/prune.go:15-18 | one path per document, duplicates kept: the paths are those of an enumeration of every document exactly once, so they are exactly the documents' paths |
| CorrelationPrune.PathsOfDocuments | enterprise/cmd/precise-code-intel-worker/internal/correlation/prune.go:15-18 | a list holding every document's path once holds exactly the documents' paths |
| CorrelationPrune.PruneDocumentRanges | enterprise/cmd/precise-code-intel-worker/internal/correlation/prune.go:39-44 | the inner loop over one ranges map keeps exactly the entries of surviving documents, unchanged |
| CorrelationPrune.PruneFromDefinitionReferences | enterprise/cmd/precise-code-intel-worker/internal/correlation/prune.go:37-46 | every inner map of the table loses the documents that are no longer in the document data, and nothing else changes |
| CorrelationPrune.RemoveMissingDocuments | enterprise/cmd/precise-code-intel-worker/internal/correlation/prune.go:25-30 | deleting while iterating leaves exactly the documents whose path exists |
| CorrelationPrune.Prune | enterprise/cmd/precise-code-intel-worker/internal/correlation/prune.go:14-35 | the checker receives the path of every document exactly once; a checker error is returned with the state untouched; otherwise the state keeps exactly the existing documents, and both tables are pruned against them |
| CorrelationPrune.PruneLeavesNoDangling | enterprise/cmd/precise-code-intel-worker/internal/correlation/prune.go:25-33 | after pruning, every remaining document exists, and no definition or reference entry names a dropped document |
| CorrelationPrune.State.constructor | enterprise/cmd/precise-code-intel-worker/internal/correlation/prune.go:14 | a state holds the given document, definition and reference data |

## Left out

- `loadAssociations` (`changeset_rewirer.go:388-408`) is not modelled. Its three results (changesets, specs, accessible repositories) are the constructor's inputs. `Plan` starts after it, so a failure while loading is not modelled.
- The `fmt.Printf` of the plan (`changeset_rewirer.go:208`) is I/O. `PlanString` models the string it prints.
- The `default: panic` branch (`changeset_rewirer.go:334`) cannot be reached: the kind datatype has exactly the nine kinds.
- The helpers listed above (`EnsureRefPrefix`, `checkRepoSupported`, `ResetQueued`, `RemoveCampaignID`, `Published`, `IsImportingExisting`, `DiffStat`) are arbitrary functions. Their code is not part of this model.
  - `SetDiffStat` is modelled as storing the spec's diff stat.
  - The lemmas about attached IDs assume that `ResetQueued` and `RemoveCampaignID` keep the changeset ID (`IDsPreserved`).
- The store reads (`GetChangeset`, `ListChangesetSpecs` by IDs) are `Env` functions. They are not tied to the ghost rows the writes change. Store IDs come from a counter, not from a database sequence.
  - The counter is not proved to stay above the stored IDs. `CreateEffect` and `TrackEffect` take the freshness of the next ID as a premise, as a database sequence provides it.
- `ctx`, transactions and concurrency are not modelled.
- The other files of the repository are not part of this model.
- Go map iteration order:
  - For `attachedChangesets` and for the maps `prune` walks, the order is left open; the loop picks any remaining key.
  - As a result, the order of the campaign's new changeset IDs and of the paths handed to the existence checker is not determined.
- ChangesetRewirer.ChangesetRewirer.IndexAssociations: on an error it does not state what the partly filled maps hold. In Go they are left half-built, and `Plan` returns at once.
- The two Go panics in indexAssociations are modelled as the errors `IndexOutOfRangePanic` and `NilSpecPanic`. The model does not abort the process.
- `DefaultIDSetMap` and `IDSet` (the datastructures package) are modelled as `map<int, set<int>>` values.
  - Two definition entries that share one `DefaultIDSetMap` pointer are pruned independently in the model; in Go they would be pruned together, with the same result.
  - `State` holds only the three maps `prune` uses.
  - The repository root and `getChildren` are folded into the checker parameter of `Prune`.
