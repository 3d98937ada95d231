# RDF generation control plane: a verified model

This project models how a Wikibase RDF index is fed, checked, promoted and destroyed, and proves what keeps that safe.
Six parts are modelled, each as the code has it.

- **Generation coordinator** (`Coordinator*.dfy`, `ServingPointer.dfy`). Several coordinators claim operations under expiring
  leases and drive prepare, compare-and-set, router check and finalisation, then retirement and deletion. Every repository
  transaction is one atomic step on the rows; every coordinator has a program counter and the values it last read, so a stale
  coordinator goes on acting on old values. Crashes, a non-decreasing clock and evidence written by workers are further actions.
  `CoordinatorConditions.dfy` says for every transaction, over the columns alone, when it commits and what it writes.
  `CoordinatorRepository.Database` is the same repository with its rows updated in place, statement by statement, under the
  database part of the same invariant; `ServingPointerRepository.Registry` holds the one-transaction promotion and rollback.
- **Physical deletion** (`ClusterDeletion*.dfy`, `CoordinatorDeletion.dfy`). The driver that deletes a generation's three
  Kubernetes resources, as part of the reconcile that runs it: its database calls are steps of the coordinator protocol, its
  cluster calls meet a cluster in which anything may vanish, change or be created again. One driver an epoch; all generations
  share the cluster.
- **Canonical form** (`Rdf*.dfy`, `Permutations.dfy`, `Sorting.dfy`, `ValidationGate.dfy`). A line is a sequence of text and
  blank-node tokens; the hash and the string orders are arbitrary parameters. `RdfRefinement.dfy` says what colour refinement
  achieves when the hash does not collide on the signatures that occur; no other result needs that.
- **Sync engine** (`Sync*.dfy`, `SnapshotReplay.dfy`). Durable state is rows, graphs, registry, schema flag and cursor; each awaited write is a step
  after which the process may die. `SyncEngine.RdfSyncEngine` performs the writes; a ghost field records them in order.
- **Partition and normalisation** (`Dataset*.dfy`, `RdfNormalizer.dfy`). Triples with their lines; IRI patterns are parameters.
- **Smaller state machines**: two-slot promotion (`StandalonePromotion.dfy`, `StandaloneConditions.dfy`) beside rebuilds of the
  idle slot (`StandaloneRebuild.dfy`), and the in-memory backend (`MemoryGenerations.dfy`).

## What the code does where its documents say otherwise

- The insert of a promotion journal ends in ON CONFLICT DO NOTHING, but no migration from 005 to 013 in
  packages/jwb-database/migrations creates a unique index on journals in state PREPARING, so it never suppresses an insert. The
  model follows the migrations. The consequence is stated exactly: `InFlightAgreement` gives the condition under which pointer and
  registry agree, `InFlightChain` says what holds without it, `TwoInFlight` is a reachable run.
- ADR-0034 lists workload, Service, volume claim; the driver deletes workload, volume claim, Service. The model follows the driver.
- `#cas` of the standalone coordinator does not check its candidate again, and the last writes of load and validate name their slot
  without any guard. `RunLitIff` states exactly when the pointer target stays routable, `NeverDarkWhenCalm` which rebuilds are
  harmless, and two concrete runs go dark.
- `rollbackPromotion` of the in-memory backend changes the current row before it looks its source up; `OneServingIff` gives the
  exact condition under which one row stays serving, and `RollBackToDeleted` is the run in which none does. It does not look at
  what it puts back either: `ServesValidIff` and `RollBackToReused`.
- Deletion evidence from the journal is meant to let a new plan take a resource for already deleted, but `deletionResource` refuses
  every planned resource marked absent, so such a plan is never recorded: `AbsentComesToNothing`. The column that would
  feed the evidence is never written; the theorems hold for whatever it contained.

## Model

| member | source | states |
|---|---|---|
| CoordinatorTheorems.DeletionSafety | services/rdf-sync/src/postgres-generation-coordinator-repository.js:129-149 | In every state that any number of live and stale coordinators, crashes and worker evidence can reach, a generation under RETIREMENT_IN_PROGRESS is not SERVING and is neither the current nor the previous generation of the pointer |
| CoordinatorTheorems.DeletionSafeForEver | services/rdf-sync/src/generation-coordinator-runtime.js:36 | A coordinator that once obtained deletion authority for a generation, however stale it becomes, never deletes a serving or rollback generation: the generation stays out of service in every continuation of the run |
| CoordinatorTheorems.AuthorityProtects | services/rdf-sync/src/postgres-generation-coordinator-repository.js:164 | Live authority (owner, fence, unexpired lease, token, pending state) implies the generation is protected for retirement |
| CoordinatorTheorems.OneServing | services/rdf-sync/src/postgres-generation-coordinator-repository.js:87-103 | Exactly one generation is SERVING, exactly one has SERVING protection, and they are the same |
| CoordinatorTheorems.SettledPointer | services/rdf-sync/src/postgres-generation-coordinator-repository.js:87-120 | With no journal between its pointer move and its finalisation, the serving pointer stands at the serving generation and its previous generation is exactly the one with ROLLBACK protection |
| CoordinatorTheorems.InFlightAgreement | services/rdf-sync/src/postgres-generation-coordinator-repository.js:78-103 | With a journal in between, the serving pointer stands at its target and the serving row is its source, if and only if no other journal is in between as well |
| CoordinatorTheorems.InFlightChain | services/rdf-sync/src/postgres-generation-coordinator-repository.js:78-103 | In general the journals in between form one chain, each starting where the one before it ended, from the serving row to the pointer |
| CoordinatorWitness.TwoInFlight | services/rdf-sync/src/postgres-generation-coordinator-repository.js:78-85 | A reachable run that leaves two journals in between at once: ON CONFLICT DO NOTHING has no unique index to fire on, so the agreement needs its condition |
| CoordinatorTheorems.OneOwner | services/rdf-sync/src/generation-coordinator-runtime.js:16 | No two operations with the same candidate pass CREATING_GENERATION |
| CoordinatorTheorems.OneInstallPerGeneration | services/rdf-sync/src/generation-coordinator-runtime.js:33-34 | Two journals that have moved the pointer to the same generation are the same journal, even when stale coordinators insert journals late |
| CoordinatorTheorems.PointerNeverReturns | services/rdf-sync/src/postgres-generation-coordinator-repository.js:87-99 | A generation that the pointer has left is never named by it again |
| CoordinatorTheorems.PointerVersions | services/rdf-sync/src/postgres-generation-coordinator-repository.js:87-99 | Pointer versions never decrease, and every change of the pointer raises the version |
| CoordinatorFencing.StaleCallWritesNothing | services/rdf-sync/src/postgres-generation-coordinator-repository.js:50-58 | A fenced call made under an old fence or an expired lease changes nothing but its own local state |
| CoordinatorFencing.FencesGrow | services/rdf-sync/src/postgres-generation-coordinator-repository.js:30-47 | The fence of an operation never decreases over any run |
| CoordinatorFencing.ClaimsAreOrdered | services/rdf-sync/src/postgres-generation-coordinator-repository.js:30-47 | Each fence value has one claimer: of two successful claims of an operation the later one has the larger fence |
| CoordinatorFencing.OvertakenForEver | services/rdf-sync/src/postgres-generation-coordinator-repository.js:50-58 | Once an operation has been claimed again, no fenced call of the earlier claimer writes anything in any continuation |
| CoordinatorFencing.AttemptsFrozen | services/rdf-sync/src/postgres-generation-coordinator-repository.js:153-168 | After a takeover no delete-attempt row of the old fence changes, and none is added |
| CoordinatorFencing.OneTokenPerFence | services/rdf-sync/src/postgres-generation-coordinator-repository.js:131-149 | One operation and fence have one deletion token, over rows, attempts and every coordinator that still remembers a token |
| CoordinatorSafety.KeepsRun | services/rdf-sync/src/generation-coordinator-runtime.js:13-36 | The invariant that carries these results is kept by every action of every run |
| CoordinatorDeletion.DeletedIsConfirmed | services/rdf-sync/src/postgres-generation-coordinator-repository.js:168 | In every reachable state a retirement row in PHYSICALLY_DELETED or METADATA_FINALIZED has a token, and its workload, volume claim and Service attempts of exactly that operation, fence and token are ABSENT_CONFIRMED |
| CoordinatorDeletion.OneClaimer | services/rdf-sync/src/postgres-generation-coordinator-repository.js:30-47 | No two coordinators, live or stale, ever work on one operation under the same fence |
| CoordinatorWitness.AuthorityArises | services/rdf-sync/src/postgres-generation-coordinator-repository.js:129-149 | A run in which a generation reaches RETIREMENT_IN_PROGRESS and a coordinator obtains the authority to delete it |
| CoordinatorContracts.CasBeats | services/rdf-sync/src/postgres-generation-coordinator-repository.js:87-99 | The compare-and-set that moves the pointer installs a generation the pointer has never named, and every other journal prepared by that version has lost for good |
| CoordinatorContracts.ReleaseClosesWayBack | services/rdf-sync/src/postgres-generation-coordinator-repository.js:108-120 | A release commits only with nothing in flight, and afterwards no generation anywhere is kept for rollback |
| CoordinatorRepository.Database.ClaimNext | services/rdf-sync/src/postgres-generation-coordinator-repository.js:30-47 | A claim commits exactly for an operation that is not over and whose lease is absent or run out; it was held by nobody and is left to the new owner alone, for a whole lease under a fence one larger, and nothing else changes; the database invariant is kept |
| CoordinatorRepository.Database.TransitionTo | services/rdf-sync/src/postgres-generation-coordinator-repository.js:50-58 | Exactly the owner, at the fence and before the lease runs out, moves the operation, from the state it read, and gives it up; the invariant is kept if and only if the new state fits the operation |
| CoordinatorRepository.Database.PrepareJournal | services/rdf-sync/src/postgres-generation-coordinator-repository.js:78-85 | A journal is appended whatever others exist, and can move a pointer that stands where it says; the invariant is kept if and only if the operation owns the target, the target has been READY and the expected version is no older than an install of it |
| CoordinatorRepository.Database.CasServingPointer | services/rdf-sync/src/postgres-generation-coordinator-repository.js:87-99 | It commits exactly for a journal that has moved the pointer already or still finds it as prepared; a move writes pointer and journal only, raises the version by one, remembers where it came from, names a generation never installed before and beats every rival |
| CoordinatorRepository.Database.FinalizeJournal | services/rdf-sync/src/postgres-generation-coordinator-repository.js:103 | All row updates or none, and exactly when the source is SERVING and the target READY: the one serving generation is the journal's source before and its target after, the source alone is kept for rollback, whoever was protected before is not, and no other row and not the pointer is written |
| CoordinatorRepository.Database.ReleaseRollbackProtection | services/rdf-sync/src/postgres-generation-coordinator-repository.js:108-120 | It commits exactly at the pointer, version and rollback generation the caller saw, with no promotion of that generation unfinished and no retirement of it begun; afterwards the way back is closed |
| CoordinatorRepository.Database.ReevaluatePendingRetirement | services/rdf-sync/src/postgres-generation-coordinator-repository.js:129 | It commits exactly for the live lease of a waiting retirement, and reserves the candidate if and only if nothing uses it: retiring, retired or failed, unprotected, its sync at rest, not named by the pointer, no promotion of it unfinished and no other operation at work on it; a reservation writes generation, retirement row and operation, bound to the pointer and generation versions of that moment, and anything else only gives up the claim |
| CoordinatorRepository.Database.MarkRetired | services/rdf-sync/src/postgres-generation-coordinator-repository.js:151 | It commits exactly for the live lease of the one retirement row, once reserved and at the version it was bound to, and for a generation that is out of service under the retirement protection; who serves does not change |
| CoordinatorRepository.Database.Authorize | services/rdf-sync/src/postgres-generation-coordinator-repository.js:131-149 | A token comes exactly for the live lease over a generation that still nothing uses, at the versions it was bound to, past logical retirement; a pending deletion keeps the token of its fence, the lease is extended and never cut, and a refusal undoes that extension |
| CoordinatorRepository.Database.FinishRetirement | services/rdf-sync/src/postgres-generation-coordinator-repository.js:172 | It commits exactly for the live lease after physical deletion, lifts the retirement protection from a generation that had it, and the generation stays out of service |
| CoordinatorConditions.ReevaluateExact | services/rdf-sync/src/postgres-generation-coordinator-repository.js:185 | In a database that satisfies the invariant the eligibility check commits for the live lease alone, and moves to CLEANING_UP exactly when the generation is free: the evaluator agrees with the conditions written over the columns |
| CoordinatorConditions.AuthorizeExact | services/rdf-sync/src/postgres-generation-coordinator-repository.js:131-149 | Deletion authority is granted exactly under the conditions written over the columns, the sync state and the other operations of the generation among them |
| CoordinatorConditions.FinalizeExact | services/rdf-sync/src/postgres-generation-coordinator-repository.js:103 | A finalisation commits exactly for a verified journal whose source is SERVING and whose target is READY, and then hands service over and writes nothing else |
| CoordinatorConditions.PlanExact | services/rdf-sync/src/postgres-generation-coordinator-repository.js:155-164 | A deletion plan is recorded exactly under live authority: a PLANNED row for each planned resource that has none, and the rows there are stay as they are |
| CoordinatorConditions.AttemptExact | services/rdf-sync/src/postgres-generation-coordinator-repository.js:168 | One attempt row moves, under the live lease, exactly if its epoch, role, uid and state are the expected ones |
| CoordinatorConditions.ConfirmExact | services/rdf-sync/src/postgres-generation-coordinator-repository.js:168 | PHYSICALLY_DELETED is written exactly under live authority with all three absences of the epoch on record |
| CoordinatorValidation.PromotedWasValid | services/rdf-sync/src/generation-coordinator-runtime.js:32 | Over every run: an operation is past VALIDATING, and a journal exists, only for a candidate that some earlier state of the run had READY and VALID |
| CoordinatorValidation.ServedWasValid | services/rdf-sync/src/generation-coordinator-runtime.js:32-34 | so no generation but that of the bootstrap is ever SERVING, or named by the pointer, that was not READY and VALID before |
| CoordinatorMilestones.NoStageSkipped | services/rdf-sync/src/generation-coordinator-runtime.js:30-35 | Over every run: past LOADING_SNAPSHOT the load was observed and the candidate has left LOADING, past WAITING_FOR_CATCHUP the catch-up was and it has left CATCHING_UP, a PROMOTED operation finished a journal of its own, and a ROLLBACK_PROTECTED one saw the pointer at its candidate and left a retirement row for the generation before |
| CoordinatorMilestones.JournalWasObserved | services/rdf-sync/src/generation-coordinator-runtime.js:33-34 | Over every run: a journal is verified or finalised only after the router was seen on it, and it was opened under a claim that had found no journal of its operation |
| CoordinatorProgress.RecoveryCompletes | services/rdf-sync/src/generation-coordinator-runtime.js:34 | From whatever phase a crash left the journal of a PROMOTING operation in, one undisturbed reconcile takes it to PROMOTED with the target serving and the source kept for rollback |
| CoordinatorProgress.ProtectionCompletes | services/rdf-sync/src/generation-coordinator-runtime.js:35 | and one more to ROLLBACK_PROTECTED with the generation before up for retirement |
| CoordinatorProgress.TakeoverHappens | services/rdf-sync/src/postgres-generation-coordinator-repository.js:30-47 | Whoever holds an operation that is not over can lose it to any free coordinator once the lease has run out |
| CoordinatorProgress.WaitingGivesBack | services/rdf-sync/src/generation-coordinator-runtime.js:30-32 | A coordinator that finds nothing new gives the operation back in its state, for anyone to claim |
| ServingPointer.JournaledRefinesAtomic | services/rdf-sync/src/postgres-generation-coordinator-repository.js:87-103 | Any sequence of recovery calls that reaches GENERATION_FINALIZED, crashes and repetitions included, leaves the pointer and the generation rows of the one-transaction promotion |
| ServingPointer.RecoveryFinishes | services/rdf-sync/src/postgres-generation-coordinator-repository.js:101-103 | Some sequence of recovery calls finishes a prepared journal if and only if its pointer and rows still allow it |
| ServingPointer.RollbackUndoesPromote | services/rdf-sync/src/postgres-serving-pointer-repository.js:93-131 | The rollback transaction after a promotion restores who serves and swaps the rollback protection |
| ServingPointer.PromoteExact | services/rdf-sync/src/postgres-serving-pointer-repository.js:23-92 | It commits exactly for a validated READY candidate at the generation and version the caller saw |
| ServingPointer.RollbackExact | services/rdf-sync/src/postgres-serving-pointer-repository.js:93-131 | It commits exactly at the version the caller saw with the generation before RETIRING and kept for rollback |
| ServingPointerRepository.Registry.Promote | services/rdf-sync/src/postgres-serving-pointer-repository.js:23-92 | It commits exactly for a validated READY candidate at the expected pointer; then the candidate alone serves, the old generation alone is the way back, and otherwise nothing changes |
| ServingPointerRepository.Registry.Rollback | services/rdf-sync/src/postgres-serving-pointer-repository.js:93-131 | It commits exactly while the way back is RETIRING at the expected version; then the two generations have changed places and no further rollback commits, whatever version it names |
| RdfTheorems.DecidesIsomorphism | packages/rdf-sync/src/rdf-canonicalization.js:10-33 | For graphs without repeated lines, once one of them is within the search limit: the outcomes agree if and only if the graphs are isomorphic (section 3.6 of RDF 1.1 Concepts), for any hash function and any orders |
| RdfTheorems.IsomorphicAlike | packages/rdf-sync/src/rdf-canonicalization.js:10-33 | Isomorphic graphs get the same answer: both refused, or both rendered to the same text |
| RdfTheorems.RenamingInvariant | packages/rdf-sync/src/rdf-canonicalization.js:10-33 | The same for graphs with repeated lines when the renaming keeps how often each line occurs |
| RdfTheorems.EqualTextsAreIsomorphic | packages/rdf-sync/src/rdf-canonicalization.js:56 | Equal texts come only from isomorphic graphs, repeated lines or not, whatever the hash collides on |
| RdfIsomorphism.ColorsFollow | packages/rdf-sync/src/rdf-canonicalization.js:15-20 | Colour refinement gives corresponding nodes the same colour |
| RdfTheorems.CandidatesCounted | packages/rdf-sync/src/rdf-canonicalization.js:21-30 | The candidates tried are exactly the orders that run through the colour groups, each once, and their number is the product of the group factorials |
| RdfTheorems.OrderIsPermutation | packages/rdf-sync/src/rdf-canonicalization.js:26-28 | Every candidate labels every blank node exactly once |
| Permutations.PermsExact | packages/rdf-sync/src/rdf-canonicalization.js:59 | The recursive enumeration lists exactly the rearrangements of its values |
| Permutations.PermsDistinct | packages/rdf-sync/src/rdf-canonicalization.js:59 | without repeats when the values are distinct |
| Permutations.PermsCount | packages/rdf-sync/src/rdf-canonicalization.js:58-59 | and as many of them as the factorial says |
| Permutations.Factorial | packages/rdf-sync/src/rdf-canonicalization.js:58 | The loop computes the factorial |
| Permutations.ListPermutations | packages/rdf-sync/src/rdf-canonicalization.js:59 | The loop over indices produces the enumeration |
| Permutations.ListOrders | packages/rdf-sync/src/rdf-canonicalization.js:60 | The generator yields every order of all groups behind its prefix |
| RdfCanonicalization.Stabilize | packages/rdf-sync/src/rdf-canonicalization.js:15-20 | The refinement loop with its early exit computes the bounded iteration |
| RdfCanonicalization.GroupByColor | packages/rdf-sync/src/rdf-canonicalization.js:21-22 | The grouping loop collects each colour class in node order |
| RdfCanonicalization.SmallestCandidate | packages/rdf-sync/src/rdf-canonicalization.js:25-31 | The loop keeps the least candidate |
| RdfCanonicalization.CanonicalizeRdfGraph | packages/rdf-sync/src/rdf-canonicalization.js:10-33 | The whole procedure computes the specified form; the bound is refused exactly outside 1 to 1000000, a valid bound is exceeded exactly when the graph has more numberings than it, and a graph whose nodes are told apart by iterated neighbourhoods is rendered for every valid bound when the hash does not collide on it |
| RdfTheorems.OutcomeByNumberings | packages/rdf-sync/src/rdf-canonicalization.js:10-24 | A graph is refused for an invalid bound or for more numberings than the bound, and for nothing else |
| RdfTheorems.SmallestText | packages/rdf-sync/src/rdf-canonicalization.js:25-31 | No numbering that the search tries gives a smaller text |
| RdfRefinement.FinalColors | packages/rdf-sync/src/rdf-canonicalization.js:15-20 | When the hash does not collide on the signatures that occur, two nodes share their final colour if and only if no depth of iterated neighbourhood tells them apart: as many rounds as there are nodes are enough |
| RdfRefinement.Equitable | packages/rdf-sync/src/rdf-canonicalization.js:15-20 | and the final partition is equitable: nodes share a final colour if and only if the lines around them can be paired off up to final colours |
| RdfRefinement.GroupsAreClasses | packages/rdf-sync/src/rdf-canonicalization.js:21-22 | The groups searched are exactly the classes of nodes that nothing tells apart |
| RdfRefinement.ToldApartIsRendered | packages/rdf-sync/src/rdf-canonicalization.js:15-24 | A graph whose nodes are all told apart has one numbering, and is rendered for every valid bound |
| RdfRefinement.ChainIsRendered | packages/rdf-sync/src/rdf-canonicalization.js:15-24 | so a chain of blank nodes of any length is rendered |
| RdfTheorems.EmptyDiffMeansIsomorphic | packages/rdf-sync/src/rdf-canonicalization.js:35-39 | For graphs without repeated lines the difference inventory is empty if and only if they are isomorphic |
| RdfTheorems.EmptyDiffIsSound | packages/rdf-sync/src/rdf-canonicalization.js:35-39 | An empty inventory proves isomorphism for all graphs |
| RdfDecimals.DecimalsCanonical | packages/rdf-sync/src/rdf-canonicalization.js:61-71 | Two xsd:decimal forms normalise to the same text if and only if they denote the same number, and normalising is idempotent |
| RdfDecimals.ValueKept | packages/rdf-sync/src/rdf-canonicalization.js:61-71 | Normalising a decimal keeps its rational value |
| SyncConvergence.CrashConvergence | services/rdf-sync/src/sync-engine.js:50-254 | However often a run is cut between awaits and restarted from the stored cursor, each time the cursor passes event k the rows, graphs, registry and schema flag are those of the uninterrupted engine, and in between finishing the next event leads there |
| SyncConvergence.CaughtUp | services/rdf-sync/src/sync-engine.js:35-114 | Once the whole log is behind the cursor, crashes have left no trace |
| SyncConvergence.EventRestart | services/rdf-sync/src/sync-engine.js:50-114 | Cut after any write short of the commit, an event can be processed again from its beginning with the same final state and the same refusal |
| SyncCrash.EditRestart | services/rdf-sync/src/sync-engine.js:115-196 | An edit, forced restore included, is restartable at every await |
| SyncLifecycle.LifecycleRestart | services/rdf-sync/src/sync-engine.js:220-254 | A lifecycle change over several entities is restartable: entities already done are left as they are |
| SyncConvergence.RepeatedEntityDiverges | services/rdf-sync/src/sync-engine.js:228-251 | A resolver that named one entity twice would break this: the concrete run |
| SyncEngine.RdfSyncEngine.EditEntity | services/rdf-sync/src/sync-engine.js:115-196 | The durable writes of an edit, in their order, are those of the plan, and so is how it ends |
| SyncEngine.RdfSyncEngine.RemoveGraphs | services/rdf-sync/src/sync-engine.js:197-207 | The graph deletions and registry removals of an entity delete, in order |
| SyncEngine.RdfSyncEngine.ProcessLifecycle | services/rdf-sync/src/sync-engine.js:220-254 | The loop over resolved entities, stopping at the first refusal |
| SyncEngine.RdfSyncEngine.ProcessEvent | services/rdf-sync/src/sync-engine.js:50-114 | The whole event: body and one atomic cursor commit, in the order of the plan. The cursor moves exactly for an event that can be processed and lies ahead of it; every refusal sets REBUILD_REQUIRED, and an ambiguous event, or a lifecycle change the resolver does not settle, leaves rows, graphs, registry and cursor as they were |
| SyncRefusals.CommitsExactly | services/rdf-sync/src/sync-engine.js:50-254 | An event is committed if and only if it moves the cursor forward and is a change of no entity, an edit that is covered or is the direct successor and served, a delete, or a lifecycle change resolved to at least one entity each of which can be settled; an undelete needs a row that is DELETED, RESTORING or CURRENT |
| SyncRefusals.UnsettledStops | services/rdf-sync/src/sync-engine.js:68-71 | An event that is not understood stops the engine before it writes anything |
| SyncRefusals.SkippedLeaves | services/rdf-sync/src/sync-engine.js:63-67 | A change of no entity, or an edit that is covered, moves the cursor and nothing else |
| SyncRefusals.GapLeaves | services/rdf-sync/src/sync-engine.js:120-130 | A gap leaves status GAP, REVISION_GAP and the revision seen in the row of its entity, at its old fence, and changes nothing else |
| SyncRefusals.RefusedEditLeavesRows | services/rdf-sync/src/sync-engine.js:141-196 | Any other refused edit leaves every row and the cursor as they were |
| SyncRefusals.RefusedRestoreLeaves | services/rdf-sync/src/sync-engine.js:140 | A restore refused on its way leaves the entity RESTORING at its old fence, to be started again |
| SyncEngine.RdfSyncEngine.Commit | packages/rdf-sync/src/state.js:54-65 | Row and cursor move together, and a cursor that does not advance is refused |
| SyncEngine.RdfSyncEngine.PollOnce | services/rdf-sync/src/sync-engine.js:35-49 | What is processed is a run of the log right after the stored cursor, cut at the batch size or the first refusal; a read that is refused, and exactly when it is, changes nothing |
| SyncSource.Read | services/rdf-sync/src/mediawiki-change-source.js:5 | Reading returns a contiguous run right after the cursor, is empty only at the end of the log, and throws exactly when ten pages of the cursor second hold nothing new |
| SyncPoll.PollStaysOnTrack | services/rdf-sync/src/sync-engine.js:35-114 | No event is skipped: a poll leaves the cursor exactly behind the committed events, on the track of the uninterrupted engine, and stops only before an event that is refused |
| SyncPoll.PollSplits | services/rdf-sync/src/sync-engine.js:40-44 | Page and batch sizes do not matter |
| SyncPoll.EditFollowsChain | packages/rdf-sync/src/protocol.js:38-44 | An edit is applied only as the direct successor of the indexed revision, is ignored exactly when it is covered, and otherwise raises a gap and leaves the fence |
| SyncOutcomes.EditApplied | services/rdf-sync/src/sync-engine.js:141-196 | An applied edit leaves the entity indexed at its revision over graphs that were stored, registered and seen by the version query, and every other entity as it was |
| SyncOutcomes.AppliedSegment | packages/rdf-sync/src/protocol.js:36-47 | Over any run of all kinds of events the revisions applied to an entity form an unbroken piece of its chain: each applied edit names the one applied before it as its predecessor, unless a lifecycle change that names the entity came in between |
| SyncOutcomes.DeleteRemoves | services/rdf-sync/src/sync-engine.js:197-219 | A committed delete removes the entity graph and a property schema graph from store and registry, keeps the fence, and touches nobody else |
| SyncOutcomes.LifecycleSettles | services/rdf-sync/src/sync-engine.js:220-254 | A committed lifecycle change leaves every resolved entity tombstoned, restored at the resolved revision, or at least at it |
| SyncReplay.SnapshotPlusReplay | packages/rdf-sync/src/protocol.js:36-47 | For an edit-only log with correct predecessor links and any snapshot that caught each entity at a moment of its own: replay gets through the whole log if and only if every revision the snapshot does not cover is served, and then every entity is at its last revision, without a gap |
| SyncReplay.ReplayThroughCrashes | services/rdf-sync/src/sync-engine.js:115-196 | and a run that gets through with any number of crashes ends there too |
| SyncLoader.LoadSnapshot | services/rdf-sync/src/generation-dataset-loader.js:11-73 | Loading stores exactly the nonempty graphs, registers them and fences each entity at the revision its own graph states, with nothing seen beyond it and the checksum of that graph; it is refused exactly when a graph states none or several |
| SnapshotReplay.NeverRefused | services/rdf-sync/src/generation-dataset-loader.js:81-95 | A dump that holds, for each entity, its export at some revision is never refused by the loader |
| SnapshotReplay.LoadedEntity | services/rdf-sync/src/generation-dataset-loader.js:19-73 | Loading such a dump fences each entity at the revision the dump caught it at and stores the graphs the incremental path makes of that revision; no other entity gets a row |
| SnapshotReplay.LoadThenReplay | services/rdf-sync/src/generation-dataset-loader.js:11-73 | Partition, load, then replay of an edit-only log from before the dump: no event is refused if and only if every export the dump does not cover owns entity lines, owns schema lines when it is a property, and passes the version query; then every entity ends at its last revision in row and graphs, however unevenly in time the dump caught them |
| SnapshotReplay.LoadThenCrashingReplay | services/rdf-sync/src/generation-dataset-loader.js:11-73 | and a replay that gets through with any number of crashes and restarts ends there too |
| SnapshotReplay.EmptySchemaStops | services/rdf-sync/src/sync-engine.js:160-162 | A property whose new export owns no schema lines stops the engine with PROPERTY_SCHEMA_PARTITION_MISSING after its entity graph is written, and the fence stays |
| DatasetPartition.Closure | packages/rdf-sync/src/dataset-partition.js:46 | The fixpoint loop ends and owns exactly the nodes reachable from the roots by followed edges |
| DatasetPartition.OwnedEntityLines | packages/rdf-sync/src/dataset-partition.js:44 | The lines owned by an entity are those of the reachable subjects |
| DatasetPartition.OwnedPropertySchemaLines | packages/rdf-sync/src/dataset-partition.js:45 | The schema loop over lines computes the same kind of closure, from the seeds through blank nodes |
| DatasetOwnership.EntityOwns | packages/rdf-sync/src/dataset-partition.js:44-46 | A line belongs to an entity exactly if its subject is reached by a walk from a subject that names the entity or its export, over triples with non-literal objects, through statement, value and reference nodes only |
| DatasetOwnership.SchemaOwns | packages/rdf-sync/src/dataset-partition.js:45 | A line belongs to a property schema exactly if its subject is reached, through blank nodes, from a node that the first subject naming the property points to by IRI, that says something itself and is no statement, value or reference |
| DatasetOwnership.GraphsOfDump | packages/rdf-sync/src/dataset-partition.js:8-23 | There is an entity graph for exactly the entities that some subject names, a schema graph for exactly the properties among them, and the global graph |
| DatasetSnapshot.PartitionSnapshot | packages/rdf-sync/src/dataset-partition.js:7-24 | A dump is split into one graph per discovered entity, one per property schema, and the rest |
| DatasetSnapshot.SplitExact | packages/rdf-sync/src/dataset-partition.js:22 | The union of all graphs is the input line set and the global graph is disjoint from every other graph |
| DatasetSnapshot.PartitionEntity | packages/rdf-sync/src/dataset-partition.js:27-35 | Partitioning one export uses the same ownership, and refuses an entity that owns nothing |
| DatasetSnapshot.DumpAndEntityAgree | packages/rdf-sync/src/dataset-partition.js:27-46 | Any part of a dump, in order, that keeps an entity's owned lines and its schema lines yields the same entity and schema graphs as the whole dump |
| DatasetSnapshot.EntityAgree | packages/rdf-sync/src/dataset-partition.js:44 | The same for the entity graph alone, in any order |
| RdfNormalizer.Normalize | packages/rdf-sync/src/canonical-rdf-normalizer.js:18-50 | Accepted exactly when no line is refused; the text is the sorted set of semantic lines, the provenance exactly the recorded metadata |
| RdfNormalizer.JudgedBy | packages/rdf-sync/src/canonical-rdf-normalizer.js:4-43 | What becomes of a line: known dump metadata of a full dump and licence or version of an export are recorded, other dump metadata is refused, everything else is kept |
| RdfNormalizer.SourcesAgree | packages/rdf-sync/src/canonical-rdf-normalizer.js:18-50 | A full dump and an entity export normalise to the same text exactly when their semantic triples agree |
| RdfNormalizer.Idempotent | packages/rdf-sync/src/canonical-rdf-normalizer.js:18-50 | Normalised text is accepted as either kind of source and is its own normal form |
| ValidationGate.Validate | services/rdf-sync/src/standalone-rebuild-coordinator.js:10-18 | READY proves every registered graph isomorphic to its reference graph and every unregistered reference graph empty. Without repeated lines it is reached if and only if that is true and no graph has more than 100000 numberings; the search gives up exactly when one has; a refusal counts the lines missing and the lines extra |
| ValidationGate.PlainSearchable | packages/rdf-sync/src/rdf-canonicalization.js:10-24 | The search never gives up on graphs without blank nodes or whose nodes are told apart |
| StandalonePromotion.StandalonePromotionCoordinator.PromoteCall | services/rdf-sync/src/standalone-promotion-coordinator.js:34-89 | Cut after any await and whatever the router answers, the pointer target stays routable. With nothing pending a call changes something exactly if it is admissible: the idle slot validated and caught up, and READY behind gen-a or retained as the way back; otherwise every row stays and the error names the reason. A journal, opened or resumed, gets as far as the awaits and the router allow, and a call that completes leaves target SERVING/SERVING, other slot RETIRING/ROLLBACK and no pending journal |
| StandalonePromotion.PreconditionExact | services/rdf-sync/src/standalone-promotion-coordinator.js:68-89 | The precondition holds exactly for an admissible call, and each error code exactly for its reason |
| StandalonePromotion.StandalonePromotionCoordinator.Resume | services/rdf-sync/src/standalone-promotion-coordinator.js:53-66 | From any phase of a pending journal: one phase for each await, no further than the pointer move while the router does not see it, and nothing else is written |
| StandaloneConditions.FinalizeExact | services/rdf-sync/src/standalone-promotion-coordinator.js:111-129 | A finalisation commits exactly for a verified journal whose source serves and whose target waits or is retained, and swaps the two slots |
| StandaloneConditions.LoadExact | services/rdf-sync/src/standalone-rebuild-coordinator.js:7 | A load empties the slot its run was shown exactly while the pointer stands where the run saw it, and never a slot that serves |
| StandalonePromotion.NeverDark | apps/query-router/src/generation-resolver.js:64 | The invariant implies that the router accepts the pointer target |
| StandalonePromotion.StepKeeps | services/rdf-sync/src/standalone-promotion-coordinator.js:91-129 | With a journal under way the transaction of its phase succeeds and keeps the invariant |
| StandalonePromotion.WayBackOpen | services/rdf-sync/src/standalone-promotion-coordinator.js:68-89 | After every completed promotion the retained slot is an admissible candidate for the way back |
| StandaloneRebuild.LoadRefusedInFlight | services/rdf-sync/src/standalone-rebuild-coordinator.js:5-7 | Whatever checks, inserts, steps, inspections, loads and validations interleave, between the pointer move and the finalisation no load passes its guard and no inspection succeeds |
| StandaloneRebuild.NeverDarkWhenCalm | services/rdf-sync/src/standalone-promotion-coordinator.js:34-129 | Over every such run in which no rebuild write lands under a checked or pending journal and none lands on the pointer's own slot, the router accepts the pointer target in every state |
| StandaloneRebuild.RunLitIff | services/rdf-sync/src/standalone-promotion-coordinator.js:91-109 | Over every run at all, the pointer target is routable in every state if and only if no compare-and-set meets a slot the router refuses and no late rebuild write takes the pointer's own slot out of the routable states |
| StandaloneRebuild.RebuiltCandidateGoesDark | services/rdf-sync/src/standalone-promotion-coordinator.js:91-109 | The run in which it fails: a load that inspected before the journal was written commits while it is preparing |
| StandaloneRebuild.LateValidationGoesDark | services/rdf-sync/src/standalone-rebuild-coordinator.js:17 | The other one: a validation that inspected before the promotion writes READY over the slot that serves by then |
| StandaloneRebuild.IdleWriteKeeps | services/rdf-sync/src/standalone-rebuild-coordinator.js:5-18 | Rebuilding the idle slot between promotions keeps the promotion invariant |
| ClusterDeletionTheorems.DeletionIsTruthful | services/rdf-sync/src/postgres-generation-coordinator-repository.js:168 | A retirement in PHYSICALLY_DELETED tells the truth: the driver of the row's own operation, fence and token worked on this generation, and the uids it planned for workload, volume claim and Service name nothing in the cluster, then and in every continuation, for arbitrary deletion evidence |
| ClusterDeletionTheorems.AbsentComesToNothing | services/rdf-sync/src/postgres-generation-coordinator-repository.js:184 | A plan that took a resource for already deleted, on whatever evidence, comes to nothing: none of it is journalled, it deletes nothing, and its epoch never brings a retirement to PHYSICALLY_DELETED |
| ClusterDeletionTheorems.DeletesAreAnnounced | services/rdf-sync/src/kubernetes-generation-driver.js:52-59 | Every accepted delete was preceded by a durable intent for that uid, came from a driver whose preflight had passed, and hit a resource that existed when the driver planned: a recreated resource is never deleted; storage goes only after the confirmed absence of the workload, the Service last; the generation is out of service then and in every later state |
| ClusterDeletionTheorems.MismatchDeletesNothing | services/rdf-sync/src/kubernetes-generation-driver.js:57 | Any preflight mismatch ends the driver without a single delete, for ever |
| ClusterDeletionTheorems.NewerMarkerProtects | services/rdf-sync/src/kubernetes-generation-driver.js:50 | Once the Service carries another marker, the plan that marked it before can never delete it |
| ClusterDeletionTheorems.OvertakenDeletes | services/rdf-sync/src/postgres-generation-coordinator-repository.js:166-169 | After a takeover the old driver issues no delete but the one whose intent it had already recorded |
| ClusterDeletionProgress.UndisturbedDeletionCompletes | services/rdf-sync/src/generation-coordinator-runtime.js:36 | A coordinator with live authority over a generation whose three resources are there and owned brings it to PHYSICALLY_DELETED when nobody interferes, and leaves every other name in the cluster alone |
| ClusterDeletionProgress.DeletionHappens | services/rdf-sync/src/generation-coordinator-runtime.js:36 | A run from a bootstrapped source that ends with a failed generation in PHYSICALLY_DELETED |
| ClusterDeletionSafety.NextSys | services/rdf-sync/src/generation-coordinator-runtime.js:36 | Every event of coordinators, drivers and cluster is at most one step of the coordinator protocol, so its theorems hold of the whole |
| ClusterDeletionChecks.IntentWasChecked | services/rdf-sync/src/kubernetes-generation-driver.js:52-59 | Over every run: every delete that was announced was preceded by a state in which the driver, on its way to the first delete, held the lease, the retirement row of its epoch and the Service, present, owned and carrying its own marker; for the storage that was so once more, right before its turn |
| ClusterDeletionChecks.StorageAfterWorkload | services/rdf-sync/src/kubernetes-generation-driver.js:59 | and by that second check the absence of the workload was on record |
| ClusterDeletionChecks.DeletionWasChecked | services/rdf-sync/src/kubernetes-generation-driver.js:52-59 | so nothing is deleted without the first check and no storage without the second |
| ClusterDeletionChecks.PlannedExactly | services/rdf-sync/src/kubernetes-generation-driver.js:43-49 | A plan is made exactly if each of the three resources is there and owned, or missing where the evidence expects it to be |
| MemoryGenerations.LastInFirstOut | services/rdf-sync/src/generation-rebuild-coordinator.js:19-20 | Any number of promotions rolled back in reverse order restores states, serving flags and data exactly |
| MemoryGenerations.RollbackKeepsIff | services/rdf-sync/src/generation-rebuild-coordinator.js:20 | A rollback keeps exactly the active row serving if and only if the source of the promotion still exists |
| MemoryGenerations.OneServingIff | services/rdf-sync/src/generation-rebuild-coordinator.js:12-22 | Over any run of mixed operations: exactly the active row serves in every state if and only if every rollback finds its source |
| MemoryGenerations.SparingServesOne | services/rdf-sync/src/generation-rebuild-coordinator.js:20-22 | so a caller that never deletes the source of a standing promotion always has exactly the active row serving |
| MemoryGenerations.RollBackToDeleted | services/rdf-sync/src/generation-rebuild-coordinator.js:20-22 | The run in which it fails: promote twice, retire and delete the first, roll back the second; no row serves and the active name stands at a READY one |
| MemoryGenerations.BuiltDataKept | services/rdf-sync/src/generation-rebuild-coordinator.js:13-22 | Once a generation is built nothing short of deleting it changes its data or its validation |
| MemoryGenerations.ServesValidIff | services/rdf-sync/src/generation-rebuild-coordinator.js:12-22 | Over any run that keeps one row serving: only validated rows are ready or serving in every state if and only if every rollback finds its source validated |
| MemoryGenerations.RollBackToReused | services/rdf-sync/src/generation-rebuild-coordinator.js:20-22 | The run in which it fails: the first generation is retired, deleted and its name created again, and the rollback makes the new, empty one serve |
| MemoryGenerations.MemoryGenerationBackend.Promote | services/rdf-sync/src/generation-rebuild-coordinator.js:19 | Promotion in place: previous row retiring, candidate serving and active, or nothing; one serving row stays one |
| MemoryGenerations.MemoryGenerationBackend.Rollback | services/rdf-sync/src/generation-rebuild-coordinator.js:20 | Rollback in place, including the change it leaves behind when it fails: one row serves afterwards if and only if the source was still there |
| MemoryGenerations.MemoryGenerationBackend.CatchUp | services/rdf-sync/src/generation-rebuild-coordinator.js:5 | Catch-up ends; the candidate is its snapshot overwritten by a run of the log in order, and every other generation is untouched |
| MemoryGenerations.MemoryGenerationBackend.Retire | services/rdf-sync/src/generation-rebuild-coordinator.js:21 | Retirement is refused for the serving generation and keeps exactly the active row serving |
| MemoryGenerations.MemoryGenerationBackend.Delete | services/rdf-sync/src/generation-rebuild-coordinator.js:22 | Deletion only of retired or failed generations, which can take away the source of a promotion |
| MemoryGenerations.LastEventWins | services/rdf-sync/src/generation-rebuild-coordinator.js:14 | The last event of an entity decides its entry |

## Left out

- Two query services over one source: one source and one query service are modelled; eligibility looks at one pointer only, so deletion safety is stated for one query service.
- Idempotency keys of requests and of rollback release, error-code columns, the list of eligibility reasons, and `recordDeletionFailure`: they never enable a step.
- The order in which operations are claimed, and which journal of an operation is read: any claimable operation and any journal of the operation may be chosen, which is more than the code allows.
- Liveness under interference: the code fails closed; progress is stated for an undisturbed promotion, takeover and deletion.
- The one-transaction promotion inside the coordinator system: it is the specification that journaled promotion refines, and has its own repository class.
- Text-level N-Triples: lines enter as tokens, so a label that is a prefix of another, a label inside a literal, and tab or escape normalisation do not arise; the decimal part of literal normalisation is modelled on digits.
- RdfTheorems.DecidesIsomorphism: graphs that repeat a line are covered in one direction by `EqualTextsAreIsomorphic` and in the other by `RenamingInvariant`, because a repeated line enters the signature twice.
- SyncConvergence.CrashConvergence: fetcher, partitioner and resolver are taken as deterministic, the resolver names each entity once as the MediaWiki resolver does, and timestamps are not part of a row; the source status is written only on refusal and is not compared.
- SyncPoll.EditFollowsChain: fences may move down under a forced undelete, which writes whatever revision is resolved, so growth is stated for edits.
- SyncReplay.SnapshotPlusReplay: the log holds edits only, as deletions and lifecycle changes may legitimately refuse.
- Classification of a change from its title, log type, tags and comment: events enter classified.
- SnapshotReplay.LoadThenReplay: that a dump holds each entity's export at some revision, and that an export states its own revision, are properties of the wiki and are given; the log holds edits only.
- SyncLoader.LoadSnapshot: starts from empty rows, as the rebuild transaction leaves them, and reads the revision through a parameter instead of a regular expression.
- Concurrent standalone promotion calls: one promotion process at a time, which the code does not enforce by itself; any number of rebuild and validation runs go on beside it.
- StandalonePromotion.StandalonePromotionCoordinator.PromoteCall: the evidence columns of the candidate are two booleans, validated and caught up.
- The cluster driver as a class: it is a state machine over its awaits, because the point is the interleaving of several drivers with the coordinators and the rest of the cluster.
- Reads inside one await of the driver (the three plan reads, the read before the Service patch) are one step with the call they guard; the calls themselves carry uid and version preconditions.
- MemoryGenerations.MemoryGenerationBackend.CatchUp: event positions are indices of a finite log, and the final validation step is not included.
- HTTP, SPARQL, Docker, Kubernetes and PostgreSQL clients, configuration, metrics, manifests, migration running and qualification scripts: foreign calls or one-branch facts.
