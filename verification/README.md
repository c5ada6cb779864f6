# mini-Ray publication and recovery protocols

This project models the protocols by which mini-Ray publishes task outputs,
moves object replicas, keeps actors in order and cleans up after crashes, and
proves their safety over whole runs.

The reducers of the repository hold explicit state behind one lock each, so a
locked method is one atomic step. Wherever the source updates fields in place,
a class does the same and is proved against a function of the old state; the
theorems about runs are stated over those functions. A remote call is an effect
that may happen followed by a reply that may be lost. Between a publishing Node
and the GCS, messages may in addition be repeated and delayed without bound.

| file | what it holds |
|---|---|
| `Ids.dfy` | identities shared by all modules |
| `ReferenceGraph.dfy` | the iterative cycle search and its correctness |
| `PublicationFacts.dfy` | manifests, receipts, evidence and their validators |
| `PublicationAuthority.dfy` | the GCS reducer, as a function and as an object |
| `PublicationInvariants.dfy`, `PublicationHistory.dfy` | what every run of the reducer keeps, and replay |
| `PublicationOutcomes.dfy` | what the reducer accepts and does, read off receipts and facts, and runs that reach every end |
| `PublicationJournal.dfy`, `JournalOutcomes.dfy` | the Node-local intent and acknowledgement journal with its rollback, and when each call succeeds |
| `PublicationSettlement.dfy` | why evidence built by the Node passes the check at the GCS |
| `NodePublication.dfy` | Node, network and GCS together, as a machine |
| `PublicationSuccess.dfy` | a run of that machine from its start to adoption |
| `NodeSteps.dfy`, `NodeAdapter.dfy` | the Node's loops, each proved to be a run of that machine |
| `AliasedRollback.dfy`, `OutputDiscovery.dfy` | which manifests make rollback evidence impossible, and where tokens come from |
| `DeathOutbox.dfy`, `PublicationAdmission.dfy`, `OutboxDrives.dfy` | membership guards, the cleanup of dead owners and its end |
| `ForeignLineage.dfy`, `LineageOutcomes.dfy` | the registry of borrowed credentials |
| `LineageSaga.dfy`, `LineageRenewal.dfy`, `LineageCollection.dfy` | their renewal and collection, and that both get through |
| `ByteRanges.dfy`, `LocalStore.dfy`, `StoreOutcomes.dfy` | interval sets and the object store |
| `ObjectTransfer.dfy`, `PullOutcomes.dfy` | pulls and what each of their calls means |
| `ActorMailboxes.dfy`, `MailboxOutcomes.dfy` | per-caller order, duplicates and generations |
| `ActorRoutes.dfy`, `ActorRestarts.dfy`, `RouteOutcomes.dfy` | actor routes, restart budgets and route fencing |
| `NestedArguments.dfy`, `ManifestFraming.dfy`, `NodeDeathViews.dfy` | codecs and death certificates |

`dafny verify dfyconfig.toml` checks everything.

## Where the code falls short of the property

Four properties do not hold of every input that the code admits. Each is proved
exactly where it holds and refuted by concrete runs where it does not.

* Rollback evidence lists one release per hold, and its constructor refuses two
  releases of the same hold. When executor and owner coincide, a provisional
  token is the final token prefixed with `provisional:`, so the constructors
  admit manifests that name one hold both as a final and as a provisional hold.
  For every such manifest, unless it contains itself, a run ends with a finished
  rollback whose evidence cannot be constructed (`AliasedRun`); for all others
  it always can (`ConstructibleIffUnaliased`). These are manifests admitted by
  the constructors but not produced by discovery: tokens derived at
  `src/miniray/output_discovery.py:120-128` never start with the prefix, so there
  settlement is unconditional (`DerivedRollbackSettles`). An alias needs a
  `token_factory` that returns prefixed tokens, which nothing in `src/miniray`
  passes.
* During shutdown a pass that finished its traversal removes a renewal session as
  soon as nothing is uncertain (`src/miniray/foreign_lineage_runtime.py:943-950`).
  It gives up its claim on the session just before, so a second pass may have
  begun to drive it. Removing the session then lets collection release the old
  credential while the second pass replaces it, and the successor stays behind;
  two overlapping passes reach this from a fresh registration
  (`OverlappingShutdownLeaks`). `PopIsSafeIffQuiet` says exactly which removals
  are harmless; the theorems about whole runs hold for all runs whose removals
  are of that kind (`OrderlyRun`), in particular when each removal first tests
  that nobody drives the session (`IdleIsOrderly`).
* A demand that finds a sealed replica is checked against what the demand itself
  names, not against what the record of an earlier demand names
  (`src/miniray/object_manager.py:250-285`). If another writer sealed other bytes
  while a pull with a digest waited for a source, a demand that names no digest
  makes that pull ready on them (`UnnamedDemandDeceives`). Exactly the demands
  that name all the record names, or contradict it, are safe (`SafeIffNamesAll`),
  and over runs of such demands a ready pull is genuine (`ReadyIsGenuine`). The
  Node's own demands name size and digest
  (`src/miniray/node.py:5895-5944`, `NamingIsCareful`).
* A collection claim is to freeze its task, but `abort` tests only the lineage
  (`src/miniray/foreign_lineage.py:229-239`): one that names it removes a claimed
  task and leaves the claim behind (`AbortLeavesTheClaim`). `ClaimStaysIff` names
  the operations that unsettle a claim exactly. The one caller aborts only a
  registration that never enqueued its task (`src/miniray/core.py:6676-6683`).

## Model

| member | source | states |
|---|---|---|
| `ReferenceGraph.FindsCycle` | src/miniray/enhanced_publication.py:933-954 | the iterative search with leave markers answers true exactly when the edges contain a directed cycle, self-loops included |
| `ReferenceGraph.SearchStep` | src/miniray/enhanced_publication.py:941-953 | one popped stack frame keeps the search invariant and lowers the termination measure, or closes a real cycle |
| `ReferenceGraph.FinishOrderIsAcyclic` | src/miniray/enhanced_publication.py:937-953 | when every edge leads to an earlier finished vertex, no cycle exists |
| `PublicationAuthority.Authority.WouldCycle` | src/miniray/enhanced_publication.py:933-954 | the reserving publication is refused exactly when its edges together with all active edges are cyclic |
| `PublicationAuthority.Authority.ValidateBinding` | src/miniray/enhanced_publication.py:905-931 | the loops over records and names decide the same bindings as the specification: one job, one address per owner, one owner per object name, one epoch at a time |
| `PublicationAuthority.Tabulate` | src/miniray/enhanced_publication.py:921-931 | setdefault over the names reports a conflict exactly when some object name has two owners |
| `PublicationAuthority.Authority.Handle` | src/miniray/enhanced_publication.py:796-903 | one locked call computes the reply and installs the state that AcceptedIff, AcceptedEffect and OtherEffects describe, for every request and state |
| `PublicationInvariants.ApplyKeepsInv` | src/miniray/enhanced_publication.py:808-903 | every request keeps all authority invariants: rebuildable snapshots, receipt numbers 1..n each used once, functional owner and address bindings, serial epochs per object, one fence, acyclic active edges |
| `PublicationInvariants.RunKeepsInv` | src/miniray/enhanced_publication.py:808-903 | the same over every run of well-formed requests |
| `PublicationInvariants.RecordedIsOk` | src/miniray/enhanced_publication.py:736-780 | the guards imply the validator: the snapshot a mutation records passes every check that rebuilding it runs |
| `PublicationInvariants.GraphKept` | src/miniray/enhanced_publication.py:566-568 | the union of contained edges over records that are prepared and not retired stays acyclic |
| `PublicationInvariants.EpochsKept` | src/miniray/enhanced_publication.py:815-821 | of two registrations of one object, the earlier is retired before the later begins and has a strictly smaller attempt number |
| `PublicationHistory.RunContinues` | src/miniray/enhanced_publication.py:889-903 | receipts are only appended with numbers above all earlier ones; no recorded fact is withdrawn or rebound |
| `PublicationHistory.AfterFence` | src/miniray/enhanced_publication.py:956-964 | after a fence only TERMINAL, ADOPTED and RETIRED receipts can still be added, over every run |
| `PublicationHistory.RetiredStaysOut` | src/miniray/enhanced_publication.py:566-568 | a retired record never becomes graph-active again, whatever is replayed |
| `PublicationHistory.Exclusions` | src/miniray/enhanced_publication.py:844-893 | adoption excludes an owner abort and precedes any fence through its commit; a rollback-scoped retirement excludes Complete and adoption; retirement needs a fence |
| `PublicationHistory.ApplyIsTotal` | src/miniray/enhanced_publication.py:796-806 | every well-formed request in every reachable state gets a constructible reply, and a refusal changes nothing |
| `PublicationHistory.ReplayIsExact` | src/miniray/enhanced_publication.py:838-903 | an accepted mutation replayed after any run changes nothing and gets its original receipt back, except that forward permission is refused exactly when the publication has been fenced since |
| `PublicationOutcomes.AcceptedIff` | src/miniray/enhanced_publication.py:808-893 | every well-formed request is accepted exactly when the receipts and facts of its record, and for a first registration those of the other records, allow it; each condition is spelled out without the guards of the reducer |
| `PublicationOutcomes.AcceptedEffect` | src/miniray/enhanced_publication.py:889-903 | the first acceptance of a mutation files exactly the next receipt and the request's own fact in its record and answers with both; a repeated one changes nothing and answers with the original receipt |
| `PublicationOutcomes.OtherEffects` | src/miniray/enhanced_publication.py:796-806 | a query answers with the record as it is, and a refused request changes nothing |
| `PublicationOutcomes.RefusalKind` | src/miniray/enhanced_publication.py:808-893 | the kind of each refusal of a registered publication: a cycle, a step out of its time, or a contradiction |
| `PublicationOutcomes.UnknownKind` | src/miniray/enhanced_publication.py:808-825 | a step of an unregistered publication is refused as out of state |
| `PublicationOutcomes.AttestsIff` | src/miniray/enhanced_publication.py:660-688 | the preparation check passes exactly for one reply per transfer in order, the manifest's own reference and Node, and for a stored put the seal of its payload |
| `PublicationOutcomes.AdmissibleIff` | src/miniray/enhanced_publication.py:905-931 | a binding is admitted exactly when no older record has another job, another address of the owner or a live attempt of the object, and no name gets two owners |
| `PublicationOutcomes.DischargesIff` | src/miniray/enhanced_publication.py:696-733 | retirement evidence passes exactly when it stays within the manifest, its scope fits the record and every hold owed is freed or its owner dead |
| `PublicationOutcomes.TaskIsAdopted` | src/miniray/enhanced_publication.py:808-893 | from every state that admits an acyclic Task publication a run arms, commits and adopts it |
| `PublicationOutcomes.PutIsCommitted` | src/miniray/enhanced_publication.py:854-868 | from every state that admits an acyclic put a run commits it with its preparation |
| `PublicationOutcomes.FreshIsWelcoming` | src/miniray/enhanced_publication.py:905-931 | a fresh authority admits every valid publication whose edges close no cycle |
| `PublicationJournal.ActKeepsSound` | src/miniray/output_publication_journal.py:634-807 | every journal call keeps the record sound, and the error for a payload left behind by a rollback is unreachable |
| `PublicationJournal.OutcomeIsSettled` | src/miniray/output_publication_journal.py:450-550 | Complete implies registration, every pin, the payload and ARM acknowledged and no rollback; a tombstone implies every recorded intent was compensated with exact evidence and nothing is left |
| `PublicationJournal.RunOutlives` | src/miniray/output_publication_journal.py:634-669 | along any run intents, acknowledgements, child replies, receipts, plan, tombstone and Complete only accumulate and are never rebound |
| `PublicationJournal.InverseIsExact` | src/miniray/output_publication_journal.py:485-517 | the rollback plan holds exactly the inverse of the recorded child and data intents |
| `PublicationJournal.InverseDescends` | src/miniray/output_publication_journal.py:485-517 | the plan runs strictly backwards, hence without duplicates |
| `PublicationJournal.TombstoneCompensates` | src/miniray/output_publication_journal.py:799-807 | a tombstone means each intended pin was freed or its owner confirmed dead, and the payload dropped |
| `PublicationJournal.Journal.Open` | src/miniray/output_publication_journal.py:326-336 | first admission creates the record; reopening the same manifest is a no-op and another manifest under the key is refused |
| `PublicationJournal.Journal.StartRollback` | src/miniray/output_publication_journal.py:485-517 | the loops over slots and transfers in reverse build exactly the specified plan |
| `PublicationJournal.Journal.NextEffect` | src/miniray/output_publication_journal.py:519-528 | the next compensation is offered only with a rollback planned and FENCED recorded |
| `JournalOutcomes.BeginIff` | src/miniray/output_publication_journal.py:634-641 | an intent is written exactly while the publication is active, for an effect of the manifest all of whose earlier effects are acknowledged and whose graph is reserved |
| `JournalOutcomes.AckForwardIff` | src/miniray/output_publication_journal.py:643-669 | an acknowledgement is taken exactly for an intended effect in its turn with the child's own reply or the manifest's own descriptor; the first one is kept, a repeated one changes nothing |
| `JournalOutcomes.PreparationIff` | src/miniray/output_publication_journal.py:398-411 | the preparation is attested exactly once every effect is acknowledged, and lists the replies the children gave |
| `JournalOutcomes.ReceiptIff` | src/miniray/output_publication_journal.py:369-396 | a GCS receipt is kept exactly when it answers the request, contradicts no earlier one and permits the forward work it is used for |
| `JournalOutcomes.FinishIff` | src/miniray/output_publication_journal.py:450-483 | Complete is crossed exactly with every effect acknowledged and ARM held while active, or repeated while the result is kept |
| `JournalOutcomes.BeginRollbackIff` | src/miniray/output_publication_journal.py:485-517 | a rollback begins exactly before Complete while active, plans the inverses, and is over at once when there is nothing to undo |
| `JournalOutcomes.AckRollbackIff` | src/miniray/output_publication_journal.py:530-550 | a compensation is acknowledged exactly in the order of the plan with the child's own answer, and the last one closes the rollback |
| `JournalOutcomes.RetireSlotIff` | src/miniray/output_publication_journal.py:810-841 | a kept result is given up exactly after Complete, to its own owner, always on the same proof |
| `JournalOutcomes.RetireOwnerDeathIff` | src/miniray/output_publication_journal.py:583-600 | an owner death retires the record exactly when it is the owner's own, always the same death |
| `PublicationSettlement.RollbackPasses` | src/miniray/enhanced_publication.py:696-733 | evidence from a finished rollback passes the retirement check of every record of the same publication without Complete whose preparation, if any, was fully intended |
| `PublicationSettlement.ClosedIsWellFormed` | src/miniray/enhanced_publication.py:375-396 | the evidence of a finished rollback can be constructed exactly when no hold was freed both as a final and as a provisional hold |
| `PublicationSettlement.AliasExists` | src/miniray/output_publication.py:332-375 | a concrete manifest that passes all constructors and aliases two holds |
| `PublicationSettlement.PlainTokensNeverAlias` | src/miniray/output_publication.py:300-328 | tokens that do not start with the provisional prefix never alias |
| `PublicationSettlement.OwnerDeathSettlesAll` | src/miniray/output_publication_node.py:496-507 | the evidence of a finished owner-death cleanup settles every hold of the manifest |
| `PublicationSettlement.OwnerDeathIsWellFormed` | src/miniray/output_publication_node.py:496-507 | that evidence can be constructed exactly when no hold was freed both as a final and as a provisional hold |
| `PublicationSettlement.SettlesAllPasses` | src/miniray/enhanced_publication.py:696-733 | evidence that settles every hold passes the retirement check against any history of the publication |
| `PublicationSettlement.AcceptedRetirementSettles` | src/miniray/enhanced_publication.py:696-733 | whatever evidence the authority accepts, each hold that may exist is freed or its owner confirmed dead, but for a final hold that a recorded preparation takes off the list because it is also a later provisional hold |
| `PublicationSettlement.RequiredIsExact` | src/miniray/enhanced_publication.py:708-733 | the required holds contain each final hold in scope exactly when the preparation does not take it off the list, and each provisional hold in scope while no preparation is recorded |
| `PublicationSettlement.AlwaysSettlesIff` | src/miniray/enhanced_publication.py:696-733 | every accepted evidence settles a final hold exactly when the preparation does not take that hold off the list; otherwise some accepted evidence leaves it open |
| `AliasedRollback.AliasedRun` | src/miniray/output_publication_node.py:143-400 | for every valid manifest with an alias that does not contain itself, a run of Node and GCS from the start in which the rollback finishes and its evidence cannot be constructed |
| `AliasedRollback.ConstructibleIffUnaliased` | src/miniray/enhanced_publication.py:375-396 | over all runs, the evidence of every finished rollback can be constructed exactly for manifests without an alias and for manifests that contain themselves, whose graph the GCS never reserves |
| `OutputDiscovery.DiscoveredIsValid` | src/miniray/output_discovery.py:122-161 | what discovery assembles from distinct tokens passes every constructor of a manifest |
| `OutputDiscovery.DerivedNeverAliases` | src/miniray/output_discovery.py:120-161 | tokens derived from the publication give a valid manifest without an alias |
| `OutputDiscovery.DerivedRollbackSettles` | src/miniray/output_publication_node.py:360-400 | for manifests that discovery makes with derived tokens, a finished rollback settles at the GCS in every interleaving, with no further condition |
| `OutputDiscovery.AliasInTokens` | src/miniray/output_discovery.py:140-152 | with tokens of another origin, two holds alias exactly when the executor owns its own output and one token is the prefixed token of another transfer of the same child |
| `NodePublication.NextKeepsInv` | src/miniray/output_publication_node.py:143-221 | every step of Node, network and GCS keeps the joint invariant: a preparation at the GCS implies complete journal intents, a Complete at the GCS implies Complete in the journal |
| `NodePublication.PreparationPasses` | src/miniray/output_publication_journal.py:398-411 | the journal's preparation receipt passes the authority's check and attests every pin and the payload |
| `NodePublication.RollbackSettlesAtGcs` | src/miniray/output_publication_node.py:360-400 | in every interleaving with lost, repeated and delayed messages, once the tombstone exists and FENCED is recorded the journal's evidence passes the authority's check and retires the graph unless other evidence already did |
| `NodePublication.RetirementReplays` | src/miniray/output_publication_node.py:360-400 | a retirement that got through is accepted again later with the identical evidence |
| `PublicationSuccess.PublicationSucceeds` | src/miniray/output_publication_node.py:143-358 | for every valid Task manifest whose edges close no cycle a run of Node, network and GCS from their start reaches Complete in the journal and adoption at the GCS |
| `NodeAdapter.Node.Prepare` | src/miniray/output_publication_node.py:143-200 | the forward pass is a run of the joint machine; it stops only at an obstacle that is really there (an owner-death cleanup, a closed journal, an effect without fitting evidence, a lost call, a refusal by the GCS), and without one the journal may complete |
| `NodeAdapter.Node.Complete` | src/miniray/output_publication_node.py:267-303 | Complete is crossed exactly when the journal allows it and no owner-death cleanup fenced it, and a terminal report is owed from then on |
| `NodeAdapter.Node.ReportTerminal` | src/miniray/output_publication_node.py:332-358 | an owed report is delivered exactly when no cleanup fenced the publication, the call and its reply come through, the GCS accepts it and the owner acknowledges; otherwise it stays owed |
| `NodeAdapter.Node.RecordGcs` | src/miniray/output_publication_node.py:202-221 | a mutation is recorded exactly when the call and its reply come through and the GCS accepts it with an answer that fits the journal; a call that reached the GCS took effect there whether or not its reply came back |
| `NodeAdapter.Node.CompensateSome` | src/miniray/output_publication_node.py:384-389 | the bounded loop undoes planned effects in order; when every answer comes it undoes as many as it may |
| `NodeAdapter.Node.Rollback` | src/miniray/output_publication_node.py:360-400 | the call is a run of the joint machine; its result means tombstone, FENCED and RETIRED; and when the calls come back, a rollback under way with enough turns finishes with evidence the GCS accepts |
| `NodeAdapter.Node.FinishOwnerDeath` | src/miniray/output_publication_node.py:429-490 | the cleanup finishes exactly when it may run, the fence and an owed terminal report get through, every hold has an answer and the sweep is confirmed; it keeps earlier answers, and its evidence settles every hold and is well-formed unless two holds alias |
| `NodeSteps.SettleOwnerDeath` | src/miniray/output_publication_node.py:463-482 | one drive skips proven releases, keeps its progress, and finishes exactly when every hold has an answer |
| `DeathOutbox.CommitDeathKeeps` | src/miniray/enhanced_publication_control.py:156-173 | committing a death fences and queues every publication of that owner and disturbs no other record |
| `DeathOutbox.NextKeepsInv` | src/miniray/enhanced_publication_control.py:39-96 | every request, death and drive keeps: all publications of dead owners fenced and queued, gathered evidence fitting, finished cleanups retired; a finalize reply is any well-formed evidence built from answers to every release |
| `DeathOutbox.ReachesKeepsInv` | src/miniray/enhanced_publication_control.py:39-289 | the same over every run |
| `DeathOutbox.DeadOwnersStayStopped` | src/miniray/enhanced_publication_control.py:73-96 | over every run, a publication of an owner already dead gains no INTENT, PREPARED, ARMED or COMMITTED receipt |
| `PublicationAdmission.HandleIs` | src/miniray/enhanced_publication_control.py:39-96 | the guarded reply and state of every well-formed request, said of registered Workers and Nodes alone: Unavailable exactly for a lost owner, a publishing Node that is not the live incarnation, an executor that is not a live Worker of it, or an unconfirmed death; otherwise the reducer's, with the fences of a dead owner added |
| `PublicationAdmission.AvailableIff` | src/miniray/enhanced_publication_control.py:56-96 | the membership guards pass exactly under those facts |
| `PublicationAdmission.DeadPublishersStaySilent` | src/miniray/enhanced_publication_control.py:73-115 | over every run, a Task whose executing Worker or Node is dead gains no INTENT, PREPARED or ARMED receipt |
| `DeathOutbox.ReleaseOneAdvances` | src/miniray/enhanced_publication_control.py:301-324 | a successful call resolves exactly the first unresolved hold, so strictly fewer remain; a failed one changes nothing |
| `DeathOutbox.GatheredSettles` | src/miniray/enhanced_publication_control.py:265-283 | once nothing is unresolved, the gathered evidence is well-formed and settles every hold |
| `DeathOutbox.EvidenceAccepted` | src/miniray/enhanced_publication_control.py:265-289 | the authority accepts the outbox's evidence unless the graph is already retired |
| `DeathOutbox.WillingDrivesFinish` | src/miniray/enhanced_publication_control.py:229-289 | in any run, whatever else happens in between, a queued cleanup is finished and its graph retired once as many of its drives had their calls answered as remained |
| `DeathOutbox.RemainingBound` | src/miniray/enhanced_publication_control.py:291-299 | any cleanup of n transfers is at most 2n + 3 drives from its end |
| `DeathOutbox.WillingIsDone` | src/miniray/enhanced_publication_control.py:229-289 | a drive succeeds exactly when what it asks is answered: fence and finalization of a living publishing Node, then the next hold by its owner's death or reply, and at the end the finished sweep |
| `OutboxDrives.DriveTakesNextStep` | src/miniray/enhanced_publication_control.py:229-324 | a successful drive takes exactly the next step of the cleanup, and the last one retires the graph with the gathered evidence |
| `OutboxDrives.CleanupCanFinish` | src/miniray/enhanced_publication_control.py:229-289 | every queued cleanup whose publishing Node lives or has exited has a run of at most as many drives as remain that finishes it |
| `DeathOutbox.PublicationControl.CommitOwnerDeath` | src/miniray/enhanced_publication_control.py:156-173 | the loop over the owner's records fences and queues as specified |
| `DeathOutbox.PublicationControl.Respond` | src/miniray/enhanced_publication_control.py:39-96 | one locked request computes the reply and state that HandleIs describes |
| `DeathOutbox.PublicationControl.DriveOne` | src/miniray/enhanced_publication_control.py:229-289 | one attempt at one cleanup has the specified outcome |
| `DeathOutbox.PublicationControl.FindNeeded` | src/miniray/enhanced_publication_control.py:301-324 | the traversal finds the first hold without a release or a death |
| `DeathOutbox.StartIsInv` | src/miniray/enhanced_publication_control.py:31-37 | a fresh control state satisfies the invariant under every membership |
| `ForeignLineage.NormalizeEdges` | src/miniray/foreign_lineage.py:164-190 | merging succeeds exactly when all edges belong to the task and mentions of one dependency agree but for roles, and unions the roles |
| `ForeignLineage.ReplacementMovesOne` | src/miniray/foreign_lineage.py:256-325 | a committed replacement moves one credential of one unclaimed task, touches no other task, and replays to the same state |
| `ForeignLineage.ClaimFreezes` | src/miniray/foreign_lineage.py:327-380 | a claim is replayable, excludes every replacement and registration of the task, and its completion removes the task |
| `ForeignLineage.ForeignLineageRegistry.RegisterTask` | src/miniray/foreign_lineage.py:192-215 | registration succeeds exactly when the manifest is well-formed, the edges merge and the registry admits the merged lineage, which is then the one recorded; otherwise nothing changes |
| `ForeignLineage.RegistrationReplays` | src/miniray/foreign_lineage.py:192-215 | an admitted registration is admitted again with the same lineage and no effect, and any other lineage of the task is refused |
| `LineageOutcomes.RegisterIff` | src/miniray/foreign_lineage.py:205-215 | a lineage is filed exactly for an unclaimed task without another lineage, and for an unknown one only while admission is open |
| `LineageOutcomes.ReplacementIff` | src/miniray/foreign_lineage.py:256-325 | a replacement is committed exactly when it moves only the hold, to a later attempt, of the credential held or already replaced; nothing else changes |
| `LineageOutcomes.ClaimIff` | src/miniray/foreign_lineage.py:327-370 | an unclaimed task is claimed exactly with one receipt per output, one of which removes the task; while a sibling is missing nothing happens |
| `LineageOutcomes.ClosingIff` | src/miniray/foreign_lineage.py:372-403 | a claim is completed exactly under its own plan and takes its task with it; a death is installed unless another proof of it was, and names exactly the tasks with a credential there |
| `ForeignLineage.ForeignLineageRegistry.CommitEdgeReplacement` | src/miniray/foreign_lineage.py:256-325 | one locked compare-and-set computes the outcome ReplacementIff describes |
| `ForeignLineage.ForeignLineageRegistry.ClaimWithReceipts` | src/miniray/foreign_lineage.py:327-370 | one locked call computes the outcome ClaimIff describes |
| `LineageOutcomes.CredentialsMoveForward` | src/miniray/foreign_lineage.py:192-380 | over every run a task that is not removed keeps its outputs and dependencies, and its credentials only move to later attempts |
| `LineageOutcomes.ClaimStaysIff` | src/miniray/foreign_lineage.py:229-239 | a claimed task keeps its lineage and plan under an operation exactly unless that completes the claim or aborts exactly this lineage |
| `LineageOutcomes.ClaimedStaysFrozen` | src/miniray/foreign_lineage.py:327-380 | over every run without those two, a claimed task keeps its lineage and plan |
| `LineageOutcomes.AbortLeavesTheClaim` | src/miniray/foreign_lineage.py:229-239 | an abort that names the lineage removes a claimed task and leaves its claim behind |
| `LineageSaga.NextKeepsInv` | src/miniray/foreign_lineage_runtime.py:305-470 | every locked region, owner operation, lost reply and death keeps: a living owner has exactly the registry's credential, or the successor of a key marked uncertain |
| `LineageSaga.NoCredentialLeaks` | src/miniray/foreign_lineage_runtime.py:390-470 | over every orderly run, until collection starts, each living owner has exactly one credential and it is the registry's or the uncertain successor |
| `LineageSaga.ReadyHoldsEverywhere` | src/miniray/foreign_lineage_runtime.py:663-698 | when the renewal may be committed, every living owner has the new attempt's credential and nothing else |
| `LineageRenewal.ReadinessIsReached` | src/miniray/foreign_lineage_runtime.py:305-388 | from every fresh registration whose owners live and answer, for every attempt not behind the credentials, a run reaches a renewal that may be committed, with every owner on the new credential, and the commit ends the session |
| `LineageRenewal.CommitsIffFlawless` | src/miniray/foreign_lineage_runtime.py:340-388 | after any orderly run, a pass may be committed exactly when the dependencies settled, every key is acknowledged, nothing failed or is uncertain, no owner is known dead and the runtime is open |
| `LineageCollection.CollectionIsReached` | src/miniray/foreign_lineage_runtime.py:732-857 | whenever collection may start and the owners answer or are known dead, a run completes it and leaves no credential at a living owner |
| `LineageCollection.CollectionCanResume` | src/miniray/foreign_lineage_runtime.py:845-857 | a collection pass that did not get through can end between any two calls, and a later one completes |
| `LineageCollection.AbandonFrees` | src/miniray/foreign_lineage_runtime.py:700-730 | a renewal without effects can be abandoned; another can start, and no credential has moved |
| `LineageSaga.CompleteLeavesNothing` | src/miniray/foreign_lineage_runtime.py:732-857 | a completed collection leaves no credential of the task at any living owner |
| `LineageSaga.ExchangeResolves` | src/miniray/foreign_lineage_runtime.py:390-470 | one delivered exchange with an open owner settles a key however ambiguous it was, and the registry agrees with the owner afterwards |
| `LineageSaga.PopIsSafeIffQuiet` | src/miniray/foreign_lineage_runtime.py:931-950 | when a finished shutdown pass pops a session, a run that completes collection and leaks a credential exists exactly when some driver can still send for that session; the guard in the code does not check this |
| `LineageSaga.UnquietPopLeaks` | src/miniray/foreign_lineage_runtime.py:931-950 | for every such pop of a finished pass, a run in which collection completes and a living owner keeps the successor |
| `LineageSaga.OverlappingShutdownLeaks` | src/miniray/foreign_lineage_runtime.py:919-950 | two overlapping shutdown passes reach such a leak from a fresh registration |
| `LineageSaga.IdleIsOrderly` | src/miniray/foreign_lineage_runtime.py:929-950 | a run whose pops all find a session that nobody drives is orderly, so testing the driving flag before the pop is enough |
| `LineageSaga.OwnerReplaceMeaning` | src/miniray/ownership.py:3087-3160 | an owner's answer tells where it stands: replaced and already-replaced mean the successor is held, any other refusal of an open owner means the old credential is held |
| `LineageSaga.LineageRuntime.DriveReplacements` | src/miniray/foreign_lineage_runtime.py:390-470 | the loop over the replacements is an orderly run of the saga; only lost calls leave a key uncertain, and from a clean start each delivered key ends acknowledged, failed, waiting for its owner or passed over after a failure, all of them acknowledged when every call is delivered and no owner objects |
| `LineageSaga.LineageRuntime.DriveCollection` | src/miniray/foreign_lineage_runtime.py:732-857 | the collection pass is an orderly run and reports completion exactly when each edge was acknowledged before or its owner let go or was known dead, and then no living owner keeps a credential |
| `ByteRanges.MergeRange` | src/miniray/object_manager.py:796-809 | the merging loop computes the canonical union of the ranges and the new interval |
| `ByteRanges.AddCovers` | src/miniray/object_store.py:63-74 | adding an interval covers exactly its own bytes besides the earlier ones |
| `ByteRanges.AddIsCanonical` | src/miniray/object_store.py:63-74 | written ranges stay sorted, disjoint, non-adjacent and non-empty |
| `ByteRanges.CanonicalIsUnique` | src/miniray/object_store.py:63-74 | two canonical lists that cover the same bytes are equal |
| `ByteRanges.CompleteIffCovered` | src/miniray/object_store.py:76-79 | completely written holds exactly when every byte of the object is covered |
| `ByteRanges.CompleteIffTotal` | src/miniray/object_manager.py:127-130 | the received byte count equals the size exactly when the ranges are complete |
| `LocalStore.PerformKeepsInv` | src/miniray/object_store.py:116-284 | every operation keeps used bytes equal to the sum of entry sizes and within capacity, and written ranges canonical |
| `LocalStore.WriteIsExact` | src/miniray/object_store.py:140-160 | a write stores exactly its payload at its offset, changes no other byte, and marks exactly its bytes |
| `LocalStore.SealIffWritten` | src/miniray/object_store.py:162-177 | sealing succeeds exactly when every byte was written |
| `LocalStore.SealedBytesStay` | src/miniray/object_store.py:209-254 | over every run, a pinned sealed replica stays with its bytes until that pin is released |
| `LocalStore.SealedNeverChange` | src/miniray/object_store.py:140-177 | no operation changes sealed bytes in place |
| `StoreOutcomes.CreateIff` | src/miniray/object_store.py:116-138 | a reservation is made exactly for a new object that fits beside all others |
| `StoreOutcomes.RemovalIff` | src/miniray/object_store.py:230-254 | deletion and abort succeed exactly for unpinned and for unsealed replicas and free exactly their capacity |
| `StoreOutcomes.ReadsLastWrites` | src/miniray/object_store.py:140-201 | whatever else the store does, a reserved replica can be sealed exactly when every byte was written, and each byte then reads as it was written last |
| `StoreOutcomes.PinsAreUnreleased` | src/miniray/object_store.py:209-228 | over every run without a deletion, the pins of a sealed replica are exactly the tokens pinned and not released since |
| `StoreOutcomes.DeletableIffReleased` | src/miniray/object_store.py:209-239 | after such a run the replica can be deleted exactly when every pin was released |
| `LocalStore.ObjectStore.Put` | src/miniray/object_store.py:179-191 | create, write and seal in one call leaves exactly the payload readable, or nothing changed |
| `LocalStore.ObjectStore.WriteChunk` | src/miniray/object_store.py:140-160 | the write refuses as specified and otherwise installs the specified entry |
| `LocalStore.ObjectStore.SealReplica` | src/miniray/object_store.py:162-177 | sealing freezes exactly the buffered bytes or refuses without effect |
| `LocalStore.ObjectStore.AbortReplica` | src/miniray/object_store.py:241-254 | abort removes exactly an unsealed entry and gives back its bytes |
| `LocalStore.ObjectStore.DeleteReplica` | src/miniray/object_store.py:230-239 | delete removes exactly a sealed unpinned entry and gives back its bytes |
| `ObjectTransfer.ActKeepsInv` | src/miniray/object_manager.py:223-600 | every manager call keeps manager and store in agreement: a configured pull's buffer and ranges are the store entry's |
| `ObjectTransfer.StoreNeverRefuses` | src/miniray/object_manager.py:395-489 | a chunk that passes the manager's checks is never refused by the store, and a pull that counted all its bytes always seals |
| `ObjectTransfer.AcceptedChunkHolds` | src/miniray/object_manager.py:395-432 | an accepted chunk stands at its place in the pull's buffer |
| `ObjectTransfer.SealedBytesAreDelivered` | src/miniray/object_manager.py:395-489 | over every order, overlap, duplication and interleaving with the other writers of the store, once ready the sealed replica carries each accepted chunk at its own place |
| `ObjectTransfer.StepKeepsSite` | src/miniray/object_manager.py:223-600 | with writers that write, seal and abort only what they created, no step of theirs reaches a replica that a pull is filling, and the manager leaves theirs alone |
| `ObjectTransfer.OverlapMatches` | src/miniray/object_manager.py:719-734 | the pass over the written ranges accepts a chunk exactly when it agrees with every byte already written |
| `PullOutcomes.ChunkIsTakenIff` | src/miniray/object_manager.py:395-432 | a chunk is taken exactly when it is the running transfer's, lies within the object and agrees with every byte already there; it is then written where it belongs |
| `PullOutcomes.FinishIff` | src/miniray/object_manager.py:434-491 | finishing a configured running pull makes it ready exactly when every byte came, their digest is the expected one and the owner published; a missing byte changes nothing, a wrong digest removes the reservation, a refused publication the replica |
| `PullOutcomes.FinishRefused` | src/miniray/object_manager.py:434-450 | any other finish is refused and changes nothing |
| `PullOutcomes.BegunIff` | src/miniray/object_manager.py:372-393 | a running transfer is configured exactly when the metadata contradicts nothing and the target fits |
| `PullOutcomes.LocalDemand` | src/miniray/object_manager.py:250-292 | demand for a sealed replica is ready exactly when it contradicts neither the record nor the replica |
| `PullOutcomes.RemoteDemand` | src/miniray/object_manager.py:294-367 | demand without a replica joins, waits, or starts a transfer if its target can be reserved |
| `PullOutcomes.FailIff` | src/miniray/object_manager.py:530-540 | a failure report ends exactly the pulls under way and gives their reservation back |
| `PullOutcomes.ResetIff` | src/miniray/object_manager.py:542-560 | a failed pull is forgotten exactly when no replica of the object is left |
| `PullOutcomes.DropIff` | src/miniray/object_manager.py:562-600 | a deletion takes exactly a sealed unpinned replica, and the record of the pull that brought it unless one is under way |
| `PullOutcomes.FailedCanRestart` | src/miniray/object_manager.py:542-560 | after a reset, a failed pull can be started again into an empty buffer if there is room |
| `PullOutcomes.DeliveryCompletes` | src/miniray/object_manager.py:395-491 | slices that cover an object, in any order, overlapping and repeated, make a running pull ready with exactly the object's bytes |
| `PullOutcomes.ReadyIsGenuine` | src/miniray/object_manager.py:223-491 | over every run whose demands name what the records name, the replica of a ready pull has the recorded size and digest |
| `PullOutcomes.NamingIsCareful` | src/miniray/node.py:5895-5944 | demands that name size and digest, as the Node's own do, are of that kind |
| `PullOutcomes.SafeIffNamesAll` | src/miniray/object_manager.py:250-285 | a demand cannot make a record ready on a replica of another size or digest exactly when it names all that the record names, or contradicts it |
| `PullOutcomes.UnnamedDemandDeceives` | src/miniray/object_manager.py:250-285 | a run from the start in which a demand that names nothing makes a waiting pull ready on bytes with another digest than recorded |
| `ObjectTransfer.ObjectManager.DeliverChunk` | src/miniray/object_manager.py:395-432 | a chunk is written to store and buffer together, or the pull fails or is left as specified |
| `ObjectTransfer.ObjectManager.Finish` | src/miniray/object_manager.py:434-491 | digest, seal and publication happen in order with the outcomes FinishIff describes, and only then the pull is ready |
| `ActorMailboxes.StartsInOrder` | src/miniray/actor_state.py:136-203 | for any arrival order with gaps and duplicates, every generation starts each caller's calls exactly as 0, 1, 2, ... without gap or repeat |
| `ActorMailboxes.SubmitKeeps` | src/miniray/actor_state.py:136-167 | a submission keeps the mailbox partition, starts nothing, and never meets the branch for pruned duplicates |
| `ActorMailboxes.AdmitKeeps` | src/miniray/actor_state.py:169-192 | admission queues the longest contiguous run it completes, so a buffered call always misses a predecessor |
| `ActorMailboxes.TakeKeeps` | src/miniray/actor_state.py:194-203 | a call starts exactly when none is running and one is ready, and it is its caller's next one |
| `ActorMailboxes.CompleteKeeps` | src/miniray/actor_state.py:205-216 | completion moves exactly the running call to the completed ones |
| `MailboxOutcomes.SubmissionIs` | src/miniray/actor_state.py:136-192 | the answer to every submission: a known call is a duplicate with its result or a conflict, a new one is buffered exactly when an earlier number is missing and otherwise admits itself and the known calls right behind it |
| `MailboxOutcomes.TakenIsQueued` | src/miniray/actor_state.py:194-203 | the call that starts is the one submitted under the first ready number |
| `MailboxOutcomes.RemembersSubmitted` | src/miniray/actor_state.py:136-192 | over every run of one generation the mailbox knows exactly the calls submitted to it, each as first submitted |
| `MailboxOutcomes.DuplicatesGetTheResult` | src/miniray/actor_state.py:136-216 | the result a call completed with is the answer to every later retry of it in the generation |
| `MailboxOutcomes.EverySubmittedCallRuns` | src/miniray/actor_state.py:136-216 | once numbers 0 to n of a caller were submitted in any order, call n can complete without another submission |
| `MailboxOutcomes.AdvanceIs` | src/miniray/actor_state.py:232-259 | only a newer generation is taken; it forgets all calls and gives back exactly those without a result |
| `MailboxOutcomes.OldCallsStayFenced` | src/miniray/actor_state.py:136-140 | a call of an older incarnation is fenced for ever |
| `ActorMailboxes.ActorMailbox.AdmitContiguous` | src/miniray/actor_state.py:169-192 | the loop admits what the specification admits, in the same order |
| `ActorMailboxes.ActorMailbox.SubmitCall` | src/miniray/actor_state.py:136-167 | a submission is classified and recorded as specified |
| `ActorMailboxes.ActorMailbox.TakeCall` | src/miniray/actor_state.py:194-203 | the next ready call starts as specified |
| `ActorMailboxes.ActorMailbox.CompleteCurrent` | src/miniray/actor_state.py:205-216 | the running call is completed with the given result and returned |
| `ActorMailboxes.ActorMailbox.AdvanceGeneration` | src/miniray/actor_state.py:232-259 | a newer generation replaces the whole mailbox and returns the abandoned calls |
| `ActorRoutes.PerformKeeps` | src/miniray/control.py:1088-1346 | every registry operation keeps snapshots constructible, generation equal to the initial one plus restarts used within the budget, and gives each visible change a strictly larger epoch |
| `ActorRoutes.EpochsGrow` | src/miniray/control.py:1088-1346 | along any run a later snapshot is the same or has a larger epoch and no smaller generation |
| `ActorRoutes.ExitConsumedOnce` | src/miniray/control.py:1129-1208 | an applied exit is only ever replayed, and its detection is refused to any other exit |
| `ActorRestarts.ExitClassified` | src/miniray/control.py:1129-1178 | an exit report is applied exactly when it is new and describes the published route; otherwise it changes nothing |
| `ActorRestarts.ExitMeans` | src/miniray/control.py:1179-1208 | an applied exit restarts the Actor, with generation and restarts used one larger, exactly when restarts are admitted and fewer than the budget were used; otherwise the Actor is dead |
| `ActorRestarts.ExitsCostLives` | src/miniray/control.py:1129-1259 | over every run that admits restarts each applied exit costs one life, so an Actor with budget n survives its first n exits and is dead exactly after exit n + 1 |
| `ActorRestarts.SpendsBudget` | src/miniray/control.py:1129-1259 | a live Actor has a run through every exit its budget allows |
| `ActorRestarts.FinishMeans` | src/miniray/control.py:1088-1127 | the first outcome of a creation is published with a larger epoch; ambiguous and late replies change nothing |
| `ActorRestarts.PublishMeans` | src/miniray/control.py:1229-1259 | a restart is published exactly for the waiting generation on the Node of the exit, with the reserved epoch |
| `ActorRestarts.FailRestartMeans` | src/miniray/control.py:1261-1297 | a rejected restart ends the Actor exactly when it is the restart of the last exit |
| `ActorRestarts.FailOnNodeMeans` | src/miniray/control.py:1299-1346 | the loss of a Node ends exactly the Actors that use it or wait for it |
| `ActorRestarts.CancelMeans` | src/miniray/control.py:1023-1040 | a creation can be cancelled exactly before a Node was reserved for it |
| `ActorRoutes.HistoryFollows` | src/miniray/control.py:1348-1357 | the snapshots published in one run are linearly ordered, so one epoch names one snapshot |
| `ActorRoutes.CacheConverges` | src/miniray/actor_client.py:88-153 | fed such snapshots in any order with duplicates, the cache never meets a reused epoch, ends at the largest one, and hands out no sequence number twice in a generation |
| `ActorRoutes.CacheFollowsRegistry` | src/miniray/actor_client.py:88-113 | the same for exactly the snapshots one registry run published |
| `ActorRoutes.FencedNeverPublishes` | src/miniray/actor_client.py:134-145 | a call fenced by a newer route never publishes, over any continuation |
| `RouteOutcomes.BeginIff` | src/miniray/actor_client.py:115-132 | a call begins exactly on a live route with an endpoint and takes the next number and that route's fence |
| `RouteOutcomes.InstallIff` | src/miniray/actor_client.py:88-113 | a snapshot is refused exactly for a reused epoch; a newer one fences exactly the calls of older routes and restarts the numbers exactly with a new generation |
| `RouteOutcomes.PublishesIff` | src/miniray/actor_client.py:134-153 | over every run, a begun call can publish exactly until it is finished or a newer route is installed |
| `RouteOutcomes.NumbersAreConsecutive` | src/miniray/actor_client.py:88-132 | over every run, the calls of each generation are numbered 0, 1, 2, ... without a gap |
| `RouteOutcomes.StartIsNumbered` | src/miniray/actor_client.py:40-56 | a registered entry has handed out no number yet |
| `ActorRoutes.InflightCanPublish` | src/miniray/actor_client.py:115-153 | a call just begun may publish its result, and once finished may not |
| `ActorRoutes.ActorClientTable.MayPublish` | src/miniray/actor_client.py:134-145 | the check answers for the call in flight on the current route |
| `ActorRoutes.ActorClientTable.InstallRoute` | src/miniray/actor_client.py:88-113 | an install keeps, replaces or refuses the route and returns exactly the calls it fences |
| `ActorRoutes.ActorRegistry.AcceptWorkerExit` | src/miniray/control.py:1129-1208 | an exit report is classified and applied as ExitClassified and ExitMeans describe |
| `NestedArguments.RoundTrip` | src/miniray/dependency.py:313-419 | decoding an encoded value gives back the same tree and imports each distinct reference once |
| `NestedArguments.DecodeAccepts` | src/miniray/dependency.py:274-310 | the decoder accepts exactly the index streams in first-use order that cover the whole manifest |
| `NestedArguments.EncodeDenotes` | src/miniray/dependency.py:93-127 | encoding extends the manifest in first-use order and denotes its value |
| `NestedArguments.EncodableIffOneOwner` | src/miniray/dependency.py:97-105 | with a working exporter, encoding succeeds exactly when no object is named with two owners |
| `NestedArguments.FailedDecodeReleases` | src/miniray/dependency.py:234-258 | a failed decode gives back every acquired handle once, in reverse order, and a later close gives back nothing more |
| `NestedArguments.ImportSession.ReleaseEverything` | src/miniray/dependency.py:248-258 | the release loop gives back the acquired handles in reverse order |
| `NestedArguments.ImportSession.DecodeTree` | src/miniray/dependency.py:206-310 | decoding within a session computes the specified value and handles, rolling back on any failure |
| `NestedArguments.ManifestBuilder.EncodeTree` | src/miniray/dependency.py:93-127 | encoding with the builder computes the specified wire value and manifest |
| `ManifestFraming.StreamIsDecodable` | src/miniray/output_publication.py:194-232 | a parser reads the manifest back from the bytes fed to the digest, for any number of slots and transfers |
| `ManifestFraming.StreamIsInjective` | src/miniray/output_publication.py:212-232 | equal byte streams come from equal manifests |
| `ManifestFraming.Digest.FeedManifest` | src/miniray/output_publication.py:212-232 | the feeding loops append exactly the framed fields in order |
| `NodeDeathViews.SucceedsIsTransitive` | src/miniray/node_death_view.py:96-121 | a Node that skipped a certificate still accepts the one after it |
| `NodeDeathViews.ChainAccepts` | src/miniray/node_death_view.py:96-121 | along a chain every later certificate is accepted after every earlier one |
| `NodeDeathViews.DeathsArePermanent` | src/miniray/node_death_view.py:60-121 | no death fact is lost or rebound along a chain, and no dead Node reappears among survivors |
| `NodeDeathViews.SurvivorsInstalled` | src/miniray/node_death_view.py:60-121 | whoever is still a survivor reported the installation of every certificate so far |
| `NodeDeathViews.SurvivorsShrink` | src/miniray/node_death_view.py:96-121 | epochs never fall and one epoch has one snapshot; nobody joins through a death certificate, and every leaver has a later death of its own incarnation |

## Left out

- NodeAdapter.Node.Prepare: hashing the payloads against the manifest before the first effect is left out; the payload's descriptor is an input.
- NodeAdapter.Node.Complete: releasing the Worker's lease beside it is left out, and so is the ticket table, since each call is one undisturbed pass.
- PublicationOutcomes.UnknownKind: which of the two kinds of refusal an unregistered begin or fence gets depends on the first older record in registration order and is not stated; that it is refused, and when, is.
- MailboxOutcomes.AdvanceIs: the abandoned calls come back as a set; the source returns them in order of submission.
- LineageSaga.ReadyHoldsEverywhere: dependency readiness after the replacements is an input of the pass, so only the credential half of READY is stated.
- ObjectTransfer.StepKeepsSite: other writers of the store are taken to write, seal and abort only a replica that their own create made and to delete only sealed ones, which is what the Node's code does around its calls.
- ManifestFraming.StreamIsInjective: transfers and identities are the bytes fed for them, so nothing is said about the canonical encoding of a transfer itself.
- NestedArguments.RoundTrip: pickle bytes are trees of leaves, references and tagged pairs; memoized sharing and cycles inside one pickle are not modelled, nor is importing an exported reference outside an argument.
- Manifests have one output slot in the publication protocol, as the source forces; the framing is proved for any number of slots.
- Digests, checksums and source capabilities are compared for equality only; collision resistance is not claimed.
- The owner's address travels with the publication instead of being looked up by a callback; the digest of a put is a field.
- One drive of the outbox is one step, because its in-flight flag excludes another drive of the same publication; the cursor that picks the next one is not modelled.
- A replacement or release executed by an owner after its caller stopped waiting for it is not modelled for borrowed credentials; a lost reply is.
- Node and Worker registries appear only as the membership state the outbox reads; their registration and death reports are not modelled.
- Snapshots, listing, locks as such, type checks and defensive copies are left out as easy or vacuous on immutable values.
- Buffers are sequence values, so views and aliasing of the store's memory are not captured.
- Choosing a source location and ranking pull decisions is an input of a pull.
- Matching an actor creation request to its record, placement groups, reservations, transports, deadlines, process monitoring and tracing are not part of this model.
