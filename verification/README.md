# Replica, store and sync model

A verified model of a local-first collaborative text editor: a sequence CRDT, the
local edit pipeline of the browser client, and the protocol by which clients and
one server exchange operations. `dafny verify dfyconfig.toml` checks everything.

## What is modelled

**The CRDT.** `TextReplicas.TextReplica` keeps the five maps of the original class and
updates them step by step: buffering of operations that arrive early, the
cascading queue, sorted sibling insertion, the cycle walk, the stack traversal,
snapshot export and restore. Its `Valid()` ties the maps to a closed form over
the set of known operations (`ReplicaShape`), so that a replica's whole state is a
function of that set. Documents are ordered by the path of sibling keys from ROOT
(`DocumentOrder`), which depends on nothing but an element's own ancestors; the
recursive pre-order (`PreOrder`) is a second, independent reference for the walk.
Everything about convergence, element order, snapshots and acceptance is proved
about this closed form and about replays of operation sequences (`Replays`,
`Convergence`, `Snapshots`, `SnapshotRestore`).

`ElementOrders` states the document order, `Texts` the text, and `JsStrings` and
`Operations` the identities and the comparator in words of their own, code unit by code
unit, and prove that the functions used everywhere else compute just that.

**The local edit pipeline.** `TextEdit` diffs, `LocalDocumentStores.LocalDocumentStore`
allocates and persists, `LocalDocumentControllers.LocalDocumentController` applies. Each
store method is one transaction on the table record `LocalStore.Database`, proved
against a function of the tables; `StoreFacts` and `RestoreSpec` prove what these
functions mean for the document, the outbox and the clocks, and that tables and
in-memory replica always agree; `StoreLaws` gives everything that a transaction changes, and
that it touches no other document. `EditSemantics` proves that a document reads
exactly what was typed. `SelectionAnchors` covers carets.

**The server.** `OperationStores.OperationStore` is the log with its snapshot rows,
`ServerSnapshots.ServerSnapshotManager` answers joins.

**The whole system.** `SyncSystems` is a state machine of one server and any number of
clients with distinct ids: edit, connect, join, submit, accept and broadcast, echo of
a retry, receive, storage failure, disconnect, cut, close, open, checkpoint. Its steps
do what the code does and use the very functions that the store, controller and server
methods are proved against. `SyncInvariants` states what holds in every reachable
state, `SyncEdits`, `SyncMessages`, `SyncServers` and `SyncRuns` prove that each kind of
step keeps it. `SyncCursors`, `SyncTracking` and `SyncOrigins` are about what one client
misses and where what it holds comes from: when exactly it may go on after a message it
could not take, and that a client that is careful itself always has a sound cursor.
`SyncTheorems` draws the conclusions, `SyncProgress` and `SyncReach` prove that every
document that is not shut can still be brought up to date, and `SyncScenarios` and
`SyncLimits` build the reachable states that show where the guarantees end.

## How to read the model

- Strings are sequences of UTF-16 code units; numbers are integers, and every bound that
  the code checks with `Number.isSafeInteger` is written out.
- Thrown errors are results. A table or SQLite transaction is one atomic method that
  commits or changes nothing.
- The operations table of the server is kept per document, since every query names
  one; row numbers come from one counter and may skip values (`skipped`).
- A client's submissions form a set that only grows: anything ever submitted may reach
  the server at any later time, any number of times, in any order. This includes
  every reordering of a flushed outbox with directly submitted edits, and every retry.
- Messages to a client form one queue. A connection may be cut on the server's side while
  the client still handles what it received, and what had arrived over a lost connection
  is still handled after the next one was opened, before the messages of that one.
- Handling goes on after a message that could not be taken, as in the code
  (`apps/web/src/sync/document-sync-client.ts:312-321`): a refused bootstrap closes the
  connection, but what had arrived before is still handled (lines 361-371 and 441-446),
  and a storage failure loses one message. This is against the meaning that
  `docs/architecture/sync-protocol.md:78` gives the cursor.
  `SyncLimits.RefusedOfferBreaksCursor` reaches a loss; `SyncTheorems.CareIsNeeded` gives the
  exact condition (`SyncSystems.Recovered`), which a client can evaluate before it ingests,
  from its own tables and the messages it received: everything that the missed messages
  carried, as far as the next one confirms the log, is known or part of that one. A client
  that always meets it is called careful, and what is proved of careful clients asks
  nothing of the others. `SyncTheorems.BootstrapsInstallExactly` and
  `SyncMessages.BootstrapDecides` say when a bootstrap is refused.
- The server log need not be causally ordered. A client can therefore close while
  something is pending, and such a document is shut: it does not open again
  (`SyncTheorems.ReopensAsItWas`, `SyncLimits.ClosedTooEarly`, `SyncLimits.StaysShut`). It is
  the only obstacle to convergence besides an unsound cursor
  (`SyncReach.ConvergenceIsInReachExactly`).

## Model

| member | source | states |
|---|---|---|
| `SyncTheorems.ConvergedClientsShowTheSame` | apps/web/src/sync/document-sync-client.ts:356-412 | convergence: in every run of edits, joins, cuts, failures, retries, bootstraps and restarts, two clients that were careful themselves, that is never ingested a message while something they had missed was neither known nor part of it, and that are at the end of the log with empty outboxes, know the same operations and show the same text, whatever all other clients did or still have to do |
| `SyncTheorems.CarefulClientsConverge` | apps/web/src/sync/document-sync-client.ts:356-412 | a client that was careful itself and is at the end of the log, open or closed, knows exactly the logged operations and its own, and with an empty outbox exactly the logged ones, whether they came one by one, as history or as a snapshot |
| `SyncTheorems.SoundMeansConverged` | apps/web/src/sync/document-sync-client.ts:356-412 | in every run, whatever anybody went on after: a client at the end of the log knows exactly the log and its own operations, or exactly the log if its outbox is empty, if and only if its cursor is sound |
| `SyncTheorems.QuietMeansConverged` | apps/web/src/sync/document-sync-client.ts:356-412 | for the whole system: once every client is at the end of the log with an empty outbox, the log holds exactly the operations ever made, nothing among them is pending, and a client knows all of them if and only if its cursor is sound |
| `SyncTheorems.EveryoneConverges` | apps/web/src/sync/document-sync-client.ts:356-412 | so once everybody was careful and is up to date, each client, open or closed, knows exactly the operations ever made |
| `SyncReach.EveryoneCanCatchUp` | apps/web/src/sync/document-sync-client.ts:448-466 | convergence stays in reach: every run can be continued, without another edit, until each client whose document is open or can be opened is at the end of the log with an empty outbox and the log holds all that they made, as long as its row numbers stay safe integers; a sound cursor stays so and its client then knows exactly the log |
| `SyncReach.ConvergenceIsInReachExactly` | apps/web/src/replica/local-document-controller.ts:127-135 | with sound cursors, a run can be continued until every client knows everything ever made if and only if no document was closed while something in it was pending |
| `SyncRuns.InvariantInEveryRun` | apps/server/src/sync-server.ts:260-324 | the system invariant (server cache, tables, clocks, outboxes, queued and missed messages, in-memory replicas) holds in every state of every run of the steps as coded |
| `SyncRuns.StepKeepsInvariant` | apps/server/src/sync-server.ts:381-444 | each single step of a client or of the server keeps the invariant |
| `SyncTheorems.NothingHonestIsRejected` | apps/web/src/sync/document-sync-client.ts:391-410 | in every run no message without a snapshot is ever rejected by the tables or by the replica, whatever was missed before it |
| `SyncTheorems.BootstrapsInstallExactly` | apps/web/src/sync/document-sync-client.ts:415-446 | in every run a bootstrap is installed if and only if the document is still pristine and the log through the barrier replays and resolves; the client then knows exactly that part of the log, and otherwise nothing but its session changes |
| `SyncTheorems.JoinsAreNeverRefused` | apps/server/src/sync-server.ts:269-279 | the cursor-ahead refusal is never reached |
| `SyncTheorems.CursorsAreSound` | docs/architecture/sync-protocol.md:78 | in every run in which a client itself is careful, whatever the others do, each row of the log up to its cursor is known to it with the same payload |
| `SyncTheorems.CareIsNeeded` | apps/web/src/sync/document-sync-client.ts:312-321 | the condition is exact: wherever a client that was careful so far handles a message without a snapshot, its cursor is sound afterwards if and only if whatever it missed before, as far as that message confirms the log, is known to it or part of the message |
| `SyncTracking.TrackedWhileCareful` | docs/architecture/sync-protocol.md:78 | in every state of every run in which a client itself is careful its cursor is sound, and the messages of its session, missed ones included, cover every row that they let the cursor pass |
| `SyncOrigins.PlacedInEveryRun` | apps/web/src/sync/document-sync-client.ts:292-308 | in every state of every run whatever a client knows is its own or in the log, no message confirms less than a snapshot before it, and a client's own rows come after every snapshot that it was sent |
| `SyncCursors.GoingOnIsSoundExactly` | apps/web/src/sync/document-sync-client.ts:312-321 | the same for one client and any log: what it missed being known or brought is enough for a sound cursor, and necessary where no message confirms less than a snapshot before it; the client can tell from its own tables |
| `SyncCursors.CursorSoundExactly` | apps/web/src/persistence/local-document-store.ts:461-528 | an ingest keeps the cursor sound exactly when each row between the old cursor and the confirmed number is in the batch or already known |
| `SyncLimits.RefusedOfferBreaksCursor` | apps/web/src/sync/document-sync-client.ts:361-371 | a reachable loss, whatever is typed: a document edited after announcing the capability is offered a snapshot with a live row behind it, refuses the one, takes the other, and ends with its cursor at the end of a log that it does not know all of |
| `SyncLimits.StoryHappens` | apps/server/src/server-snapshot.ts:84-111 | the snapshot that this offer needs exists for every text of the length that makes the server build one |
| `SyncTheorems.CursorsOnlyAdvance` | docs/architecture/sync-protocol.md:92 | between any two states of a run no cursor moves back |
| `SyncTheorems.CursorsNeverGoBack` | apps/web/src/persistence/local-document-store.ts:521-528 | the same for a single step of any kind |
| `SyncTheorems.NoEditIsLost` | apps/web/src/persistence/local-document-store.ts:158-179 | every operation ever made is recorded at its author and is in the author's outbox until the server logged it; the log has one row per identity and increasing sequence numbers |
| `SyncTheorems.CopiesAgree` | apps/server/src/operation-store.ts:97-132 | any two copies of an identity, in the log, in the server's cached snapshot, on the way to the server, in any queued or missed message and its snapshot, or in any client's tables and baseline, are equal and are what their author made |
| `SyncTheorems.TypedIsShown` | apps/web/src/replica/local-document-controller.ts:267-300 | in every reachable state, even with operations pending, what is typed is persisted and is exactly what the document reads afterwards, while the counters stay within the safe integers |
| `SyncTheorems.ReopensAsItWas` | apps/web/src/replica/local-document-controller.ts:99-138 | in every run a closed document opens if and only if its tables hold everything that their operations depend on, and then knows what it knew |
| `SyncTheorems.ConvergedDocumentsOpen` | apps/web/src/replica/local-document-controller.ts:127-135 | the document of a careful client that is at the end of the log with an empty outbox can be opened again if and only if the log holds whatever its operations depend on, which it does once everything made is logged |
| `SyncLimits.ClosedTooEarly` | apps/web/src/replica/local-document-controller.ts:127-135 | a reachable state, after a careful run, in which a document is shut: its client took the second of two inserts, which had overtaken the first on its way to the server, and closed |
| `SyncLimits.StaysShut` | apps/web/src/replica/local-document-controller.ts:127-135 | in no run does such a document ever open again, nor does anything reach its tables |
| `SyncTheorems.EarlyInsertBlocksOpening` | apps/web/src/replica/local-document-controller.ts:127-135 | a concrete ingest after which the document does not open again, so the condition above is needed |
| `SyncMessages.IngestAccepted` | apps/web/src/persistence/local-document-store.ts:434-531 | a batch of made operations is taken by the tables and by the replica |
| `SyncMessages.IngestKeeps` | apps/web/src/sync/document-sync-client.ts:356-412 | handling a message without a snapshot, whatever was missed before it, succeeds, keeps the client in order and moves its cursor to the maximum |
| `SyncMessages.InstallKeeps` | apps/web/src/sync/document-sync-client.ts:415-446 | what handling a bootstrap makes of a client, in both cases, and that the client is in order afterwards; an installed one leaves the cursor sound |
| `SyncMessages.BootstrapDecides` | apps/web/src/persistence/local-document-store.ts:221-280 | the install transaction commits if and only if the document is pristine and the log through the barrier replays and resolves |
| `SyncMessages.BootstrapClock` | apps/web/src/persistence/local-document-store.ts:248-255 | the clock set by a bootstrap is ahead of every Lamport value it brings |
| `SyncServers.AppendKeeps` | apps/server/src/sync-server.ts:381-444 | an appended and broadcast row leaves every client and every queued message in order |
| `SyncServers.AppendKeepsTracked` | apps/server/src/sync-server.ts:381-444 | and leaves every session covering all rows its confirmations pass, up to the new end of the log |
| `SyncServers.EchoKeeps` | apps/server/src/sync-server.ts:402-415 | the echo of a retried operation does the same |
| `SyncServers.AnswerOk` | apps/server/src/sync-server.ts:307-312 | the answer to a join passes the client's batch checks and leaves, behind whatever is still queued, no row uncovered that it confirms |
| `SyncEdits.EditorKeeps` | apps/web/src/persistence/local-document-store.ts:330-432 | an edit leaves its author in order, with the new operations on record and in the outbox |
| `SyncEdits.OtherClientsKeep` | apps/web/src/persistence/local-document-store.ts:354-397 | an edit by one client leaves what every other client will allocate unmentioned |
| `SyncInvariants.EditGrounded` | apps/web/src/persistence/local-document-store.ts:354-397 | the operations of an edit are new, and everything ever made stays well formed and resolved |
| `TextReplicas.TextReplica.Apply` | packages/crdt/src/replica.ts:39-69 | one operation: accepted exactly when well made (its identity is the client id, a colon and the counter in decimal), not in conflict and keeping the known set well formed; the known set grows by it, a rejection or duplicate changes nothing, the status is exact |
| `TextReplicas.TextReplica.constructor` | packages/crdt/src/replica.ts:32-37 | a new replica knows nothing and represents the empty set |
| `TextReplicas.TextReplica.Check` | packages/crdt/src/replica.ts:40-60 | the checks before anything changes |
| `TextReplicas.TextReplica.CheckDependencies` | packages/crdt/src/replica.ts:52-60 | anchor and buffered-dependency checks decide well-formedness of the extended set |
| `TextReplicas.TextReplica.CheckCycle` | packages/crdt/src/replica.ts:297-326 | the walk along the anchor chain ends, and throws exactly when the insert closes a cycle or meets a delete |
| `TextReplicas.TextReplica.Learn` | packages/crdt/src/replica.ts:62-69 | recording an acceptable operation brings all five maps to the closed form of the larger set |
| `TextReplicas.TextReplica.ApplyInsert` | packages/crdt/src/replica.ts:179-188 | an insert is attached with its cascade or buffered |
| `TextReplicas.TextReplica.ApplyDelete` | packages/crdt/src/replica.ts:190-201 | a delete tombstones its target or is buffered |
| `TextReplicas.TextReplica.AttachInsertAndResolve` | packages/crdt/src/replica.ts:203-266 | the cascade loop ends in the closed form, with fewer unattached inserts in each iteration; its skip branches are dead |
| `TextReplicas.TextReplica.AttachNext` | packages/crdt/src/replica.ts:207-265 | one iteration: which node, sibling position, tombstone and queue result |
| `TextReplicas.TextReplica.InsertChild` | packages/crdt/src/replica.ts:268-295 | the new sibling goes before the first one that it stands before (larger Lamport value, then client id by code units, then smaller counter), and nothing else moves |
| `TextReplicas.TextReplica.ApplyAll` | packages/crdt/src/replica.ts:71-75 | the sequence is replayed; it completes exactly when the replay is accepted, and otherwise keeps what was applied before the rejection |
| `TextReplicas.TextReplica.GetVisibleElements` | packages/crdt/src/replica.ts:83-122 | the stack walk ends, meets no missing node and lists what the recursive ordered pre-order shows, which is the document, in the order that the operations alone determine |
| `TextReplicas.TextReplica.Materialize` | packages/crdt/src/replica.ts:77-81 | the text that the values of the document spell: each value stands where the lengths of the ones before it add up to |
| `TextReplicas.TextReplica.GetKnownOperationIds` | packages/crdt/src/replica.ts:128-130 | all known identities, strictly sorted |
| `TextReplicas.TextReplica.GetUnresolvedOperationIds` | packages/crdt/src/replica.ts:161-177 | exactly the inserts and deletes that wait, strictly sorted; empty exactly when everything is resolved |
| `TextReplicas.TextReplica.ExportSnapshot` | packages/crdt/src/replica.ts:132-153 | succeeds exactly when nothing is pending and gives the canonical snapshot |
| `TextReplicas.TextReplica.FromSnapshot` | packages/crdt/src/replica.ts:155-159 | succeeds exactly for acceptable snapshots and gives a valid replica of the described operations; a refusal carries the exact error |
| `ReplicaShape.ClosedForm` | packages/crdt/src/replica.ts:179-295 | nodes are the inserts whose anchor chain reaches ROOT, tombstoned iff some known delete targets them; every other operation waits under its dependency; siblings are the attached children |
| `ReplicaShape.StateDetermined` | packages/crdt/src/replica.ts:33-37 | the five maps are a function of the known operations |
| `ReplicaShape.BeginCascade` | packages/crdt/src/replica.ts:179-188 | recording an insert under an attached anchor leaves only itself queued |
| `ReplicaShape.AttachNode` | packages/crdt/src/replica.ts:225-264 | attaching a queued insert keeps the closed form, with exactly its waiting children queued instead |
| `ReplicaShape.BufferInsert` | packages/crdt/src/replica.ts:179-185 | buffering an insert keeps the closed form |
| `ReplicaShape.DeleteTransition` | packages/crdt/src/replica.ts:190-201 | learning a delete keeps the closed form |
| `ReplicaShape.DeleteAcceptance` | packages/crdt/src/replica.ts:56-60 | a delete is refused exactly when a known insert waits for its identity |
| `Convergence.ReplicasConverge` | packages/crdt/src/replica.ts:39-122 | two replicas fed the same operations in any orders with any duplication end in identical states and documents |
| `Convergence.SharedElementsKeepOrder` | packages/crdt/src/replica.ts:83-122 | documents of replicas that know different parts of one universe list shared elements in the same order |
| `Convergence.CascadeExact` | packages/crdt/src/replica.ts:203-266 | attaching an insert attaches exactly the inserts whose anchor chain leads to it, and detaches nothing |
| `Convergence.SnapshotRoundTrip` | packages/crdt/src/replica.ts:132-159 | restoring an export gives back an equal state |
| `Convergence.SnapshotPlusSuffix` | packages/crdt/src/replica.ts:342-490 | restoring a snapshot of a prefix and replaying the rest equals replaying everything, rejections included |
| `Convergence.SnapshotIsReplay` | packages/crdt/src/replica.ts:342-490 | the state restored from an acceptable snapshot equals the state of any replica that was fed the operations it describes, in any order |
| `AnchorGraph.ResolvedPart` | packages/crdt/src/replica.ts:161-177 | nothing waits in a part of a resolved set if and only if it holds whatever its operations depend on |
| `Replays.ReplayAccepts` | packages/crdt/src/replica.ts:39-75 | a sequence is accepted exactly when it carries one payload per identity and, with what is known, is valid, acyclic and never anchored on a delete |
| `Replays.DeliveryOrderIrrelevant` | packages/crdt/src/replica.ts:39-75 | order and multiplicity change neither acceptance nor the resulting known set |
| `Replays.WalkFindsSelf` | packages/crdt/src/replica.ts:302-304 | meeting the own identity on the walk means a cycle |
| `Replays.WalkEndsOutside` | packages/crdt/src/replica.ts:314-316 | a walk that ends at an unknown identity means an acceptable insert |
| `Replays.WalkMeetsDelete` | packages/crdt/src/replica.ts:318-322 | a walk that meets a delete means an unacceptable insert |
| `Replays.ReplayWithin` | packages/crdt/src/replica.ts:71-75 | operations of one well-formed set are never rejected |
| `AnchorGraph.AcyclicExtend` | packages/crdt/src/replica.ts:297-326 | a new insert closes a cycle exactly when its anchor chain already leads to it |
| `AnchorGraph.AttachedAnchorIsSafe` | packages/crdt/src/replica.ts:52-54 | an insert under an attached anchor needs no cycle walk |
| `AnchorGraph.AttachedStep` | packages/crdt/src/replica.ts:179-188 | an insert is attached exactly when its anchor is |
| `AnchorGraph.AttachedIsClosure` | packages/crdt/src/replica.ts:203-266 | the attached inserts are the only set built from ROOT downwards that leaves no insert under a member out |
| `DocumentOrder.GlobalOrder` | packages/crdt/src/replica.ts:493-507 | replicas with different knowledge agree on the order of any two elements attached in both |
| `ElementOrders.DocumentOrderExactly` | packages/crdt/src/replica.ts:83-122 | the document order from the operations alone: of any two elements the first is the one that the other hangs under, or the one under the sibling that stands first where the two part ways |
| `ElementOrders.SiblingsStandInOrder` | packages/crdt/src/replica.ts:493-507 | of two elements with one anchor the larger Lamport value stands first, with equal ones the client id that is smaller at the first code unit where they differ or ends there, with one client the smaller counter |
| `ElementOrders.NothingEmpty` | packages/crdt/src/operation.ts:61-93 | no element of a document is empty or has the identity ROOT |
| `DocumentOrder.BeforeTotal` | packages/crdt/src/replica.ts:493-507 | document order is total on attached elements |
| `DocumentOrder.ForkLess` | packages/crdt/src/replica.ts:83-122 | subtrees of ordered siblings stay in that order throughout |
| `Documents.DocumentUnique` | packages/crdt/src/replica.ts:83-122 | what is known determines what is shown |
| `Documents.InsertStep` | packages/crdt/src/replica.ts:268-295 | an insert newer than everything known appears directly after its anchor |
| `Documents.DeleteStep` | packages/crdt/src/replica.ts:190-201 | a delete removes its target from the document and nothing else |
| `PreOrder.PreOrderIsDocument` | packages/crdt/src/replica.ts:83-122 | the recursive walk over the sibling lists, deleted elements filtered and their descendants kept in place, shows exactly the document |
| `Texts.JoinExactly` | packages/crdt/src/replica.ts:77-81 | joining values gives the one text in which each stands where the lengths of the ones before it add up to |
| `Texts.JoinCut` | packages/crdt/src/replica.ts:77-81 | cutting that text at such a place cuts the values there |
| `PreOrder.SubtreeListing` | packages/crdt/src/replica.ts:110-118 | the subtree walk lists exactly what hangs under its root, in document order |
| `Traversal.TraversalStep` | packages/crdt/src/replica.ts:88-119 | popping a node and pushing its children in reverse visits nothing twice and misses nothing |
| `Operations.OperationIdInjective` | packages/crdt/src/operation.ts:28-30 | valid operations with one identity have one author and counter, even with colons in client ids, and no valid identity is ROOT |
| `Operations.IdentityExactly` | packages/crdt/src/operation.ts:28-30 | the made identity, and no other, reads as the client id, a colon and the decimal counter |
| `Operations.IdentityReadsOneWay` | packages/crdt/src/operation.ts:28-30 | an identity reads as one client id and one counter only, whatever colons it contains |
| `Operations.ValidExactly` | packages/crdt/src/operation.ts:61-93 | validation passes exactly the well-made operations |
| `Operations.KeyLessExactly` | packages/crdt/src/replica.ts:493-507 | the comparator puts first what stands first by Lamport value, code units of the client id and counter |
| `Operations.KeyLessTotal` | packages/crdt/src/replica.ts:493-507 | the sibling comparator separates any two different position keys |
| `Operations.KeyLessTransitive` | packages/crdt/src/replica.ts:493-507 | the sibling comparator is transitive |
| `Operations.ValidIdHasColon` | packages/crdt/src/operation.ts:61-93 | a valid identity contains a colon, so it is not ROOT |
| `JsStrings.LastColonSplit` | packages/crdt/src/operation.ts:28-30 | an identity splits unambiguously at its last colon |
| `JsStrings.StringLessExactly` | packages/crdt/src/replica.ts:509-515 | the first code unit where two strings differ decides, or the end of one of them |
| `JsStrings.StringLessTotal` | packages/crdt/src/replica.ts:509-515 | code-unit order is total |
| `JsStrings.DigitsExactly` | packages/crdt/src/operation.ts:28-30 | a counter prints as its decimal numeral, the one without a leading zero that a reader from left to right reads as that number |
| `JsStrings.DigitsInjective` | packages/crdt/src/operation.ts:28-30 | distinct counters print differently |
| `Snapshots.ExportCanonical` | packages/crdt/src/replica.ts:132-153 | two exports are equal exactly when the known operations are |
| `Snapshots.ListedSetUnique` | packages/crdt/src/replica.ts:342-490 | a snapshot lists at most one operation set |
| `SnapshotRestore.RestoreState` | packages/crdt/src/replica.ts:342-490 | restoring succeeds exactly for acceptable snapshots and gives the closed form of the described set; an identity conflict is thrown exactly when the first delete that cannot be read repeats an identity with another payload, any other refusal is an invalid snapshot |
| `SnapshotRestore.EntriesDecide` | packages/crdt/src/replica.ts:342-490 | for entries that pass the per-entry checks, acceptance is exactly attachment of every insert |
| `SnapshotRestore.ReadNodes` | packages/crdt/src/replica.ts:350-395 | the node loop accepts exactly valid entries with distinct identities |
| `SnapshotRestore.ReadDeletes` | packages/crdt/src/replica.ts:397-427 | the delete loop accepts exactly valid deletes of listed nodes with distinct identities; the first one that cannot be read decides the error |
| `SnapshotRestore.CheckLinks` | packages/crdt/src/replica.ts:429-447 | every anchor is listed and every tombstone flag matches the deletes |
| `SnapshotRestore.CheckAcyclic` | packages/crdt/src/replica.ts:588-633 | the colouring walk succeeds exactly when every node reaches ROOT, and colours at most as many nodes gray as there are |
| `SnapshotRestore.ColourFrom` | packages/crdt/src/replica.ts:588-633 | one walk towards ROOT ends; it proves every node it coloured attached, or some node not |
| `SnapshotRestore.BuildChildren` | packages/crdt/src/replica.ts:451-471 | grouping and sorting gives the ordered sibling lists |
| `TextEdit.ComputeLocalTextEdit` | apps/web/src/editor/text-edit.ts:11-59 | the two loops find the one edit that keeps as many leading elements as possible and then as many trailing ones, and none exactly if the values agree |
| `TextEdit.EditExactly` | apps/web/src/editor/text-edit.ts:11-59 | of any elements and values there is exactly one such edit, and the diff is it |
| `TextEdit.EditReplacesText` | apps/web/src/editor/text-edit.ts:38-59 | in the text the edit replaces one stretch, from where the kept leading elements end to where the kept trailing ones begin |
| `EditSemantics.TypedText` | apps/web/src/replica/local-document-controller.ts:267-300 | so after typing the text is the old one with that stretch replaced by what was inserted |
| `TextEdit.EditReaches` | apps/web/src/editor/text-edit.ts:11-59 | applied to the values the edit gives exactly the new values, and no edit means they already agree |
| `TextEdit.EditIsMinimal` | apps/web/src/editor/text-edit.ts:18-36 | no other single slice replacement deletes or inserts fewer elements |
| `TextEdit.EditOps` | apps/web/src/persistence/local-document-store.ts:354-397 | the allocated operations exist, one per target and value, with consecutive counters and Lamport values |
| `EditSemantics.WhatYouTyped` | apps/web/src/persistence/local-document-store.ts:354-397 | on a replica whose clock and counter are ahead, all operations of an edit are accepted and the visible values become exactly the new ones |
| `EditSemantics.EditApplies` | packages/crdt/src/replica.ts:39-122 | operations implementing a slice replacement put the new values exactly there |
| `EditSemantics.AllocatedFresh` | apps/web/src/persistence/local-document-store.ts:354-397 | allocated identities are distinct and nothing known mentions them |
| `EditSemantics.AllocatedValid` | apps/web/src/persistence/local-document-store.ts:369-397 | allocated operations pass validation while the counters stay in range |
| `EditSemantics.ValidMeansRoom` | packages/crdt/src/operation.ts:66-72 | if they pass validation, the counters were in range |
| `EditSemantics.StaysFresh` | apps/web/src/persistence/local-document-store.ts:354-397 | after an edit the next counter is fresh again |
| `EditSemantics.StaysAhead` | apps/web/src/persistence/local-document-store.ts:461-512 | a clock covering old and new Lamport values stays ahead |
| `LocalDocumentStores.LocalDocumentStore.Initialize` | apps/web/src/persistence/local-document-store.ts:87-142 | opening creates what is missing and keeps everything else |
| `StoreLaws.OpenedExactly` | apps/web/src/persistence/local-document-store.ts:87-142 | a new client starts with counter 1 and clock 0; opening changes nothing that is there, touches no other document, and a second time nothing at all |
| `StoreLaws.EligibleExactly` | apps/web/src/persistence/local-document-store.ts:190-200 | pristine is exactly a document of which the tables hold what they hold of one that was never there |
| `StoreLaws.AllocatedExactly` | apps/web/src/persistence/local-document-store.ts:354-397 | the operations of a persisted edit: identities and Lamport values count up one by one from the client's, deletes come first, each insert hangs on the one before it |
| `StoreLaws.EditedExactly` | apps/web/src/persistence/local-document-store.ts:399-422 | the tables afterwards: a row and a marker for each operation beside the old ones, the counter behind and the clock at the last of them, and nothing else |
| `StoreLaws.EditLeavesOthers` | apps/web/src/persistence/local-document-store.ts:330-432 | an edit touches no row, marker, cursor, baseline or checkpoint of another document |
| `StoreLaws.IngestedExactly` | apps/web/src/persistence/local-document-store.ts:434-531 | an ingest commits if and only if the batch and every operation in it pass; it leaves a row for each operation, their markers gone, the clock at the largest Lamport value seen, the cursor at the maximum, and nothing else |
| `StoreLaws.IngestAllExactly` | apps/web/src/persistence/local-document-store.ts:461-512 | operations are ingested together if and only if each is valid, none contradicts a row or a marker, and no two contradict each other |
| `StoreLaws.IngestErrorExactly` | apps/web/src/persistence/local-document-store.ts:461-512 | otherwise the first that cannot be ingested gives the error |
| `StoreLaws.IngestLeavesOthers` | apps/web/src/persistence/local-document-store.ts:434-531 | an ingest touches no other document |
| `StoreLaws.InstalledExactly` | apps/web/src/persistence/local-document-store.ts:257-328 | what an installed snapshot leaves: rows for its suffix, the snapshot as baseline, the cursor at the confirmed number, the clock at the largest Lamport value, no checkpoint, and nothing else |
| `StoreLaws.InstallLeavesOthers` | apps/web/src/persistence/local-document-store.ts:221-328 | an install touches no other document |
| `LocalDocumentStores.LocalDocumentStore.LoadOperations` | apps/web/src/persistence/local-document-store.ts:144-152 | exactly the recorded operations of the document, one for each row, in table order |
| `LocalDocumentStores.LocalDocumentStore.LoadPendingOperations` | apps/web/src/persistence/local-document-store.ts:158-179 | exactly the marked operations, one for each marker, by counter; fails exactly when some marker has no record, or one of another document, with that error |
| `LocalDocumentStores.LocalDocumentStore.IsSnapshotBootstrapEligible` | apps/web/src/persistence/local-document-store.ts:190-200 | exactly the pristine document is eligible |
| `LocalDocumentStores.LocalDocumentStore.PersistLocalTextEdit` | apps/web/src/persistence/local-document-store.ts:330-432 | all operations, markers and counters of an edit are written, or nothing with the exact error |
| `LocalDocumentStores.LocalDocumentStore.AllocateEdit` | apps/web/src/persistence/local-document-store.ts:354-397 | the two loops allocate exactly the operations of the edit, and stop exactly when one is invalid |
| `LocalDocumentStores.LocalDocumentStore.RecordEdit` | apps/web/src/persistence/local-document-store.ts:402-422 | bulk writes fail exactly on a taken or repeated key |
| `LocalDocumentStores.LocalDocumentStore.PersistServerOperations` | apps/web/src/persistence/local-document-store.ts:434-531 | a batch is ingested whole with the cursor at the maximum, or nothing changes |
| `LocalDocumentStores.LocalDocumentStore.InstallServerBaseline` | apps/web/src/persistence/local-document-store.ts:221-328 | succeeds exactly for a pristine document and a snapshot with suffix that resolves; then the tables are exactly the installed ones; otherwise nothing changes and the first failing check gives the error |
| `LocalDocumentStores.LocalDocumentStore.BuildBaseline` | apps/web/src/persistence/local-document-store.ts:227-246 | the replica built before the transaction, with the exact condition |
| `LocalStore.ValidateServerBatch` | apps/web/src/persistence/local-document-store.ts:548-575 | accepts exactly strictly increasing positive sequence numbers up to the confirmed one |
| `LocalStore.ValidateSnapshotSuffix` | apps/web/src/persistence/local-document-store.ts:577-604 | accepts exactly such a batch beyond a positive snapshot sequence |
| `LocalStore.MaxLamportFromSnapshot` | apps/web/src/persistence/local-document-store.ts:606-618 | the largest Lamport value of the entries, or 0 |
| `LocalStore.SnapshotLamportExactly` | apps/web/src/persistence/local-document-store.ts:606-618 | no entry exceeds it and, unless it is 0, some entry has it |
| `StoreFacts.IngestAllMeaning` | apps/web/src/persistence/local-document-store.ts:461-512 | a committed ingest merges the batch into the document, keeps identity and counter, and moves the clock to the largest of the old one and the ingested Lamport values |
| `StoreFacts.IngestAllOutbox` | apps/web/src/persistence/local-document-store.ts:465-505 | exactly the ingested identities leave the outbox |
| `StoreFacts.IngestAllRecords` | apps/web/src/persistence/local-document-store.ts:465-505 | records are the old ones and those of the batch |
| `StoreFacts.RecordedDoc` | apps/web/src/persistence/local-document-store.ts:402-422 | recording new operations merges them into the document |
| `LocalDocumentControllers.LocalDocumentController.Create` | apps/web/src/replica/local-document-controller.ts:78-151 | opening succeeds exactly when the tables agree with a resolved replica, and knows exactly that, whatever checkpoint is stored |
| `LocalDocumentControllers.LocalDocumentController.Restore` | apps/web/src/replica/local-document-controller.ts:110-125 | the restored replica agrees with the tables |
| `LocalDocumentControllers.LocalDocumentController.RestoreFromServerBaseline` | apps/web/src/replica/local-document-controller.ts:367-396 | succeeds exactly when baseline, cursor and log fit, and equals replaying the log over the snapshot |
| `LocalDocumentControllers.LocalDocumentController.RestoreReplica` | apps/web/src/replica/local-document-controller.ts:398-443 | for any checkpoint, even a corrupt or foreign one, the result is a fresh replay of the log |
| `LocalDocumentControllers.LocalDocumentController.RestoreCheckpoint` | apps/web/src/replica/local-document-controller.ts:402-424 | the fast path is taken exactly for a trusted checkpoint |
| `LocalDocumentControllers.OwnCheckpointTrusted` | apps/web/src/replica/local-document-controller.ts:331-353 | a checkpoint of logged operations is trusted whenever the log replays |
| `LocalDocumentControllers.LocalDocumentController.MaybeCreateCheckpoint` | apps/web/src/replica/local-document-controller.ts:331-353 | when exactly a checkpoint is written, and that nothing else changes |
| `LocalDocumentControllers.LocalDocumentController.ReplaceTextNow` | apps/web/src/replica/local-document-controller.ts:267-300 | the document reads exactly what was typed and tables, replica and returned operations are those of the edit, or nothing changed |
| `LocalDocumentControllers.LocalDocumentController.ApplyEdit` | apps/web/src/replica/local-document-controller.ts:286-294 | the replica never rejects what the tables took |
| `LocalDocumentControllers.LocalDocumentController.ApplyServerOperationsNow` | apps/web/src/replica/local-document-controller.ts:302-314 | tables, then replica; when exactly it fails, with which error, and what it leaves |
| `LocalDocumentControllers.LocalDocumentController.InstallServerSnapshotNow` | apps/web/src/replica/local-document-controller.ts:316-329 | the installed replica replaces the old one, or nothing changed, with the exact error |
| `LocalDocumentControllers.TypedEdit` | apps/web/src/replica/local-document-controller.ts:267-300 | a persisted edit is accepted, shown, and leaves tables and replica ready for the next edit |
| `RestoreSpec.CheckpointTransparent` | apps/web/src/replica/local-document-controller.ts:402-424 | a checkpoint that takes the whole log ends where a fresh replay ends |
| `RestoreSpec.ReloadRebuilds` | apps/web/src/replica/local-document-controller.ts:99-120 | replaying the log in any order over the baseline, or over nothing, rebuilds the in-memory replica |
| `RestoreSpec.EditKeepsSync` | apps/web/src/persistence/local-document-store.ts:330-432 | an edit keeps tables and replica in agreement |
| `RestoreSpec.IngestKeepsSync` | apps/web/src/persistence/local-document-store.ts:434-531 | an ingest keeps them in agreement |
| `RestoreSpec.InstallMakesSync` | apps/web/src/persistence/local-document-store.ts:221-328 | an installed baseline brings them into agreement |
| `OperationStores.OperationStore.AppendOperation` | apps/server/src/operation-store.ts:97-132 | a new operation gets a larger number than any before; a retry gets its old number; a conflict or an invalid operation changes nothing |
| `OperationStores.FindRow` | apps/server/src/operation-store.ts:100-106 | the row with an identity is found exactly when there is one, and is the only one |
| `OperationStores.BetweenSplit` | apps/server/src/operation-store.ts:138-172 | a range of the log splits at any sequence number inside it |
| `OperationStores.BetweenOrdered` | apps/server/src/operation-store.ts:138-155 | a range of the log is strictly increasing with one row per identity |
| `OperationStores.SyncBatchValid` | apps/server/src/operation-store.ts:138-155 | every sync batch passes the receiver's batch and suffix checks |
| `ServerSnapshots.ServerSnapshotManager.BuildSyncMessage` | apps/server/src/server-snapshot.ts:29-73 | the answer to a join: full history after the cursor, or an offered row with the operations after it |
| `ServerSnapshots.ServerSnapshotManager.PrepareSnapshotBootstrap` | apps/server/src/server-snapshot.ts:84-111 | when exactly a row is rebuilt at the barrier, reused, or not offered |
| `ServerSnapshots.AnswerExactly` | apps/server/src/server-snapshot.ts:29-111 | a new client is sent the snapshot that is cached afterwards with whatever it does not cover, never as many as a thousand operations unless the log leaves something unresolved; one is built only when that many are not covered, and then covers all |
| `ServerSnapshots.ServerSnapshotManager.LoadValidSnapshot` | apps/server/src/server-snapshot.ts:113-137 | exactly usable rows are served |
| `ServerSnapshots.ServerSnapshotManager.TryBuildSnapshot` | apps/server/src/server-snapshot.ts:139-184 | a row is built exactly when the log through the barrier replays and resolves, and stands for it |
| `ServerSnapshots.ServerSnapshotManager.ExportPrefixSnapshot` | apps/server/src/server-snapshot.ts:187-196 | exports exactly what a replay of the prefix knows |
| `ServerSnapshots.CacheOkInEveryRun` | apps/server/src/server-snapshot.ts:29-111 | in every run of appends and joins each cached snapshot is the export of its log through its sequence number |
| `ServerSnapshots.AppendKeepsCache` | apps/server/src/operation-store.ts:97-132 | an append does not change what a cached row stands for |
| `ServerSnapshots.JoinKeepsCache` | apps/server/src/server-snapshot.ts:29-73 | answering a join keeps the log and the meaning of the cache |
| `ServerSnapshots.SnapshotEqualsHistory` | apps/server/src/server-snapshot.ts:46-72 | cached snapshot plus the rows after it through any later one gives the state, or the rejection, of replaying the log that far, whatever was submitted |
| `ServerSnapshots.BootstrapIsHistory` | apps/web/src/persistence/local-document-store.ts:221-246 | a client accepts a bootstrap exactly when the log through the barrier replays and resolves, and ends up knowing exactly that part of it |
| `SelectionAnchors.OffsetToElementIndex` | apps/web/src/editor/selection-anchor.ts:38-60 | the first element boundary at or past the offset |
| `SelectionAnchors.ElementIndexToOffset` | apps/web/src/editor/selection-anchor.ts:62-74 | the length of the text before a boundary, with indices clamped |
| `SelectionAnchors.OffsetCutsText` | apps/web/src/editor/selection-anchor.ts:38-74 | cutting the text at the offset of a boundary cuts it between the elements |
| `SelectionAnchors.UnchangedSelection` | apps/web/src/editor/selection-anchor.ts:91-161 | with nothing changed in between, a captured selection resolves to the element boundaries at or past its ends |
| `SelectionAnchors.IndexRoundTrip` | apps/web/src/editor/selection-anchor.ts:38-74 | index to offset to index is the identity when no value is empty |
| `SelectionAnchors.TrailFrom` | apps/web/src/editor/selection-anchor.ts:76-89 | the nearest 32 predecessors, or all there are, nearest first, then ROOT |
| `SelectionAnchors.CaptureSelectionAnchor` | apps/web/src/editor/selection-anchor.ts:91-109 | trails and preceding elements are those at the boundaries of the offsets, and the direction is kept |
| `SelectionAnchors.ResolveTrailOffset` | apps/web/src/editor/selection-anchor.ts:111-138 | the offset after the first trail entry still there |
| `SelectionAnchors.ResolveSelectionAnchor` | apps/web/src/editor/selection-anchor.ts:146-161 | both offsets in order, or nothing when one trail does not resolve |
| `SelectionAnchors.CaretStability` | apps/web/src/editor/selection-anchor.ts:91-161 | after any further operations the resolved caret separates the surviving old elements as before, exactly when a captured predecessor survives or no older one does |

## Left out

- TextReplicas.TextReplica.ApplyDelete: a tombstone replaces the node's entry in the map instead of a field of a shared node object; no code holds a node across calls.
- LocalDocumentStores.LocalDocumentStore.LoadOperations: the order of the rows is left open, as no code sorts them; all results hold for every order.
- SyncTheorems.TypedIsShown: typing stops where the counters leave the safe integers, the bound that validation enforces.
- SyncReach.EveryoneCanCatchUp: says that a continuation exists in which everybody catches up; that connections do stay up long enough, and closed documents are opened, is not modelled.
- Snapshot shape checks on untyped JSON, numbers that are not integers, and JSON encoding: values are well typed here.
- Grapheme segmentation: the new text is a list of non-empty values.
- Presence, telemetry, metrics, logging, titles, timestamps, demo clients and React components.
- Session and room bookkeeping of the server and the fields of the sync client: they are steps of the state machine, not classes.
- Reconnect timers, back-off, status flags and the failure counters of the sync client: connecting is possible at any time.
- When exactly a client submits within a connection: it may submit any recorded operation of its own at any time.
- Several documents on one server in the state machine: they appear as skipped row numbers and advanced client clocks.
- Two tabs on one browser identity: one controller per client id.
- Messages that are handled after their document was closed: closing drops the queue.
- Storage failures in the middle of a transaction: a transaction commits or changes nothing; closing after a commit loses the in-memory half.
- Schema migrations, configuration, origin checks, heartbeats and shutdown.
