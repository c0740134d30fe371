/** The controller keeps one in-memory replica in step with the durable tables. */
module LocalDocumentControllers {
  import opened Wrappers
  import opened JsStrings
  import opened Operations
  import opened AnchorGraph
  import opened Convergence
  import opened Documents
  import opened EditSemantics
  import opened LocalDocumentStores
  import opened LocalStore
  import opened Replays
  import opened RestoreSpec
  import opened Snapshots
  import opened StoreFacts
  import opened TextEdit
  import opened TextReplicas

  datatype ControllerError = StoreFailed(error: StoreError) | ReplicaFailed | BaselineInvalid | Unresolved

  /** The tables allow the next local edit: the counter is fresh, the clock ahead. */
  ghost predicate Typable(db: Database, doc: DocId, K: OpMap) {
    && db.clientMeta.Some? && doc in db.documents
    && ClockAhead(K, db.clientMeta.value.lamportClock)
    && FreshFrom(K, db.clientMeta.value.clientId, db.clientMeta.value.nextCounter)
  }

  ghost predicate SameButCheckpoints(db: Database, db': Database) {
    db == db'.(replicaSnapshots := db.replicaSnapshots)
  }

  ghost predicate WritesCheckpoint(db: Database, doc: DocId, K: OpMap, db': Database) {
    exists snap ::
      IsExport(snap, K) && db' == db.(replicaSnapshots := db.replicaSnapshots[doc := Checkpoint(snap, |K|)])
  }

  function CheckpointOf(db: Database, doc: DocId): Option<Checkpoint> {
    if doc in db.replicaSnapshots then Some(db.replicaSnapshots[doc]) else None
  }

  /** A checkpoint that a restore takes: an acceptable snapshot of as many operations
      as recorded, all of them in the log, that the whole log extends. */
  ghost predicate Trusted(checkpoint: Checkpoint, operations: seq<Operation>) {
    && Acceptable(checkpoint.snapshot)
    && forall K | Describes(checkpoint.snapshot, K) ::
         && |K| == checkpoint.knownOperationCount
         && (forall x | x in K :: exists o :: o in operations && o.opId == x)
         && Replay(K, operations).ok
  }

  ghost function TrustedCount(checkpoint: Option<Checkpoint>, operations: seq<Operation>): int {
    if checkpoint.Some? && Trusted(checkpoint.value, operations) then checkpoint.value.knownOperationCount else 0
  }

  /** A checkpoint of some of the logged operations is trusted whenever the log itself
      replays. */
  lemma {:induction false} OwnCheckpointTrusted(K: OpMap, snap: Snapshot, operations: seq<Operation>)
    requires WellFormed(K) && Resolved(K) && IsExport(snap, K)
    requires (forall x | x in K :: K[x] in operations) && Replay(map[], operations).ok
    ensures Trusted(Checkpoint(snap, |K|), operations)
  {
    EmptyWellFormed();
    ReplayAccepts(map[], operations);
    assert OnePayload(K, operations);
    MergeOfLog(K, operations);
    ReplayAccepts(K, operations);
    DescribedUnique(snap, K);
  }

  /** The result of an edit, with the tables and the known operations it leaves:
      no edit and a refused edit change nothing. */
  ghost predicate EditOutcome(db: Database, doc: DocId, K: OpMap, edit: Option<LocalTextEdit>,
          r: Result<seq<Operation>, ControllerError>, db': Database, K': OpMap)
  {
    match edit
    case None => r == Success([]) && db' == db && K' == K
    case Some(e) =>
      var error := EditError(db, doc, e);
      if error.Some? then r == Failure(StoreFailed(error.value)) && db' == db && K' == K
      else
        && r == Success(EditedOps(db, e))
        && SameButCheckpoints(db', Edited(db, doc, e)) && K' == Replay(K, EditedOps(db, e)).known
  }

  class LocalDocumentController {
    const store: LocalDocumentStore
    const documentId: DocId
    const snapshotInterval: int
    var replica: TextReplica
    var hasServerBaseline: bool
    var lastSnapshotOperationCount: int

    ghost predicate Valid()
      reads this, store, replica
    {
      && replica.Valid()
      && Synced(store.database, documentId, replica.knownOperations)
      && (hasServerBaseline <==> documentId in store.database.serverBaselines)
    }

    constructor (store: LocalDocumentStore, replica: TextReplica, documentId: DocId, snapshotInterval: int,
            hasServerBaseline: bool)
      ensures this.store == store && this.replica == replica && this.documentId == documentId
      ensures this.hasServerBaseline == hasServerBaseline && this.snapshotInterval == snapshotInterval
    {
      this.store, this.replica, this.documentId := store, replica, documentId;
      this.snapshotInterval, this.hasServerBaseline := snapshotInterval, hasServerBaseline;
      this.lastSnapshotOperationCount := 0;
    }

    /** Opens a document. Whenever the tables agree with some resolved replica, the
        opened one knows exactly the same, whatever checkpoint is stored. */
    static method Create(store: LocalDocumentStore, documentId: DocId, newClientId: JsString, snapshotInterval: int,
            checkpointFails: bool)
      returns (r: Result<LocalDocumentController, ControllerError>)
      requires Filed(store.database)
      modifies store
      ensures r.Success? ==> fresh(r.value) && r.value.store == store && fresh(r.value.replica) && r.value.Valid()
      ensures var K := KnownOf(old(store.database), documentId);
        && (r.Success? <==> Synced(old(store.database), documentId, K) && Resolved(K))
        && (r.Success? ==> r.value.replica.knownOperations == K)
      ensures SameButCheckpoints(store.database, Opened(old(store.database), documentId, newClientId))
    {
      ghost var db0 := store.database;
      var meta := store.Initialize(documentId, newClientId);
      ghost var db := store.database;
      InitializeKeeps(db0, db, documentId);
      var operations := store.LoadOperations(documentId);
      var restored, lastSnapshotOperationCount := Restore(store.database, documentId, operations);
      if restored.Failure? { return Failure(restored.error); }
      var replica := restored.value;
      var unresolved := replica.GetUnresolvedOperationIds();
      if unresolved != [] { return Failure(Unresolved); }
      var controller := new LocalDocumentController(store, replica, documentId, snapshotInterval,
                                                    documentId in store.database.serverBaselines);
      controller.lastSnapshotOperationCount := lastSnapshotOperationCount;
      controller.MaybeCreateCheckpoint(checkpointFails);
      return Success(controller);
    }

    /** The restore step of opening: over the baseline, or from the log. */
    static method Restore(db: Database, doc: DocId, operations: seq<Operation>)
      returns (r: Result<TextReplica, ControllerError>, lastSnapshotOperationCount: int)
      requires Filed(db) && IsLog(db, doc, operations)
      ensures r.Success? ==> fresh(r.value) && r.value.Valid() && Synced(db, doc, r.value.knownOperations)
      ensures var K := KnownOf(db, doc); Synced(db, doc, K) ==> r.Success? && r.value.knownOperations == K
      ensures r.Success? && doc in db.serverBaselines ==> lastSnapshotOperationCount == 0
      ensures r.Success? && doc !in db.serverBaselines ==>
        lastSnapshotOperationCount == TrustedCount(CheckpointOf(db, doc), operations)
    {
      lastSnapshotOperationCount := 0;
      if doc in db.serverBaselines {
        r := RestoreFromServerBaseline(db.serverBaselines[doc], operations, LastServerSeq(db, doc));
        if r.Success? { BaselineRestoreSynced(db, doc, operations); }
        if Synced(db, doc, KnownOf(db, doc)) { SyncedRestores(db, doc, operations); }
      } else {
        r, lastSnapshotOperationCount := RestoreReplica(operations, CheckpointOf(db, doc));
        LogRestoreSynced(db, doc, operations);
      }
    }

    static method RestoreFromServerBaseline(baseline: Baseline, operations: seq<Operation>, lastServerSeq: int)
      returns (r: Result<TextReplica, ControllerError>)
      ensures r.Success? <==> BaselineRestores(baseline, operations, lastServerSeq)
      ensures r.Success? ==> fresh(r.value) && r.value.Valid()
      ensures r.Success? ==> forall K0 | Describes(baseline.snapshot, K0) ::
        r.value.knownOperations == Replay(K0, operations).known
    {
      if !IsPositiveSafe(baseline.snapshotSeq) { return Failure(BaselineInvalid); }
      if lastServerSeq > MAX_SAFE_INTEGER || lastServerSeq < baseline.snapshotSeq { return Failure(BaselineInvalid); }
      var restored := TextReplica.FromSnapshot(baseline.snapshot);
      if restored.Failure? { return Failure(BaselineInvalid); }
      DescribedUnique(baseline.snapshot, restored.value.knownOperations);
      var error := restored.value.ApplyAll(operations);
      if error.Some? { return Failure(BaselineInvalid); }
      return Success(restored.value);
    }

    /** Whatever the stored checkpoint is, even a corrupt or a foreign one, the
        result is that of replaying the log into an empty replica. */
    static method RestoreReplica(operations: seq<Operation>, checkpoint: Option<Checkpoint>)
      returns (r: Result<TextReplica, ControllerError>, lastSnapshotOperationCount: int)
      ensures r.Success? <==> Replay(map[], operations).ok
      ensures r.Success? ==> fresh(r.value) && r.value.Valid()
      ensures r.Success? ==> r.value.knownOperations == Replay(map[], operations).known
      ensures r.Success? ==> lastSnapshotOperationCount == TrustedCount(checkpoint, operations)
    {
      if checkpoint.Some? {
        var trusted := RestoreCheckpoint(operations, checkpoint.value);
        if trusted.Some? {
          return Success(trusted.value), checkpoint.value.knownOperationCount;
        }
      }
      var replica := new TextReplica();
      var error := replica.ApplyAll(operations);
      if error.Some? { return Failure(ReplicaFailed), 0; }
      return Success(replica), 0;
    }

    /** The guarded fast path through a checkpoint; any doubt discards it. */
    static method RestoreCheckpoint(operations: seq<Operation>, checkpoint: Checkpoint) returns (r: Option<TextReplica>)
      ensures r.Some? <==> Trusted(checkpoint, operations)
      ensures r.Some? ==> fresh(r.value) && r.value.Valid() && Replay(map[], operations).ok
      ensures r.Some? ==> r.value.knownOperations == Replay(map[], operations).known
    {
      var restored := TextReplica.FromSnapshot(checkpoint.snapshot);
      if restored.Failure? { return None; }
      var replica := restored.value;
      DescribedUnique(checkpoint.snapshot, replica.knownOperations);
      if replica.GetKnownOperationCount() != checkpoint.knownOperationCount { return None; }
      var ids := replica.GetKnownOperationIds();
      var contained := AllLogged(ids, operations);
      if !contained { return None; }
      ghost var K0 := replica.knownOperations;
      assert forall x | x in K0 :: x in ids;
      var error := replica.ApplyAll(operations);
      if error.Some? { return None; }
      CheckpointTransparent(K0, operations);
      return Some(replica);
    }

    static method AllLogged(ids: seq<Id>, operations: seq<Operation>) returns (ok: bool)
      ensures ok <==> forall x | x in ids :: exists o :: o in operations && o.opId == x
    {
      var canonicalIds := set o | o in operations :: o.opId;
      for i := 0 to |ids|
        invariant forall k | 0 <= k < i :: ids[k] in canonicalIds
      {
        if ids[i] !in canonicalIds {
          assert ids[i] in ids;
          return false;
        }
      }
      ok := true;
    }

    /** Writes a checkpoint when enough operations were learned since the last one and
        nothing is pending. The write may fail, and a baseline makes it pointless. */
    method MaybeCreateCheckpoint(checkpointFails: bool)
      requires Valid()
      modifies this`lastSnapshotOperationCount, store
      ensures Valid()
      ensures SameButCheckpoints(store.database, old(store.database))
      ensures if !checkpointFails && !hasServerBaseline && Resolved(replica.knownOperations)
                 && |replica.knownOperations| - old(lastSnapshotOperationCount) >= snapshotInterval
              then lastSnapshotOperationCount == |replica.knownOperations|
                   && WritesCheckpoint(old(store.database), documentId, replica.knownOperations, store.database)
              else
                && lastSnapshotOperationCount == old(lastSnapshotOperationCount)
                && store.database == old(store.database)
    {
      if hasServerBaseline { return; }
      var unresolved := replica.GetUnresolvedOperationIds();
      if unresolved != [] { return; }
      var knownOperationCount := replica.GetKnownOperationCount();
      if knownOperationCount - lastSnapshotOperationCount < snapshotInterval { return; }
      var snapshot := replica.ExportSnapshot();
      if snapshot.Failure? || checkpointFails { return; }
      ghost var db := store.database;
      store.SaveReplicaSnapshot(documentId, snapshot.value, knownOperationCount);
      SyncIgnoresCheckpoints(db, store.database, documentId, replica.knownOperations);
      lastSnapshotOperationCount := knownOperationCount;
    }

    /** What was typed is what is shown, or nothing changed at all. */
    method ReplaceTextNow(next: seq<JsString>, checkpointFails: bool)
      returns (r: Result<seq<Operation>, ControllerError>)
      requires Valid() && Typable(store.database, documentId, replica.knownOperations)
      requires forall v | v in next :: !IsEmpty(v)
      modifies this`lastSnapshotOperationCount, store, replica
      ensures Valid() && Typable(store.database, documentId, replica.knownOperations)
      ensures r.Success? ==> Values(DocumentOf(replica.knownOperations)) == next
      ensures r.Failure? ==> store.database == old(store.database) && replica.State() == old(replica.State())
      ensures EditOutcome(old(store.database), documentId, old(replica.knownOperations),
                          EditBetween(DocumentOf(old(replica.knownOperations)), next),
                          r, store.database, replica.knownOperations)
    {
      ghost var K := replica.knownOperations;
      var cur := replica.GetVisibleElements();
      DocumentUnique(K, cur, DocumentOf(K));
      var edit := ComputeLocalTextEdit(cur, next);
      if edit.None? {
        var p, e := EditReaches(cur, next);
        return Success([]);
      }
      r := ApplyEdit(cur, next, edit.value);
      if r.Success? { MaybeCreateCheckpoint(checkpointFails); }
    }

    /** The durable half of typing, then the in-memory half; the replica never
        rejects what the tables took. */
    method ApplyEdit(ghost cur: seq<VisibleElement>, ghost next: seq<JsString>, edit: LocalTextEdit)
      returns (r: Result<seq<Operation>, ControllerError>)
      requires Valid() && Typable(store.database, documentId, replica.knownOperations)
      requires IsDocument(replica.knownOperations, cur) && EditBetween(cur, next) == Some(edit)
      requires forall v | v in next :: !IsEmpty(v)
      modifies store, replica
      ensures Valid() && Typable(store.database, documentId, replica.knownOperations)
      ensures r.Success? ==> Values(DocumentOf(replica.knownOperations)) == next
      ensures EditOutcome(old(store.database), documentId, old(replica.knownOperations), Some(edit),
                          r, store.database, replica.knownOperations)
      ensures r.Failure? ==> store.database == old(store.database) && replica.State() == old(replica.State())
    {
      ghost var db := store.database;
      var persisted := store.PersistLocalTextEdit(documentId, edit);
      if persisted.Failure? { return Failure(StoreFailed(persisted.error)); }
      EditTaken(db, documentId, replica.knownOperations, cur, next, edit);
      ApplyPersisted(persisted.value);
      return Success(persisted.value);
    }

    /** The in-memory half, which the replica never rejects. */
    method ApplyPersisted(ops: seq<Operation>)
      requires replica.Valid() && Replay(replica.knownOperations, ops).ok
      modifies replica
      ensures replica.Valid() && replica.knownOperations == Replay(old(replica.knownOperations), ops).known
    {
      var error := replica.ApplyAll(ops);
      if error.Some? { assert false; }
    }

    /** Ingests a server batch into the tables, then into the replica. */
    method ApplyServerOperationsNow(batch: seq<Sequenced>, confirmed: int, checkpointFails: bool)
      returns (e: Option<ControllerError>)
      requires Valid()
      modifies this`lastSnapshotOperationCount, store, replica
      ensures replica.Valid()
      ensures e.None? <==> Ingested(old(store.database), documentId, batch, confirmed).Success?
                           && Replay(old(replica.knownOperations), OpsOf(batch)).ok
      ensures e.None? ==> Valid()
      ensures e.Some? ==> var ingested := Ingested(old(store.database), documentId, batch, confirmed);
        e.value == if ingested.Failure? then StoreFailed(ingested.error) else ReplicaFailed
      ensures Ingested(old(store.database), documentId, batch, confirmed).Failure? ==>
        store.database == old(store.database) && replica.State() == old(replica.State())
      ensures Ingested(old(store.database), documentId, batch, confirmed).Success? ==>
        && SameButCheckpoints(store.database, Ingested(old(store.database), documentId, batch, confirmed).value)
        && replica.knownOperations == Replay(old(replica.knownOperations), OpsOf(batch)).known
    {
      ghost var K, db := replica.knownOperations, store.database;
      var failed := store.PersistServerOperations(documentId, batch, confirmed);
      if failed.Some? { return Some(StoreFailed(failed.value)); }
      var error := replica.ApplyAll(OpsOf(batch));
      if error.Some? { return Some(ReplicaFailed); }
      IngestKeepsSync(db, documentId, K, batch, confirmed);
      IngestKeepsBaselines(db, documentId, batch, confirmed);
      MaybeCreateCheckpoint(checkpointFails);
      return None;
    }

    /** Replaces a pristine replica by the installed server snapshot and suffix. */
    method InstallServerSnapshotNow(boot: Bootstrap, batch: seq<Sequenced>, confirmed: int)
      returns (e: Option<ControllerError>)
      requires Valid()
      modifies this`replica, this`hasServerBaseline, store
      ensures Valid()
      ensures e.None? <==> Installable(old(store.database), documentId, boot, batch, confirmed)
      ensures e.None? ==> store.database == Installed(old(store.database), documentId, boot, batch, confirmed)
      ensures e.None? ==> exists K0 :: Bootstraps(boot, batch, confirmed, K0, replica.knownOperations)
      ensures e.Some? ==> store.database == old(store.database) && replica == old(replica)
      ensures e.Some? ==> var error := InstallError(old(store.database), documentId, boot, batch, confirmed);
        error.Some? && e == Some(StoreFailed(error.value))
    {
      ghost var db := store.database;
      var installed := store.InstallServerBaseline(documentId, boot, batch, confirmed);
      if installed.Failure? { return Some(StoreFailed(installed.error)); }
      InstallSynced(db, documentId, boot, batch, confirmed, installed.value.knownOperations);
      replica := installed.value;
      hasServerBaseline := true;
      return None;
    }
  }

  // ----- why the steps keep the controller in agreement

  lemma InitializeKeeps(db0: Database, db: Database, doc: DocId)
    requires Filed(db0) && db.operations == db0.operations && db.serverBaselines == db0.serverBaselines
    requires LastServerSeq(db, doc) == LastServerSeq(db0, doc)
    ensures KnownOf(db, doc) == KnownOf(db0, doc)
    ensures forall K :: Synced(db0, doc, K) <==> Synced(db, doc, K)
  {
    assert DocOps(db, doc) == DocOps(db0, doc);
    SameBaseline(db0, db, doc);
  }

  lemma SameBaseline(db0: Database, db: Database, doc: DocId)
    requires db.serverBaselines == db0.serverBaselines
    ensures BaselineOps(db, doc) == BaselineOps(db0, doc)
  {
    if doc in db.serverBaselines && exists K :: Describes(db.serverBaselines[doc].snapshot, K) {
      var K :| Describes(db.serverBaselines[doc].snapshot, K);
      BaselineOpsAre(db, doc, K);
      BaselineOpsAre(db0, doc, K);
    }
  }

  lemma SyncIgnoresCheckpoints(db0: Database, db: Database, doc: DocId, K: OpMap)
    requires Synced(db0, doc, K) && db == db0.(replicaSnapshots := db.replicaSnapshots)
    ensures Synced(db, doc, K)
  {
    InitializeKeeps(db0, db, doc);
  }

  lemma InstallSynced(db: Database, doc: DocId, boot: Bootstrap, batch: seq<Sequenced>, confirmed: int, K: OpMap)
    requires Filed(db) && Installable(db, doc, boot, batch, confirmed)
    requires exists K0 :: Bootstraps(boot, batch, confirmed, K0, K)
    ensures Synced(Installed(db, doc, boot, batch, confirmed), doc, K)
  {
    var K0 :| Bootstraps(boot, batch, confirmed, K0, K);
    InstallMakesSync(db, doc, boot, batch, confirmed, K0, K);
  }

  lemma IngestKeepsBaselines(db: Database, doc: DocId, batch: seq<Sequenced>, confirmed: int)
    requires Filed(db) && Ingested(db, doc, batch, confirmed).Success?
    ensures Ingested(db, doc, batch, confirmed).value.serverBaselines == db.serverBaselines
    ensures LastServerSeq(Ingested(db, doc, batch, confirmed).value, doc) == Max(LastServerSeq(db, doc), confirmed)
  {
    IngestAllMeaning(db, doc, OpsOf(batch));
  }

  /** A persisted edit is accepted by the replica, shows exactly what was typed,
      and leaves tables and replica ready for the next edit. */
  lemma {:induction false} TypedEdit(db: Database, doc: DocId, K: OpMap, cur: seq<VisibleElement>, next: seq<JsString>,
          edit: LocalTextEdit)
    requires Synced(db, doc, K) && Typable(db, doc, K) && IsDocument(K, cur)
    requires EditBetween(cur, next) == Some(edit) && EditError(db, doc, edit).None?
    requires forall v | v in next :: !IsEmpty(v)
    ensures Replay(K, EditedOps(db, edit)).ok
    ensures var K' := Replay(K, EditedOps(db, edit)).known;
      && Synced(Edited(db, doc, edit), doc, K') && Typable(Edited(db, doc, edit), doc, K')
      && Values(DocumentOf(K')) == next
  {
    var m := db.clientMeta.value;
    EditNotEmpty(cur, next, edit);
    ValidMeansRoom(m.clientId, m.nextCounter, m.lamportClock, edit);
    WhatYouTyped(K, cur, next, edit, m.clientId, m.nextCounter, m.lamportClock);
    EditKeepsSync(db, doc, K, edit);
    EditKeepsTypable(db, doc, K, cur, next, edit);
  }

  /** The replica takes the edit too, agrees with the tables and shows what was typed. */
  ghost predicate Takes(db: Database, doc: DocId, K: OpMap, edit: LocalTextEdit, next: seq<JsString>) {
    var r := Replay(K, EditedOps(db, edit));
    && r.ok && Synced(Edited(db, doc, edit), doc, r.known) && Typable(Edited(db, doc, edit), doc, r.known)
    && Values(DocumentOf(r.known)) == next
    && (doc in Edited(db, doc, edit).serverBaselines <==> doc in db.serverBaselines)
  }

  lemma EditTaken(db: Database, doc: DocId, K: OpMap, cur: seq<VisibleElement>, next: seq<JsString>,
          edit: LocalTextEdit)
    requires Synced(db, doc, K) && Typable(db, doc, K) && IsDocument(K, cur)
    requires EditBetween(cur, next) == Some(edit) && EditError(db, doc, edit).None?
    requires forall v | v in next :: !IsEmpty(v)
    ensures Takes(db, doc, K, edit, next)
  {
    TypedEdit(db, doc, K, cur, next, edit);
  }

  lemma {:induction false} EditKeepsTypable(db: Database, doc: DocId, K: OpMap, cur: seq<VisibleElement>,
          next: seq<JsString>, edit: LocalTextEdit)
    requires WellFormed(K) && Typable(db, doc, K) && IsDocument(K, cur)
    requires EditBetween(cur, next) == Some(edit) && Replay(K, EditedOps(db, edit)).ok
    ensures Typable(Edited(db, doc, edit), doc, Replay(K, EditedOps(db, edit)).known)
  {
    var m := db.clientMeta.value;
    EditNotEmpty(cur, next, edit);
    EditedMeta(db, doc, edit);
    AheadAfterEdit(K, cur, next, edit, m.clientId, m.nextCounter, m.lamportClock);
  }

  lemma {:induction false} AheadAfterEdit(K: OpMap, cur: seq<VisibleElement>, next: seq<JsString>, edit: LocalTextEdit,
          clientId: JsString, counter: int, lamport: int)
    requires WellFormed(K) && IsDocument(K, cur) && EditBetween(cur, next) == Some(edit)
    requires FreshFrom(K, clientId, counter) && ClockAhead(K, lamport)
    requires Replay(K, EditOps(clientId, counter, lamport, edit)).ok
    ensures FreshFrom(Replay(K, EditOps(clientId, counter, lamport, edit)).known, clientId, counter + EditSize(edit))
    ensures ClockAhead(Replay(K, EditOps(clientId, counter, lamport, edit)).known, lamport + EditSize(edit))
  {
    EditNamesPast(K, cur, next, edit, clientId, counter, lamport);
    EditLamports(clientId, counter, lamport, edit);
    AheadAfterReplay(K, EditOps(clientId, counter, lamport, edit), clientId, counter, EditSize(edit), lamport);
  }

  lemma EditedMeta(db: Database, doc: DocId, edit: LocalTextEdit)
    requires db.clientMeta.Some? && EditSize(edit) > 0
    ensures var m := db.clientMeta.value;
      Edited(db, doc, edit).clientMeta ==
        Some(ClientMeta(m.clientId, m.nextCounter + EditSize(edit), m.lamportClock + EditSize(edit)))
    ensures Edited(db, doc, edit).documents == db.documents
  {
    assert |EditedOps(db, edit)| == EditSize(edit);
    assert Edited(db, doc, edit) == WithEdit(db, doc, db.clientMeta.value, EditedOps(db, edit));
  }

  lemma EditNotEmpty(cur: seq<VisibleElement>, next: seq<JsString>, edit: LocalTextEdit)
    requires EditBetween(cur, next) == Some(edit)
    ensures EditSize(edit) > 0
  {}

  lemma EditNamesPast(K: OpMap, cur: seq<VisibleElement>, next: seq<JsString>, edit: LocalTextEdit, clientId: JsString,
          counter: int, lamport: int)
    requires WellKeyed(K) && IsDocument(K, cur) && EditBetween(cur, next) == Some(edit)
    requires FreshFrom(K, clientId, counter)
    ensures NotFuture(EditOps(clientId, counter, lamport, edit), clientId, counter + EditSize(edit))
  {
    var p, e := EditReaches(cur, next);
    EditNamesOlder(K, cur, edit, p, e, clientId, counter);
    AllocatedNotFuture(clientId, counter, lamport, edit);
  }

  lemma EditLamports(clientId: JsString, counter: int, lamport: int, edit: LocalTextEdit)
    ensures forall o | o in EditOps(clientId, counter, lamport, edit) :: o.lamport <= lamport + EditSize(edit)
  {
    var ops := EditOps(clientId, counter, lamport, edit);
    forall o | o in ops ensures o.lamport <= lamport + EditSize(edit) {
      var i :| 0 <= i < |ops| && ops[i] == o;
      assert OpAt(clientId, counter, lamport, edit, i).lamport == lamport + 1 + i;
    }
  }

  lemma {:induction false} AheadAfterReplay(K: OpMap, ops: seq<Operation>, clientId: JsString, counter: int, n: nat,
          lamport: int)
    requires WellFormed(K) && Replay(K, ops).ok && FreshFrom(K, clientId, counter) && ClockAhead(K, lamport)
    requires NotFuture(ops, clientId, counter + n) && forall o | o in ops :: o.lamport <= lamport + n
    ensures FreshFrom(Replay(K, ops).known, clientId, counter + n) && ClockAhead(Replay(K, ops).known, lamport + n)
  {
    ReplayAccepts(K, ops);
    StaysFresh(K, ops, clientId, counter, counter + n);
    StaysAhead(K, ops, lamport, lamport + n);
  }
}
