/** The local document store: each method is one transaction of the browser's
    database, proved against the table functions of LocalStore. */
module LocalDocumentStores {
  import opened Wrappers
  import opened JsStrings
  import opened Operations
  import opened AnchorGraph
  import opened LocalStore
  import opened Replays
  import opened Snapshots
  import opened TextEdit
  import opened TextReplicas

  /** In the order in which their author allocated them. */
  ghost predicate ByCounter(ops: seq<Operation>) {
    forall i, j | 0 <= i < j < |ops| :: ops[i].counter <= ops[j].counter
  }

  function RowsOfDocument(db: Database, doc: DocId): set<Id> {
    set x | x in db.operations && db.operations[x].documentId == doc
  }

  function MarkersOf(db: Database, doc: DocId): set<Id> {
    set x | x in db.outbox && db.outbox[x] == doc
  }

  /** Those of the rows that hold this operation. */
  function RowsWith(db: Database, rows: set<Id>, op: Operation): set<Id> {
    set x | x in rows && x in db.operations && db.operations[x].operation == op
  }

  /** Why a marker cannot be served. */
  function PendingError(db: Database, doc: DocId, x: Id): Option<StoreError> {
    if x !in db.operations then Some(MissingRecord)
    else if db.operations[x].documentId != doc then Some(Conflict)
    else None
  }

  lemma AnotherRow(db: Database, rows: set<Id>, x: Id, ops: seq<Operation>, longer: seq<Operation>)
    requires x !in rows && x in db.operations
      && multiset(longer) == multiset(ops) + multiset{db.operations[x].operation}
    requires forall op :: multiset(ops)[op] == |RowsWith(db, rows, op)|
    ensures forall op :: multiset(longer)[op] == |RowsWith(db, rows + {x}, op)|
  {
    forall op ensures multiset(longer)[op] == |RowsWith(db, rows + {x}, op)| {
      if op == db.operations[x].operation {
        assert RowsWith(db, rows + {x}, op) == RowsWith(db, rows, op) + {x};
      } else {
        assert RowsWith(db, rows + {x}, op) == RowsWith(db, rows, op);
      }
    }
  }

  lemma LoadedRows(db: Database, doc: DocId, ops: seq<Operation>)
    requires forall op :: multiset(ops)[op] == |RowsWith(db, RowsOfDocument(db, doc), op)|
    ensures forall op :: op in ops <==> exists x :: x in db.operations && db.operations[x] == OperationRecord(doc, op)
  {
    forall op ensures op in ops <==> exists x :: x in db.operations && db.operations[x] == OperationRecord(doc, op) {
      var rows := RowsWith(db, RowsOfDocument(db, doc), op);
      assert op in ops <==> multiset(ops)[op] > 0;
      if op in ops { var x :| x in rows; }
      if x :| x in db.operations && db.operations[x] == OperationRecord(doc, op) { assert x in rows; }
    }
  }

  class LocalDocumentStore {
    var database: Database

    constructor (database: Database)
      ensures this.database == database
    {
      this.database := database;
    }

    /** Creates what is missing and leaves everything else alone. */
    method Initialize(doc: DocId, newClientId: JsString) returns (meta: ClientMeta)
      modifies this
      ensures database == Opened(old(database), doc, newClientId) && database.clientMeta == Some(meta)
    {
      meta := if database.clientMeta.Some? then database.clientMeta.value else ClientMeta(newClientId, 1, 0);
      database := database.(clientMeta := Some(meta), documents := database.documents + {doc});
      if doc !in database.syncState {
        database := database.(syncState := database.syncState[doc := 0]);
      }
      assert database.syncState == old(database.syncState)[doc := LastServerSeq(old(database), doc)];
    }

    /** The recorded operations of a document, one for each of its rows, in whatever
        order the table has. */
    method LoadOperations(doc: DocId) returns (ops: seq<Operation>)
      ensures forall op :: op in ops <==> exists x ::
        x in database.operations && database.operations[x] == OperationRecord(doc, op)
      ensures forall op :: multiset(ops)[op] == |RowsWith(database, RowsOfDocument(database, doc), op)|
    {
      ops := [];
      var left := RowsOfDocument(database, doc);
      while left != {}
        invariant left <= RowsOfDocument(database, doc)
        invariant forall op :: multiset(ops)[op] == |RowsWith(database, RowsOfDocument(database, doc) - left, op)|
      {
        var x :| x in left;
        AnotherRow(database, RowsOfDocument(database, doc) - left, x, ops, ops + [database.operations[x].operation]);
        ops := ops + [database.operations[x].operation];
        assert RowsOfDocument(database, doc) - (left - {x}) == RowsOfDocument(database, doc) - left + {x};
        left := left - {x};
      }
      assert RowsOfDocument(database, doc) - {} == RowsOfDocument(database, doc);
      LoadedRows(database, doc, ops);
    }

    /** The unacknowledged operations of a document by increasing counter, one for each
        of its markers. */
    method LoadPendingOperations(doc: DocId) returns (r: Result<seq<Operation>, StoreError>)
      ensures r.Success? <==> forall x | x in MarkersOf(database, doc) :: PendingError(database, doc, x).None?
      ensures r.Failure? ==> exists x ::
        x in MarkersOf(database, doc) && PendingError(database, doc, x) == Some(r.error)
      ensures r.Success? ==> forall op :: multiset(r.value)[op] == |RowsWith(database, MarkersOf(database, doc), op)|
      ensures r.Success? ==> ByCounter(r.value)
    {
      var ops: seq<Operation> := [];
      var left := MarkersOf(database, doc);
      while left != {}
        invariant left <= MarkersOf(database, doc)
        invariant forall x | x in MarkersOf(database, doc) - left :: PendingError(database, doc, x).None?
        invariant forall op :: multiset(ops)[op] == |RowsWith(database, MarkersOf(database, doc) - left, op)|
        invariant ByCounter(ops)
      {
        var x :| x in left;
        if x !in database.operations { return Failure(MissingRecord); }
        if database.operations[x].documentId != doc { return Failure(Conflict); }
        var longer := InsertByCounter(ops, database.operations[x].operation);
        AnotherRow(database, MarkersOf(database, doc) - left, x, ops, longer);
        ops := longer;
        assert MarkersOf(database, doc) - (left - {x}) == MarkersOf(database, doc) - left + {x};
        left := left - {x};
      }
      assert MarkersOf(database, doc) - {} == MarkersOf(database, doc);
      return Success(ops);
    }

    static method InsertByCounter(ops: seq<Operation>, op: Operation) returns (longer: seq<Operation>)
      requires ByCounter(ops)
      ensures ByCounter(longer)
      ensures multiset(longer) == multiset(ops) + multiset{op}
    {
      var i := 0;
      while i < |ops| && ops[i].counter <= op.counter
        invariant i <= |ops| && forall k | 0 <= k < i :: ops[k].counter <= op.counter
      {
        i := i + 1;
      }
      longer := ops[..i] + [op] + ops[i..];
      InsertedSorted(ops, i, op);
    }

    static lemma InsertedSorted(ops: seq<Operation>, i: nat, op: Operation)
      requires ByCounter(ops) && i <= |ops|
      requires (forall k | 0 <= k < i :: ops[k].counter <= op.counter) && (i < |ops| ==> op.counter <= ops[i].counter)
      ensures ByCounter(ops[..i] + [op] + ops[i..])
      ensures multiset(ops[..i] + [op] + ops[i..]) == multiset(ops) + multiset{op}
    {
      assert ops == ops[..i] + ops[i..];
    }

    method IsSnapshotBootstrapEligible(doc: DocId) returns (eligible: bool)
      ensures eligible == Eligible(database, doc)
    {
      var records := set x | x in database.operations && database.operations[x].documentId == doc;
      var markers := set x | x in database.outbox && database.outbox[x] == doc;
      eligible := LastServerSeq(database, doc) == 0 && doc !in database.serverBaselines
                  && |records| == 0 && |markers| == 0;
      assert |records| == 0 ==> records == {};
      assert |markers| == 0 ==> markers == {};
      assert forall x | x in database.operations :: database.operations[x].documentId == doc <==> x in records;
      assert forall x | x in database.outbox :: database.outbox[x] == doc <==> x in markers;
      assert Eligible(database, doc) ==> records == {} && markers == {};
    }

    method SaveReplicaSnapshot(doc: DocId, snapshot: Snapshot, knownOperationCount: int)
      modifies this
      ensures database == old(database).(replicaSnapshots :=
        old(database.replicaSnapshots)[doc := Checkpoint(snapshot, knownOperationCount)])
    {
      database :=
        database.(replicaSnapshots := database.replicaSnapshots[doc := Checkpoint(snapshot, knownOperationCount)]);
    }

    /** Persists a local edit: all of its operations and markers, or nothing. */
    method PersistLocalTextEdit(doc: DocId, edit: LocalTextEdit) returns (r: Result<seq<Operation>, StoreError>)
      modifies this
      ensures r.Failure? <==> EditError(old(database), doc, edit).Some?
      ensures r.Failure? ==> r.error == EditError(old(database), doc, edit).value && database == old(database)
      ensures r.Success? ==> r.value == EditedOps(old(database), edit)
      ensures r.Success? ==> database == Edited(old(database), doc, edit)
    {
      if |edit.deleteTargetIds| == 0 && |edit.insertValues| == 0 { return Success([]); }
      if database.clientMeta.None? { return Failure(MissingMeta); }
      if doc !in database.documents { return Failure(MissingDocument); }
      var m := database.clientMeta.value;
      var ok, ops := AllocateEdit(m, edit);
      if !ok { return Failure(Invalid); }
      r := RecordEdit(doc, m, ops);
    }

    /** The write half of a local edit. */
    method RecordEdit(doc: DocId, m: ClientMeta, ops: seq<Operation>) returns (r: Result<seq<Operation>, StoreError>)
      requires database.clientMeta == Some(m)
      modifies this
      ensures r.Success? <==> Addable(old(database.operations), ops) && Addable(old(database.outbox), ops)
      ensures r.Success? ==> r.value == ops && database == WithEdit(old(database), doc, m, ops)
      ensures r.Failure? ==> r.error == ConstraintViolation && database == old(database)
    {
      var records := BulkAddRecords(database.operations, doc, ops);
      if records.None? { return Failure(ConstraintViolation); }
      var markers := BulkAddMarkers(database.outbox, doc, ops);
      if markers.None? { return Failure(ConstraintViolation); }
      database := database.(operations := records.value, outbox := markers.value,
                            clientMeta :=
                              Some(m.(nextCounter := m.nextCounter + |ops|, lamportClock := m.lamportClock + |ops|)));
      return Success(ops);
    }

    /** The two allocation loops. */
    static method AllocateEdit(m: ClientMeta, edit: LocalTextEdit) returns (ok: bool, ops: seq<Operation>)
      ensures ok <==> AllValid(EditOps(m.clientId, m.nextCounter, m.lamportClock, edit))
      ensures ok ==> ops == EditOps(m.clientId, m.nextCounter, m.lamportClock, edit)
    {
      ghost var all := EditOps(m.clientId, m.nextCounter, m.lamportClock, edit);
      var nextCounter, lamportClock := m.nextCounter, m.lamportClock;
      var targets, values := edit.deleteTargetIds, edit.insertValues;
      ops := [];
      for i := 0 to |targets|
        invariant |ops| == i && nextCounter == m.nextCounter + i && lamportClock == m.lamportClock + i
        invariant ops == all[..i] && AllValid(ops)
      {
        var op :=
          Delete(MakeOperationId(m.clientId, nextCounter), m.clientId, nextCounter, lamportClock + 1, targets[i]);
        assert op == OpAt(m.clientId, m.nextCounter, m.lamportClock, edit, i);
        TakeNext(all, i, op);
        if !IsValidOperation(op) { return false, ops; }
        ops, nextCounter, lamportClock := ops + [op], nextCounter + 1, lamportClock + 1;
      }
      var insertAnchor := edit.insertAfterId;
      for i := 0 to |values|
        invariant |ops| == |targets| + i && nextCounter == m.nextCounter + |ops|
          && lamportClock == m.lamportClock + |ops|
        invariant insertAnchor == if i == 0 then edit.insertAfterId else MakeOperationId(m.clientId, nextCounter - 1)
        invariant ops == all[..|ops|] && AllValid(ops)
      {
        var n := |ops|;
        var op :=
          Insert(MakeOperationId(m.clientId, nextCounter), m.clientId, nextCounter, lamportClock + 1, insertAnchor,
                 values[i]);
        assert op == OpAt(m.clientId, m.nextCounter, m.lamportClock, edit, n);
        TakeNext(all, n, op);
        if !IsValidOperation(op) { return false, ops; }
        ops, nextCounter, lamportClock, insertAnchor := ops + [op], nextCounter + 1, lamportClock + 1, op.opId;
      }
      assert all[..|all|] == all;
      ok := true;
    }

    static lemma TakeNext<T>(all: seq<T>, i: nat, x: T)
      requires i < |all| && all[i] == x
      ensures all[..i + 1] == all[..i] + [x] && x in all
    {}

    /** Adding one more key succeeds unless it is taken by the table or an earlier key. */
    static lemma BulkStep<V>(table: map<Id, V>, ops: seq<Operation>, i: nat)
      requires i < |ops| && Addable(table, ops[..i])
      ensures Addable(table, ops[..i + 1]) <==>
        ops[i].opId !in table && forall k | 0 <= k < i :: ops[k].opId != ops[i].opId
      ensures Addable(table, ops) ==> Addable(table, ops[..i + 1])
      ensures ops[..i + 1][..i] == ops[..i] && ops[..i + 1][i] == ops[i] && |ops[..i + 1]| == i + 1
    {
      assert ops[..i + 1] == ops[..i] + [ops[i]];
      forall o | o in ops[..i + 1] ensures o in ops {
        var k :| 0 <= k < i + 1 && ops[k] == o;
      }
    }

    static method BulkAddRecords(table: map<Id, OperationRecord>, doc: DocId, ops: seq<Operation>)
      returns (r: Option<map<Id, OperationRecord>>)
      ensures r.Some? <==> Addable(table, ops)
      ensures r.Some? ==> r.value == AddRecords(table, doc, ops)
    {
      var t := table;
      for i := 0 to |ops|
        invariant Addable(table, ops[..i]) && t == AddRecords(table, doc, ops[..i])
        invariant forall x :: x in t <==> x in table || exists k :: 0 <= k < i && ops[k].opId == x
      {
        BulkStep(table, ops, i);
        if ops[i].opId in t { return None; }
        t := t[ops[i].opId := OperationRecord(doc, ops[i])];
      }
      assert ops[..|ops|] == ops;
      return Some(t);
    }

    static method BulkAddMarkers(table: map<Id, DocId>, doc: DocId, ops: seq<Operation>)
      returns (r: Option<map<Id, DocId>>)
      ensures r.Some? <==> Addable(table, ops)
      ensures r.Some? ==> r.value == AddMarkers(table, doc, ops)
    {
      var t := table;
      for i := 0 to |ops|
        invariant Addable(table, ops[..i]) && t == AddMarkers(table, doc, ops[..i])
        invariant forall x :: x in t <==> x in table || exists k :: 0 <= k < i && ops[k].opId == x
      {
        BulkStep(table, ops, i);
        if ops[i].opId in t { return None; }
        t := t[ops[i].opId := doc];
      }
      assert ops[..|ops|] == ops;
      return Some(t);
    }

    /** Ingests a server batch and advances the cursor, or changes nothing. */
    method PersistServerOperations(doc: DocId, batch: seq<Sequenced>, confirmed: int) returns (e: Option<StoreError>)
      modifies this
      ensures e.None? <==> Ingested(old(database), doc, batch, confirmed).Success?
      ensures e.None? ==> database == Ingested(old(database), doc, batch, confirmed).value
      ensures e.Some? ==> database == old(database) && e.value == Ingested(old(database), doc, batch, confirmed).error
    {
      var ok := ValidateServerBatch(batch, confirmed);
      if !ok { return Some(InvalidBatch); }
      if database.clientMeta.None? { return Some(MissingMeta); }
      if doc !in database.documents { return Some(MissingDocument); }
      var tables, ops := database, OpsOf(batch);
      for i := 0 to |ops|
        invariant database == old(database)
        invariant IngestAll(database, doc, ops) == IngestAll(tables, doc, ops[i..])
        invariant tables.syncState == database.syncState
      {
        assert ops[i..][1..] == ops[i + 1..];
        var step := IngestOne(tables, doc, ops[i]);
        if step.Failure? { return Some(step.error); }
        tables := step.value;
      }
      database := tables.(syncState := database.syncState[doc := Max(LastServerSeq(database, doc), confirmed)]);
      return None;
    }

    /** Installs a server snapshot with its suffix as the baseline of a pristine
        document, or changes nothing. */
    method InstallServerBaseline(doc: DocId, boot: Bootstrap, batch: seq<Sequenced>, confirmed: int)
      returns (r: Result<TextReplica, StoreError>)
      modifies this
      ensures r.Success? <==> Installable(old(database), doc, boot, batch, confirmed)
      ensures r.Success? ==> database == Installed(old(database), doc, boot, batch, confirmed)
      ensures r.Failure? ==> database == old(database)
      ensures r.Failure? ==> InstallError(old(database), doc, boot, batch, confirmed) == Some(r.error)
      ensures r.Success? ==> fresh(r.value) && r.value.Valid()
      ensures r.Success? ==> exists K0 :: Bootstraps(boot, batch, confirmed, K0, r.value.knownOperations)
    {
      var replica := BuildBaseline(boot, batch, confirmed);
      if replica.Failure? { return Failure(replica.error); }
      var snapshotLamport := MaxLamportFromSnapshot(boot.snapshot);
      var eligible := IsSnapshotBootstrapEligible(doc);
      if !eligible { return Failure(Ineligible); }
      if database.clientMeta.None? { return Failure(MissingMeta); }
      if doc !in database.documents { return Failure(MissingDocument); }
      var records := BulkAddRecords(database.operations, doc, OpsOf(batch));
      if records.None? { return Failure(ConstraintViolation); }
      var m := database.clientMeta.value;
      var lamport := Max(snapshotLamport, MaxLamport(OpsOf(batch)));
      database := database.(
        operations := records.value,
        serverBaselines := database.serverBaselines[doc := Baseline(boot.snapshotSeq, boot.snapshot)],
        syncState := database.syncState[doc := confirmed],
        clientMeta := Some(m.(lamportClock := Max(m.lamportClock, lamport))),
        replicaSnapshots := database.replicaSnapshots - {doc});
      return Success(replica.value);
    }

    /** The checks before the install transaction. */
    static method BuildBaseline(boot: Bootstrap, batch: seq<Sequenced>, confirmed: int)
      returns (r: Result<TextReplica, StoreError>)
      ensures r.Success? <==> exists K0, K :: Bootstraps(boot, batch, confirmed, K0, K)
      ensures r.Failure? ==> r.error == InvalidBootstrap
      ensures r.Success? ==> fresh(r.value) && r.value.Valid()
      ensures r.Success? ==> exists K0 :: Bootstraps(boot, batch, confirmed, K0, r.value.knownOperations)
    {
      if boot.version != 1 { return Failure(InvalidBootstrap); }
      var ok := ValidateSnapshotSuffix(batch, boot.snapshotSeq, confirmed);
      if !ok { return Failure(InvalidBootstrap); }
      var restored := TextReplica.FromSnapshot(boot.snapshot);
      if restored.Failure? { return Failure(InvalidBootstrap); }
      BootstrapDecide(boot, batch, confirmed, restored.value.knownOperations);
      r := ExtendBaseline(restored.value, OpsOf(batch));
    }

    static method ExtendBaseline(replica: TextReplica, ops: seq<Operation>) returns (r: Result<TextReplica, StoreError>)
      requires replica.Valid()
      modifies replica
      ensures r.Success? <==> Replay(old(replica.knownOperations), ops).ok
                              && Resolved(Replay(old(replica.knownOperations), ops).known)
      ensures r.Failure? ==> r.error == InvalidBootstrap
      ensures r.Success? ==> r.value == replica && replica.Valid()
      ensures r.Success? ==> replica.knownOperations == Replay(old(replica.knownOperations), ops).known
    {
      var error := replica.ApplyAll(ops);
      if error.Some? { return Failure(InvalidBootstrap); }
      var unresolved := replica.GetUnresolvedOperationIds();
      if unresolved != [] { return Failure(InvalidBootstrap); }
      return Success(replica);
    }
  }

  lemma {:induction false} BootstrapDecide(boot: Bootstrap, batch: seq<Sequenced>, confirmed: int, K0: OpMap)
    requires boot.version == 1 && ValidSnapshotSuffix(batch, boot.snapshotSeq, confirmed)
    requires Acceptable(boot.snapshot) && Describes(boot.snapshot, K0)
    ensures (exists L0, L :: Bootstraps(boot, batch, confirmed, L0, L)) <==>
      Replay(K0, OpsOf(batch)).ok && Resolved(Replay(K0, OpsOf(batch)).known)
    ensures Replay(K0, OpsOf(batch)).ok && Resolved(Replay(K0, OpsOf(batch)).known) ==>
      Bootstraps(boot, batch, confirmed, K0, Replay(K0, OpsOf(batch)).known)
  {
    var r := Replay(K0, OpsOf(batch));
    if r.ok && Resolved(r.known) {
      assert r == Outcome(r.known, true);
      assert Bootstraps(boot, batch, confirmed, K0, r.known);
    }
    forall L0, L | Bootstraps(boot, batch, confirmed, L0, L) ensures L0 == K0 {
      ListedSetUnique(boot.snapshot, L0, K0);
    }
  }
}
