/** The browser's durable tables and the transactions on them. A transaction that
    fails leaves the tables as they were. */
module LocalStore {
  import opened Wrappers
  import opened JsStrings
  import opened Operations
  import opened AnchorGraph
  import opened Replays
  import opened ReplicaShape
  import opened Snapshots
  import opened TextEdit

  type DocId = JsString

  datatype ClientMeta = ClientMeta(clientId: JsString, nextCounter: int, lamportClock: int)
  datatype OperationRecord = OperationRecord(documentId: DocId, operation: Operation)
  datatype Baseline = Baseline(snapshotSeq: int, snapshot: Snapshot)
  datatype Checkpoint = Checkpoint(snapshot: Snapshot, knownOperationCount: int)

  datatype Database = Database(
    clientMeta: Option<ClientMeta>,
    documents: set<DocId>,
    operations: map<Id, OperationRecord>,
    outbox: map<Id, DocId>,
    syncState: map<DocId, int>,
    serverBaselines: map<DocId, Baseline>,
    replicaSnapshots: map<DocId, Checkpoint>)

  datatype Sequenced = Sequenced(serverSeq: int, operation: Operation)
  datatype Bootstrap = Bootstrap(version: int, snapshotSeq: int, snapshot: Snapshot)

  datatype StoreError =
    MissingMeta | MissingDocument | MissingRecord | Invalid | Conflict | ConstraintViolation
    | InvalidBatch | InvalidBootstrap | Ineligible

  function OpsOf(batch: seq<Sequenced>): (ops: seq<Operation>)
    ensures |ops| == |batch| && forall i | 0 <= i < |batch| :: ops[i] == batch[i].operation
  {
    seq(|batch|, i requires 0 <= i < |batch| => batch[i].operation)
  }

  /** The operations recorded for one document. */
  function DocOps(db: Database, doc: DocId): OpMap {
    map x | x in db.operations && db.operations[x].documentId == doc :: db.operations[x].operation
  }

  function LastServerSeq(db: Database, doc: DocId): int {
    if doc in db.syncState then db.syncState[doc] else 0
  }

  /** The tables after a document was opened: what was missing is created. */
  function Opened(db: Database, doc: DocId, newClientId: JsString): Database {
    db.(clientMeta := if db.clientMeta.Some? then db.clientMeta else Some(ClientMeta(newClientId, 1, 0)),
        documents := db.documents + {doc},
        syncState := db.syncState[doc := LastServerSeq(db, doc)])
  }

  predicate Eligible(db: Database, doc: DocId) {
    && LastServerSeq(db, doc) == 0
    && doc !in db.serverBaselines
    && (forall x | x in db.operations :: db.operations[x].documentId != doc)
    && (forall x | x in db.outbox :: db.outbox[x] != doc)
  }

  // ----- batches

  ghost predicate ValidServerBatch(batch: seq<Sequenced>, confirmed: int) {
    && 0 <= confirmed <= MAX_SAFE_INTEGER
    && (forall i | 0 <= i < |batch| :: IsPositiveSafe(batch[i].serverSeq) && batch[i].serverSeq <= confirmed)
    && (forall i, j | 0 <= i < j < |batch| :: batch[i].serverSeq < batch[j].serverSeq)
  }

  method ValidateServerBatch(batch: seq<Sequenced>, confirmed: int) returns (ok: bool)
    ensures ok <==> ValidServerBatch(batch, confirmed)
  {
    if confirmed > MAX_SAFE_INTEGER || confirmed < 0 { return false; }
    var previousServerSeq := 0;
    for k := 0 to |batch|
      invariant ValidServerBatch(batch[..k], confirmed)
      invariant previousServerSeq == if k == 0 then 0 else batch[k - 1].serverSeq
    {
      var n := batch[k].serverSeq;
      if !IsPositiveSafe(n) { return false; }
      if n <= previousServerSeq {
        assert batch[k - 1].serverSeq >= batch[k].serverSeq;
        return false;
      }
      if n > confirmed { return false; }
      previousServerSeq := n;
    }
    assert batch[..|batch|] == batch;
    ok := true;
  }

  ghost predicate ValidSnapshotSuffix(batch: seq<Sequenced>, snapshotSeq: int, confirmed: int) {
    && IsPositiveSafe(snapshotSeq) && snapshotSeq <= confirmed
    && ValidServerBatch(batch, confirmed)
    && (forall i | 0 <= i < |batch| :: batch[i].serverSeq > snapshotSeq)
  }

  method ValidateSnapshotSuffix(batch: seq<Sequenced>, snapshotSeq: int, confirmed: int) returns (ok: bool)
    ensures ok <==> ValidSnapshotSuffix(batch, snapshotSeq, confirmed)
  {
    if !IsPositiveSafe(snapshotSeq) || snapshotSeq > confirmed { return false; }
    ok := ValidateServerBatch(batch, confirmed);
    if !ok { return; }
    for k := 0 to |batch|
      invariant forall i | 0 <= i < k :: batch[i].serverSeq > snapshotSeq
    {
      if batch[k].serverSeq <= snapshotSeq { return false; }
    }
  }

  // ----- a local edit

  /** The tables with the operations of a local edit, their outbox markers and the
      advanced counters. */
  function WithEdit(db: Database, doc: DocId, meta: ClientMeta, ops: seq<Operation>): Database {
    db.(operations := AddRecords(db.operations, doc, ops),
        outbox := AddMarkers(db.outbox, doc, ops),
        clientMeta := Some(meta.(nextCounter := meta.nextCounter + |ops|, lamportClock := meta.lamportClock + |ops|)))
  }

  function AddRecords(records: map<Id, OperationRecord>, doc: DocId, ops: seq<Operation>): map<Id, OperationRecord> {
    if ops == [] then records
    else AddRecords(records, doc, ops[..|ops| - 1])[ops[|ops| - 1].opId := OperationRecord(doc, ops[|ops| - 1])]
  }

  function AddMarkers(outbox: map<Id, DocId>, doc: DocId, ops: seq<Operation>): map<Id, DocId> {
    if ops == [] then outbox
    else AddMarkers(outbox, doc, ops[..|ops| - 1])[ops[|ops| - 1].opId := doc]
  }

  /** `bulkAdd` accepts the keys: none is taken and none repeats. */
  ghost predicate Addable<V>(table: map<Id, V>, ops: seq<Operation>) {
    && (forall o | o in ops :: o.opId !in table)
    && (forall i, j | 0 <= i < j < |ops| :: ops[i].opId != ops[j].opId)
  }

  ghost function EditError(db: Database, doc: DocId, edit: LocalTextEdit): Option<StoreError> {
    if EditSize(edit) == 0 then None
    else if db.clientMeta.None? then Some(MissingMeta)
    else if doc !in db.documents then Some(MissingDocument)
    else
      var m := db.clientMeta.value;
      var ops := EditOps(m.clientId, m.nextCounter, m.lamportClock, edit);
      if !AllValid(ops) then Some(Invalid)
      else if !Addable(db.operations, ops) || !Addable(db.outbox, ops) then Some(ConstraintViolation)
      else None
  }

  /** The operations an edit is persisted as. */
  ghost function EditedOps(db: Database, edit: LocalTextEdit): seq<Operation> {
    if EditSize(edit) == 0 || db.clientMeta.None? then []
    else EditOps(db.clientMeta.value.clientId, db.clientMeta.value.nextCounter, db.clientMeta.value.lamportClock, edit)
  }

  ghost function Edited(db: Database, doc: DocId, edit: LocalTextEdit): Database {
    if EditSize(edit) == 0 || db.clientMeta.None? then db
    else WithEdit(db, doc, db.clientMeta.value, EditedOps(db, edit))
  }

  // ----- server operations

  function Max(a: int, b: int): int { if a < b then b else a }

  /** One item of a server batch inside the ingest transaction. */
  function IngestOne(db: Database, doc: DocId, op: Operation): Result<Database, StoreError> {
    if db.clientMeta.None? then Failure(MissingMeta)
    else if !IsValidOperation(op) then Failure(Invalid)
    else if op.opId in db.operations && db.operations[op.opId] != OperationRecord(doc, op) then Failure(Conflict)
    else if op.opId in db.outbox && db.outbox[op.opId] != doc then Failure(Conflict)
    else
      var m := db.clientMeta.value;
      Success(db.(operations := db.operations[op.opId := OperationRecord(doc, op)],
                  outbox := db.outbox - {op.opId},
                  clientMeta := Some(m.(lamportClock := Max(m.lamportClock, op.lamport)))))
  }

  function IngestAll(db: Database, doc: DocId, ops: seq<Operation>): Result<Database, StoreError>
    decreases |ops|
  {
    if ops == [] then Success(db)
    else
      var r := IngestOne(db, doc, ops[0]);
      if r.Failure? then r else IngestAll(r.value, doc, ops[1..])
  }

  /** The whole ingest transaction. */
  ghost function Ingested(db: Database, doc: DocId, batch: seq<Sequenced>, confirmed: int): Result<Database, StoreError>
  {
    if !ValidServerBatch(batch, confirmed) then Failure(InvalidBatch)
    else if db.clientMeta.None? then Failure(MissingMeta)
    else if doc !in db.documents then Failure(MissingDocument)
    else
      var r := IngestAll(db, doc, OpsOf(batch));
      if r.Failure? then r
      else Success(r.value.(syncState := db.syncState[doc := Max(LastServerSeq(db, doc), confirmed)]))
  }

  // ----- snapshot bootstrap

  function MaxLamport(ops: seq<Operation>): (m: int)
    ensures m >= 0 && forall o | o in ops :: o.lamport <= m
  {
    if ops == [] then 0 else
      assert ops == ops[..|ops| - 1] + [ops[|ops| - 1]];
      Max(MaxLamport(ops[..|ops| - 1]), ops[|ops| - 1].lamport)
  }

  lemma {:induction false} MaxLamportReached(ops: seq<Operation>)
    ensures MaxLamport(ops) == 0 || exists o :: o in ops && o.lamport == MaxLamport(ops)
    decreases |ops|
  {
    if ops != [] {
      var init, last := ops[..|ops| - 1], ops[|ops| - 1];
      MaxLamportReached(init);
      assert ops == init + [last] && last in ops;
    }
  }

  function InsertsOf(ns: seq<TextNode>): (ops: seq<Operation>)
    ensures |ops| == |ns| && forall i | 0 <= i < |ns| :: ops[i] == InsertOf(ns[i])
  {
    seq(|ns|, i requires 0 <= i < |ns| => InsertOf(ns[i]))
  }

  /** The largest Lamport value among the entries of a snapshot. */
  function SnapshotLamport(snap: Snapshot): int {
    Max(MaxLamport(InsertsOf(snap.nodes)), MaxLamport(snap.deleteOperations))
  }

  method MaxLamportFromSnapshot(snap: Snapshot) returns (m: int)
    ensures m == SnapshotLamport(snap)
  {
    m := 0;
    ghost var inserts := InsertsOf(snap.nodes);
    for i := 0 to |snap.nodes|
      invariant m == MaxLamport(inserts[..i])
    {
      assert inserts[..i + 1][..i] == inserts[..i];
      m := Max(m, snap.nodes[i].lamport);
    }
    assert inserts[..|snap.nodes|] == inserts;
    var ds: seq<Operation> := snap.deleteOperations;
    for i := 0 to |ds|
      invariant m == Max(MaxLamport(inserts), MaxLamport(ds[..i]))
    {
      assert ds[..i + 1][..i] == ds[..i];
      m := Max(m, ds[i].lamport);
    }
    assert ds[..|ds|] == ds;
  }

  /** No entry has a larger Lamport value, and some entry has this one unless it is 0. */
  ghost predicate IsMaxLamport(snap: Snapshot, m: int) {
    && m >= 0
    && (forall n | n in snap.nodes :: n.lamport <= m) && (forall d | d in snap.deleteOperations :: d.lamport <= m)
    && (m == 0 || (exists n :: n in snap.nodes && n.lamport == m)
               || exists d :: d in snap.deleteOperations && d.lamport == m)
  }

  lemma SnapshotLamportExactly(snap: Snapshot)
    ensures IsMaxLamport(snap, SnapshotLamport(snap))
  {
    var ns, inserts, m := snap.nodes, InsertsOf(snap.nodes), SnapshotLamport(snap);
    MaxLamportReached(inserts);
    MaxLamportReached(snap.deleteOperations);
    forall n | n in ns ensures n.lamport <= m {
      var i :| 0 <= i < |ns| && ns[i] == n;
      assert inserts[i] in inserts;
    }
    if o :| o in inserts && o.lamport == m {
      var i :| 0 <= i < |inserts| && inserts[i] == o;
      assert ns[i] in ns;
    }
  }

  /** The snapshot and its suffix make up a fully resolved replica `K`. */
  ghost predicate Bootstraps(boot: Bootstrap, batch: seq<Sequenced>, confirmed: int, K0: OpMap, K: OpMap) {
    && boot.version == 1
    && ValidSnapshotSuffix(batch, boot.snapshotSeq, confirmed)
    && Acceptable(boot.snapshot) && Describes(boot.snapshot, K0)
    && Replay(K0, OpsOf(batch)) == Outcome(K, true)
    && Resolved(K)
  }

  /** The tables after the install transaction. */
  function Installed(db: Database, doc: DocId, boot: Bootstrap, batch: seq<Sequenced>, confirmed: int): Database
    requires db.clientMeta.Some?
  {
    var m := db.clientMeta.value;
    var lamport := Max(SnapshotLamport(boot.snapshot), MaxLamport(OpsOf(batch)));
    db.(operations := AddRecords(db.operations, doc, OpsOf(batch)),
        serverBaselines := db.serverBaselines[doc := Baseline(boot.snapshotSeq, boot.snapshot)],
        syncState := db.syncState[doc := confirmed],
        clientMeta := Some(m.(lamportClock := Max(m.lamportClock, lamport))),
        replicaSnapshots := db.replicaSnapshots - {doc})
  }

  /** The install transaction commits. */
  ghost predicate Installable(db: Database, doc: DocId, boot: Bootstrap, batch: seq<Sequenced>, confirmed: int) {
    && db.clientMeta.Some? && doc in db.documents && Eligible(db, doc)
    && Addable(db.operations, OpsOf(batch))
    && exists K0, K :: Bootstraps(boot, batch, confirmed, K0, K)
  }

  /** Why an install does not commit; the first failing check decides. */
  ghost function InstallError(db: Database, doc: DocId, boot: Bootstrap, batch: seq<Sequenced>,
          confirmed: int): Option<StoreError>
  {
    if !(exists K0, K :: Bootstraps(boot, batch, confirmed, K0, K)) then Some(InvalidBootstrap)
    else if !Eligible(db, doc) then Some(Ineligible)
    else if db.clientMeta.None? then Some(MissingMeta)
    else if doc !in db.documents then Some(MissingDocument)
    else if !Addable(db.operations, OpsOf(batch)) then Some(ConstraintViolation)
    else None
  }
}
