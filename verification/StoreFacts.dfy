/** What the transactions of the local store do to the operations a document is
    made of, to the outbox, and to the clocks. */
module StoreFacts {
  import opened Operations
  import opened LocalStore
  import opened Replays
  import opened Snapshots

  /** The operations behind an installed server baseline. */
  ghost function BaselineOps(db: Database, doc: DocId): OpMap {
    if doc in db.serverBaselines && exists K :: Describes(db.serverBaselines[doc].snapshot, K) then
      var K :| Describes(db.serverBaselines[doc].snapshot, K); K
    else map[]
  }

  lemma BaselineOpsAre(db: Database, doc: DocId, K: OpMap)
    requires doc in db.serverBaselines && Describes(db.serverBaselines[doc].snapshot, K)
    ensures BaselineOps(db, doc) == K
  {
    ListedSetUnique(db.serverBaselines[doc].snapshot, BaselineOps(db, doc), K);
  }

  /** Everything the tables say the document is made of. */
  ghost function KnownOf(db: Database, doc: DocId): OpMap {
    BaselineOps(db, doc) + DocOps(db, doc)
  }

  /** Records are filed under their operation's identity. */
  ghost predicate Filed(db: Database) {
    forall x | x in db.operations :: db.operations[x].operation.opId == x
  }

  /** Recording new operations files each of them and leaves the rest alone. */
  lemma {:induction false} AddRecordsMeaning(table: map<Id, OperationRecord>, doc: DocId, ops: seq<Operation>)
    requires forall i, j | 0 <= i < j < |ops| :: ops[i].opId != ops[j].opId
    ensures forall o | o in ops ::
      o.opId in AddRecords(table, doc, ops) && AddRecords(table, doc, ops)[o.opId] == OperationRecord(doc, o)
    ensures forall x | x in AddRecords(table, doc, ops) && (forall o | o in ops :: o.opId != x) ::
      x in table && AddRecords(table, doc, ops)[x] == table[x]
    ensures forall x | x in table && (forall o | o in ops :: o.opId != x) ::
      x in AddRecords(table, doc, ops) && AddRecords(table, doc, ops)[x] == table[x]
  {
    forall i | 0 <= i < |ops|
      ensures ops[i].opId in AddRecords(table, doc, ops)
        && AddRecords(table, doc, ops)[ops[i].opId] == OperationRecord(doc, ops[i])
    {
      RecordAdded(table, doc, ops, i);
    }
    forall x | forall o | o in ops :: o.opId != x
      ensures x in AddRecords(table, doc, ops) <==> x in table
      ensures x in table ==> AddRecords(table, doc, ops)[x] == table[x]
    {
      RecordKept(table, doc, ops, x);
    }
  }

  lemma {:induction false} RecordAdded(table: map<Id, OperationRecord>, doc: DocId, ops: seq<Operation>, i: nat)
    requires i < |ops| && forall j | i < j < |ops| :: ops[i].opId != ops[j].opId
    ensures ops[i].opId in AddRecords(table, doc, ops)
      && AddRecords(table, doc, ops)[ops[i].opId] == OperationRecord(doc, ops[i])
    decreases |ops|
  {
    if i < |ops| - 1 { RecordAdded(table, doc, ops[..|ops| - 1], i); }
  }

  lemma {:induction false} RecordKept(table: map<Id, OperationRecord>, doc: DocId, ops: seq<Operation>, x: Id)
    requires forall o | o in ops :: o.opId != x
    ensures x in AddRecords(table, doc, ops) <==> x in table
    ensures x in table ==> AddRecords(table, doc, ops)[x] == table[x]
    decreases |ops|
  {
    if ops != [] {
      assert ops[|ops| - 1] in ops;
      RecordKept(table, doc, ops[..|ops| - 1], x);
    }
  }

  lemma {:induction false} AddMarkersMeaning(outbox: map<Id, DocId>, doc: DocId, ops: seq<Operation>)
    ensures forall x :: x in AddMarkers(outbox, doc, ops) <==> x in outbox || exists o :: o in ops && o.opId == x
    ensures forall o | o in ops :: AddMarkers(outbox, doc, ops)[o.opId] == doc
    ensures forall x | x in outbox && (forall o | o in ops :: o.opId != x) ::
      AddMarkers(outbox, doc, ops)[x] == outbox[x]
    decreases |ops|
  {
    if ops != [] {
      var init, last := ops[..|ops| - 1], ops[|ops| - 1];
      AddMarkersMeaning(outbox, doc, init);
      assert ops == init + [last];
      assert last in ops;
      assert forall o | o in init :: o in ops;
    }
  }

  /** Recording new operations merges them into the document. */
  lemma {:induction false} RecordedDoc(db: Database, db': Database, doc: DocId, ops: seq<Operation>)
    requires Filed(db) && Addable(db.operations, ops)
    requires db'.operations == AddRecords(db.operations, doc, ops)
    ensures Filed(db') && OnePayload(DocOps(db, doc), ops)
    ensures DocOps(db', doc) == Merge(DocOps(db, doc), ops)
  {
    DistinctOnePayload(DocOps(db, doc), ops);
    RecordedMembers(db, db', doc, ops);
    SameOperations(DocOps(db', doc), Merge(DocOps(db, doc), ops));
  }

  lemma SameOperations(D: OpMap, M: OpMap)
    requires (forall x | x in D :: x in M && M[x] == D[x]) && forall x | x in M :: x in D
    ensures D == M
  {}

  lemma DistinctOnePayload(K: OpMap, ops: seq<Operation>)
    requires forall o | o in ops :: o.opId !in K
    requires forall i, j | 0 <= i < j < |ops| :: ops[i].opId != ops[j].opId
    ensures OnePayload(K, ops)
  {
    forall a, b | a in ops && b in ops && a.opId == b.opId ensures a == b {
      var i :| 0 <= i < |ops| && ops[i] == a;
      var j :| 0 <= j < |ops| && ops[j] == b;
    }
  }

  lemma {:induction false} RecordedMembers(db: Database, db': Database, doc: DocId, ops: seq<Operation>)
    requires Filed(db) && Addable(db.operations, ops) && OnePayload(DocOps(db, doc), ops)
    requires db'.operations == AddRecords(db.operations, doc, ops)
    ensures forall x | x in DocOps(db', doc) ::
      x in Merge(DocOps(db, doc), ops) && Merge(DocOps(db, doc), ops)[x] == DocOps(db', doc)[x]
    ensures forall x | x in Merge(DocOps(db, doc), ops) :: x in DocOps(db', doc)
    ensures Filed(db')
  {
    AddRecordsMeaning(db.operations, doc, ops);
    MergeMeaning(DocOps(db, doc), ops);
    RecordedAreFiled(db, db', doc, ops);
    forall x | x in DocOps(db', doc)
      ensures x in Merge(DocOps(db, doc), ops) && Merge(DocOps(db, doc), ops)[x] == DocOps(db', doc)[x]
    {
      if o :| o in ops && o.opId == x { } else { assert x in DocOps(db, doc); }
    }
    forall x | x in Merge(DocOps(db, doc), ops) ensures x in DocOps(db', doc) {
      if o :| o in ops && o.opId == x { } else { assert x in DocOps(db, doc); }
    }
  }

  lemma {:induction false} RecordedAreFiled(db: Database, db': Database, doc: DocId, ops: seq<Operation>)
    requires Filed(db) && Addable(db.operations, ops) && db'.operations == AddRecords(db.operations, doc, ops)
    ensures Filed(db')
  {
    AddRecordsMeaning(db.operations, doc, ops);
    forall x | x in db'.operations ensures db'.operations[x].operation.opId == x {
      if o :| o in ops && o.opId == x { } else { }
    }
  }

  // ----- ingest

  /** What a committed sequence of ingested operations changes. */
  lemma {:induction false} IngestAllMeaning(db: Database, doc: DocId, ops: seq<Operation>)
    requires Filed(db) && IngestAll(db, doc, ops).Success? && db.clientMeta.Some?
    ensures var r := IngestAll(db, doc, ops).value;
      && Filed(r) && OnePayload(DocOps(db, doc), ops) && DocOps(r, doc) == Merge(DocOps(db, doc), ops)
      && r.clientMeta.Some? && r.clientMeta.value.clientId == db.clientMeta.value.clientId
      && r.clientMeta.value.nextCounter == db.clientMeta.value.nextCounter
      && r.clientMeta.value.lamportClock >= db.clientMeta.value.lamportClock
      && (forall o | o in ops :: IsValidOperation(o) && o.lamport <= r.clientMeta.value.lamportClock)
      && (r.clientMeta.value.lamportClock == db.clientMeta.value.lamportClock
            || exists o :: o in ops && o.lamport == r.clientMeta.value.lamportClock)
      && r == db.(operations := r.operations, outbox := r.outbox, clientMeta := r.clientMeta)
    decreases |ops|
  {
    if ops != [] {
      IngestOneDoc(db, doc, ops[0]);
      IngestAllMeaning(IngestOne(db, doc, ops[0]).value, doc, ops[1..]);
      OnePayloadTail(DocOps(db, doc), ops);
      HeadOrTail(ops);
    }
  }

  lemma HeadOrTail(ops: seq<Operation>)
    requires ops != []
    ensures forall o :: o in ops <==> o == ops[0] || o in ops[1..]
  {}

  lemma IngestOneDoc(db: Database, doc: DocId, op: Operation)
    requires Filed(db) && IngestOne(db, doc, op).Success?
    ensures Filed(IngestOne(db, doc, op).value)
    ensures DocOps(IngestOne(db, doc, op).value, doc) == DocOps(db, doc)[op.opId := op]
    ensures op.opId in DocOps(db, doc) ==> DocOps(db, doc)[op.opId] == op
  {
    var D, E := DocOps(IngestOne(db, doc, op).value, doc), DocOps(db, doc)[op.opId := op];
    assert forall x :: x in D <==> x in E;
  }

  /** Ingested operations leave the outbox; everything else stays in it. */
  lemma {:induction false} IngestAllOutbox(db: Database, doc: DocId, ops: seq<Operation>)
    requires IngestAll(db, doc, ops).Success?
    ensures forall x ::
      x in IngestAll(db, doc, ops).value.outbox <==> x in db.outbox && forall o | o in ops :: o.opId != x
    ensures forall x | x in IngestAll(db, doc, ops).value.outbox ::
      IngestAll(db, doc, ops).value.outbox[x] == db.outbox[x]
    decreases |ops|
  {
    if ops != [] {
      IngestAllOutbox(IngestOne(db, doc, ops[0]).value, doc, ops[1..]);
      HeadOrTail(ops);
    }
  }

  /** Records of the ingest are the old ones and those of the batch. */
  lemma {:induction false} IngestAllRecords(db: Database, doc: DocId, ops: seq<Operation>)
    requires IngestAll(db, doc, ops).Success?
    ensures forall x | x in db.operations ::
      x in IngestAll(db, doc, ops).value.operations && IngestAll(db, doc, ops).value.operations[x] == db.operations[x]
    ensures forall x | x in IngestAll(db, doc, ops).value.operations ::
      x in db.operations || exists o ::
        o in ops && o.opId == x && IngestAll(db, doc, ops).value.operations[x] == OperationRecord(doc, o)
    decreases |ops|
  {
    if ops != [] {
      IngestAllRecords(IngestOne(db, doc, ops[0]).value, doc, ops[1..]);
      HeadOrTail(ops);
    }
  }

  // ----- known operations

  lemma {:induction false} KnownMerges(B: OpMap, D: OpMap, ops: seq<Operation>)
    requires OnePayload(D, ops) && OnePayload(B + D, ops)
    ensures B + Merge(D, ops) == Merge(B + D, ops)
  {
    MergeMeaning(D, ops);
    MergeMeaning(B + D, ops);
    var L, R := B + Merge(D, ops), Merge(B + D, ops);
    forall x ensures x in L <==> x in R
             ensures x in L && x in R ==> L[x] == R[x] {
      if o :| o in ops && o.opId == x { } else { }
    }
  }
}
