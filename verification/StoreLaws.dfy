/** Exactly what each transaction of the local store changes. */
module StoreLaws {
  import opened Wrappers
  import opened JsStrings
  import opened Operations
  import opened LocalStore
  import opened Replays
  import opened Snapshots
  import opened StoreFacts
  import opened TextEdit

  /** What the tables hold of one document. */
  datatype DocumentPart =
    DocumentPart(operations: OpMap, markers: set<Id>, cursor: int, baseline: Option<Baseline>)

  function PartOf(db: Database, doc: DocId): DocumentPart {
    DocumentPart(
      map x | x in db.operations && db.operations[x].documentId == doc :: db.operations[x].operation,
      set x | x in db.outbox && db.outbox[x] == doc,
      if doc in db.syncState then db.syncState[doc] else 0,
      if doc in db.serverBaselines then Some(db.serverBaselines[doc]) else None)
  }

  function CheckpointIn(db: Database, doc: DocId): Option<Checkpoint> {
    if doc in db.replicaSnapshots then Some(db.replicaSnapshots[doc]) else None
  }

  /** No other document is touched. */
  ghost predicate SameElsewhere(db: Database, db': Database, doc: DocId) {
    forall d | d != doc ::
      && PartOf(db', d) == PartOf(db, d) && CheckpointIn(db', d) == CheckpointIn(db, d)
      && (d in db'.documents <==> d in db.documents)
  }

  /** Eligible for a snapshot is exactly a document of which the tables hold what they hold
      of one that was never there. */
  lemma EligibleExactly(db: Database, doc: DocId)
    ensures Eligible(db, doc) <==> PartOf(db, doc) == DocumentPart(map[], {}, 0, None)
  {
    var part := PartOf(db, doc);
    if part == DocumentPart(map[], {}, 0, None) {
      forall x | x in db.operations ensures db.operations[x].documentId != doc { assert x !in part.operations; }
      forall x | x in db.outbox ensures db.outbox[x] != doc { assert x !in part.markers; }
    }
    if Eligible(db, doc) {
      assert part.operations == map[];
      assert part.markers == {};
    }
  }

  // ----- opening

  /** Opening creates what is missing, once, and touches nothing that is there. */
  lemma OpenedExactly(db: Database, doc: DocId, c: JsString, d: JsString)
    ensures var db' := Opened(db, doc, c);
      && SameElsewhere(db, db', doc) && PartOf(db', doc) == PartOf(db, doc)
      && doc in db'.documents && doc in db'.syncState && CheckpointIn(db', doc) == CheckpointIn(db, doc)
      && db'.clientMeta == (if db.clientMeta.Some? then db.clientMeta else Some(ClientMeta(c, 1, 0)))
      && Opened(db', doc, d) == db'
  {
    var db' := Opened(db, doc, c);
    assert Opened(db', doc, d).syncState == db'.syncState;
  }

  // ----- an edit

  /** The `i`-th operation of an edit: its identity reads as the client's next counter, the
      counters and Lamport values count up one by one, deletes come before inserts, and each
      insert hangs on the one before it. */
  ghost predicate IsAllocated(m: ClientMeta, edit: LocalTextEdit, ops: seq<Operation>, i: nat)
    requires i < |ops| == |edit.deleteTargetIds| + |edit.insertValues|
  {
    var n := |edit.deleteTargetIds|;
    && IsIdentityOf(ops[i].opId, m.clientId, m.nextCounter + i) && ops[i].clientId == m.clientId
    && ops[i].counter == m.nextCounter + i && ops[i].lamport == m.lamportClock + i + 1
    && (i < n ==> ops[i].Delete? && ops[i].targetId == edit.deleteTargetIds[i])
    && (i >= n ==> ops[i].Insert? && ops[i].value == edit.insertValues[i - n])
    && (i >= n ==> ops[i].afterId == if i == n then edit.insertAfterId else ops[i - 1].opId)
  }

  lemma AllocatedExactly(db: Database, doc: DocId, edit: LocalTextEdit)
    requires EditSize(edit) > 0 && EditError(db, doc, edit).None?
    ensures db.clientMeta.Some? && |EditedOps(db, edit)| == |edit.deleteTargetIds| + |edit.insertValues|
    ensures forall i | 0 <= i < |EditedOps(db, edit)| ::
      IsAllocated(db.clientMeta.value, edit, EditedOps(db, edit), i)
  {
    var m, ops := db.clientMeta.value, EditedOps(db, edit);
    forall i | 0 <= i < |ops| ensures IsAllocated(m, edit, ops, i) {
      assert ops[i] in ops && ops[i] == OpAt(m.clientId, m.nextCounter, m.lamportClock, edit, i);
      IdentityExactly(ops[i].opId, m.clientId, m.nextCounter + i);
      assert i > 0 ==> ops[i - 1] == OpAt(m.clientId, m.nextCounter, m.lamportClock, edit, i - 1);
    }
  }

  /** Everything that a persisted edit leaves: a row and a marker for each operation beside
      the old ones, the counter behind and the clock at the last operation, and nothing
      else. */
  ghost predicate EditLeaves(db: Database, doc: DocId, ops: seq<Operation>, db': Database)
    requires ops != []
  {
    && (forall o | o in ops :: o.opId !in db.operations && o.opId !in db.outbox)
    && RowsAdded(db, doc, ops, db') && MarkersAdded(db, doc, ops, db')
    && db.clientMeta.Some? && db'.clientMeta ==
         Some(db.clientMeta.value.(nextCounter := ops[|ops| - 1].counter + 1, lamportClock := ops[|ops| - 1].lamport))
    && db' == db.(operations := db'.operations, outbox := db'.outbox, clientMeta := db'.clientMeta)
  }

  ghost predicate RowsAdded(db: Database, doc: DocId, ops: seq<Operation>, db': Database) {
    && (forall x :: x in db'.operations <==> x in db.operations || exists o :: o in ops && o.opId == x)
    && (forall o | o in ops :: o.opId in db'.operations && db'.operations[o.opId] == OperationRecord(doc, o))
    && (forall x | x in db.operations :: x in db'.operations && db'.operations[x] == db.operations[x])
  }

  ghost predicate MarkersAdded(db: Database, doc: DocId, ops: seq<Operation>, db': Database) {
    && (forall x :: x in db'.outbox <==> x in db.outbox || exists o :: o in ops && o.opId == x)
    && (forall o | o in ops :: o.opId in db'.outbox && db'.outbox[o.opId] == doc)
    && (forall x | x in db.outbox :: x in db'.outbox && db'.outbox[x] == db.outbox[x])
  }

  lemma EditedExactly(db: Database, doc: DocId, edit: LocalTextEdit)
    requires EditSize(edit) > 0 && EditError(db, doc, edit).None?
    ensures EditedOps(db, edit) != [] && EditLeaves(db, doc, EditedOps(db, edit), Edited(db, doc, edit))
  {
    var ops, m := EditedOps(db, edit), db.clientMeta.value;
    AllocatedExactly(db, doc, edit);
    assert IsAllocated(m, edit, ops, |ops| - 1);
    WithEditLeaves(db, doc, m, ops);
  }

  lemma WithEditLeaves(db: Database, doc: DocId, m: ClientMeta, ops: seq<Operation>)
    requires db.clientMeta == Some(m) && ops != [] && Addable(db.operations, ops) && Addable(db.outbox, ops)
    requires ops[|ops| - 1].counter == m.nextCounter + |ops| - 1 && ops[|ops| - 1].lamport == m.lamportClock + |ops|
    ensures EditLeaves(db, doc, ops, WithEdit(db, doc, m, ops))
  {
    var db' := WithEdit(db, doc, m, ops);
    AddRecordsMeaning(db.operations, doc, ops);
    AddedKeys(db.operations, doc, ops);
    assert RowsAdded(db, doc, ops, db');
    AddMarkersMeaning(db.outbox, doc, ops);
    assert MarkersAdded(db, doc, ops, db');
  }

  lemma {:induction false} AddedKeys(table: map<Id, OperationRecord>, doc: DocId, ops: seq<Operation>)
    requires Addable(table, ops)
    ensures forall x :: x in AddRecords(table, doc, ops) <==> x in table || exists o :: o in ops && o.opId == x
    ensures forall x | x in table :: AddRecords(table, doc, ops)[x] == table[x]
  {
    AddRecordsMeaning(table, doc, ops);
    forall x ensures x in AddRecords(table, doc, ops) <==> x in table || exists o :: o in ops && o.opId == x {
      if o :| o in ops && o.opId == x { } else { }
    }
  }

  lemma EditLeavesOthers(db: Database, doc: DocId, edit: LocalTextEdit)
    requires EditError(db, doc, edit).None?
    ensures SameElsewhere(db, Edited(db, doc, edit), doc)
  {
    if EditSize(edit) > 0 {
      EditedExactly(db, doc, edit);
      var db' := Edited(db, doc, edit);
      forall d | d != doc ensures PartOf(db', d) == PartOf(db, d) { SamePart(db, db', d); }
    }
  }

  /** Rows and markers of a document are the same if each single one is. */
  lemma SamePart(db: Database, db': Database, d: DocId)
    requires db'.syncState == db.syncState && db'.serverBaselines == db.serverBaselines
    requires forall x :: HasRow(db', d, x) <==> HasRow(db, d, x)
    requires forall x | HasRow(db, d, x) && HasRow(db', d, x) :: db'.operations[x] == db.operations[x]
    requires forall x :: HasMarker(db', d, x) <==> HasMarker(db, d, x)
    ensures PartOf(db', d) == PartOf(db, d)
  {
    assert PartOf(db', d).operations == PartOf(db, d).operations by {
      assert forall x :: x in PartOf(db', d).operations <==> HasRow(db', d, x);
      assert forall x :: x in PartOf(db, d).operations <==> HasRow(db, d, x);
    }
    assert PartOf(db', d).markers == PartOf(db, d).markers by {
      assert forall x :: x in PartOf(db', d).markers <==> HasMarker(db', d, x);
      assert forall x :: x in PartOf(db, d).markers <==> HasMarker(db, d, x);
    }
  }

  ghost predicate HasRow(db: Database, d: DocId, x: Id) {
    x in db.operations && db.operations[x].documentId == d
  }

  ghost predicate HasMarker(db: Database, d: DocId, x: Id) {
    x in db.outbox && db.outbox[x] == d
  }

  // ----- server operations

  /** Nothing recorded or marked under the identity contradicts the operation. */
  ghost predicate Ingestible(db: Database, doc: DocId, op: Operation) {
    && IsValidOperation(op)
    && (op.opId in db.operations ==> db.operations[op.opId] == OperationRecord(doc, op))
    && (op.opId in db.outbox ==> db.outbox[op.opId] == doc)
  }

  ghost predicate AllIngestible(db: Database, doc: DocId, ops: seq<Operation>) {
    && (forall o | o in ops :: Ingestible(db, doc, o))
    && (forall a, b | a in ops && b in ops && a.opId == b.opId :: a == b)
  }

  lemma IngestOneExactly(db: Database, doc: DocId, op: Operation)
    requires db.clientMeta.Some?
    ensures IngestOne(db, doc, op).Success? <==> Ingestible(db, doc, op)
    ensures IngestOne(db, doc, op).Failure? ==>
      IngestOne(db, doc, op).error == if IsValidOperation(op) then Conflict else Invalid
    ensures IngestOne(db, doc, op).Success? ==> IngestOne(db, doc, op).value.clientMeta.Some?
    ensures IngestOne(db, doc, op).Success? ==> forall o :: Ingestible(IngestOne(db, doc, op).value, doc, o) <==>
      Ingestible(db, doc, o) && (o.opId == op.opId ==> o == op)
  {}

  lemma AllIngestibleSplit(db: Database, db': Database, doc: DocId, ops: seq<Operation>)
    requires ops != [] && Ingestible(db, doc, ops[0])
    requires forall o :: Ingestible(db', doc, o) <==> Ingestible(db, doc, o) && (o.opId == ops[0].opId ==> o == ops[0])
    ensures AllIngestible(db, doc, ops) <==> AllIngestible(db', doc, ops[1..])
  {
    HeadOrTail(ops);
  }

  /** A batch is ingested whole exactly if each operation is valid, none contradicts what is
      recorded or marked, and no two of them contradict each other. */
  lemma {:induction false} IngestAllExactly(db: Database, doc: DocId, ops: seq<Operation>)
    requires db.clientMeta.Some?
    ensures IngestAll(db, doc, ops).Success? <==> AllIngestible(db, doc, ops)
    decreases |ops|
  {
    if ops != [] {
      IngestOneExactly(db, doc, ops[0]);
      assert ops[0] in ops;
      if IngestOne(db, doc, ops[0]).Success? {
        IngestAllExactly(IngestOne(db, doc, ops[0]).value, doc, ops[1..]);
        AllIngestibleSplit(db, IngestOne(db, doc, ops[0]).value, doc, ops);
      }
    }
  }

  /** The operation at `i` is the first that cannot be ingested. */
  ghost predicate FirstFaultAt(db: Database, doc: DocId, ops: seq<Operation>, i: nat) {
    i < |ops| && AllIngestible(db, doc, ops[..i]) && !AllIngestible(db, doc, ops[..i + 1])
  }

  /** Otherwise the first operation that cannot be ingested gives the error. */
  lemma {:induction false} IngestErrorExactly(db: Database, doc: DocId, ops: seq<Operation>) returns (i: nat)
    requires db.clientMeta.Some? && IngestAll(db, doc, ops).Failure?
    ensures FirstFaultAt(db, doc, ops, i)
    ensures IngestAll(db, doc, ops).error == if IsValidOperation(ops[i]) then Conflict else Invalid
    decreases |ops|
  {
    IngestOneExactly(db, doc, ops[0]);
    if IngestOne(db, doc, ops[0]).Failure? {
      assert ops[0] in ops[..1] && ops[..0] == [];
      return 0;
    }
    var db' := IngestOne(db, doc, ops[0]).value;
    var j := IngestErrorExactly(db', doc, ops[1..]);
    FaultBehindFirst(db, db', doc, ops, j);
    return j + 1;
  }

  lemma FaultBehindFirst(db: Database, db': Database, doc: DocId, ops: seq<Operation>, j: nat)
    requires ops != [] && Ingestible(db, doc, ops[0]) && FirstFaultAt(db', doc, ops[1..], j)
    requires forall o :: Ingestible(db', doc, o) <==> Ingestible(db, doc, o) && (o.opId == ops[0].opId ==> o == ops[0])
    ensures FirstFaultAt(db, doc, ops, j + 1)
  {
    AllIngestibleSplit(db, db', doc, ops[..j + 1]);
    AllIngestibleSplit(db, db', doc, ops[..j + 2]);
    assert ops[..j + 1][1..] == ops[1..][..j] && ops[..j + 2][1..] == ops[1..][..j + 1];
  }

  /** Everything that a committed ingest leaves: a row for each operation beside the old
      ones, their markers gone, the clock at the largest Lamport value seen, the cursor at
      the maximum, and nothing else. */
  ghost predicate IngestLeaves(db: Database, doc: DocId, batch: seq<Sequenced>, confirmed: int, db': Database)
    requires db.clientMeta.Some?
  {
    var m, ops := db.clientMeta.value, OpsOf(batch);
    && RowsAdded(db, doc, ops, db')
    && (forall x :: x in db'.outbox <==> x in db.outbox && forall o | o in ops :: o.opId != x)
    && (forall x | x in db'.outbox :: x in db.outbox && db'.outbox[x] == db.outbox[x])
    && db'.clientMeta.Some? && ClockReaches(m, ops, db'.clientMeta.value)
    && CursorReaches(db, doc, confirmed, db')
    && db' == db.(operations := db'.operations, outbox := db'.outbox, clientMeta := db'.clientMeta,
                  syncState := db'.syncState)
  }

  ghost predicate CursorReaches(db: Database, doc: DocId, confirmed: int, db': Database) {
    db'.syncState ==
      db.syncState[doc := if LastServerSeq(db, doc) < confirmed then confirmed else LastServerSeq(db, doc)]
  }

  /** The clock is the largest of the old one and the Lamport values. */
  ghost predicate ClockReaches(m: ClientMeta, ops: seq<Operation>, m': ClientMeta) {
    && m' == m.(lamportClock := m'.lamportClock)
    && m'.lamportClock >= m.lamportClock && (forall o | o in ops :: o.lamport <= m'.lamportClock)
    && (m'.lamportClock == m.lamportClock || exists o :: o in ops && o.lamport == m'.lamportClock)
  }

  /** The ingest transaction commits under exactly these conditions, and leaves that. */
  lemma IngestedExactly(db: Database, doc: DocId, batch: seq<Sequenced>, confirmed: int)
    ensures Ingested(db, doc, batch, confirmed).Success? <==>
      && ValidServerBatch(batch, confirmed) && db.clientMeta.Some? && doc in db.documents
      && AllIngestible(db, doc, OpsOf(batch))
    ensures Filed(db) && Ingested(db, doc, batch, confirmed).Success? ==>
      IngestLeaves(db, doc, batch, confirmed, Ingested(db, doc, batch, confirmed).value)
  {
    if db.clientMeta.Some? {
      IngestAllExactly(db, doc, OpsOf(batch));
      if Filed(db) && Ingested(db, doc, batch, confirmed).Success? { IngestedLeaves(db, doc, batch, confirmed); }
    }
  }

  lemma IngestedLeaves(db: Database, doc: DocId, batch: seq<Sequenced>, confirmed: int)
    requires Filed(db) && Ingested(db, doc, batch, confirmed).Success? && db.clientMeta.Some?
    ensures IngestLeaves(db, doc, batch, confirmed, Ingested(db, doc, batch, confirmed).value)
  {
    var ops := OpsOf(batch);
    IngestAllMeaning(db, doc, ops);
    IngestAllRecords(db, doc, ops);
    IngestAllOutbox(db, doc, ops);
    IngestedRecorded(db, doc, ops);
    var m, m' := db.clientMeta.value, IngestAll(db, doc, ops).value.clientMeta.value;
    assert m' == m.(lamportClock := m'.lamportClock);
  }

  lemma {:induction false} IngestedRecorded(db: Database, doc: DocId, ops: seq<Operation>)
    requires IngestAll(db, doc, ops).Success? && Filed(db) && db.clientMeta.Some?
    ensures forall o | o in ops ::
      && o.opId in IngestAll(db, doc, ops).value.operations
      && IngestAll(db, doc, ops).value.operations[o.opId] == OperationRecord(doc, o)
  {
    var r := IngestAll(db, doc, ops).value;
    IngestAllMeaning(db, doc, ops);
    MergeMeaning(DocOps(db, doc), ops);
    forall o | o in ops ensures o.opId in r.operations && r.operations[o.opId] == OperationRecord(doc, o) {
      assert o.opId in DocOps(r, doc) && DocOps(r, doc)[o.opId] == o;
    }
  }

  lemma IngestLeavesOthers(db: Database, doc: DocId, batch: seq<Sequenced>, confirmed: int)
    requires Filed(db) && Ingested(db, doc, batch, confirmed).Success?
    ensures SameElsewhere(db, Ingested(db, doc, batch, confirmed).value, doc)
  {
    var db', ops := Ingested(db, doc, batch, confirmed).value, OpsOf(batch);
    IngestedExactly(db, doc, batch, confirmed);
    var flat := db'.(syncState := db.syncState);
    forall d | d != doc ensures PartOf(db', d) == PartOf(db, d) {
      forall x | HasMarker(db, d, x) ensures HasMarker(flat, d, x) {
        assert forall o | o in ops :: Ingestible(db, doc, o);
      }
      SamePart(db, flat, d);
      assert PartOf(db', d) == PartOf(flat, d);
    }
  }

  // ----- a server snapshot

  /** Everything that an installed snapshot leaves: a row for each operation after it beside
      the old ones, the snapshot itself as the baseline, the cursor at the confirmed number,
      the clock at the largest Lamport value, no checkpoint, and nothing else. */
  lemma InstalledExactly(db: Database, doc: DocId, boot: Bootstrap, batch: seq<Sequenced>, confirmed: int)
    requires Installable(db, doc, boot, batch, confirmed)
    ensures var db', ops := Installed(db, doc, boot, batch, confirmed), OpsOf(batch);
      && RowsAdded(db, doc, ops, db') && db'.outbox == db.outbox && db'.documents == db.documents
      && db'.serverBaselines == db.serverBaselines[doc := Baseline(boot.snapshotSeq, boot.snapshot)]
      && db'.syncState == db.syncState[doc := confirmed]
      && CheckpointIn(db', doc) == None
      && db'.clientMeta.Some? && ClockReaches(NotNegative(db.clientMeta.value),
        InsertsOf(boot.snapshot.nodes) + boot.snapshot.deleteOperations + ops, db'.clientMeta.value)
  {
    var ops := OpsOf(batch);
    AddRecordsMeaning(db.operations, doc, ops);
    AddedKeys(db.operations, doc, ops);
    InstalledClock(db.clientMeta.value, boot.snapshot, ops);
  }

  lemma {:induction false} InstalledClock(m: ClientMeta, snap: Snapshot, ops: seq<Operation>)
    ensures ClockReaches(NotNegative(m), InsertsOf(snap.nodes) + snap.deleteOperations + ops,
                         m.(lamportClock := Max(m.lamportClock, Max(SnapshotLamport(snap), MaxLamport(ops)))))
  {
    var inserts: seq<Operation>, deletes: seq<Operation> := InsertsOf(snap.nodes), snap.deleteOperations;
    MaxLamportReached(inserts);
    MaxLamportReached(deletes);
    MaxLamportReached(ops);
    var all, clock := inserts + deletes + ops, Max(m.lamportClock, Max(SnapshotLamport(snap), MaxLamport(ops)));
    assert forall o :: o in all <==> o in inserts || o in deletes || o in ops;
    if clock > NotNegative(m).lamportClock {
      if clock == MaxLamport(ops) {
        var o :| o in ops && o.lamport == clock;
      } else if clock == MaxLamport(inserts) {
        var o :| o in inserts && o.lamport == clock;
      } else {
        var o :| o in deletes && o.lamport == clock;
      }
    }
  }

  function NotNegative(m: ClientMeta): ClientMeta {
    if m.lamportClock < 0 then m.(lamportClock := 0) else m
  }

  lemma AddedPart(db: Database, doc: DocId, ops: seq<Operation>, db': Database, d: DocId)
    requires RowsAdded(db, doc, ops, db') && d != doc
    requires db'.syncState == db.syncState && db'.serverBaselines == db.serverBaselines && db'.outbox == db.outbox
    ensures PartOf(db', d) == PartOf(db, d)
  {
    SamePart(db, db', d);
  }

  lemma InstallLeavesOthers(db: Database, doc: DocId, boot: Bootstrap, batch: seq<Sequenced>, confirmed: int)
    requires Installable(db, doc, boot, batch, confirmed)
    ensures SameElsewhere(db, Installed(db, doc, boot, batch, confirmed), doc)
  {
    var db' := Installed(db, doc, boot, batch, confirmed);
    InstalledExactly(db, doc, boot, batch, confirmed);
    var flat := db'.(syncState := db.syncState, serverBaselines := db.serverBaselines);
    forall d | d != doc ensures PartOf(db', d) == PartOf(db, d) {
      AddedPart(db, doc, OpsOf(batch), flat, d);
      assert PartOf(db', d) == PartOf(flat, d);
    }
  }
}
