/** Messages keep the system's invariant: no ingest in a reachable state fails, and
    the cursor never passes a row that the client does not know. */
module SyncMessages {
  import opened Wrappers
  import opened Operations
  import opened AnchorGraph
  import opened EditSemantics
  import opened LocalStore
  import opened OperationStores
  import opened Replays
  import opened RestoreSpec
  import opened ServerSnapshots
  import opened Snapshots
  import opened StoreFacts
  import opened SyncInvariants
  import opened SyncSystems

  // ----- ingest

  /** Tables that hold only made operations of the document. */
  ghost predicate Consistent(U: OpMap, doc: DocId, db: Database) {
    && db.clientMeta.Some?
    && (forall x | x in db.operations ::
          db.operations[x].documentId == doc && db.operations[x].operation.opId == x
            && Made(U, db.operations[x].operation))
    && (forall x | x in db.outbox :: db.outbox[x] == doc)
  }

  lemma TablesAreConsistent(U: OpMap, doc: DocId, c: ClientId, db: Database)
    requires TablesOk(U, doc, c, db)
    ensures Consistent(U, doc, db)
  {
    forall x | x in db.operations ensures Made(U, db.operations[x].operation) {
      assert x in DocOps(db, doc) && KnownOf(db, doc)[x] == db.operations[x].operation;
    }
  }

  /** Made operations are ingested without error. */
  lemma {:induction false} IngestSucceeds(U: OpMap, doc: DocId, db: Database, ops: seq<Operation>)
    requires WellKeyed(U) && Consistent(U, doc, db) && forall o | o in ops :: Made(U, o)
    ensures IngestAll(db, doc, ops).Success?
    decreases |ops|
  {
    if ops != [] {
      assert ops[0] in ops;
      assert forall o | o in ops[1..] :: o in ops;
      IngestSucceeds(U, doc, IngestOne(db, doc, ops[0]).value, ops[1..]);
    }
  }

  /** The batch holds made operations that the log holds too. */
  ghost predicate BatchOk(U: OpMap, log: seq<Sequenced>, batch: seq<Sequenced>, confirmed: int) {
    && ValidServerBatch(batch, confirmed) && confirmed <= Latest(log)
    && (forall r | r in batch :: r in log && Made(U, r.operation))
  }

  lemma BatchOperations(U: OpMap, log: seq<Sequenced>, batch: seq<Sequenced>, confirmed: int)
    requires BatchOk(U, log, batch, confirmed)
    ensures forall o | o in OpsOf(batch) :: Made(U, o) && Logged(log, o)
    ensures forall r | r in batch :: r.operation in OpsOf(batch)
  {
    var ops := OpsOf(batch);
    forall o | o in ops ensures Made(U, o) && Logged(log, o) {
      var i :| 0 <= i < |ops| && ops[i] == o;
      assert batch[i] in batch;
    }
    forall r | r in batch ensures r.operation in ops {
      var i :| 0 <= i < |batch| && batch[i] == r;
      assert ops[i] == r.operation;
    }
  }

  /** No honest batch is rejected, by the tables or by the replica. */
  lemma IngestAccepted(U: OpMap, log: seq<Sequenced>, doc: DocId, c: ClientId, db: Database, batch: seq<Sequenced>,
          confirmed: int)
    requires UniverseOk(U) && TablesOk(U, doc, c, db) && BatchOk(U, log, batch, confirmed)
    ensures Ingested(db, doc, batch, confirmed).Success?
    ensures Replay(KnownOf(db, doc), OpsOf(batch)) == Outcome(Merge(KnownOf(db, doc), OpsOf(batch)), true)
    ensures Sub(Merge(KnownOf(db, doc), OpsOf(batch)), U) && OnePayload(KnownOf(db, doc), OpsOf(batch))
  {
    BatchOperations(U, log, batch, confirmed);
    TablesAreConsistent(U, doc, c, db);
    IngestSucceeds(U, doc, db, OpsOf(batch));
    ReplayWithin(KnownOf(db, doc), U, OpsOf(batch));
    assert Replay(KnownOf(db, doc), OpsOf(batch)) == Outcome(Replay(KnownOf(db, doc), OpsOf(batch)).known, true);
  }

  lemma IngestedTables(U: OpMap, log: seq<Sequenced>, doc: DocId, c: ClientId, db: Database, batch: seq<Sequenced>,
          confirmed: int)
    requires UniverseOk(U) && TablesOk(U, doc, c, db) && BatchOk(U, log, batch, confirmed)
    requires Ingested(db, doc, batch, confirmed).Success?
    ensures TablesOk(U, doc, c, Ingested(db, doc, batch, confirmed).value)
    ensures KnownOf(Ingested(db, doc, batch, confirmed).value, doc) == Merge(KnownOf(db, doc), OpsOf(batch))
  {
    var ops, db' := OpsOf(batch), Ingested(db, doc, batch, confirmed).value;
    IngestAccepted(U, log, doc, c, db, batch, confirmed);
    IngestKeepsSync(db, doc, KnownOf(db, doc), batch, confirmed);
    IngestAllMeaning(db, doc, ops);
    StaysAhead(KnownOf(db, doc), ops, db.clientMeta.value.lamportClock, db'.clientMeta.value.lamportClock);
    IngestedRows(doc, c, db, ops);
  }

  lemma {:induction false} IngestedRows(doc: DocId, c: ClientId, db: Database, ops: seq<Operation>)
    requires IngestAll(db, doc, ops).Success?
    requires forall x | x in db.operations :: db.operations[x].documentId == doc
    requires forall x | x in db.outbox ::
      db.outbox[x] == doc && x in db.operations && db.operations[x].operation.clientId == c
    ensures var r := IngestAll(db, doc, ops).value;
      && (forall x | x in r.operations :: r.operations[x].documentId == doc)
      && (forall x | x in r.outbox ::
            r.outbox[x] == doc && x in r.operations && r.operations[x].operation.clientId == c)
  {
    IngestAllRecords(db, doc, ops);
    IngestAllOutbox(db, doc, ops);
  }

  lemma {:induction false} IngestedOwn(U: OpMap, log: seq<Sequenced>, doc: DocId, c: ClientId, db: Database,
          ops: seq<Operation>)
    requires OwnSafe(U, log, c, db) && IngestAll(db, doc, ops).Success?
    requires forall o | o in ops :: Made(U, o) && Logged(log, o)
    ensures OwnSafe(U, log, c, IngestAll(db, doc, ops).value)
  {
    IngestAllRecords(db, doc, ops);
    IngestAllOutbox(db, doc, ops);
    var r := IngestAll(db, doc, ops).value;
    forall x | x in U && U[x].clientId == c ensures x in r.operations && (x in r.outbox || Logged(log, U[x])) {
      if o :| o in ops && o.opId == x { } else { }
    }
  }

  lemma CursorMoves(db: Database, doc: DocId, batch: seq<Sequenced>, confirmed: int)
    requires Ingested(db, doc, batch, confirmed).Success?
    ensures LastServerSeq(Ingested(db, doc, batch, confirmed).value, doc) == Max(LastServerSeq(db, doc), confirmed)
  {}

  lemma AssembleClient(U: OpMap, log: seq<Sequenced>, doc: DocId, c: ClientId, db: Database, K: OpMap, ses: Session)
    requires TablesOk(U, doc, c, db) && OwnSafe(U, log, c, db) && CursorInLog(log, doc, db)
    requires KnownOf(db, doc) == K && SessionOk(log, LastServerSeq(db, doc), ses)
    ensures ClientOk(U, log, doc, c, Client(db, Some(K), Some(ses)))
  {}

  /** The messages that a client holds are in order. */
  lemma HoldsInOrder(U: OpMap, log: seq<Sequenced>, doc: DocId, c: ClientId, k: Client)
    requires ClientOk(U, log, doc, c, k) && HasMessage(k)
    ensures k.replica == Some(KnownOf(k.db, doc))
    ensures MessageOk(log, FirstMessage(k)) && forall m | m in k.session.value.missed :: MessageOk(log, m)
  {
    assert FirstMessage(k) in k.session.value.queue;
    assert FirstMessage(k) in Messages(k.session.value);
  }

  lemma StillInOrder(log: seq<Sequenced>, cursor: int, ses: Session, cursor': int, ses': Session)
    requires SessionOk(log, cursor, ses) && ses.phase == ses'.phase && cursor <= cursor'
    requires forall m | m in Messages(ses') :: m in Messages(ses)
    ensures SessionOk(log, cursor', ses')
  {}

  lemma AdvanceOk(log: seq<Sequenced>, cursor: int, ses: Session, cursor': int)
    requires SessionOk(log, cursor, ses) && ses.queue != [] && cursor <= cursor'
    ensures SessionOk(log, cursor', Advance(ses))
  {
    StillInOrder(log, cursor, ses, cursor', Advance(ses));
  }

  /** Messages that were not taken stay in order too. */
  lemma MissedOk(log: seq<Sequenced>, cursor: int, ses: Session, arrived: nat)
    requires SessionOk(log, cursor, ses) && ses.queue != []
    ensures SessionOk(log, cursor, Miss(ses)) && SessionOk(log, cursor, Refuse(ses, arrived))
  {
    StillInOrder(log, cursor, ses, cursor, Miss(ses));
    StillInOrder(log, cursor, ses, cursor, Refuse(ses, arrived));
  }

  lemma MissKeeps(U: OpMap, log: seq<Sequenced>, doc: DocId, c: ClientId, k: Client, arrived: nat)
    requires ClientOk(U, log, doc, c, k) && HasMessage(k)
    ensures ClientOk(U, log, doc, c, k.(session := Some(Miss(k.session.value))))
    ensures ClientOk(U, log, doc, c, k.(session := Some(Refuse(k.session.value, arrived))))
  {
    HoldsInOrder(U, log, doc, c, k);
    MissedOk(log, LastServerSeq(k.db, doc), k.session.value, arrived);
  }

  /** The tables after an ingest are in order and have lost nothing. */
  lemma IngestedDatabase(U: OpMap, log: seq<Sequenced>, doc: DocId, c: ClientId, db: Database, m: ServerMessage)
    requires UniverseOk(U) && TablesOk(U, doc, c, db) && OwnSafe(U, log, c, db) && CursorInLog(log, doc, db)
    requires MessageOk(log, m) && (forall r | r in log :: Made(U, r.operation))
    ensures Ingested(db, doc, Items(m), Confirmed(m)).Success?
    ensures var db' := Ingested(db, doc, Items(m), Confirmed(m)).value;
      && TablesOk(U, doc, c, db') && OwnSafe(U, log, c, db') && CursorInLog(log, doc, db')
      && LastServerSeq(db', doc) == Max(LastServerSeq(db, doc), Confirmed(m))
      && Replay(KnownOf(db, doc), OpsOf(Items(m))) == Outcome(KnownOf(db', doc), true)
  {
    var batch, confirmed := Items(m), Confirmed(m);
    IngestAccepted(U, log, doc, c, db, batch, confirmed);
    IngestedTables(U, log, doc, c, db, batch, confirmed);
    BatchOperations(U, log, batch, confirmed);
    IngestedOwn(U, log, doc, c, db, OpsOf(batch));
    CursorMoves(db, doc, batch, confirmed);
  }

  /** The client after an ingest that succeeded. */
  ghost function AfterIngest(doc: DocId, k: Client): Client
    requires HasMessage(k) && Ingested(k.db, doc, Items(FirstMessage(k)), Confirmed(FirstMessage(k))).Success?
  {
    var db' := Ingested(k.db, doc, Items(FirstMessage(k)), Confirmed(FirstMessage(k))).value;
    Client(db', Some(KnownOf(db', doc)), Some(Advance(k.session.value)))
  }

  /** Handling a message without a snapshot, whatever was missed before it, keeps the
      client in order; it is never rejected. */
  lemma IngestKeeps(U: OpMap, log: seq<Sequenced>, doc: DocId, c: ClientId, k: Client, arrived: nat)
    requires UniverseOk(U) && ClientOk(U, log, doc, c, k) && (forall r | r in log :: Made(U, r.operation))
    requires HasMessage(k) && !IsBootstrap(FirstMessage(k))
    ensures Ingested(k.db, doc, Items(FirstMessage(k)), Confirmed(FirstMessage(k))).Success?
    ensures Handle(doc, k, arrived) == AfterIngest(doc, k) && ClientOk(U, log, doc, c, AfterIngest(doc, k))
    ensures LastServerSeq(AfterIngest(doc, k).db, doc) == Max(LastServerSeq(k.db, doc), Confirmed(FirstMessage(k)))
  {
    var m := FirstMessage(k);
    HoldsInOrder(U, log, doc, c, k);
    IngestedDatabase(U, log, doc, c, k.db, m);
    var db' := Ingested(k.db, doc, Items(m), Confirmed(m)).value;
    AdvanceOk(log, LastServerSeq(k.db, doc), k.session.value, LastServerSeq(db', doc));
    AssembleClient(U, log, doc, c, db', KnownOf(db', doc), Advance(k.session.value));
  }

  // ----- bootstrap

  /** The operations behind a cached snapshot were all made, and cover the log
      through its sequence number. */
  lemma PrefixMade(U: OpMap, log: seq<Sequenced>, sequence: int, row: SnapshotRow, K0: OpMap)
    requires UniverseOk(U) && GoodLog(log, sequence) && (forall r | r in log :: Made(U, r.operation))
    requires StandsForPrefix(log, row) && Describes(row.snapshot, K0)
    ensures Sub(K0, U)
    ensures forall r | r in log && r.serverSeq <= row.snapshotSeq :: r.operation.opId in K0
  {
    var prefix := Between(log, 0, row.snapshotSeq);
    var ops := OpsOf(prefix);
    ListedSetUnique(row.snapshot, K0, Prefix(log, row.snapshotSeq).known);
    BetweenMembers(log, 0, row.snapshotSeq);
    forall o | o in ops ensures Made(U, o) {
      var i :| 0 <= i < |ops| && ops[i] == o;
      assert prefix[i] in prefix;
    }
    assert Sub(map[], U);
    ReplayWithin(map[], U, ops);
    MergeMeaning(map[], ops);
    forall r | r in log && r.serverSeq <= row.snapshotSeq ensures r.operation.opId in K0 {
      var i :| 0 <= i < |prefix| && prefix[i] == r;
      assert ops[i] == r.operation && ops[i] in ops;
    }
  }

  lemma MaxLamportAmong(ns: seq<ReplicaShape.TextNode>, n: ReplicaShape.TextNode)
    requires n in ns
    ensures n.lamport <= MaxLamport(InsertsOf(ns))
  {
    var i :| 0 <= i < |ns| && ns[i] == n;
    assert InsertsOf(ns)[i] in InsertsOf(ns);
  }

  /** The clock that a bootstrap sets is ahead of everything it brings. */
  lemma BootstrapClock(boot: Bootstrap, batch: seq<Sequenced>, confirmed: int, K0: OpMap, K: OpMap)
    requires Bootstraps(boot, batch, confirmed, K0, K) && WellFormed(K0)
    ensures ClockAhead(K, Max(SnapshotLamport(boot.snapshot), MaxLamport(OpsOf(batch))))
  {
    var snap, ops := boot.snapshot, OpsOf(batch);
    ReplayAccepts(K0, ops);
    forall x | x in K0 ensures K0[x].lamport <= SnapshotLamport(snap) {
      if K0[x].Insert? {
        assert IsInsert(K0, x);
        var n :| n in snap.nodes && n.id == x;
        MaxLamportAmong(snap.nodes, n);
      } else {
        assert K0[x] in snap.deleteOperations;
      }
    }
    StaysAhead(K0, ops, SnapshotLamport(snap), Max(SnapshotLamport(snap), MaxLamport(ops)));
  }

  /** A pristine document has no rows at all here. */
  lemma PristineTables(U: OpMap, doc: DocId, c: ClientId, db: Database)
    requires TablesOk(U, doc, c, db) && Eligible(db, doc)
    ensures db.operations == map[] && db.outbox == map[]
  {}

  lemma {:induction false} InstalledTables(U: OpMap, log: seq<Sequenced>, doc: DocId, c: ClientId, db: Database,
          boot: Bootstrap, batch: seq<Sequenced>, confirmed: int, K0: OpMap, K: OpMap)
    requires UniverseOk(U) && TablesOk(U, doc, c, db) && BatchOk(U, log, batch, confirmed)
    requires Installable(db, doc, boot, batch, confirmed) && Bootstraps(boot, batch, confirmed, K0, K) && Sub(K0, U)
    ensures TablesOk(U, doc, c, Installed(db, doc, boot, batch, confirmed))
    ensures KnownOf(Installed(db, doc, boot, batch, confirmed), doc) == K == Merge(K0, OpsOf(batch))
    ensures OnePayload(K0, OpsOf(batch))
  {
    var ops, db' := OpsOf(batch), Installed(db, doc, boot, batch, confirmed);
    BatchOperations(U, log, batch, confirmed);
    InstallMakesSync(db, doc, boot, batch, confirmed, K0, K);
    ReplayWithin(K0, U, ops);
    BootstrapClock(boot, batch, confirmed, K0, K);
    PristineTables(U, doc, c, db);
    InstalledRows(doc, ops);
  }

  lemma {:induction false} InstalledRows(doc: DocId, ops: seq<Operation>)
    requires forall i, j | 0 <= i < j < |ops| :: ops[i].opId != ops[j].opId
    ensures forall x | x in AddRecords(map[], doc, ops) :: AddRecords(map[], doc, ops)[x].documentId == doc
  {
    var rows := AddRecords(map[], doc, ops);
    AddRecordsMeaning(map[], doc, ops);
    forall x | x in rows ensures rows[x].documentId == doc {
      if o :| o in ops && o.opId == x { } else { }
    }
  }

  lemma {:induction false} InstalledCursor(log: seq<Sequenced>, sequence: int, K0: OpMap, ops: seq<Operation>,
          snapshotSeq: int, batch: seq<Sequenced>, confirmed: int)
    requires GoodLog(log, sequence) && OnePayload(K0, ops)
    requires forall r | r in batch :: r.operation in ops
    requires forall r | r in log && r.serverSeq <= snapshotSeq :: r.operation.opId in K0
    requires forall r | r in log && 0 < r.serverSeq <= confirmed :: r in batch || r.serverSeq <= snapshotSeq
    ensures forall r | r in log && r.serverSeq <= confirmed :: r.operation.opId in Merge(K0, ops)
  {
    MergeMeaning(K0, ops);
  }

  /** A pristine client has made nothing yet. */
  lemma InstalledOwn(U: OpMap, log: seq<Sequenced>, doc: DocId, c: ClientId, db: Database, db': Database)
    requires TablesOk(U, doc, c, db) && Eligible(db, doc) && OwnSafe(U, log, c, db)
    ensures OwnSafe(U, log, c, db')
  {
    PristineTables(U, doc, c, db);
    assert forall x | x in U && U[x].clientId == c :: x in db.operations;
  }

  lemma BootstrapMeans(log: seq<Sequenced>, sequence: int, m: ServerMessage)
    requires GoodLog(log, sequence) && MessageOk(log, m) && IsBootstrap(m)
    ensures (exists K0, K :: Bootstraps(m.sync.bootstrap.value, Items(m), Confirmed(m), K0, K)) <==>
      Complete(Prefix(log, Confirmed(m)))
    ensures forall K0, K | Bootstraps(m.sync.bootstrap.value, Items(m), Confirmed(m), K0, K) ::
      K0 == Prefix(log, m.sync.bootstrap.value.snapshotSeq).known && K == Prefix(log, Confirmed(m)).known
  {
    var boot, batch, confirmed := m.sync.bootstrap.value, Items(m), Confirmed(m);
    var row := RowOf(boot);
    assert EnvelopeOf(row) == boot && Between(log, row.snapshotSeq, confirmed) == batch;
    BootstrapIsHistory(log, sequence, row, confirmed);
    assert (exists K0, K :: Bootstraps(boot, batch, confirmed, K0, K)) <==> Complete(Prefix(log, confirmed));
  }

  /** A client installs the bootstrap exactly when its document is pristine and the log
      through the barrier replays and resolves. */
  lemma BootstrapDecides(U: OpMap, log: seq<Sequenced>, sequence: int, doc: DocId, c: ClientId, db: Database,
          m: ServerMessage)
    requires TablesOk(U, doc, c, db) && GoodLog(log, sequence) && MessageOk(log, m) && IsBootstrap(m)
    ensures Installable(db, doc, m.sync.bootstrap.value, Items(m), Confirmed(m)) <==>
      Eligible(db, doc) && Complete(Prefix(log, Confirmed(m)))
  {
    BootstrapMeans(log, sequence, m);
    if Eligible(db, doc) { PristineAddable(U, log, sequence, doc, c, db, m); }
  }

  lemma PristineAddable(U: OpMap, log: seq<Sequenced>, sequence: int, doc: DocId, c: ClientId, db: Database,
          m: ServerMessage)
    requires TablesOk(U, doc, c, db) && GoodLog(log, sequence) && MessageOk(log, m) && IsBootstrap(m)
      && Eligible(db, doc)
    ensures Addable(db.operations, OpsOf(Items(m)))
  {
    PristineTables(U, doc, c, db);
    BatchDistinct(log, sequence, m.sync.bootstrap.value.snapshotSeq, Confirmed(m));
  }

  lemma {:induction false} BatchDistinct(log: seq<Sequenced>, sequence: int, after: int, through: int)
    requires GoodLog(log, sequence)
    ensures var ops := OpsOf(Between(log, after, through));
      forall i, j | 0 <= i < j < |ops| :: ops[i].opId != ops[j].opId
  {
    BetweenOrdered(log, after, through, sequence);
  }

  /** The tables after a bootstrap are in order and know every row they confirm. */
  lemma InstalledKnows(U: OpMap, log: seq<Sequenced>, sequence: int, doc: DocId, c: ClientId, db: Database,
          m: ServerMessage, K0: OpMap, K: OpMap)
    requires UniverseOk(U) && TablesOk(U, doc, c, db)
    requires GoodLog(log, sequence) && (forall r | r in log :: Made(U, r.operation))
    requires IsBootstrap(m) && MessageOk(log, m)
    requires Installable(db, doc, m.sync.bootstrap.value, Items(m), Confirmed(m))
    requires Bootstraps(m.sync.bootstrap.value, Items(m), Confirmed(m), K0, K)
    ensures var db' := Installed(db, doc, m.sync.bootstrap.value, Items(m), Confirmed(m));
      TablesOk(U, doc, c, db') && KnownOf(db', doc) == K && CursorSound(log, doc, db')
  {
    var boot, batch, confirmed := m.sync.bootstrap.value, Items(m), Confirmed(m);
    PrefixMade(U, log, sequence, RowOf(boot), K0);
    InstalledTables(U, log, doc, c, db, boot, batch, confirmed, K0, K);
    BatchOperations(U, log, batch, confirmed);
    BetweenMembers(log, boot.snapshotSeq, confirmed);
    InstalledCursor(log, sequence, K0, OpsOf(batch), boot.snapshotSeq, batch, confirmed);
  }

  /** The client after an installed bootstrap. */
  ghost function AfterInstall(log: seq<Sequenced>, doc: DocId, k: Client): Client
    requires HasMessage(k) && IsBootstrap(FirstMessage(k)) && k.db.clientMeta.Some?
  {
    var m := FirstMessage(k);
    Client(Installed(k.db, doc, m.sync.bootstrap.value, Items(m), Confirmed(m)),
           Some(Prefix(log, Confirmed(m)).known), Some(Advance(k.session.value)))
  }

  lemma AfterInstallOk(U: OpMap, log: seq<Sequenced>, sequence: int, doc: DocId, c: ClientId, k: Client)
    requires UniverseOk(U) && ClientOk(U, log, doc, c, k)
    requires GoodLog(log, sequence) && (forall r | r in log :: Made(U, r.operation))
    requires HasMessage(k) && IsBootstrap(FirstMessage(k)) && k.db.clientMeta.Some?
    requires Installable(k.db, doc, FirstMessage(k).sync.bootstrap.value, Items(FirstMessage(k)),
                         Confirmed(FirstMessage(k)))
    ensures ClientOk(U, log, doc, c, AfterInstall(log, doc, k))
    ensures CursorSound(log, doc, AfterInstall(log, doc, k).db)
  {
    var m := FirstMessage(k);
    var boot, batch, confirmed := m.sync.bootstrap.value, Items(m), Confirmed(m);
    HoldsInOrder(U, log, doc, c, k);
    BootstrapMeans(log, sequence, m);
    var K0, K :| Bootstraps(boot, batch, confirmed, K0, K);
    var db' := Installed(k.db, doc, boot, batch, confirmed);
    InstalledKnows(U, log, sequence, doc, c, k.db, m, K0, K);
    InstalledOwn(U, log, doc, c, k.db, db');
    AdvanceOk(log, LastServerSeq(k.db, doc), k.session.value, LastServerSeq(db', doc));
    AssembleClient(U, log, doc, c, db', K, Advance(k.session.value));
  }

  /** Handling a bootstrap keeps the client in order. It is installed exactly when the
      document is still pristine and the log through the barrier replays and resolves;
      otherwise it is refused, the connection closes and the tables stay as they are. */
  lemma InstallKeeps(U: OpMap, log: seq<Sequenced>, sequence: int, doc: DocId, c: ClientId, k: Client, arrived: nat)
    requires UniverseOk(U) && ClientOk(U, log, doc, c, k)
    requires GoodLog(log, sequence) && (forall r | r in log :: Made(U, r.operation))
    requires HasMessage(k) && IsBootstrap(FirstMessage(k))
    ensures ClientOk(U, log, doc, c, Handle(doc, k, arrived))
    ensures Handle(doc, k, arrived) ==
      if Eligible(k.db, doc) && Complete(Prefix(log, Confirmed(FirstMessage(k)))) then AfterInstall(log, doc, k)
      else k.(session := Some(Refuse(k.session.value, arrived)))
    ensures Eligible(k.db, doc) && Complete(Prefix(log, Confirmed(FirstMessage(k)))) ==>
      CursorSound(log, doc, AfterInstall(log, doc, k).db)
  {
    var m := FirstMessage(k);
    HoldsInOrder(U, log, doc, c, k);
    BootstrapMeans(log, sequence, m);
    BootstrapDecides(U, log, sequence, doc, c, k.db, m);
    if Installable(k.db, doc, m.sync.bootstrap.value, Items(m), Confirmed(m)) {
      AfterInstallOk(U, log, sequence, doc, c, k);
    } else {
      MissKeeps(U, log, doc, c, k, arrived);
    }
  }
}
