/** A local edit keeps the system's invariant. The client that makes it records the
    new operations, marks them for sending and stays ready for the next edit; every
    other client is undisturbed, since what one client allocates never mentions an
    identity that another is still to allocate. */
module SyncEdits {
  import opened Wrappers
  import opened JsStrings
  import opened Operations
  import opened AnchorGraph
  import opened Documents
  import opened EditSemantics
  import opened LocalDocumentControllers
  import opened LocalStore
  import opened OperationStores
  import opened Replays
  import opened StoreFacts
  import opened SyncInvariants
  import opened SyncSystems
  import opened TextEdit

  lemma SubTransitive(K: OpMap, L: OpMap, M: OpMap)
    requires Sub(K, L) && Sub(L, M)
    ensures Sub(K, M)
  {}

  lemma FreshForPart(K: OpMap, U: OpMap, c: ClientId, counter: int)
    requires Sub(K, U) && FreshFrom(U, c, counter)
    ensures FreshFrom(K, c, counter)
  {
    forall n | n >= counter ensures Unreferenced(K, MakeOperationId(c, n)) {
      assert Unreferenced(U, MakeOperationId(c, n));
    }
  }

  lemma {:induction false} MergeWithin(K: OpMap, U: OpMap, ops: seq<Operation>)
    requires Sub(K, U) && OnePayload(U, ops)
    ensures OnePayload(K, ops) && Sub(Merge(K, ops), Merge(U, ops)) && Sub(U, Merge(U, ops))
  {
    MergeMeaning(U, ops);
    MergeMeaning(K, ops);
    forall x | x in Merge(K, ops) ensures x in Merge(U, ops) && Merge(U, ops)[x] == Merge(K, ops)[x] {
      if o :| o in ops && o.opId == x { } else { }
    }
  }

  // ----- everybody else

  /** What one client allocates never mentions what another will allocate. */
  lemma OthersNotFuture(U: OpMap, c: ClientId, counter: int, author: ClientId, n: int, lamport: int,
          edit: LocalTextEdit)
    requires FreshFrom(U, c, counter) && author != c && n >= 1
    requires edit.insertAfterId == ROOT_ID || edit.insertAfterId in U
    requires forall t | t in edit.deleteTargetIds :: t in U
    ensures NotFuture(EditOps(author, n, lamport, edit), c, counter)
  {
    var ops := EditOps(author, n, lamport, edit);
    forall o, m | o in ops && m >= counter ensures !Mentions(o, MakeOperationId(c, m)) {
      var i :| 0 <= i < |ops| && ops[i] == o;
      OtherNotFuture(U, c, counter, m, author, n, lamport, edit, i);
    }
  }

  lemma OtherNotFuture(U: OpMap, c: ClientId, counter: int, m: int, author: ClientId, n: int, lamport: int,
          edit: LocalTextEdit, i: nat)
    requires FreshFrom(U, c, counter) && author != c && n >= 1 && m >= counter && i < EditSize(edit)
    requires edit.insertAfterId == ROOT_ID || edit.insertAfterId in U
    requires forall t | t in edit.deleteTargetIds :: t in U
    ensures !Mentions(OpAt(author, n, lamport, edit, i), MakeOperationId(c, m))
  {
    var id := MakeOperationId(c, m);
    assert Unreferenced(U, id);
    IdIsNotRoot(c, m);
    OthersIdsDiffer(author, n + i, c, m);
    if i < |edit.deleteTargetIds| {
      assert edit.deleteTargetIds[i] in edit.deleteTargetIds;
    } else if i > |edit.deleteTargetIds| {
      OthersIdsDiffer(author, n + i - 1, c, m);
    }
  }

  lemma OthersIdsDiffer(a: ClientId, m: nat, b: ClientId, n: nat)
    requires a != b
    ensures MakeOperationId(a, m) != MakeOperationId(b, n)
  {
    if MakeOperationId(a, m) == MakeOperationId(b, n) { MadeIdInjective(a, m, b, n); }
  }

  /** An edit by somebody else changes nothing that matters to a client. */
  lemma {:induction false} OtherClientsKeep(U: OpMap, ops: seq<Operation>, log: seq<Sequenced>, doc: DocId, c: ClientId,
          k: Client)
    requires ClientOk(U, log, doc, c, k) && OnePayload(U, ops)
    requires NotFuture(ops, c, k.db.clientMeta.value.nextCounter)
    requires forall o | o in ops :: o.clientId != c
    ensures ClientOk(Merge(U, ops), log, doc, c, k)
  {
    MergeMeaning(U, ops);
    StaysFresh(U, ops, c, k.db.clientMeta.value.nextCounter, k.db.clientMeta.value.nextCounter);
    SubTransitive(KnownOf(k.db, doc), U, Merge(U, ops));
    OwnStaysSafe(U, ops, log, c, k.db);
  }

  lemma {:induction false} OwnStaysSafe(U: OpMap, ops: seq<Operation>, log: seq<Sequenced>, c: ClientId, db: Database)
    requires OwnSafe(U, log, c, db) && OnePayload(U, ops) && forall o | o in ops :: o.clientId != c
    ensures OwnSafe(Merge(U, ops), log, c, db)
  {
    MergeMeaning(U, ops);
    var M := Merge(U, ops);
    forall x | x in M && M[x].clientId == c ensures x in db.operations && (x in db.outbox || Logged(log, M[x])) {
      assert x in U && U[x] == M[x];
    }
  }

  // ----- the client that edits

  /** The client `db` can persist the edit that turns `cur` into `next`. */
  ghost predicate Editable(db: Database, doc: DocId, cur: seq<VisibleElement>, next: seq<JsString>, edit: LocalTextEdit)
  {
    && IsDocument(KnownOf(db, doc), cur) && EditBetween(cur, next) == Some(edit)
    && (forall v | v in next :: !IsEmpty(v)) && EditError(db, doc, edit).None?
  }

  lemma TablesAreTypable(U: OpMap, doc: DocId, c: ClientId, db: Database)
    requires TablesOk(U, doc, c, db)
    ensures Typable(db, doc, KnownOf(db, doc))
  {
    FreshForPart(KnownOf(db, doc), U, c, db.clientMeta.value.nextCounter);
  }

  /** The universe after an edit: well formed, resolved, and with the editor's next
      counter still fresh. */
  lemma {:induction false} EditedUniverse(U: OpMap, doc: DocId, c: ClientId, db: Database, cur: seq<VisibleElement>,
          next: seq<JsString>, edit: LocalTextEdit)
    requires UniverseOk(U) && TablesOk(U, doc, c, db) && Editable(db, doc, cur, next, edit)
    ensures OnePayload(U, EditedOps(db, edit)) && UniverseOk(Merge(U, EditedOps(db, edit)))
    ensures FreshFrom(Merge(U, EditedOps(db, edit)), c, db.clientMeta.value.nextCounter + EditSize(edit))
    ensures edit.insertAfterId == ROOT_ID || edit.insertAfterId in U
    ensures forall t | t in edit.deleteTargetIds :: t in U
  {
    var K, m := KnownOf(db, doc), db.clientMeta.value;
    var ops := EditOps(c, m.nextCounter, m.lamportClock, edit);
    EditNotEmpty(cur, next, edit);
    EditGroundedInUniverse(U, K, cur, next, edit, c, m.nextCounter, m.lamportClock);
    AllNewOnePayload(U, ops);
    FreshForPart(K, U, c, m.nextCounter);
    EditNamesPast(K, cur, next, edit, c, m.nextCounter, m.lamportClock);
    StaysFresh(U, ops, c, m.nextCounter, m.nextCounter + EditSize(edit));
    var p, e := EditReaches(cur, next);
    EditNamesAttached(U, K, cur, edit, p, e);
  }

  /** The editor's tables stay in order and record the edit. */
  lemma {:induction false} EditedTables(U: OpMap, doc: DocId, c: ClientId, db: Database, cur: seq<VisibleElement>,
          next: seq<JsString>, edit: LocalTextEdit)
    requires UniverseOk(U) && TablesOk(U, doc, c, db) && Editable(db, doc, cur, next, edit)
    ensures TablesOk(Merge(U, EditedOps(db, edit)), doc, c, Edited(db, doc, edit))
    ensures KnownOf(Edited(db, doc, edit), doc) == Replay(KnownOf(db, doc), EditedOps(db, edit)).known
    ensures Sub(KnownOf(db, doc), KnownOf(Edited(db, doc, edit), doc))
  {
    var K, ops, db' := KnownOf(db, doc), EditedOps(db, edit), Edited(db, doc, edit);
    EditNotEmpty(cur, next, edit);
    TablesAreTypable(U, doc, c, db);
    TypedEdit(db, doc, K, cur, next, edit);
    EditedUniverse(U, doc, c, db, cur, next, edit);
    MergeWithin(K, U, ops);
    ReplayAccepts(K, ops);
    EditedMeta(db, doc, edit);
    EditedRows(doc, c, db, edit);
  }

  lemma EditedRows(doc: DocId, c: ClientId, db: Database, edit: LocalTextEdit)
    requires db.clientMeta.Some? && db.clientMeta.value.clientId == c && EditSize(edit) > 0
    requires EditError(db, doc, edit).None?
    requires forall x | x in db.operations :: db.operations[x].documentId == doc
    requires forall x | x in db.outbox ::
      db.outbox[x] == doc && x in db.operations && db.operations[x].operation.clientId == c
    ensures forall x | x in Edited(db, doc, edit).operations :: Edited(db, doc, edit).operations[x].documentId == doc
    ensures forall x | x in Edited(db, doc, edit).outbox ::
      && Edited(db, doc, edit).outbox[x] == doc && x in Edited(db, doc, edit).operations
      && Edited(db, doc, edit).operations[x].operation.clientId == c
    ensures forall o | o in EditedOps(db, edit) ::
      o.clientId == c && o.opId in Edited(db, doc, edit).operations && o.opId in Edited(db, doc, edit).outbox
    ensures db.operations.Keys <= Edited(db, doc, edit).operations.Keys
      && db.outbox.Keys <= Edited(db, doc, edit).outbox.Keys
  {
    var m := db.clientMeta.value;
    var ops, db' := EditOps(c, m.nextCounter, m.lamportClock, edit), Edited(db, doc, edit);
    AuthoredBy(c, m.nextCounter, m.lamportClock, edit);
    AddRecordsMeaning(db.operations, doc, ops);
    AddMarkersMeaning(db.outbox, doc, ops);
    forall x | x in db'.operations ensures db'.operations[x].documentId == doc {
      if o :| o in ops && o.opId == x { } else { }
    }
    forall x | x in db'.outbox
      ensures db'.outbox[x] == doc && x in db'.operations && db'.operations[x].operation.clientId == c
    {
      if o :| o in ops && o.opId == x { } else { }
    }
  }

  lemma AuthoredBy(c: ClientId, counter: int, lamport: int, edit: LocalTextEdit)
    ensures forall o | o in EditOps(c, counter, lamport, edit) :: o.clientId == c
  {
    var ops := EditOps(c, counter, lamport, edit);
    forall o | o in ops ensures o.clientId == c {
      var i :| 0 <= i < |ops| && ops[i] == o;
      assert ops[i] == OpAt(c, counter, lamport, edit, i);
    }
  }

  /** The editor stays in order, with its new operations on record and in the outbox. */
  lemma {:induction false} EditorKeeps(U: OpMap, log: seq<Sequenced>, doc: DocId, c: ClientId, k: Client,
          cur: seq<VisibleElement>, next: seq<JsString>, edit: LocalTextEdit)
    requires UniverseOk(U) && ClientOk(U, log, doc, c, k) && k.replica.Some? && Editable(k.db, doc, cur, next, edit)
    ensures ClientOk(Merge(U, EditedOps(k.db, edit)), log, doc, c, AfterEdit(doc, k, edit))
  {
    var ops, db' := EditedOps(k.db, edit), Edited(k.db, doc, edit);
    EditNotEmpty(cur, next, edit);
    EditedTables(U, doc, c, k.db, cur, next, edit);
    EditedRows(doc, c, k.db, edit);
    EditedUniverse(U, doc, c, k.db, cur, next, edit);
    OwnEditSafe(U, ops, log, c, k.db, db');
  }

  lemma {:induction false} OwnEditSafe(U: OpMap, ops: seq<Operation>, log: seq<Sequenced>, c: ClientId, db: Database,
          db': Database)
    requires OwnSafe(U, log, c, db) && OnePayload(U, ops)
    requires db.operations.Keys <= db'.operations.Keys && db.outbox.Keys <= db'.outbox.Keys
    requires forall o | o in ops :: o.opId in db'.operations && o.opId in db'.outbox
    ensures OwnSafe(Merge(U, ops), log, c, db')
  {
    MergeMeaning(U, ops);
    var M := Merge(U, ops);
    forall x | x in M && M[x].clientId == c ensures x in db'.operations && (x in db'.outbox || Logged(log, M[x])) {
      if o :| o in ops && o.opId == x { } else { assert x in U && U[x] == M[x]; }
    }
  }

  /** An edit moves no cursor and forgets nothing. */
  lemma EditKeepsTracked(U: OpMap, log: seq<Sequenced>, doc: DocId, c: ClientId, k: Client, cur: seq<VisibleElement>,
          next: seq<JsString>, edit: LocalTextEdit)
    requires UniverseOk(U) && ClientOk(U, log, doc, c, k) && k.replica.Some? && Editable(k.db, doc, cur, next, edit)
    requires Tracked(log, doc, k)
    ensures Tracked(log, doc, AfterEdit(doc, k, edit))
  {
    EditedTables(U, doc, c, k.db, cur, next, edit);
    EditKeepsCursor(k.db, doc, edit);
  }

  lemma EditKeepsCursor(db: Database, doc: DocId, edit: LocalTextEdit)
    ensures LastServerSeq(Edited(db, doc, edit), doc) == LastServerSeq(db, doc)
  {}
}
