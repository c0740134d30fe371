/** What holds in every reachable state of the system, and how the set of all
    operations ever made grows. */
module SyncInvariants {
  import opened Wrappers
  import opened JsStrings
  import opened Operations
  import opened AnchorGraph
  import opened Documents
  import opened EditSemantics
  import opened LocalStore
  import opened OperationStores
  import opened Replays
  import opened ReplicaShape
  import opened RestoreSpec
  import opened ServerSnapshots
  import opened StoreFacts
  import opened SyncSystems
  import opened TextEdit

  /** Everything ever made is well formed and waits for nothing. */
  ghost predicate UniverseOk(U: OpMap) {
    WellFormed(U) && Resolved(U)
  }

  ghost predicate Made(U: OpMap, op: Operation) {
    op.opId in U && U[op.opId] == op
  }

  ghost predicate ServerOk(U: OpMap, server: ServerDb, doc: DocId) {
    && CacheOk(server) && server.sequence <= MAX_SAFE_INTEGER
    && forall r | r in LogOf(server, doc) :: Made(U, r.operation)
  }

  /** The tables hold made operations only, agree with some replica, and are ready
      for the next edit; markers belong to recorded operations of this client. */
  ghost predicate TablesOk(U: OpMap, doc: DocId, c: ClientId, db: Database) {
    && db.clientMeta.Some? && db.clientMeta.value.clientId == c && doc in db.documents
    && FreshFrom(U, c, db.clientMeta.value.nextCounter)
    && Synced(db, doc, KnownOf(db, doc)) && Sub(KnownOf(db, doc), U)
    && ClockAhead(KnownOf(db, doc), db.clientMeta.value.lamportClock)
    && (forall x | x in db.operations :: db.operations[x].documentId == doc)
    && (forall x | x in db.outbox ::
          db.outbox[x] == doc && x in db.operations && db.operations[x].operation.clientId == c)
  }

  /** No edit is lost: what a client made is on record there, and still in its outbox
      unless the server has it. */
  ghost predicate OwnSafe(U: OpMap, log: seq<Sequenced>, c: ClientId, db: Database) {
    forall x | x in U && U[x].clientId == c :: x in db.operations && (x in db.outbox || Logged(log, U[x]))
  }

  ghost predicate CursorInLog(log: seq<Sequenced>, doc: DocId, db: Database) {
    0 <= LastServerSeq(db, doc) <= Latest(log)
  }

  /** Everything the cursor passed is known. */
  ghost predicate CursorSound(log: seq<Sequenced>, doc: DocId, db: Database) {
    forall r | r in log && r.serverSeq <= LastServerSeq(db, doc) :: r.operation.opId in KnownOf(db, doc)
  }

  ghost predicate MessageOk(log: seq<Sequenced>, m: ServerMessage) {
    && (forall r | r in Items(m) :: r in log)
    && Confirmed(m) <= Latest(log) && ValidServerBatch(Items(m), Confirmed(m))
    && (IsBootstrap(m) ==>
          var snapshotSeq := m.sync.bootstrap.value.snapshotSeq;
          && StandsForPrefix(log, RowOf(m.sync.bootstrap.value))
          && ValidSnapshotSuffix(Items(m), snapshotSeq, Confirmed(m))
          && Items(m) == Between(log, snapshotSeq, Confirmed(m)))
  }

  function RowOf(b: Bootstrap): SnapshotRow {
    SnapshotRow(b.snapshotSeq, b.version, b.snapshot)
  }

  /** Handling the message makes the row known. */
  ghost predicate Covers(m: ServerMessage, r: Sequenced) {
    r in Items(m) || (IsBootstrap(m) && r.serverSeq <= m.sync.bootstrap.value.snapshotSeq)
  }

  /** Every row between the cursor and what the message confirms is covered. */
  ghost predicate CoversGap(log: seq<Sequenced>, cursor: int, m: ServerMessage) {
    forall r | r in log && cursor < r.serverSeq <= Confirmed(m) :: Covers(m, r)
  }

  /** Each message in turn covers the rows that its confirmation lets the cursor
      pass. */
  ghost predicate Flows(log: seq<Sequenced>, cursor: int, queue: seq<ServerMessage>)
    decreases |queue|
  {
    queue != [] ==> CoversGap(log, cursor, queue[0]) && Flows(log, Max(cursor, Confirmed(queue[0])), queue[1..])
  }

  /** The cursor after the whole queue. */
  ghost function Horizon(cursor: int, queue: seq<ServerMessage>): int
    decreases |queue|
  {
    if queue == [] then cursor else Horizon(Max(cursor, Confirmed(queue[0])), queue[1..])
  }

  /** All messages that the session received or still has to receive, in order. */
  function Messages(ses: Session): seq<ServerMessage> {
    ses.missed + ses.queue
  }

  ghost predicate SessionOk(log: seq<Sequenced>, cursor: int, ses: Session) {
    && (forall m | m in Messages(ses) :: MessageOk(log, m))
    && (ses.phase.Joining? ==> ses.phase.lastServerSeq <= cursor)
  }

  ghost predicate ConnectionOk(log: seq<Sequenced>, doc: DocId, k: Client) {
    && (k.replica.Some? ==> k.replica.value == KnownOf(k.db, doc))
    && (k.session.Some? ==> k.replica.Some? && SessionOk(log, LastServerSeq(k.db, doc), k.session.value))
  }

  ghost predicate ClientOk(U: OpMap, log: seq<Sequenced>, doc: DocId, c: ClientId, k: Client) {
    TablesOk(U, doc, c, k.db) && OwnSafe(U, log, c, k.db) && CursorInLog(log, doc, k.db) && ConnectionOk(log, doc, k)
  }

  ghost predicate ClientsOk(U: OpMap, log: seq<Sequenced>, doc: DocId, clients: map<ClientId, Client>) {
    && (forall c | c in clients :: ClientOk(U, log, doc, c, clients[c]))
    && (forall x | x in U :: U[x].clientId in clients)
  }

  /** What holds in every state of every run. */
  ghost predicate Invariant(s: System) {
    match s
    case System(doc, server, clients, submitted, created) =>
      && UniverseOk(created) && ServerOk(created, server, doc)
      && (forall op | op in submitted :: Made(created, op))
      && ClientsOk(created, LogOf(server, doc), doc, clients)
  }

  /** The messages of a session, missed ones included, leave no row uncovered that they
      let the cursor pass; those of an open session reach the end of the log. */
  ghost predicate SessionCovers(log: seq<Sequenced>, cursor: int, ses: Session) {
    && Flows(log, cursor, Messages(ses))
    && (ses.open && ses.phase.Joined? ==> Horizon(cursor, Messages(ses)) >= Latest(log))
  }

  /** The cursor is sound and stays so while the session's messages are taken in turn. */
  ghost predicate Tracked(log: seq<Sequenced>, doc: DocId, k: Client) {
    && CursorSound(log, doc, k.db)
    && (k.session.Some? ==> SessionCovers(log, LastServerSeq(k.db, doc), k.session.value))
  }

  /** What holds besides in every state of every careful run. */
  ghost predicate AllTracked(s: System) {
    match s
    case System(doc, server, clients, _, _) =>
      forall c | c in clients :: Tracked(LogOf(server, doc), doc, clients[c])
  }

  /** What a client knows is its own or in the log. */
  ghost predicate OwnOrLogged(log: seq<Sequenced>, doc: DocId, c: ClientId, db: Database) {
    forall x | x in KnownOf(db, doc) :: KnownOf(db, doc)[x].clientId == c || Logged(log, KnownOf(db, doc)[x])
  }

  /** No message confirms less than a bootstrap before it. */
  ghost predicate BootstrapsLead(messages: seq<ServerMessage>) {
    forall i, j | 0 <= i < j < |messages| && IsBootstrap(messages[i]) ::
      Confirmed(messages[i]) <= Confirmed(messages[j])
  }

  /** A client's own rows come after every bootstrap that it was sent, since it asks for
      a snapshot only before it has made anything. */
  ghost predicate OwnRowsFollow(log: seq<Sequenced>, c: ClientId, messages: seq<ServerMessage>) {
    forall m, r | m in messages && IsBootstrap(m) && r in log && r.operation.clientId == c ::
      Confirmed(m) < r.serverSeq
  }

  ghost predicate NothingSent(log: seq<Sequenced>, submitted: set<Operation>, c: ClientId) {
    && (forall r | r in log :: r.operation.clientId != c)
    && (forall op | op in submitted :: op.clientId != c)
  }

  ghost predicate SessionPlaced(log: seq<Sequenced>, submitted: set<Operation>, c: ClientId, ses: Session) {
    && BootstrapsLead(Messages(ses)) && OwnRowsFollow(log, c, Messages(ses))
    && (ses.phase.Joining? && ses.phase.capable ==> NothingSent(log, submitted, c))
  }

  /** Where everything that a client holds comes from; true in every run as well. */
  ghost predicate Placed(log: seq<Sequenced>, submitted: set<Operation>, doc: DocId, c: ClientId, k: Client) {
    && OwnOrLogged(log, doc, c, k.db)
    && (k.session.Some? ==> SessionPlaced(log, submitted, c, k.session.value))
  }

  // ----- the universe under an edit

  ghost predicate Grounded(U: OpMap, op: Operation) {
    if op.Insert? then Anchored(U, op.afterId) else Attached(U, op.targetId)
  }

  /** A new operation whose dependency is attached keeps everything resolved. */
  lemma GroundedStep(U: OpMap, op: Operation)
    requires UniverseOk(U) && IsValidOperation(op) && Unreferenced(U, op.opId) && Grounded(U, op)
    ensures UniverseOk(U[op.opId := op])
    ensures forall x | Attached(U, x) :: Attached(U[op.opId := op], x)
    ensures op.Insert? ==> Attached(U[op.opId := op], op.opId)
  {
    if op.Insert? {
      InsertKeepsWellFormed(U, op);
      NewestAttached(U, op);
    } else {
      AcyclicAddDelete(U, op);
      DeleteNoDeleteAnchors(U, op);
    }
    StillAttached(U, op);
    GroundedKeepsResolved(U, op);
  }

  lemma StillAttached(U: OpMap, op: Operation)
    requires op.opId !in U
    ensures forall x | Attached(U, x) :: Attached(U[op.opId := op], x)
  {
    var U' := U[op.opId := op];
    forall x | Attached(U, x) ensures Attached(U', x) { AttachedMonotone(U, U', x); }
  }

  lemma GroundedKeepsResolved(U: OpMap, op: Operation)
    requires Resolved(U) && op.opId !in U && Grounded(U, op)
    ensures Resolved(U[op.opId := op])
  {
    var U' := U[op.opId := op];
    StillAttached(U, op);
    if op.Insert? { NewestAttached(U, op); }
    forall x | x in U' ensures !PendingInsert(U', x) && !PendingDelete(U', x) {
      if x != op.opId { assert !PendingInsert(U, x) && !PendingDelete(U, x); }
    }
  }

  /** The operations of an edit are all new, and everything made stays well formed
      and resolved. */
  lemma {:induction false} EditGrounded(U: OpMap, targets: seq<Id>, anchor: Id, values: seq<JsString>,
          ops: seq<Operation>, lamport: int)
    requires UniverseOk(U) && Implements(ops, targets, anchor, values, lamport)
    requires FreshIds(U, ops) && AllValid(ops)
    requires Anchored(U, anchor) && forall t | t in targets :: Attached(U, t)
    ensures AllNew(U, ops) && UniverseOk(Merge(U, ops))
    decreases |ops|
  {
    if targets != [] {
      DeleteComesFirst(ops, targets, anchor, values, lamport);
      FirstIsFresh(U, ops);
      assert targets[0] in targets;
      GroundedStep(U, ops[0]);
      StillFresh(U, ops);
      assert Anchored(U[ops[0].opId := ops[0]], anchor);
      assert forall t | t in targets[1..] :: t in targets;
      EditGrounded(U[ops[0].opId := ops[0]], targets[1..], anchor, values, ops[1..], lamport + 1);
    } else if values != [] {
      InsertComesFirst(ops, anchor, values, lamport);
      FirstIsFresh(U, ops);
      GroundedStep(U, ops[0]);
      StillFresh(U, ops);
      EditGrounded(U[ops[0].opId := ops[0]], [], ops[0].opId, values[1..], ops[1..], lamport + 1);
    }
  }

  /** What an edit on part of the universe refers to is attached in all of it. */
  lemma {:induction false} EditGroundedInUniverse(U: OpMap, K: OpMap, cur: seq<VisibleElement>, next: seq<JsString>,
          edit: LocalTextEdit, c: ClientId, counter: int, lamport: int)
    requires UniverseOk(U) && Sub(K, U) && IsDocument(K, cur) && EditBetween(cur, next) == Some(edit)
    requires FreshFrom(U, c, counter) && AllValid(EditOps(c, counter, lamport, edit))
    ensures AllNew(U, EditOps(c, counter, lamport, edit)) && UniverseOk(Merge(U, EditOps(c, counter, lamport, edit)))
  {
    var p, e := EditReaches(cur, next);
    EditNamesAttached(U, K, cur, edit, p, e);
    AllocatedImplement(c, counter, lamport, edit);
    AllocatedFresh(U, c, counter, lamport, edit);
    EditGrounded(U, edit.deleteTargetIds, edit.insertAfterId, edit.insertValues, EditOps(c, counter, lamport, edit),
                 lamport);
  }

  lemma EditNamesAttached(U: OpMap, K: OpMap, cur: seq<VisibleElement>, edit: LocalTextEdit, p: nat, e: nat)
    requires Sub(K, U) && IsDocument(K, cur) && Replaces(cur, edit, p, e)
    ensures Anchored(U, edit.insertAfterId) && forall t | t in edit.deleteTargetIds :: Attached(U, t)
  {
    forall i | 0 <= i < |cur| ensures Attached(U, cur[i].id) {
      assert cur[i] in cur;
      AttachedMonotone(K, U, cur[i].id);
    }
    forall t | t in edit.deleteTargetIds ensures Attached(U, t) {
      var i :| 0 <= i < |edit.deleteTargetIds| && edit.deleteTargetIds[i] == t;
      assert cur[p..e][i] == cur[p + i];
    }
    assert p > 0 ==> LastId(cur[..p]) == cur[p - 1].id;
  }

  lemma {:induction false} AllNewOnePayload(U: OpMap, ops: seq<Operation>)
    requires AllNew(U, ops)
    ensures OnePayload(U, ops)
    decreases |ops|
  {
    if ops != [] {
      AllNewOnePayload(U[ops[0].opId := ops[0]], ops[1..]);
      OnePayloadTail(U, ops);
    }
  }
}
