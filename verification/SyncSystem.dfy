/** The whole system as a state machine: one server log, any number of clients that
    edit offline and online, sessions that may be cut at any moment, retries,
    snapshot bootstraps and restarts. One document is followed; whatever happens to
    others shows only as skipped sequence numbers and advanced clocks. */
module SyncSystems {
  import opened Wrappers
  import opened JsStrings
  import opened Operations
  import opened AnchorGraph
  import opened Documents
  import opened LocalStore
  import opened OperationStores
  import opened Replays
  import opened RestoreSpec
  import opened ServerSnapshots
  import opened Snapshots
  import opened StoreFacts
  import opened TextEdit

  type ClientId = JsString

  datatype ServerMessage = Sync(sync: SyncMessage) | Live(item: Sequenced)

  datatype Phase = Joining(lastServerSeq: int, capable: bool) | Joined

  /** A connection as the client sees it: the messages still to be handled, in order,
      and whether the server can still add to them. `missed` records the messages that
      the client received but could not take; the client itself keeps no trace of them. */
  datatype Session = Session(phase: Phase, queue: seq<ServerMessage>, open: bool, missed: seq<ServerMessage>)

  /** The durable tables, what the in-memory replica knows while the document is
      open, and the current connection. */
  datatype Client = Client(db: Database, replica: Option<OpMap>, session: Option<Session>)

  /** `submitted` holds everything ever sent to the server: any of it may arrive, in
      any order and any number of times. `created` records every operation that any
      client ever made. */
  datatype System = System(
    doc: DocId,
    server: ServerDb,
    clients: map<ClientId, Client>,
    submitted: set<Operation>,
    created: OpMap)

  /** An empty database in which the document has been opened. */
  function FreshDatabase(c: ClientId, doc: DocId): Database {
    Opened(Database(None, {}, map[], map[], map[], map[], map[]), doc, c)
  }

  ghost predicate Initial(s: System) {
    && s.server == ServerDb(map[], 0, map[]) && s.submitted == {} && s.created == map[]
    && forall c | c in s.clients :: !IsBlank(c) && s.clients[c] == Client(FreshDatabase(c, s.doc), None, None)
  }

  function Log(s: System): seq<Sequenced> {
    LogOf(s.server, s.doc)
  }

  function Items(m: ServerMessage): seq<Sequenced> {
    match m
    case Sync(sync) => sync.operations
    case Live(item) => [item]
  }

  /** The sequence number through which the message confirms the log. */
  function Confirmed(m: ServerMessage): int {
    match m
    case Sync(sync) => sync.latestServerSeq
    case Live(item) => item.serverSeq
  }

  // ----- what a client does with a message

  /** The first message is taken; the rest stay queued. */
  function Advance(ses: Session): Session
    requires ses.queue != []
  {
    ses.(queue := ses.queue[1..])
  }

  /** The first message could not be taken; the client goes on with the rest. */
  function Miss(ses: Session): Session
    requires ses.queue != []
  {
    ses.(queue := ses.queue[1..], missed := ses.missed + [ses.queue[0]])
  }

  /** The messages that had arrived when a connection was lost. */
  function Arrived(queue: seq<ServerMessage>, arrived: nat): seq<ServerMessage> {
    if arrived < |queue| then queue[..arrived] else queue
  }

  /** A refused bootstrap closes the connection, but messages that arrived before
      that, the first `arrived` ones, are still handled. */
  function Refuse(ses: Session, arrived: nat): Session
    requires ses.queue != []
  {
    ses.(queue := Arrived(ses.queue[1..], arrived), missed := ses.missed + [ses.queue[0]], open := false)
  }

  /** Tables first, then the replica. */
  ghost function Ingest(doc: DocId, k: Client, batch: seq<Sequenced>, confirmed: int): Client
    requires k.replica.Some? && HasMessage(k)
  {
    var ses := k.session.value;
    var stored := Ingested(k.db, doc, batch, confirmed);
    if stored.Failure? then k.(session := Some(Miss(ses)))
    else
      var applied := Replay(k.replica.value, OpsOf(batch));
      Client(stored.value, Some(applied.known), Some(if applied.ok then Advance(ses) else Miss(ses)))
  }

  ghost function Install(doc: DocId, k: Client, boot: Bootstrap, batch: seq<Sequenced>, confirmed: int,
          arrived: nat): Client
    requires HasMessage(k)
  {
    if Installable(k.db, doc, boot, batch, confirmed) then
      var K0, K :| Bootstraps(boot, batch, confirmed, K0, K);
      Client(Installed(k.db, doc, boot, batch, confirmed), Some(K), Some(Advance(k.session.value)))
    else k.(session := Some(Refuse(k.session.value, arrived)))
  }

  predicate HasMessage(k: Client) {
    k.session.Some? && k.session.value.queue != []
  }

  function FirstMessage(k: Client): ServerMessage
    requires HasMessage(k)
  {
    k.session.value.queue[0]
  }

  predicate IsBootstrap(m: ServerMessage) {
    m.Sync? && m.sync.bootstrap.Some?
  }

  /** What handling its first message makes of a client. */
  ghost function Handle(doc: DocId, k: Client, arrived: nat): Client
    requires k.replica.Some? && HasMessage(k)
  {
    var m := FirstMessage(k);
    if IsBootstrap(m) then Install(doc, k, m.sync.bootstrap.value, Items(m), Confirmed(m), arrived)
    else Ingest(doc, k, Items(m), Confirmed(m))
  }

  // ----- going on after a message that was not taken

  /** The message carries the operation, as an item or inside its snapshot. */
  ghost predicate Carries(m: ServerMessage, op: Operation) {
    || op in OpsOf(Items(m))
    || (IsBootstrap(m) && InSnapshot(m.sync.bootstrap.value.snapshot, op))
  }

  ghost predicate InSnapshot(snap: Snapshot, op: Operation) {
    (exists n :: n in snap.nodes && InsertOf(n) == op) || op in snap.deleteOperations
  }

  /** The message carries the operation in a row through this number, or inside its
      snapshot. */
  ghost predicate CarriesThrough(m: ServerMessage, op: Operation, through: int) {
    || (exists r :: r in Items(m) && r.operation == op && r.serverSeq <= through)
    || (IsBootstrap(m) && InSnapshot(m.sync.bootstrap.value.snapshot, op))
  }

  /** Whatever the missed messages carried, as far as the next message confirms the log,
      is known to the client or carried by that message. */
  ghost predicate Recovered(doc: DocId, k: Client, m: ServerMessage)
    requires k.session.Some?
  {
    forall m0, op | m0 in k.session.value.missed && CarriesThrough(m0, op, Confirmed(m)) ::
      op.opId in KnownOf(k.db, doc) || Carries(m, op)
  }

  /** The server reaches every joined session that is still open. */
  function Deliver(k: Client, m: ServerMessage): Client {
    match k.session
    case Some(ses) => if ses.open && ses.phase.Joined? then k.(session := Some(ses.(queue := ses.queue + [m]))) else k
    case None => k
  }

  // ----- steps

  datatype Step =
    | Edit(c: ClientId, cur: seq<VisibleElement>, next: seq<JsString>, edit: LocalTextEdit)
    | Connect(c: ClientId, capable: bool, arrived: nat)
    | Join(c: ClientId, m: SyncMessage)
    | Submit(c: ClientId, op: Operation)
    | Accept(op: Operation, skipped: nat)
    | Echo(row: Sequenced)
    | Receive(c: ClientId, arrived: nat)
    | Fail(c: ClientId)
    | Disconnect(c: ClientId)
    | Cut(c: ClientId)
    | Close(c: ClientId)
    | Open(c: ClientId)
    | Checkpointing(c: ClientId, table: map<DocId, Checkpoint>)
    | OtherWork(c: ClientId, nextCounter: int, lamportClock: int)

  function With(s: System, c: ClientId, k: Client): System {
    s.(clients := s.clients[c := k])
  }

  /** The edit in the tables and in the replica. */
  ghost function AfterEdit(doc: DocId, k: Client, edit: LocalTextEdit): Client
    requires k.replica.Some?
  {
    k.(db := Edited(k.db, doc, edit), replica := Some(Replay(k.replica.value, EditedOps(k.db, edit)).known))
  }

  /** A local edit is persisted and applied. */
  ghost predicate EditStep(s: System, c: ClientId, cur: seq<VisibleElement>, next: seq<JsString>, edit: LocalTextEdit,
          s': System)
  {
    c in s.clients && s.clients[c].replica.Some? &&
    var k := s.clients[c];
    && IsDocument(k.replica.value, cur) && EditBetween(cur, next) == Some(edit)
    && (forall v | v in next :: !IsEmpty(v))
    && EditError(k.db, s.doc, edit).None?
    && s' == With(s, c, AfterEdit(s.doc, k, edit)).(created := Merge(s.created, EditedOps(k.db, edit)))
  }

  /** A new connection. What arrived over the one before is still to be handled. */
  function Reconnecting(session: Option<Session>, phase: Phase, arrived: nat): Session {
    match session
    case Some(ses) => Session(phase, Arrived(ses.queue, arrived), true, ses.missed)
    case None => Session(phase, [], true, [])
  }

  /** An open document whose connection is lost, if it had one, connects and announces
      its cursor. Only a pristine document may ask for a snapshot. */
  ghost predicate ConnectStep(s: System, c: ClientId, capable: bool, arrived: nat, s': System) {
    c in s.clients && s.clients[c].replica.Some? &&
    var k := s.clients[c];
    var lastServerSeq := LastServerSeq(k.db, s.doc);
    && (k.session.Some? ==> !k.session.value.open)
    && (capable ==> lastServerSeq == 0 && Eligible(k.db, s.doc))
    && s' == With(s, c, k.(session := Some(Reconnecting(k.session, Joining(lastServerSeq, capable), arrived))))
  }

  /** The session that joined, with the server's answer behind what is queued. */
  function Answered(ses: Session, m: SyncMessage): Session {
    Session(Joined, ses.queue + [Sync(m)], true, ses.missed)
  }

  /** The server joins the session to the room and answers; a cursor ahead of the
      log is refused and leaves everything as it is. */
  ghost predicate JoinStep(s: System, c: ClientId, m: SyncMessage, s': System) {
    c in s.clients && s.clients[c].session.Some? &&
    var k := s.clients[c];
    var ses := k.session.value;
    ses.open && ses.phase.Joining? &&
    if ses.phase.lastServerSeq > Latest(Log(s)) then s' == s
    else
      && Answers(s.server, s.doc, ses.phase.lastServerSeq, ses.phase.capable, m, s'.server)
      && s' == With(s, c, k.(session := Some(Answered(ses, m)))).(server := s'.server)
  }

  /** A joined client sends an operation of its own. */
  ghost predicate SubmitStep(s: System, c: ClientId, op: Operation, s': System) {
    c in s.clients && s.clients[c].session.Some? && s.clients[c].session.value.phase.Joined? &&
    var db := s.clients[c].db;
    && op.opId in DocOps(db, s.doc) && DocOps(db, s.doc)[op.opId] == op && op.clientId == c
    && s' == s.(submitted := s.submitted + {op})
  }

  /** The server appends a new operation and broadcasts it. */
  ghost predicate AcceptStep(s: System, op: Operation, skipped: nat, s': System) {
    var row := Sequenced(s.server.sequence + 1 + skipped, op);
    && op in s.submitted && IsValidOperation(op) && row.serverSeq <= MAX_SAFE_INTEGER
    && (forall r | r in Log(s) :: r.operation.opId != op.opId)
    && s' == s.(server := Appended(s.server, s.doc, row), clients := Broadcast(s.clients, Live(row)))
  }

  function Broadcast(clients: map<ClientId, Client>, m: ServerMessage): map<ClientId, Client> {
    map c | c in clients :: Deliver(clients[c], m)
  }

  /** A retry of a logged operation is answered to its author alone. */
  ghost predicate EchoStep(s: System, row: Sequenced, s': System) {
    && row.operation in s.submitted && row in Log(s) && row.operation.clientId in s.clients
    && s' == With(s, row.operation.clientId, Deliver(s.clients[row.operation.clientId], Live(row)))
  }

  /** The client handles the next message of its session, whatever became of those
      before it. */
  ghost predicate ReceiveStep(s: System, c: ClientId, arrived: nat, s': System) {
    && c in s.clients && s.clients[c].replica.Some? && HasMessage(s.clients[c])
    && s' == With(s, c, Handle(s.doc, s.clients[c], arrived))
  }

  /** The storage fails while a message is handled: nothing is written, and the client
      goes on with the next message. */
  ghost predicate FailStep(s: System, c: ClientId, s': System) {
    && c in s.clients && HasMessage(s.clients[c])
    && s' == With(s, c, s.clients[c].(session := Some(Miss(s.clients[c].session.value))))
  }

  ghost predicate StepTo(s: System, step: Step, s': System) {
    match step
    case Edit(c, cur, next, edit) => EditStep(s, c, cur, next, edit, s')
    case Connect(c, capable, arrived) => ConnectStep(s, c, capable, arrived, s')
    case Join(c, m) => JoinStep(s, c, m, s')
    case Submit(c, op) => SubmitStep(s, c, op, s')
    case Accept(op, skipped) => AcceptStep(s, op, skipped, s')
    case Echo(row) => EchoStep(s, row, s')
    case Receive(c, arrived) => ReceiveStep(s, c, arrived, s')
    case Fail(c) => FailStep(s, c, s')
    case Checkpointing(_, _) => TablesStep(s, step, s')
    case OtherWork(_, _, _) => TablesStep(s, step, s')
    case _ => ConnectionStep(s, step, s')
  }

  /** The connection is lost, or the server stops adding to it; the document is
      closed, or opened again from the tables. */
  ghost predicate ConnectionStep(s: System, step: Step, s': System) {
    match step
    case Disconnect(c) =>
      c in s.clients && s' == With(s, c, s.clients[c].(session := None))
    case Cut(c) =>
      && c in s.clients && s.clients[c].session.Some?
      && s' == With(s, c, s.clients[c].(session := Some(s.clients[c].session.value.(open := false))))
    case Close(c) =>
      c in s.clients && s' == With(s, c, s.clients[c].(replica := None, session := None))
    case Open(c) =>
      c in s.clients && s.clients[c].replica.None? &&
      var K := KnownOf(s.clients[c].db, s.doc);
      && Synced(s.clients[c].db, s.doc, K) && Resolved(K)
      && s' == With(s, c, s.clients[c].(replica := Some(K)))
    case _ => false
  }

  /** A checkpoint is written, or work on other documents moves the clocks. */
  ghost predicate TablesStep(s: System, step: Step, s': System) {
    match step
    case Checkpointing(c, table) =>
      c in s.clients && s' == With(s, c, s.clients[c].(db := s.clients[c].db.(replicaSnapshots := table)))
    case OtherWork(c, nextCounter, lamportClock) =>
      c in s.clients && s.clients[c].db.clientMeta.Some? &&
      var m := s.clients[c].db.clientMeta.value;
      && nextCounter >= m.nextCounter && lamportClock >= m.lamportClock
      && s' == With(s, c, s.clients[c].(db := s.clients[c].db.(clientMeta :=
                      Some(m.(nextCounter := nextCounter, lamportClock := lamportClock)))))
    case _ => false
  }

  ghost predicate Next(s: System, s': System) {
    exists step :: StepTo(s, step, s')
  }

  /** Every step the code can take. */
  ghost predicate IsRun(run: seq<System>) {
    && run != [] && Initial(run[0])
    && forall i, j {:trigger Next(run[i], run[j])} | 0 <= i && j == i + 1 < |run| :: Next(run[i], run[j])
  }

  /** In this step the client does not ingest a message while something that it missed
      before is neither known nor part of that message. */
  ghost predicate CarefulFor(s: System, step: Step, c: ClientId) {
    && step.Receive? && step.c == c && c in s.clients && HasMessage(s.clients[c])
    && !IsBootstrap(FirstMessage(s.clients[c])) ==>
      Recovered(s.doc, s.clients[c], FirstMessage(s.clients[c]))
  }

  ghost predicate CarefulNextOf(s: System, s': System, c: ClientId) {
    exists step :: StepTo(s, step, s') && CarefulFor(s, step, c)
  }

  /** A run in which this client is careful, whatever the others do. */
  ghost predicate IsCarefulRunOf(run: seq<System>, c: ClientId) {
    && run != [] && Initial(run[0])
    && forall i, j {:trigger CarefulNextOf(run[i], run[j], c)} | 0 <= i && j == i + 1 < |run| ::
         CarefulNextOf(run[i], run[j], c)
  }

  ghost predicate Careful(s: System, step: Step) {
    step.Receive? ==> CarefulFor(s, step, step.c)
  }

  ghost predicate CarefulNext(s: System, s': System) {
    exists step :: StepTo(s, step, s') && Careful(s, step)
  }

  /** A run in which every client is careful. */
  ghost predicate IsCarefulRun(run: seq<System>) {
    && run != [] && Initial(run[0])
    && forall i, j {:trigger CarefulNext(run[i], run[j])} | 0 <= i && j == i + 1 < |run| ::
         CarefulNext(run[i], run[j])
  }

  /** The client that a step is about; an accepted row concerns all. */
  function ActorOf(step: Step): Option<ClientId> {
    match step
    case Accept(_, _) => None
    case Echo(row) => Some(row.operation.clientId)
    case _ => Some(step.c)
  }
}
