/** The system's invariant holds in every state of every run: initially, and after
    each kind of step. A step touches the server, one client, or, when a row is
    broadcast, the queues of all clients; one lemma for each kind of step shows that
    what it touches is in order again and that the rest was not disturbed. */
module SyncRuns {
  import opened Wrappers
  import opened JsStrings
  import opened Operations
  import opened Convergence
  import opened Documents
  import opened LocalDocumentControllers
  import opened LocalStore
  import opened OperationStores
  import opened Replays
  import opened ServerSnapshots
  import opened StoreFacts
  import opened SyncEdits
  import opened SyncInvariants
  import opened SyncMessages
  import opened SyncServers
  import opened SyncSystems
  import opened TextEdit

  // ----- the invariant in every run

  lemma InitialOk(s: System)
    requires Initial(s)
    ensures Invariant(s)
  {
    EmptyWellFormed();
    forall c | c in s.clients ensures ClientOk(map[], [], s.doc, c, s.clients[c]) {
      var db := FreshDatabase(c, s.doc);
      assert BaselineOps(db, s.doc) == map[] && DocOps(db, s.doc) == map[];
    }
  }

  lemma Assemble(s: System, doc: DocId, server: ServerDb, clients: map<ClientId, Client>, submitted: set<Operation>,
          U: OpMap, log: seq<Sequenced>)
    requires s == System(doc, server, clients, submitted, U) && log == LogOf(server, doc)
    requires UniverseOk(U) && ServerOk(U, server, doc) && ClientsOk(U, log, doc, clients)
    requires forall op | op in submitted :: Made(U, op)
    ensures Invariant(s)
  {}

  /** One client changes and nothing else. */
  lemma OnlyOneChanges(s: System, c: ClientId, k: Client, s': System)
    requires Invariant(s) && c in s.clients && s' == With(s, c, k)
    requires ClientOk(s.created, Log(s), s.doc, c, k)
    ensures Invariant(s')
  {
    OneClientChanges(s.created, Log(s), s.doc, s.clients, c, k);
  }

  lemma OneClientChanges(U: OpMap, log: seq<Sequenced>, doc: DocId, clients: map<ClientId, Client>, c: ClientId,
          k: Client)
    requires ClientsOk(U, log, doc, clients) && c in clients && ClientOk(U, log, doc, c, k)
    ensures ClientsOk(U, log, doc, clients[c := k])
  {}

  lemma EditKeepsInvariant(s: System, c: ClientId, cur: seq<VisibleElement>, next: seq<JsString>, edit: LocalTextEdit,
          s': System)
    requires Invariant(s) && EditStep(s, c, cur, next, edit, s')
    ensures Invariant(s')
  {
    assert ClientOk(s.created, Log(s), s.doc, c, s.clients[c]);
    EditedInvariant(s.created, s.doc, s.server, s.clients, s.submitted, c, cur, next, edit);
  }

  lemma {:induction false} EditedInvariant(U: OpMap, doc: DocId, server: ServerDb, clients: map<ClientId, Client>,
          submitted: set<Operation>, c: ClientId, cur: seq<VisibleElement>, next: seq<JsString>, edit: LocalTextEdit)
    requires UniverseOk(U) && ServerOk(U, server, doc) && ClientsOk(U, LogOf(server, doc), doc, clients)
    requires forall op | op in submitted :: Made(U, op)
    requires c in clients && clients[c].replica.Some? && Editable(clients[c].db, doc, cur, next, edit)
    ensures Invariant(System(doc, server, clients[c := AfterEdit(doc, clients[c], edit)], submitted,
                             Merge(U, EditedOps(clients[c].db, edit))))
  {
    EditedUniverse(U, doc, c, clients[c].db, cur, next, edit);
    MadeStaysMade(U, EditedOps(clients[c].db, edit), server, doc, submitted);
    EditedClients(U, LogOf(server, doc), doc, clients, c, cur, next, edit);
  }

  lemma {:induction false} MadeStaysMade(U: OpMap, ops: seq<Operation>, server: ServerDb, doc: DocId,
          submitted: set<Operation>)
    requires OnePayload(U, ops) && ServerOk(U, server, doc) && forall op | op in submitted :: Made(U, op)
    ensures ServerOk(Merge(U, ops), server, doc) && forall op | op in submitted :: Made(Merge(U, ops), op)
  {
    MergeMeaning(U, ops);
  }

  lemma {:induction false} EditedClients(U: OpMap, log: seq<Sequenced>, doc: DocId, clients: map<ClientId, Client>,
          c: ClientId, cur: seq<VisibleElement>, next: seq<JsString>, edit: LocalTextEdit)
    requires UniverseOk(U) && ClientsOk(U, log, doc, clients)
    requires c in clients && clients[c].replica.Some? && Editable(clients[c].db, doc, cur, next, edit)
    ensures ClientsOk(Merge(U, EditedOps(clients[c].db, edit)), log, doc,
                      clients[c := AfterEdit(doc, clients[c], edit)])
  {
    var k, ops := clients[c], EditedOps(clients[c].db, edit);
    EditorKeeps(U, log, doc, c, k, cur, next, edit);
    EditedUniverse(U, doc, c, k.db, cur, next, edit);
    forall d | d in clients && d != c ensures ClientOk(Merge(U, ops), log, doc, d, clients[d]) {
      BystanderKeeps(U, log, doc, c, k.db, cur, next, edit, d, clients[d]);
    }
    EditNotEmpty(cur, next, edit);
    AuthoredBy(c, k.db.clientMeta.value.nextCounter, k.db.clientMeta.value.lamportClock, edit);
    AuthorsKnown(U, ops, clients, c);
    AllClients(Merge(U, ops), log, doc, clients, c, AfterEdit(doc, k, edit));
  }

  lemma AllClients(U: OpMap, log: seq<Sequenced>, doc: DocId, clients: map<ClientId, Client>, c: ClientId, k: Client)
    requires c in clients && ClientOk(U, log, doc, c, k) && forall x | x in U :: U[x].clientId in clients
    requires forall d | d in clients && d != c :: ClientOk(U, log, doc, d, clients[d])
    ensures ClientsOk(U, log, doc, clients[c := k])
  {}

  lemma {:induction false} BystanderKeeps(U: OpMap, log: seq<Sequenced>, doc: DocId, c: ClientId, db: Database,
          cur: seq<VisibleElement>, next: seq<JsString>, edit: LocalTextEdit, d: ClientId, k: Client)
    requires UniverseOk(U) && TablesOk(U, doc, c, db) && Editable(db, doc, cur, next, edit)
    requires ClientOk(U, log, doc, d, k) && c != d
    ensures ClientOk(Merge(U, EditedOps(db, edit)), log, doc, d, k)
  {
    var m := db.clientMeta.value;
    EditNotEmpty(cur, next, edit);
    EditedUniverse(U, doc, c, db, cur, next, edit);
    AuthoredBy(c, m.nextCounter, m.lamportClock, edit);
    OthersNotFuture(U, d, k.db.clientMeta.value.nextCounter, c, m.nextCounter, m.lamportClock, edit);
    OtherClientsKeep(U, EditedOps(db, edit), log, doc, d, k);
  }

  lemma {:induction false} AuthorsKnown(U: OpMap, ops: seq<Operation>, clients: map<ClientId, Client>, c: ClientId)
    requires OnePayload(U, ops) && c in clients && forall o | o in ops :: o.clientId == c
    requires forall x | x in U :: U[x].clientId in clients
    ensures forall x | x in Merge(U, ops) :: Merge(U, ops)[x].clientId in clients
  {
    MergeMeaning(U, ops);
    forall x | x in Merge(U, ops) ensures Merge(U, ops)[x].clientId in clients {
      if o :| o in ops && o.opId == x { } else { }
    }
  }

  lemma AcceptKeepsInvariant(s: System, op: Operation, skipped: nat, s': System)
    requires Invariant(s) && AcceptStep(s, op, skipped, s')
    ensures Invariant(s')
  {
    var row := Sequenced(s.server.sequence + 1 + skipped, op);
    ServerAppends(s.created, s.server, s.doc, row);
    ReachedClients(s.created, Log(s), row, s.server.sequence, s.doc, s.clients);
    Assemble(s', s.doc, Appended(s.server, s.doc, row), Broadcast(s.clients, Live(row)), s.submitted, s.created,
             Log(s) + [row]);
  }

  lemma ServerAppends(U: OpMap, server: ServerDb, doc: DocId, row: Sequenced)
    requires ServerOk(U, server, doc) && server.sequence < row.serverSeq <= MAX_SAFE_INTEGER
    requires Made(U, row.operation) && IsValidOperation(row.operation)
    requires forall r | r in LogOf(server, doc) :: r.operation.opId != row.operation.opId
    ensures ServerOk(U, Appended(server, doc, row), doc)
      && LogOf(Appended(server, doc, row), doc) == LogOf(server, doc) + [row]
    ensures GoodLog(LogOf(server, doc), server.sequence) && server.sequence >= 0
  {
    AppendKeepsGood(server, doc, row);
    AppendKeepsCache(server, doc, row);
  }

  lemma ReachedClients(U: OpMap, log: seq<Sequenced>, row: Sequenced, sequence: int, doc: DocId,
          clients: map<ClientId, Client>)
    requires ClientsOk(U, log, doc, clients)
    requires GoodLog(log, sequence) && 0 <= sequence < row.serverSeq <= MAX_SAFE_INTEGER
    ensures ClientsOk(U, log + [row], doc, Broadcast(clients, Live(row)))
  {
    forall c | c in clients ensures ClientOk(U, log + [row], doc, c, Deliver(clients[c], Live(row))) {
      AppendKeeps(U, log, row, sequence, doc, c, clients[c]);
    }
  }

  lemma JoinKeepsInvariant(s: System, c: ClientId, m: SyncMessage, s': System)
    requires Invariant(s) && JoinStep(s, c, m, s') && s' != s
    ensures Invariant(s')
  {
    var k := s.clients[c];
    var ses := k.session.value;
    AnswerOk(s.server, s.doc, ses, m, s'.server, LastServerSeq(k.db, s.doc));
    JoinKeepsCache(s.server, s.doc, ses.phase.lastServerSeq, ses.phase.capable, m, s'.server);
    var k' := k.(session := Some(Answered(ses, m)));
    OneClientChanges(s.created, Log(s), s.doc, s.clients, c, k');
    Assemble(s', s.doc, s'.server, s.clients[c := k'], s.submitted, s.created, Log(s));
  }

  lemma ReceiveKeepsInvariant(s: System, c: ClientId, arrived: nat, s': System)
    requires Invariant(s) && ReceiveStep(s, c, arrived, s')
    ensures Invariant(s')
  {
    HandleKeeps(s.created, Log(s), s.server.sequence, s.doc, c, s.clients[c], arrived);
    OnlyOneChanges(s, c, Handle(s.doc, s.clients[c], arrived), s');
  }

  lemma HandleKeeps(U: OpMap, log: seq<Sequenced>, sequence: int, doc: DocId, c: ClientId, k: Client, arrived: nat)
    requires UniverseOk(U) && ClientOk(U, log, doc, c, k) && HasMessage(k) && k.replica.Some?
    requires GoodLog(log, sequence) && (forall r | r in log :: Made(U, r.operation))
    ensures ClientOk(U, log, doc, c, Handle(doc, k, arrived))
    ensures LastServerSeq(k.db, doc) <= LastServerSeq(Handle(doc, k, arrived).db, doc)
  {
    if IsBootstrap(FirstMessage(k)) {
      InstallKeeps(U, log, sequence, doc, c, k, arrived);
      HoldsInOrder(U, log, doc, c, k);
    } else {
      IngestKeeps(U, log, doc, c, k, arrived);
    }
  }

  /** A storage failure changes no table. */
  lemma FailKeepsInvariant(s: System, c: ClientId, s': System)
    requires Invariant(s) && FailStep(s, c, s')
    ensures Invariant(s')
  {
    MissKeeps(s.created, Log(s), s.doc, c, s.clients[c], 0);
    OnlyOneChanges(s, c, s.clients[c].(session := Some(Miss(s.clients[c].session.value))), s');
  }

  lemma EchoKeepsInvariant(s: System, row: Sequenced, s': System)
    requires Invariant(s) && EchoStep(s, row, s')
    ensures Invariant(s')
  {
    var c := row.operation.clientId;
    assert GoodLog(Log(s), s.server.sequence);
    EchoKeeps(s.created, Log(s), row, s.server.sequence, s.doc, c, s.clients[c]);
    OnlyOneChanges(s, c, Deliver(s.clients[c], Live(row)), s');
  }

  /** Tables that differ only in checkpoints, or in clocks that moved on. */
  lemma ClocksMoveOn(U: OpMap, log: seq<Sequenced>, doc: DocId, c: ClientId, k: Client, db: Database)
    requires ClientOk(U, log, doc, c, k) && db.clientMeta.Some? && db.clientMeta.value.clientId == c
    requires db == k.db.(clientMeta := db.clientMeta, replicaSnapshots := db.replicaSnapshots)
    requires db.clientMeta.value.nextCounter >= k.db.clientMeta.value.nextCounter
    requires db.clientMeta.value.lamportClock >= k.db.clientMeta.value.lamportClock
    ensures ClientOk(U, log, doc, c, k.(db := db))
  {
    InitializeKeeps(k.db, db, doc);
  }

  lemma ConnectKeepsInvariant(s: System, c: ClientId, capable: bool, arrived: nat, s': System)
    requires Invariant(s) && ConnectStep(s, c, capable, arrived, s')
    ensures Invariant(s')
  {
    var k := s.clients[c];
    var k' := k.(session := Some(Reconnecting(k.session, Joining(LastServerSeq(k.db, s.doc), capable), arrived)));
    assert ClientOk(s.created, Log(s), s.doc, c, k);
    ReconnectingOk(Log(s), s.doc, k, capable, arrived);
    ConnectionChanges(s.created, Log(s), s.doc, c, k, k');
    OnlyOneChanges(s, c, k', s');
  }

  /** Losing the connection and closing the document leave the tables alone; opening
      rebuilds the replica from them. */
  lemma ConnectionStepKeepsInvariant(s: System, step: Step, s': System)
    requires Invariant(s) && ConnectionStep(s, step, s')
    ensures Invariant(s')
  {
    var k := s.clients[step.c];
    assert ClientOk(s.created, Log(s), s.doc, step.c, k);
    ConnectionChanges(s.created, Log(s), s.doc, step.c, k, s'.clients[step.c]);
    OnlyOneChanges(s, step.c, s'.clients[step.c], s');
  }

  lemma ConnectionChanges(U: OpMap, log: seq<Sequenced>, doc: DocId, c: ClientId, k: Client, k': Client)
    requires ClientOk(U, log, doc, c, k) && k'.db == k.db && ConnectionOk(log, doc, k')
    ensures ClientOk(U, log, doc, c, k')
  {}

  lemma TablesStepKeepsInvariant(s: System, step: Step, s': System)
    requires Invariant(s) && TablesStep(s, step, s')
    ensures Invariant(s')
  {
    var k, db := s.clients[step.c], s'.clients[step.c].db;
    assert ClientOk(s.created, Log(s), s.doc, step.c, k);
    ClocksMoveOn(s.created, Log(s), s.doc, step.c, k, db);
    OnlyOneChanges(s, step.c, k.(db := db), s');
  }

  lemma SubmitKeepsInvariant(s: System, c: ClientId, op: Operation, s': System)
    requires Invariant(s) && SubmitStep(s, c, op, s')
    ensures Invariant(s')
  {
    SubmittedIsMade(s, c, op);
    OneMoreMade(s.created, s.submitted, op);
    Assemble(s', s.doc, s.server, s.clients, s.submitted + {op}, s.created, Log(s));
  }

  lemma OneMoreMade(U: OpMap, submitted: set<Operation>, op: Operation)
    requires Made(U, op) && forall o | o in submitted :: Made(U, o)
    ensures forall o | o in submitted + {op} :: Made(U, o)
  {}

  lemma ServerStepKeepsInvariant(s: System, step: Step, s': System)
    requires Invariant(s) && StepTo(s, step, s') && (step.Join? || step.Accept? || step.Echo?)
    ensures Invariant(s')
  {
    match step
    case Join(c, m) => if s' != s { JoinKeepsInvariant(s, c, m, s'); }
    case Accept(op, skipped) => AcceptKeepsInvariant(s, op, skipped, s');
    case Echo(row) => EchoKeepsInvariant(s, row, s');
  }

  lemma ClientStepKeepsInvariant(s: System, step: Step, s': System)
    requires Invariant(s) && StepTo(s, step, s')
    requires step.Edit? || step.Receive? || step.Fail? || step.Connect? || step.Submit?
    ensures Invariant(s')
  {
    match step
    case Edit(c, cur, next, edit) => EditKeepsInvariant(s, c, cur, next, edit, s');
    case Connect(c, capable, arrived) => ConnectKeepsInvariant(s, c, capable, arrived, s');
    case Submit(c, op) => SubmitKeepsInvariant(s, c, op, s');
    case Receive(c, arrived) => ReceiveKeepsInvariant(s, c, arrived, s');
    case Fail(c) => FailKeepsInvariant(s, c, s');
  }

  /** Every step of every client and of the server keeps the invariant. */
  lemma StepKeepsInvariant(s: System, step: Step, s': System)
    requires Invariant(s) && StepTo(s, step, s')
    ensures Invariant(s')
  {
    if step.Join? || step.Accept? || step.Echo? { ServerStepKeepsInvariant(s, step, s'); }
    else if step.Edit? || step.Receive? || step.Fail? || step.Connect? || step.Submit? {
      ClientStepKeepsInvariant(s, step, s');
    }
    else if step.Checkpointing? || step.OtherWork? { TablesStepKeepsInvariant(s, step, s'); }
    else { ConnectionStepKeepsInvariant(s, step, s'); }
  }

  lemma SubmittedIsMade(s: System, c: ClientId, op: Operation)
    requires Invariant(s) && c in s.clients
    requires op.opId in DocOps(s.clients[c].db, s.doc) && DocOps(s.clients[c].db, s.doc)[op.opId] == op
    ensures Made(s.created, op)
  {
    assert KnownOf(s.clients[c].db, s.doc)[op.opId] == op;
  }

  ghost predicate InvariantKept(s: System, s': System) {
    Invariant(s) ==> Invariant(s')
  }

  lemma NextKeepsInvariant(s: System, s': System)
    requires Next(s, s')
    ensures InvariantKept(s, s')
  {
    var step :| StepTo(s, step, s');
    if Invariant(s) { StepKeepsInvariant(s, step, s'); }
  }

  lemma RunKeepsInvariant(run: seq<System>, i: nat)
    requires IsRun(run) && 0 < i < |run|
    ensures InvariantKept(run[i - 1], run[i])
  {
    assert Next(run[i - 1], run[i]);
    NextKeepsInvariant(run[i - 1], run[i]);
  }

  /** The invariant holds throughout every run. */
  lemma {:induction false} InvariantInEveryRun(run: seq<System>, i: nat)
    requires IsRun(run) && i < |run|
    ensures Invariant(run[i])
  {
    if i == 0 {
      InitialOk(run[0]);
    } else {
      InvariantInEveryRun(run, i - 1);
      RunKeepsInvariant(run, i);
    }
  }
}
