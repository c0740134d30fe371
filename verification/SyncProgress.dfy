/** The steps by which a document is brought up to date. From any state of any run,
    whatever was lost or is still on its way, all connections are dropped; then each
    operation that the log lacks is uploaded by its author, who catches up first, sends
    it and leaves; then each client catches up for good and has the server echo what
    still waits in its outbox. No step goes on after a missed message. */
module SyncProgress {
  import opened Wrappers
  import opened Operations
  import opened AnchorGraph
  import opened Convergence
  import opened LocalStore
  import opened OperationStores
  import opened Replays
  import opened ServerSnapshots
  import opened StoreFacts
  import opened SyncInvariants
  import opened SyncMessages
  import opened SyncRuns
  import opened SyncScenarios
  import opened SyncServers
  import opened SyncSystems
  import opened SyncTheorems
  import opened SyncTracking

  // ----- continuations of a run

  /** A run to continue, and the clients whose cursors are to stay sound. */
  datatype Plan = Plan(run: seq<System>, sound: set<ClientId>) {
    ghost predicate Extends(longer: seq<System>, s: System)
      requires run != []
    {
      && IsRun(longer) && |run| <= |longer| && longer[..|run|] == run
      && longer[|longer| - 1] == s
    }

    /** The state comes after the run, with the same clients and the same operations. */
    ghost predicate Gets(s: System) {
      && run != [] && (exists longer :: Extends(longer, s))
      && s.doc == run[|run| - 1].doc && s.created == run[|run| - 1].created
      && s.clients.Keys == run[|run| - 1].clients.Keys
      && forall c | c in sound :: TrackedAt(s, c)
    }
  }

  lemma ExtendsOk(q: Plan, longer: seq<System>, s: System)
    requires q.run != [] && q.Extends(longer, s)
    ensures Invariant(s)
  {
    InvariantInEveryRun(longer, |longer| - 1);
  }

  lemma GetsOk(q: Plan, s: System)
    requires q.Gets(s)
    ensures Invariant(s)
  {
    var longer :| q.Extends(longer, s);
    ExtendsOk(q, longer, s);
  }

  lemma LongerRunOn(run: seq<System>, s': System)
    requires IsRun(run) && Next(run[|run| - 1], s')
    ensures IsRun(run + [s'])
  {
    var next := (s, s') => Next(s, s');
    assert Chained(run, next);
    LongerChain(run, s', next);
    var longer := run + [s'];
    forall i, j | 0 <= i && j == i + 1 < |longer| ensures Next(longer[i], longer[j]) {
      assert next(longer[i], longer[j]);
    }
  }

  lemma ExtendsOn(q: Plan, s: System, s': System)
    requires q.Gets(s) && Next(s, s')
    ensures exists longer :: q.Extends(longer, s')
  {
    var longer :| q.Extends(longer, s);
    LongerRunOn(longer, s');
    assert (longer + [s'])[..|q.run|] == longer[..|q.run|];
    assert q.Extends(longer + [s'], s');
  }

  lemma StepKeepsMade(s: System, step: Step, s': System)
    requires StepTo(s, step, s') && !step.Edit?
    ensures s'.doc == s.doc && s'.created == s.created
  {}

  /** One more careful step. */
  lemma GetsOn(q: Plan, s: System, step: Step, s': System)
    requires q.Gets(s) && StepTo(s, step, s') && !step.Edit?
    requires forall c | c in q.sound :: CarefulFor(s, step, c)
    ensures q.Gets(s')
  {
    GetsOk(q, s);
    ExtendsOn(q, s, s');
    StepKeepsMade(s, step, s');
    StepKeepsClients(s, step, s');
    forall c | c in q.sound ensures TrackedAt(s', c) { CarefulStepTracked(s, step, s', c); }
  }

  // ----- first: no connections

  ghost predicate CanOpen(doc: DocId, k: Client) {
    k.replica.Some? || Resolved(KnownOf(k.db, doc))
  }

  ghost function Calmed(doc: DocId, k: Client): Client {
    Client(k.db, Some(KnownOf(k.db, doc)), None)
  }

  ghost function AllCalmed(s: System, cs: set<ClientId>): System {
    s.(clients := map c | c in s.clients :: if c in cs then Calmed(s.doc, s.clients[c]) else s.clients[c])
  }

  lemma CalmOne(q: Plan, s: System, c: ClientId)
    requires q.Gets(s) && c in s.clients && CanOpen(s.doc, s.clients[c])
    ensures q.Gets(With(s, c, Calmed(s.doc, s.clients[c])))
  {
    GetsOk(q, s);
    var k := s.clients[c];
    assert ClientOk(s.created, Log(s), s.doc, c, k);
    GetsOn(q, s, if k.replica.Some? then Disconnect(c) else Open(c), With(s, c, Calmed(s.doc, k)));
  }

  lemma CalmOneMore(s: System, cs: set<ClientId>, c: ClientId)
    requires c in s.clients && c !in cs
    ensures AllCalmed(s, cs).clients[c] == s.clients[c]
    ensures With(AllCalmed(s, cs), c, Calmed(s.doc, s.clients[c])) == AllCalmed(s, cs + {c})
    ensures AllCalmed(s, {}) == s
  {}

  lemma {:induction false} CalmAll(q: Plan, s: System, cs: set<ClientId>)
    requires q.Gets(s) && forall c | c in cs :: c in s.clients && CanOpen(s.doc, s.clients[c])
    ensures q.Gets(AllCalmed(s, cs))
    decreases |cs|
  {
    if cs == {} {
      assert AllCalmed(s, {}).clients == s.clients;
    } else {
      var c :| c in cs;
      CalmAll(q, s, cs - {c});
      CalmOneMore(s, cs - {c}, c);
      assert cs - {c} + {c} == cs;
      CalmOne(q, AllCalmed(s, cs - {c}), c);
    }
  }

  /** Nobody is connected, and these documents are open. */
  ghost predicate Calm(s: System, open: set<ClientId>) {
    && (forall c | c in s.clients :: s.clients[c].session.None?)
    && (forall c | c in open :: c in s.clients && s.clients[c].replica.Some?)
  }

  // ----- joining

  function Connected(k: Client, queue: seq<ServerMessage>): Client {
    k.(session := Some(Session(Joined, queue, true, [])))
  }

  /** Open, and not connected. */
  ghost predicate Waits(s: System, c: ClientId) {
    c in s.clients && s.clients[c].replica.Some? && s.clients[c].session.None?
  }

  /** Connected and at the end of the log, with nothing queued. */
  ghost predicate Idle(s: System, c: ClientId) {
    && c in s.clients && s.clients[c].replica.Some?
    && s.clients[c].session == Some(Session(Joined, [], true, [])) && AtTheEnd(s, c)
  }

  /** Nothing but this client, the snapshot cache and what was submitted changes. */
  ghost predicate OnlyClient(s: System, s': System, c: ClientId) {
    && s'.doc == s.doc && s'.created == s.created
    && s'.server.logs == s.server.logs && s'.server.sequence == s.server.sequence
    && c in s'.clients && s'.clients == s.clients[c := s'.clients[c]]
  }

  lemma OnlyClientTwice(s: System, s': System, s'': System, c: ClientId)
    requires OnlyClient(s, s', c) && OnlyClient(s', s'', c)
    ensures OnlyClient(s, s'', c)
  {}

  lemma Joins(q: Plan, s: System, c: ClientId, capable: bool, m: SyncMessage, server': ServerDb)
    requires q.Gets(s) && Waits(s, c)
    requires capable ==> LastServerSeq(s.clients[c].db, s.doc) == 0 && Eligible(s.clients[c].db, s.doc)
    requires Answers(s.server, s.doc, LastServerSeq(s.clients[c].db, s.doc), capable, m, server')
    ensures q.Gets(With(s.(server := server'), c, Connected(s.clients[c], [Sync(m)])))
  {
    GetsOk(q, s);
    var k := s.clients[c];
    var cursor := LastServerSeq(k.db, s.doc);
    var k' := k.(session := Some(Session(Joining(cursor, capable), [], true, [])));
    assert ClientOk(s.created, Log(s), s.doc, c, k);
    GetsOn(q, s, Connect(c, capable, 0), With(s, c, k'));
    WithTwice(s, c, k', Connected(k, [Sync(m)]));
    FirstAnswer(cursor, capable, m);
    GetsOn(q, With(s, c, k'), Join(c, m), With(s.(server := server'), c, Connected(k, [Sync(m)])));
  }

  /** The client after it took a message that it was waiting for. */
  ghost function Fetched(doc: DocId, k: Client, m: ServerMessage): Client
    requires Ingested(k.db, doc, Items(m), Confirmed(m)).Success?
  {
    var db' := Ingested(k.db, doc, Items(m), Confirmed(m)).value;
    Connected(Client(db', Some(KnownOf(db', doc)), None), [])
  }

  lemma FetchKeeps(s: System, c: ClientId, k: Client, m: ServerMessage)
    requires Invariant(s) && c in s.clients && s.clients[c] == Connected(k, [m]) && !IsBootstrap(m)
    ensures k.replica.Some? && Ingested(k.db, s.doc, Items(m), Confirmed(m)).Success?
    ensures Handle(s.doc, s.clients[c], 0) == Fetched(s.doc, k, m)
    ensures LastServerSeq(Fetched(s.doc, k, m).db, s.doc) == Max(LastServerSeq(k.db, s.doc), Confirmed(m))
    ensures Confirmed(m) <= Latest(Log(s))
  {
    assert ClientOk(s.created, Log(s), s.doc, c, s.clients[c]);
    FetchOk(s.created, Log(s), s.doc, c, k, m);
  }

  lemma FetchOk(U: OpMap, log: seq<Sequenced>, doc: DocId, c: ClientId, k: Client, m: ServerMessage)
    requires UniverseOk(U) && ClientOk(U, log, doc, c, Connected(k, [m])) && !IsBootstrap(m)
    requires forall r | r in log :: Made(U, r.operation)
    ensures k.replica.Some? && Ingested(k.db, doc, Items(m), Confirmed(m)).Success?
    ensures Handle(doc, Connected(k, [m]), 0) == Fetched(doc, k, m)
    ensures LastServerSeq(Fetched(doc, k, m).db, doc) == Max(LastServerSeq(k.db, doc), Confirmed(m))
    ensures Confirmed(m) <= Latest(log)
  {
    HoldsInOrder(U, log, doc, c, Connected(k, [m]));
    IngestKeeps(U, log, doc, c, Connected(k, [m]), 0);
    assert [m][1..] == [];
  }

  lemma Fetches(q: Plan, s: System, c: ClientId, k: Client, m: ServerMessage)
    requires c in s.clients && q.Gets(With(s, c, Connected(k, [m]))) && !IsBootstrap(m)
    ensures k.replica.Some? && Ingested(k.db, s.doc, Items(m), Confirmed(m)).Success?
    ensures q.Gets(With(s, c, Fetched(s.doc, k, m)))
    ensures LastServerSeq(Fetched(s.doc, k, m).db, s.doc) == Max(LastServerSeq(k.db, s.doc), Confirmed(m))
    ensures Confirmed(m) <= Latest(Log(s))
  {
    var s1 := With(s, c, Connected(k, [m]));
    GetsOk(q, s1);
    FetchKeeps(s1, c, k, m);
    WithTwice(s, c, Connected(k, [m]), Fetched(s.doc, k, m));
    GetsOn(q, s1, Receive(c, 0), With(s, c, Fetched(s.doc, k, m)));
  }

  lemma Leaves(q: Plan, s: System, c: ClientId, k': Client)
    requires Waits(s, c) && k'.(session := None) == s.clients[c] && q.Gets(With(s, c, k'))
    ensures q.Gets(s)
  {
    WithTwice(s, c, k', s.clients[c]);
    assert s.clients[c := s.clients[c]] == s.clients;
    GetsOn(q, With(s, c, k'), Disconnect(c), s);
  }

  // ----- catching up

  lemma TakesHistory(q: Plan, s: System, c: ClientId, k: Client, m: ServerMessage) returns (s': System)
    requires Waits(s, c) && k == s.clients[c] && q.Gets(With(s, c, Connected(k, [m])))
    requires !IsBootstrap(m) && Confirmed(m) == Latest(Log(s)) && LastServerSeq(k.db, s.doc) <= Latest(Log(s))
    ensures q.Gets(s') && Idle(s', c) && OnlyClient(s, s', c)
  {
    Fetches(q, s, c, k, m);
    s' := With(s, c, Fetched(s.doc, k, m));
  }

  /** An offered snapshot is installed, or refused, which ends the connection. */
  lemma TakesSnapshot(q: Plan, s: System, c: ClientId, k: Client, m: ServerMessage) returns (s': System)
    requires Waits(s, c) && k == s.clients[c] && q.Gets(With(s, c, Connected(k, [m])))
    requires IsBootstrap(m) && Confirmed(m) == Latest(Log(s))
    ensures q.Gets(s') && (s' == s || (Idle(s', c) && OnlyClient(s, s', c)))
  {
    var s1, k1 := With(s, c, Connected(k, [m])), Connected(k, [m]);
    GetsOk(q, s1);
    SnapshotTaken(s1, c, k, m);
    WithTwice(s, c, k1, Handle(s.doc, k1, 0));
    s' := With(s, c, Handle(s.doc, k1, 0));
    GetsOn(q, s1, Receive(c, 0), s');
    if Handle(s.doc, k1, 0).db == k.db && Handle(s.doc, k1, 0).(session := None) == k {
      Leaves(q, s, c, Handle(s.doc, k1, 0));
      return s;
    }
  }

  /** Installed and at the end of the log, or as before but for the connection. */
  ghost predicate TookOrLeft(log: seq<Sequenced>, doc: DocId, k: Client, k': Client) {
    || k'.(session := None) == k
    || (k'.replica.Some? && k'.session == Some(Session(Joined, [], true, []))
          && LastServerSeq(k'.db, doc) == Latest(log))
  }

  lemma InstalledIsIdle(log: seq<Sequenced>, doc: DocId, k: Client, m: ServerMessage)
    requires IsBootstrap(m) && Confirmed(m) == Latest(log) && k.db.clientMeta.Some?
    ensures TookOrLeft(log, doc, k, AfterInstall(log, doc, Connected(k, [m])))
  {
    assert [m][1..] == [];
  }

  lemma SnapshotTaken(s: System, c: ClientId, k: Client, m: ServerMessage)
    requires Invariant(s) && c in s.clients && s.clients[c] == Connected(k, [m]) && IsBootstrap(m)
    requires k.session.None? && k.replica.Some? && Confirmed(m) == Latest(Log(s))
    ensures s.clients[c].replica.Some? && TookOrLeft(Log(s), s.doc, k, Handle(s.doc, s.clients[c], 0))
  {
    assert ClientOk(s.created, Log(s), s.doc, c, s.clients[c]);
    SnapshotOutcome(s.created, Log(s), s.server.sequence, s.doc, c, k, m);
  }

  lemma SnapshotOutcome(U: OpMap, log: seq<Sequenced>, sequence: int, doc: DocId, c: ClientId, k: Client,
          m: ServerMessage)
    requires UniverseOk(U) && ClientOk(U, log, doc, c, Connected(k, [m])) && IsBootstrap(m)
    requires GoodLog(log, sequence) && (forall r | r in log :: Made(U, r.operation))
    requires k.session.None? && k.replica.Some? && Confirmed(m) == Latest(log)
    ensures TookOrLeft(log, doc, k, Handle(doc, Connected(k, [m]), 0))
  {
    InstallKeeps(U, log, sequence, doc, c, Connected(k, [m]), 0);
    InstalledIsIdle(log, doc, k, m);
  }

  /** The server's answer to a client that asks for no snapshot. */
  lemma {:induction false} HistoryAnswers(db: ServerDb, doc: DocId, cursor: int)
    ensures Answers(db, doc, cursor, false,
                    SyncMessage(Between(LogOf(db, doc), cursor, Latest(LogOf(db, doc))), Latest(LogOf(db, doc)), None),
                    db)
  {}

  lemma CanBuild(log: seq<Sequenced>) returns (row: SnapshotRow)
    requires Latest(log) >= 1 && Complete(Prefix(log, Latest(log)))
    ensures row.snapshotSeq == Latest(log) && StandsForPrefix(log, row)
  {
    EmptyWellFormed();
    ReplayAccepts(map[], OpsOf(Between(log, 0, Latest(log))));
    var snapshot := ExportExists(Prefix(log, Latest(log)).known);
    row := SnapshotRow(Latest(log), SERVER_SNAPSHOT_ENVELOPE_VERSION, snapshot);
  }

  lemma CanPrepare(db: ServerDb, doc: DocId) returns (row: Option<SnapshotRow>, db': ServerDb)
    requires CacheOk(db)
    ensures Prepared(db, doc, row, db')
  {
    var log := LogOf(db, doc);
    BarrierPositive(db, doc);
    if log != [] && Complete(Prefix(log, Latest(log))) {
      var built := CanBuild(log);
      row, db' := Some(built), db.(snapshots := db.snapshots[doc := built]);
      if Prepared(db, doc, row, db') { return; }
    }
    row, db' := if log != [] && Usable(db, doc) then Some(db.snapshots[doc]) else None, db;
  }

  /** The server can always answer a client that asks for a snapshot. */
  lemma CanAnswer(db: ServerDb, doc: DocId) returns (m: SyncMessage, db': ServerDb)
    requires CacheOk(db)
    ensures Answers(db, doc, 0, true, m, db') && m.latestServerSeq == Latest(LogOf(db, doc))
    ensures db'.logs == db.logs && db'.sequence == db.sequence
  {
    var log := LogOf(db, doc);
    var row, db1 := CanPrepare(db, doc);
    db' := db1;
    var boot := if row.Some? then Some(EnvelopeOf(row.value)) else None;
    m := SyncMessage(Between(log, if boot.Some? then boot.value.snapshotSeq else 0, Latest(log)), Latest(log), boot);
    JoinKeepsCache(db, doc, 0, true, m, db');
  }

  lemma AnswerArrives(q: Plan, s: System, c: ClientId) returns (m: SyncMessage, server': ServerDb)
    requires q.Gets(s) && Waits(s, c) && Eligible(s.clients[c].db, s.doc)
    ensures server'.logs == s.server.logs && server'.sequence == s.server.sequence
    ensures m.latestServerSeq == Latest(Log(s))
    ensures q.Gets(With(s.(server := server'), c, Connected(s.clients[c], [Sync(m)])))
  {
    GetsOk(q, s);
    m, server' := CanAnswer(s.server, s.doc);
    Joins(q, s, c, true, m, server');
  }

  lemma CursorBehind(q: Plan, s: System, c: ClientId)
    requires q.Gets(s) && c in s.clients
    ensures LastServerSeq(s.clients[c].db, s.doc) <= Latest(Log(s))
  {
    GetsOk(q, s);
    assert ClientOk(s.created, Log(s), s.doc, c, s.clients[c]);
  }

  /** A pristine document asks for a snapshot first. */
  lemma Asks(q: Plan, s: System, c: ClientId) returns (s': System)
    requires q.Gets(s) && Waits(s, c) && Eligible(s.clients[c].db, s.doc)
    ensures q.Gets(s') && OnlyClient(s, s', c) && (Idle(s', c) || (Waits(s', c) && s'.clients == s.clients))
  {
    CursorBehind(q, s, c);
    var m, server' := AnswerArrives(q, s, c);
    var s1 := s.(server := server');
    assert s1.clients[c := s1.clients[c]] == s1.clients;
    if IsBootstrap(Sync(m)) { s' := TakesSnapshot(q, s1, c, s.clients[c], Sync(m)); }
    else { s' := TakesHistory(q, s1, c, s.clients[c], Sync(m)); }
    OnlyClientTwice(s, s1, s', c);
  }

  lemma AsksHistory(q: Plan, s: System, c: ClientId) returns (s': System)
    requires q.Gets(s) && Waits(s, c)
    ensures q.Gets(s') && OnlyClient(s, s', c) && Idle(s', c)
  {
    CursorBehind(q, s, c);
    var k, cursor := s.clients[c], LastServerSeq(s.clients[c].db, s.doc);
    var m := SyncMessage(Between(Log(s), cursor, Latest(Log(s))), Latest(Log(s)), None);
    HistoryAnswers(s.server, s.doc, cursor);
    Joins(q, s, c, false, m, s.server);
    assert s.(server := s.server) == s;
    s' := TakesHistory(q, s, c, k, Sync(m));
  }

  /** The client connects and catches up; it asks for a snapshot exactly if its document is
      pristine, and after a refusal for the history. */
  lemma Downloads(q: Plan, s: System, c: ClientId) returns (s': System)
    requires q.Gets(s) && Waits(s, c)
    ensures q.Gets(s') && Idle(s', c) && OnlyClient(s, s', c)
  {
    if !Eligible(s.clients[c].db, s.doc) {
      s' := AsksHistory(q, s, c);
    } else {
      var s1 := Asks(q, s, c);
      if Idle(s1, c) { return s1; }
      s' := AsksHistory(q, s1, c);
      OnlyClientTwice(s, s1, s', c);
    }
  }

  // ----- then: uploads

  function Submitted(s: System, op: Operation): System {
    s.(submitted := s.submitted + {op})
  }

  lemma OwnOnRecord(s: System, op: Operation)
    requires Invariant(s) && Made(s.created, op) && op.clientId in s.clients
    ensures var D := DocOps(s.clients[op.clientId].db, s.doc); op.opId in D && D[op.opId] == op
  {
    var db := s.clients[op.clientId].db;
    assert ClientOk(s.created, Log(s), s.doc, op.clientId, s.clients[op.clientId]);
    assert op.opId in db.operations && KnownOf(db, s.doc)[op.opId] == DocOps(db, s.doc)[op.opId];
  }

  lemma Submits(q: Plan, s: System, op: Operation)
    requires q.Gets(s) && Idle(s, op.clientId) && Made(s.created, op)
    ensures q.Gets(Submitted(s, op)) && Idle(Submitted(s, op), op.clientId)
  {
    GetsOk(q, s);
    OwnOnRecord(s, op);
    GetsOn(q, s, Submit(op.clientId, op), Submitted(s, op));
  }

  /** The author catches up, sends the operation and leaves. */
  lemma Sends(q: Plan, s: System, op: Operation) returns (s': System)
    requires q.Gets(s) && Waits(s, op.clientId) && Made(s.created, op)
    ensures q.Gets(s') && Waits(s', op.clientId) && OnlyClient(s, s', op.clientId) && op in s'.submitted
  {
    var c := op.clientId;
    var s1 := Downloads(q, s, c);
    Submits(q, s1, op);
    var s2 := Submitted(s1, op);
    var k := s2.clients[c].(session := None);
    s' := With(s2, c, k);
    assert s2.clients[c := s2.clients[c]] == s2.clients;
    GetsOn(q, s2, Disconnect(c), s');
    OnlyClientTwice(s, s1, s', c);
  }

  lemma NobodyHears(s: System, open: set<ClientId>, m: ServerMessage)
    requires Calm(s, open)
    ensures Broadcast(s.clients, m) == s.clients
  {}

  lemma NewToTheLog(s: System, op: Operation)
    requires Invariant(s) && op in s.submitted && !Logged(Log(s), op)
    ensures IsValidOperation(op) && forall r | r in Log(s) :: r.operation.opId != op.opId
  {
    forall r | r in Log(s) ensures r.operation.opId != op.opId {
      assert Made(s.created, r.operation) && Made(s.created, op);
    }
  }

  function Accepting(s: System, op: Operation): System {
    s.(server := Appended(s.server, s.doc, NextRow(s.server, op)))
  }

  lemma AcceptedUnheard(s: System, open: set<ClientId>, op: Operation)
    requires Calm(s, open) && op in s.submitted && IsValidOperation(op) && s.server.sequence < MAX_SAFE_INTEGER
    requires forall r | r in Log(s) :: r.operation.opId != op.opId
    ensures AcceptStep(s, op, 0, Accepting(s, op))
  {
    NobodyHears(s, open, Live(NextRow(s.server, op)));
    assert s.(clients := Broadcast(s.clients, Live(NextRow(s.server, op)))) == s;
    assert NextRow(s.server, op) == Sequenced(s.server.sequence + 1 + 0, op);
  }

  lemma Accepts(q: Plan, s: System, open: set<ClientId>, op: Operation)
    requires q.Gets(s) && Calm(s, open) && op in s.submitted
    requires !Logged(Log(s), op) && s.server.sequence < MAX_SAFE_INTEGER
    ensures q.Gets(Accepting(s, op))
  {
    GetsOk(q, s);
    NewToTheLog(s, op);
    AcceptedUnheard(s, open, op);
    GetsOn(q, s, Accept(op, 0), Accepting(s, op));
  }

  /** What these clients made and the log lacks. */
  ghost function Unlogged(s: System, open: set<ClientId>): set<Id> {
    set x | x in s.created && s.created[x].clientId in open && !Logged(Log(s), s.created[x])
  }

  lemma SameUnlogged(s: System, s': System, c: ClientId, open: set<ClientId>)
    requires OnlyClient(s, s', c)
    ensures Log(s') == Log(s) && Unlogged(s', open) == Unlogged(s, open)
  {}

  lemma AcceptedIsLogged(s: System, open: set<ClientId>, x: Id)
    requires WellKeyed(s.created) && x in Unlogged(s, open)
    ensures Unlogged(Accepting(s, s.created[x]), open) == Unlogged(s, open) - {x}
  {
    var op := s.created[x];
    var s', row := Accepting(s, op), NextRow(s.server, op);
    assert Log(s') == Log(s) + [row];
    LoggedInLonger(Log(s), row);
    assert row in Log(s');
    forall y | y in s.created && y != x ensures Logged(Log(s'), s.created[y]) <==> Logged(Log(s), s.created[y]) {
      if Logged(Log(s'), s.created[y]) {
        var r :| r in Log(s') && r.operation == s.created[y];
        assert r == row || r in Log(s);
      }
    }
  }

  lemma StillCalm(s: System, s': System, c: ClientId, open: set<ClientId>)
    requires Calm(s, open) && OnlyClient(s, s', c) && Waits(s', c)
    ensures Calm(s', open)
  {}

  lemma Uploads(q: Plan, s: System, open: set<ClientId>, x: Id) returns (s': System)
    requires q.Gets(s) && Calm(s, open) && x in Unlogged(s, open) && s.server.sequence < MAX_SAFE_INTEGER
    ensures q.Gets(s') && Calm(s', open) && s'.server.sequence == s.server.sequence + 1
    ensures Unlogged(s', open) == Unlogged(s, open) - {x}
  {
    GetsOk(q, s);
    var op := s.created[x];
    var s1 := Sends(q, s, op);
    SameUnlogged(s, s1, op.clientId, open);
    StillCalm(s, s1, op.clientId, open);
    Accepts(q, s1, open, op);
    AcceptedIsLogged(s1, open, x);
    s' := Accepting(s1, op);
  }

  lemma {:induction false} UploadAll(q: Plan, s: System, open: set<ClientId>) returns (s': System)
    requires q.Gets(s) && Calm(s, open) && s.server.sequence + |Unlogged(s, open)| <= MAX_SAFE_INTEGER
    ensures q.Gets(s') && Calm(s', open) && Unlogged(s', open) == {}
    decreases |Unlogged(s, open)|
  {
    if Unlogged(s, open) == {} { return s; }
    var x :| x in Unlogged(s, open);
    var s1 := Uploads(q, s, open, x);
    s' := UploadAll(q, s1, open);
  }

  // ----- last: outboxes are cleared

  lemma Echoes(q: Plan, s: System, c: ClientId, row: Sequenced)
    requires q.Gets(s) && Idle(s, c) && row in Log(s) && row.operation.clientId == c && row.operation in s.submitted
    ensures q.Gets(With(s, c, Connected(s.clients[c], [Live(row)])))
  {
    assert [] + [Live(row)] == [Live(row)];
    GetsOn(q, s, Echo(row), With(s, c, Connected(s.clients[c], [Live(row)])));
  }

  lemma LoggedIsMadeHere(q: Plan, s: System, row: Sequenced)
    requires q.Gets(s) && row in Log(s)
    ensures Made(s.created, row.operation)
  {
    GetsOk(q, s);
  }

  /** An operation that waits in the outbox although it is logged is sent once more, and
      the server's echo removes it. */
  lemma Retries(q: Plan, s: System, c: ClientId, row: Sequenced) returns (s': System)
    requires q.Gets(s) && Idle(s, c) && row in Log(s) && row.operation.clientId == c
    ensures q.Gets(s') && Idle(s', c) && OnlyClient(s, s', c)
    ensures s'.clients[c].db.outbox.Keys == s.clients[c].db.outbox.Keys - {row.operation.opId}
  {
    var k, s1 := s.clients[c], Submitted(s, row.operation);
    LoggedIsMadeHere(q, s, row);
    Submits(q, s, row.operation);
    Echoes(q, s1, c, row);
    Fetches(q, s1, c, k, Live(row));
    s' := With(s1, c, Fetched(s.doc, k, Live(row)));
    EchoClears(k.db, s.doc, row);
  }

  lemma {:induction false} EchoClears(db: Database, doc: DocId, row: Sequenced)
    requires Ingested(db, doc, [row], row.serverSeq).Success?
    ensures Ingested(db, doc, [row], row.serverSeq).value.outbox.Keys == db.outbox.Keys - {row.operation.opId}
  {
    assert OpsOf([row]) == [row.operation];
    IngestAllOutbox(db, doc, [row.operation]);
    var outbox := IngestAll(db, doc, [row.operation]).value.outbox;
    assert forall x :: x in outbox <==> x in db.outbox && x != row.operation.opId;
  }

  lemma WaitingIsLogged(s: System, c: ClientId, open: set<ClientId>, x: Id) returns (row: Sequenced)
    requires Invariant(s) && c in s.clients && c in open && Unlogged(s, open) == {} && x in s.clients[c].db.outbox
    ensures row in Log(s) && row.operation.clientId == c && row.operation.opId == x
  {
    var db := s.clients[c].db;
    assert ClientOk(s.created, Log(s), s.doc, c, s.clients[c]);
    var op := db.operations[x].operation;
    assert x in DocOps(db, s.doc) && KnownOf(db, s.doc)[x] == op && s.created[x] == op;
    assert x !in Unlogged(s, open);
    row :| row in Log(s) && row.operation == op;
  }

  lemma {:induction false} Clears(q: Plan, s: System, c: ClientId, open: set<ClientId>, waiting: set<Id>)
    returns (s': System)
    requires q.Gets(s) && Idle(s, c) && c in open && Unlogged(s, open) == {} && waiting == s.clients[c].db.outbox.Keys
    ensures q.Gets(s') && Idle(s', c) && s'.clients[c].db.outbox.Keys == {} && OnlyClient(s, s', c)
    decreases |waiting|
  {
    if waiting == {} {
      assert s.clients[c := s.clients[c]] == s.clients;
      return s;
    }
    var x :| x in waiting;
    var s1 := ClearsOne(q, s, c, open, x);
    s' := Clears(q, s1, c, open, waiting - {x});
    OnlyClientTwice(s, s1, s', c);
  }

  lemma ClearsOne(q: Plan, s: System, c: ClientId, open: set<ClientId>, x: Id) returns (s': System)
    requires q.Gets(s) && Idle(s, c) && c in open && Unlogged(s, open) == {} && x in s.clients[c].db.outbox
    ensures q.Gets(s') && Idle(s', c) && OnlyClient(s, s', c) && Unlogged(s', open) == {}
    ensures s'.clients[c].db.outbox.Keys == s.clients[c].db.outbox.Keys - {x}
  {
    GetsOk(q, s);
    var row := WaitingIsLogged(s, c, open, x);
    s' := Retries(q, s, c, row);
    SameUnlogged(s, s', c, open);
  }

  lemma CatchesUp(q: Plan, s: System, c: ClientId, open: set<ClientId>) returns (s': System)
    requires q.Gets(s) && Waits(s, c) && c in open && Unlogged(s, open) == {}
    ensures q.Gets(s') && Idle(s', c) && UpToDate(s', c) && OnlyClient(s, s', c)
  {
    var s1 := Downloads(q, s, c);
    SameUnlogged(s, s1, c, open);
    s' := Clears(q, s1, c, open, s1.clients[c].db.outbox.Keys);
    OnlyClientTwice(s, s1, s', c);
    assert s'.clients[c].db.outbox == map[];
  }

  lemma OthersAsBefore(s: System, s': System, c: ClientId)
    requires OnlyClient(s, s', c)
    ensures forall d | d != c && Waits(s, d) :: Waits(s', d)
    ensures forall d | d != c && Idle(s, d) && UpToDate(s, d) :: Idle(s', d) && UpToDate(s', d)
  {
    assert forall d | d != c && d in s.clients :: d in s'.clients && s'.clients[d] == s.clients[d];
  }

  lemma {:induction false} AllCatchUp(q: Plan, s: System, open: set<ClientId>, todo: set<ClientId>)
    returns (s': System)
    requires q.Gets(s) && Unlogged(s, open) == {} && todo <= open
    requires forall c | c in todo :: Waits(s, c)
    requires forall c | c in open && c !in todo :: Idle(s, c) && UpToDate(s, c)
    ensures q.Gets(s') && Unlogged(s', open) == {} && forall c | c in open :: Idle(s', c) && UpToDate(s', c)
    decreases |todo|
  {
    if todo == {} { return s; }
    var c :| c in todo;
    var s1 := CatchesUp(q, s, c, open);
    SameUnlogged(s, s1, c, open);
    OthersAsBefore(s, s1, c);
    s' := AllCatchUp(q, s1, open, todo - {c});
  }
}
