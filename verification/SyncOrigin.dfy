/** Where everything that a client holds comes from: its operations are its own or logged,
    and its messages follow the snapshots that it asked for. */
module SyncOrigins {
  import opened Wrappers
  import opened JsStrings
  import opened Operations
  import opened AnchorGraph
  import opened Documents
  import opened LocalDocumentControllers
  import opened LocalStore
  import opened OperationStores
  import opened Replays
  import opened ServerSnapshots
  import opened StoreFacts
  import opened SyncEdits
  import opened SyncInvariants
  import opened SyncMessages
  import opened SyncRuns
  import opened SyncServers
  import opened SyncSystems
  import opened SyncTracking
  import opened TextEdit

  ghost predicate PlacedAt(s: System, c: ClientId) {
    c in s.clients && Placed(Log(s), s.submitted, s.doc, c, s.clients[c])
  }

  // ----- sequences of messages

  lemma LeadPart(a: seq<ServerMessage>, m: seq<ServerMessage>, b: seq<ServerMessage>)
    requires BootstrapsLead(a + m + b)
    ensures BootstrapsLead(a + b)
  {
    var all, part := a + m + b, a + b;
    forall i, j | 0 <= i < j < |part| && IsBootstrap(part[i]) ensures Confirmed(part[i]) <= Confirmed(part[j]) {
      var i', j' := if i < |a| then i else i + |m|, if j < |a| then j else j + |m|;
      assert part[i] == all[i'] && part[j] == all[j'];
    }
  }

  lemma LeadAppend(messages: seq<ServerMessage>, m: ServerMessage)
    requires BootstrapsLead(messages)
    requires forall m0 | m0 in messages && IsBootstrap(m0) :: Confirmed(m0) <= Confirmed(m)
    ensures BootstrapsLead(messages + [m])
  {
    assert forall i | 0 <= i < |messages| :: messages[i] in messages;
  }

  /** Dropping some of the messages. */
  lemma PlacedPart(log: seq<Sequenced>, submitted: set<Operation>, c: ClientId, ses: Session, ses': Session,
          a: seq<ServerMessage>, m: seq<ServerMessage>, b: seq<ServerMessage>)
    requires SessionPlaced(log, submitted, c, ses) && ses'.phase == ses.phase
    requires Messages(ses) == a + m + b && Messages(ses') == a + b
    ensures SessionPlaced(log, submitted, c, ses')
  {
    LeadPart(a, m, b);
  }

  /** One more message, in a phase in which nothing is promised about submissions. */
  lemma PlacedAppend(log: seq<Sequenced>, submitted: set<Operation>, c: ClientId, ses: Session, m: ServerMessage,
          ses': Session)
    requires SessionPlaced(log, submitted, c, ses)
    requires Messages(ses') == Messages(ses) + [m] && ses'.phase.Joined?
    requires forall m0 | m0 in Messages(ses) && IsBootstrap(m0) :: Confirmed(m0) <= Confirmed(m)
    requires IsBootstrap(m) ==> forall r | r in log && r.operation.clientId == c :: Confirmed(m) < r.serverSeq
    ensures SessionPlaced(log, submitted, c, ses')
  {
    LeadAppend(Messages(ses), m);
  }

  lemma AdvancePlaced(log: seq<Sequenced>, submitted: set<Operation>, c: ClientId, ses: Session)
    requires SessionPlaced(log, submitted, c, ses) && ses.queue != []
    ensures SessionPlaced(log, submitted, c, Advance(ses))
  {
    assert Messages(ses) == ses.missed + [ses.queue[0]] + ses.queue[1..];
    PlacedPart(log, submitted, c, ses, Advance(ses), ses.missed, [ses.queue[0]], ses.queue[1..]);
  }

  lemma MissPlaced(log: seq<Sequenced>, submitted: set<Operation>, c: ClientId, ses: Session, arrived: nat)
    requires SessionPlaced(log, submitted, c, ses) && ses.queue != []
    ensures SessionPlaced(log, submitted, c, Miss(ses)) && SessionPlaced(log, submitted, c, Refuse(ses, arrived))
  {
    assert Messages(Miss(ses)) == Messages(ses);
    var kept := Refuse(ses, arrived);
    var dropped := ses.queue[1..][|kept.queue|..];
    assert Messages(ses) == Messages(kept) + dropped + [] && Messages(kept) == Messages(kept) + [];
    PlacedPart(log, submitted, c, ses, kept, Messages(kept), dropped, []);
  }

  // ----- operations

  lemma {:induction false} MergedOrigin(log: seq<Sequenced>, c: ClientId, K: OpMap, ops: seq<Operation>)
    requires OnePayload(K, ops) && forall x | x in K :: K[x].clientId == c || Logged(log, K[x])
    requires forall o | o in ops :: o.clientId == c || Logged(log, o)
    ensures forall x | x in Merge(K, ops) :: Merge(K, ops)[x].clientId == c || Logged(log, Merge(K, ops)[x])
  {
    MergeMeaning(K, ops);
    forall x | x in Merge(K, ops) ensures Merge(K, ops)[x].clientId == c || Logged(log, Merge(K, ops)[x]) {
      if o :| o in ops && o.opId == x { } else { }
    }
  }

  lemma IngestOrigin(U: OpMap, log: seq<Sequenced>, doc: DocId, c: ClientId, k: Client)
    requires UniverseOk(U) && ClientOk(U, log, doc, c, k) && (forall r | r in log :: Made(U, r.operation))
    requires HasMessage(k) && OwnOrLogged(log, doc, c, k.db)
    requires Ingested(k.db, doc, Items(FirstMessage(k)), Confirmed(FirstMessage(k))).Success?
    ensures OwnOrLogged(log, doc, c, AfterIngest(doc, k).db)
  {
    var m := FirstMessage(k);
    HoldsInOrder(U, log, doc, c, k);
    IngestAccepted(U, log, doc, c, k.db, Items(m), Confirmed(m));
    IngestedTables(U, log, doc, c, k.db, Items(m), Confirmed(m));
    BatchOperations(U, log, Items(m), Confirmed(m));
    MergedOrigin(log, c, KnownOf(k.db, doc), OpsOf(Items(m)));
  }

  /** A bootstrap brings logged operations only. */
  lemma InstallOrigin(log: seq<Sequenced>, through: int)
    requires Prefix(log, through).ok
    ensures forall x | x in Prefix(log, through).known :: Logged(log, Prefix(log, through).known[x])
  {
    var rows := Between(log, 0, through);
    BetweenMembers(log, 0, through);
    assert Prefix(log, through) == Outcome(Prefix(log, through).known, true);
    AllKnownLogged(log, rows, Prefix(log, through).known);
  }

  lemma {:induction false} AllKnownLogged(log: seq<Sequenced>, rows: seq<Sequenced>, K: OpMap)
    requires Replay(map[], OpsOf(rows)) == Outcome(K, true) && forall r | r in rows :: r in log
    ensures forall x | x in K :: Logged(log, K[x])
  {
    var ops := OpsOf(rows);
    AllAttachedWellFormed(map[]);
    ReplayAccepts(map[], ops);
    MergeMeaning(map[], ops);
    forall x | x in K ensures Logged(log, K[x]) {
      var o :| o in ops && o.opId == x;
      var i :| 0 <= i < |ops| && ops[i] == o;
      assert rows[i] in rows;
    }
  }

  // ----- steps of the client

  /** A pristine document's client has sent nothing. */
  lemma PristineSentNothing(s: System, c: ClientId)
    requires Invariant(s) && c in s.clients && Eligible(s.clients[c].db, s.doc)
    ensures NothingSent(Log(s), s.submitted, c)
  {
    var k := s.clients[c];
    assert ClientOk(s.created, Log(s), s.doc, c, k);
    PristineTables(s.created, s.doc, c, k.db);
    forall op | Made(s.created, op) ensures op.clientId != c {
      assert op.clientId == c ==> op.opId in k.db.operations;
    }
  }

  lemma SameOrigin(log: seq<Sequenced>, submitted: set<Operation>, doc: DocId, c: ClientId, k: Client, k': Client)
    requires Placed(log, submitted, doc, c, k) && KnownOf(k'.db, doc) == KnownOf(k.db, doc)
    requires k'.session.Some? ==> SessionPlaced(log, submitted, c, k'.session.value)
    ensures Placed(log, submitted, doc, c, k')
  {}

  lemma EditStepPlaced(s: System, c: ClientId, cur: seq<VisibleElement>, next: seq<JsString>, edit: LocalTextEdit,
          s': System)
    requires Invariant(s) && PlacedAt(s, c) && EditStep(s, c, cur, next, edit, s')
    ensures PlacedAt(s', c)
  {
    var k := s.clients[c];
    assert ClientOk(s.created, Log(s), s.doc, c, k);
    EditOrigin(s.created, Log(s), s.doc, c, k.db, cur, next, edit);
  }

  lemma {:induction false} EditOrigin(U: OpMap, log: seq<Sequenced>, doc: DocId, c: ClientId, db: Database,
          cur: seq<VisibleElement>, next: seq<JsString>, edit: LocalTextEdit)
    requires UniverseOk(U) && TablesOk(U, doc, c, db) && Editable(db, doc, cur, next, edit)
    requires OwnOrLogged(log, doc, c, db)
    ensures OwnOrLogged(log, doc, c, Edited(db, doc, edit))
  {
    var K, ops := KnownOf(db, doc), EditedOps(db, edit);
    EditNotEmpty(cur, next, edit);
    EditedTables(U, doc, c, db, cur, next, edit);
    EditedUniverse(U, doc, c, db, cur, next, edit);
    MergeWithin(K, U, ops);
    WellFormedMonotone(Merge(K, ops), Merge(U, ops));
    ReplayAccepts(K, ops);
    AuthoredBy(c, db.clientMeta.value.nextCounter, db.clientMeta.value.lamportClock, edit);
    MergedOrigin(log, c, K, ops);
  }

  lemma ConnectStepPlaced(s: System, c: ClientId, capable: bool, arrived: nat, s': System)
    requires Invariant(s) && PlacedAt(s, c) && ConnectStep(s, c, capable, arrived, s')
    ensures PlacedAt(s', c)
  {
    var k := s.clients[c];
    var ses' := Reconnecting(k.session, Joining(LastServerSeq(k.db, s.doc), capable), arrived);
    if capable { PristineSentNothing(s, c); }
    ReconnectingPlaced(Log(s), s.submitted, c, k.session, Joining(LastServerSeq(k.db, s.doc), capable), arrived);
    SameOrigin(Log(s), s.submitted, s.doc, c, k, k.(session := Some(ses')));
  }

  lemma ReconnectingPlaced(log: seq<Sequenced>, submitted: set<Operation>, c: ClientId, session: Option<Session>,
          phase: Phase, arrived: nat)
    requires session.Some? ==> SessionPlaced(log, submitted, c, session.value)
    requires phase.Joining? && (phase.capable ==> NothingSent(log, submitted, c))
    ensures SessionPlaced(log, submitted, c, Reconnecting(session, phase, arrived))
  {
    if session.Some? {
      var ses, ses' := session.value, Reconnecting(session, phase, arrived);
      var dropped := ses.queue[|ses'.queue|..];
      assert Messages(ses) == Messages(ses') + dropped + [] && Messages(ses') == Messages(ses') + [];
      LeadPart(Messages(ses'), dropped, []);
    }
  }

  lemma JoinStepPlaced(s: System, c: ClientId, m: SyncMessage, s': System)
    requires Invariant(s) && PlacedAt(s, c) && JoinStep(s, c, m, s') && s' != s
    ensures PlacedAt(s', c)
  {
    var k := s.clients[c];
    var ses := k.session.value;
    assert ClientOk(s.created, Log(s), s.doc, c, k);
    JoinKeepsLog(s, c, m, s');
    AnswersPlainly(s.server, s.doc, ses.phase, m, s'.server);
    AnsweredPlaced(Log(s), s.submitted, c, LastServerSeq(k.db, s.doc), ses, m);
    SameOrigin(Log(s), s.submitted, s.doc, c, k, k.(session := Some(Answered(ses, m))));
  }

  lemma AnswersPlainly(db: ServerDb, doc: DocId, phase: Phase, m: SyncMessage, db': ServerDb)
    requires phase.Joining? && Answers(db, doc, phase.lastServerSeq, phase.capable, m, db')
    ensures m.latestServerSeq == Latest(LogOf(db, doc)) && (m.bootstrap.Some? ==> phase.capable)
  {}

  lemma AnsweredPlaced(log: seq<Sequenced>, submitted: set<Operation>, c: ClientId, cursor: int, ses: Session,
          m: SyncMessage)
    requires SessionOk(log, cursor, ses) && SessionPlaced(log, submitted, c, ses) && ses.phase.Joining?
    requires m.latestServerSeq == Latest(log) && (m.bootstrap.Some? ==> ses.phase.capable)
    ensures SessionPlaced(log, submitted, c, Answered(ses, m))
  {
    assert Messages(Answered(ses, m)) == Messages(ses) + [Sync(m)];
    PlacedAppend(log, submitted, c, ses, Sync(m), Answered(ses, m));
  }

  lemma SubmitStepPlaced(s: System, c: ClientId, op: Operation, s': System, d: ClientId)
    requires PlacedAt(s, d) && SubmitStep(s, c, op, s')
    ensures PlacedAt(s', d)
  {}

  lemma EchoStepPlaced(s: System, row: Sequenced, s': System)
    requires PlacedAt(s, row.operation.clientId) && EchoStep(s, row, s')
    ensures PlacedAt(s', row.operation.clientId)
  {
    var c := row.operation.clientId;
    var k := s.clients[c];
    if k.session.Some? { EchoedPlaced(Log(s), s.submitted, row, k.session.value); }
    SameOrigin(Log(s), s.submitted, s.doc, c, k, Deliver(k, Live(row)));
  }

  lemma EchoedPlaced(log: seq<Sequenced>, submitted: set<Operation>, row: Sequenced, ses: Session)
    requires SessionPlaced(log, submitted, row.operation.clientId, ses) && row in log
    ensures SessionPlaced(log, submitted, row.operation.clientId, Delivered(ses, Live(row)))
  {
    if ses.open && ses.phase.Joined? {
      assert Messages(Delivered(ses, Live(row))) == Messages(ses) + [Live(row)];
      PlacedAppend(log, submitted, row.operation.clientId, ses, Live(row), Delivered(ses, Live(row)));
    }
  }

  lemma AcceptStepPlaced(s: System, op: Operation, skipped: nat, s': System, c: ClientId)
    requires Invariant(s) && PlacedAt(s, c) && AcceptStep(s, op, skipped, s')
    ensures PlacedAt(s', c)
  {
    var row := Sequenced(s.server.sequence + 1 + skipped, op);
    ServerAppends(s.created, s.server, s.doc, row);
    assert ClientOk(s.created, Log(s), s.doc, c, s.clients[c]);
    AppendPlaced(s.created, Log(s), row, s.server.sequence, s.submitted, s.doc, c, s.clients[c]);
  }

  lemma AppendPlaced(U: OpMap, log: seq<Sequenced>, row: Sequenced, sequence: int, submitted: set<Operation>,
          doc: DocId, c: ClientId, k: Client)
    requires GoodLog(log, sequence) && 0 <= sequence < row.serverSeq && row.operation in submitted
    requires ClientOk(U, log, doc, c, k) && Placed(log, submitted, doc, c, k)
    ensures Placed(log + [row], submitted, doc, c, Deliver(k, Live(row)))
  {
    LoggedInLonger(log, row);
    if k.session.Some? {
      PlacedInLongerLog(log, row, sequence, submitted, c, LastServerSeq(k.db, doc), k.session.value);
    }
  }

  lemma PlacedInLongerLog(log: seq<Sequenced>, row: Sequenced, sequence: int, submitted: set<Operation>, c: ClientId,
          cursor: int, ses: Session)
    requires GoodLog(log, sequence) && 0 <= sequence < row.serverSeq && row.operation in submitted
    requires SessionOk(log, cursor, ses) && SessionPlaced(log, submitted, c, ses)
    ensures SessionPlaced(log + [row], submitted, c, Delivered(ses, Live(row)))
  {
    forall m | m in Messages(ses) ensures Confirmed(m) < row.serverSeq {
      MessageInLongerLog(log, row, sequence, m);
    }
    assert forall r | r in log + [row] :: r in log || r == row;
    if ses.open && ses.phase.Joined? {
      assert Messages(Delivered(ses, Live(row))) == Messages(ses) + [Live(row)];
      PlacedAppend(log + [row], submitted, c, ses, Live(row), Delivered(ses, Live(row)));
    }
  }

  lemma ReceiveStepPlaced(s: System, c: ClientId, arrived: nat, s': System)
    requires Invariant(s) && PlacedAt(s, c) && ReceiveStep(s, c, arrived, s')
    ensures PlacedAt(s', c)
  {
    assert ClientOk(s.created, Log(s), s.doc, c, s.clients[c]) && GoodLog(Log(s), s.server.sequence);
    HandlePlaced(s.created, Log(s), s.server.sequence, s.submitted, s.doc, c, s.clients[c], arrived);
  }

  lemma HandlePlaced(U: OpMap, log: seq<Sequenced>, sequence: int, submitted: set<Operation>, doc: DocId, c: ClientId,
          k: Client, arrived: nat)
    requires UniverseOk(U) && ClientOk(U, log, doc, c, k) && HasMessage(k) && k.replica.Some?
    requires GoodLog(log, sequence) && (forall r | r in log :: Made(U, r.operation))
    requires Placed(log, submitted, doc, c, k)
    ensures Placed(log, submitted, doc, c, Handle(doc, k, arrived))
  {
    AdvancePlaced(log, submitted, c, k.session.value);
    MissPlaced(log, submitted, c, k.session.value, arrived);
    if IsBootstrap(FirstMessage(k)) {
      InstallKeeps(U, log, sequence, doc, c, k, arrived);
      InstallPlaced(log, submitted, doc, c, k, Handle(doc, k, arrived), arrived);
    } else {
      IngestKeeps(U, log, doc, c, k, arrived);
      IngestOrigin(U, log, doc, c, k);
    }
  }

  lemma InstallPlaced(log: seq<Sequenced>, submitted: set<Operation>, doc: DocId, c: ClientId, k: Client, k': Client,
          arrived: nat)
    requires HasMessage(k) && IsBootstrap(FirstMessage(k)) && Placed(log, submitted, doc, c, k)
    requires ConnectionOk(log, doc, k')
    requires SessionPlaced(log, submitted, c, Advance(k.session.value))
    requires SessionPlaced(log, submitted, c, Refuse(k.session.value, arrived))
    requires
      || k' == k.(session := Some(Refuse(k.session.value, arrived)))
      || (k'.session == Some(Advance(k.session.value)) && Prefix(log, Confirmed(FirstMessage(k))).ok
            && k'.replica == Some(Prefix(log, Confirmed(FirstMessage(k))).known))
    ensures Placed(log, submitted, doc, c, k')
  {
    if Prefix(log, Confirmed(FirstMessage(k))).ok { InstallOrigin(log, Confirmed(FirstMessage(k))); }
  }

  lemma FailStepPlaced(s: System, c: ClientId, s': System)
    requires PlacedAt(s, c) && FailStep(s, c, s')
    ensures PlacedAt(s', c)
  {
    var k := s.clients[c];
    MissPlaced(Log(s), s.submitted, c, k.session.value, 0);
    SameOrigin(Log(s), s.submitted, s.doc, c, k, k.(session := Some(Miss(k.session.value))));
  }

  lemma ConnectionStepPlaced(s: System, step: Step, s': System)
    requires ConnectionStep(s, step, s') && PlacedAt(s, step.c)
    ensures PlacedAt(s', step.c)
  {
    SameOrigin(Log(s), s.submitted, s.doc, step.c, s.clients[step.c], s'.clients[step.c]);
  }

  lemma TablesStepPlaced(s: System, step: Step, s': System)
    requires TablesStep(s, step, s') && PlacedAt(s, step.c)
    ensures PlacedAt(s', step.c)
  {
    var db, db' := s.clients[step.c].db, s'.clients[step.c].db;
    SameBaseline(db, db', s.doc);
    assert DocOps(db', s.doc) == DocOps(db, s.doc);
    SameOrigin(Log(s), s.submitted, s.doc, step.c, s.clients[step.c], s'.clients[step.c]);
  }

  lemma ActorPlaced(s: System, step: Step, s': System, c: ClientId)
    requires Invariant(s) && PlacedAt(s, c) && StepTo(s, step, s') && ActorOf(step) == Some(c) && !step.Submit?
    ensures PlacedAt(s', c)
  {
    if step.Edit? { EditStepPlaced(s, c, step.cur, step.next, step.edit, s'); }
    else if step.Join? { if s' != s { JoinStepPlaced(s, c, step.m, s'); } }
    else if step.Echo? { EchoStepPlaced(s, step.row, s'); }
    else if step.Receive? { ReceiveStepPlaced(s, c, step.arrived, s'); }
    else { SessionStepPlaced(s, step, s', c); }
  }

  lemma SessionStepPlaced(s: System, step: Step, s': System, c: ClientId)
    requires Invariant(s) && PlacedAt(s, c) && StepTo(s, step, s') && ActorOf(step) == Some(c) && !step.Submit?
    requires !step.Edit? && !step.Join? && !step.Echo? && !step.Receive?
    ensures PlacedAt(s', c)
  {
    match step
    case Connect(_, capable, arrived) => ConnectStepPlaced(s, c, capable, arrived, s');
    case Fail(_) => FailStepPlaced(s, c, s');
    case Checkpointing(_, _) => TablesStepPlaced(s, step, s');
    case OtherWork(_, _, _) => TablesStepPlaced(s, step, s');
    case _ => ConnectionStepPlaced(s, step, s');
  }

  lemma OthersKeepSubmitted(s: System, step: Step, s': System)
    requires StepTo(s, step, s') && !step.Submit?
    ensures s'.submitted == s.submitted
  {}

  lemma StepKeepsPlaced(s: System, step: Step, s': System, c: ClientId)
    requires Invariant(s) && PlacedAt(s, c) && StepTo(s, step, s')
    ensures PlacedAt(s', c)
  {
    if step.Accept? {
      AcceptStepPlaced(s, step.op, step.skipped, s', c);
    } else if step.Submit? {
      SubmitStepPlaced(s, step.c, step.op, s', c);
    } else if ActorOf(step) == Some(c) {
      ActorPlaced(s, step, s', c);
    } else {
      OthersStep(s, step, s', c);
      OthersKeepSubmitted(s, step, s');
    }
  }

  // ----- runs

  ghost predicate PlacingKept(s: System, s': System, c: ClientId) {
    Invariant(s) && (c in s.clients ==> PlacedAt(s, c)) ==> Invariant(s') && (c in s'.clients ==> PlacedAt(s', c))
  }

  lemma NextKeepsPlaced(s: System, s': System, c: ClientId)
    requires Next(s, s')
    ensures PlacingKept(s, s', c)
  {
    var step :| StepTo(s, step, s');
    if Invariant(s) && (c in s.clients ==> PlacedAt(s, c)) {
      StepKeepsInvariant(s, step, s');
      StepKeepsClients(s, step, s');
      if c in s.clients { StepKeepsPlaced(s, step, s', c); }
    }
  }

  lemma RunKeepsPlaced(run: seq<System>, i: nat, c: ClientId)
    requires IsRun(run) && 0 < i < |run|
    ensures PlacingKept(run[i - 1], run[i], c)
  {
    assert Next(run[i - 1], run[i]);
    NextKeepsPlaced(run[i - 1], run[i], c);
  }

  lemma InitiallyPlaced(s: System, c: ClientId)
    requires Initial(s) && c in s.clients
    ensures PlacedAt(s, c)
  {
    var db := FreshDatabase(c, s.doc);
    assert BaselineOps(db, s.doc) == map[] && DocOps(db, s.doc) == map[];
  }

  /** In every run, whatever a client knows is its own or in the log, no message follows
      a snapshot that confirms more, and a client's own rows come after every snapshot
      that it was sent. */
  lemma {:induction false} PlacedInEveryRun(run: seq<System>, i: nat, c: ClientId)
    requires IsRun(run) && i < |run|
    ensures Invariant(run[i]) && (c in run[i].clients ==> PlacedAt(run[i], c))
  {
    if i == 0 {
      InitialOk(run[0]);
      if c in run[0].clients { InitiallyPlaced(run[0], c); }
    } else {
      PlacedInEveryRun(run, i - 1, c);
      RunKeepsPlaced(run, i, c);
    }
  }

  // ----- the operations of the log

  /** What the log holds, whatever the order. */
  function LoggedOps(log: seq<Sequenced>): OpMap {
    Merge(map[], OpsOf(log))
  }

  lemma {:induction false} LoggedMeans(U: OpMap, log: seq<Sequenced>)
    requires WellKeyed(U) && forall r | r in log :: Made(U, r.operation)
    ensures forall op :: Made(LoggedOps(log), op) <==> Logged(log, op)
    ensures Sub(LoggedOps(log), U)
  {
    var ops := OpsOf(log);
    forall o | o in ops ensures Made(U, o) && Logged(log, o) {
      var i :| 0 <= i < |ops| && ops[i] == o;
      assert log[i] in log;
    }
    MergeMeaning(map[], ops);
    forall op ensures Made(LoggedOps(log), op) <==> Logged(log, op) {
      if r :| r in log && r.operation == op {
        var i :| 0 <= i < |log| && log[i] == r;
        assert ops[i] in ops;
      }
      if Made(LoggedOps(log), op) { assert op in ops; }
    }
  }

  /** The client knows the log and what it made itself, and nothing else. */
  ghost predicate KnowsLogAndOwn(U: OpMap, log: seq<Sequenced>, doc: DocId, c: ClientId, db: Database) {
    forall op :: Made(KnownOf(db, doc), op) <==> Logged(log, op) || (Made(U, op) && op.clientId == c)
  }

  /** At the end of the log that is what a sound cursor means. */
  lemma SoundAtTheEnd(U: OpMap, log: seq<Sequenced>, doc: DocId, c: ClientId, k: Client)
    requires UniverseOk(U) && ClientOk(U, log, doc, c, k) && OwnOrLogged(log, doc, c, k.db)
    requires Increasing(log) && (forall r | r in log :: Made(U, r.operation))
    requires LastServerSeq(k.db, doc) == Latest(log)
    ensures CursorSound(log, doc, k.db) <==> KnowsLogAndOwn(U, log, doc, c, k.db)
    ensures k.db.outbox == map[] ==> (CursorSound(log, doc, k.db) <==> KnownOf(k.db, doc) == LoggedOps(log))
  {
    var K := KnownOf(k.db, doc);
    LastIsLargest(log);
    OwnIsKnown(U, log, doc, c, k.db);
    if CursorSound(log, doc, k.db) {
      forall op | Logged(log, op) ensures Made(K, op) { SoundKnows(U, log, doc, c, k.db, op); }
    }
    if KnowsLogAndOwn(U, log, doc, c, k.db) {
      forall r | r in log ensures r.operation.opId in K { assert Logged(log, r.operation); }
    }
    if k.db.outbox == map[] { NothingWaiting(U, log, doc, c, k.db); }
  }

  lemma OwnIsKnown(U: OpMap, log: seq<Sequenced>, doc: DocId, c: ClientId, db: Database)
    requires TablesOk(U, doc, c, db) && OwnSafe(U, log, c, db)
    ensures forall op | Made(U, op) && op.clientId == c :: Made(KnownOf(db, doc), op)
  {
    forall op | Made(U, op) && op.clientId == c ensures Made(KnownOf(db, doc), op) {
      assert op.opId in DocOps(db, doc);
    }
  }

  lemma SoundKnows(U: OpMap, log: seq<Sequenced>, doc: DocId, c: ClientId, db: Database, op: Operation)
    requires TablesOk(U, doc, c, db) && CursorSound(log, doc, db) && Logged(log, op)
    requires forall r | r in log :: Made(U, r.operation) && r.serverSeq <= LastServerSeq(db, doc)
    ensures Made(KnownOf(db, doc), op)
  {
    var r :| r in log && r.operation == op;
  }

  lemma NothingWaiting(U: OpMap, log: seq<Sequenced>, doc: DocId, c: ClientId, db: Database)
    requires UniverseOk(U) && TablesOk(U, doc, c, db) && OwnSafe(U, log, c, db) && db.outbox == map[]
    requires forall r | r in log :: Made(U, r.operation)
    ensures KnowsLogAndOwn(U, log, doc, c, db) <==> KnownOf(db, doc) == LoggedOps(log)
  {
    LoggedMeans(U, log);
    OwnIsLogged(U, log, c, db);
    SameMade(KnownOf(db, doc), LoggedOps(log), U);
  }

  lemma OwnIsLogged(U: OpMap, log: seq<Sequenced>, c: ClientId, db: Database)
    requires OwnSafe(U, log, c, db) && db.outbox == map[]
    ensures forall op | Made(U, op) && op.clientId == c :: Logged(log, op)
  {
    forall op | Made(U, op) && op.clientId == c ensures Logged(log, op) { assert op.opId in U; }
  }

  lemma SameMade(K: OpMap, L: OpMap, U: OpMap)
    requires WellKeyed(U) && Sub(K, U) && Sub(L, U)
    ensures K == L <==> forall op :: Made(K, op) <==> Made(L, op)
  {
    if forall op :: Made(K, op) <==> Made(L, op) {
      forall x ensures x in K <==> x in L {
        if x in K { assert Made(K, K[x]); }
        if x in L { assert Made(L, L[x]); }
      }
    }
  }
}
