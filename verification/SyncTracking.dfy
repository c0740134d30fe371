/** As long as a client itself is careful its cursor is sound, whatever the others do, and
    the messages on their way let it pass no row that the client does not know. */
module SyncTracking {
  import opened Wrappers
  import opened JsStrings
  import opened Operations
  import opened Documents
  import opened LocalDocumentControllers
  import opened LocalStore
  import opened OperationStores
  import opened ServerSnapshots
  import opened SyncCursors
  import opened SyncEdits
  import opened SyncInvariants
  import opened SyncRuns
  import opened SyncServers
  import opened SyncSystems
  import opened TextEdit

  ghost predicate TrackedAt(s: System, c: ClientId) {
    c in s.clients && Tracked(Log(s), s.doc, s.clients[c])
  }

  // ----- steps of others

  /** A step about another client leaves this one and the log alone. */
  lemma OthersStep(s: System, step: Step, s': System, c: ClientId)
    requires StepTo(s, step, s') && c in s.clients && ActorOf(step).Some? && ActorOf(step).value != c
    ensures c in s'.clients && s'.clients[c] == s.clients[c] && s'.doc == s.doc && Log(s') == Log(s)
  {
    if step.Join? && s' != s { JoinKeepsLog(s, step.c, step.m, s'); }
  }

  lemma JoinKeepsLog(s: System, c: ClientId, m: SyncMessage, s': System)
    requires JoinStep(s, c, m, s') && s' != s
    ensures Log(s') == Log(s)
  {
    var ses := s.clients[c].session.value;
    if ses.phase.capable && ses.phase.lastServerSeq <= 0 {
      var row :| Prepared(s.server, s.doc, row, s'.server)
                 && m.bootstrap == if row.Some? then Some(EnvelopeOf(row.value)) else None;
    }
  }

  // ----- steps of the client

  lemma SameTables(log: seq<Sequenced>, doc: DocId, k: Client, k': Client)
    requires Tracked(log, doc, k) && k'.db == k.db
    requires k'.session.Some? ==> SessionCovers(log, LastServerSeq(k.db, doc), k'.session.value)
    ensures Tracked(log, doc, k')
  {}

  lemma EditStepTracked(s: System, c: ClientId, cur: seq<VisibleElement>, next: seq<JsString>, edit: LocalTextEdit,
          s': System)
    requires Invariant(s) && TrackedAt(s, c) && EditStep(s, c, cur, next, edit, s')
    ensures TrackedAt(s', c)
  {
    EditKeepsTracked(s.created, Log(s), s.doc, c, s.clients[c], cur, next, edit);
  }

  lemma JoinStepTracked(s: System, c: ClientId, m: SyncMessage, s': System)
    requires Invariant(s) && TrackedAt(s, c) && JoinStep(s, c, m, s') && s' != s
    ensures TrackedAt(s', c)
  {
    var k := s.clients[c];
    AnswerOk(s.server, s.doc, k.session.value, m, s'.server, LastServerSeq(k.db, s.doc));
    JoinKeepsLog(s, c, m, s');
    SameTables(Log(s), s.doc, k, k.(session := Some(Answered(k.session.value, m))));
  }

  lemma AcceptStepTracked(s: System, op: Operation, skipped: nat, s': System, c: ClientId)
    requires Invariant(s) && TrackedAt(s, c) && AcceptStep(s, op, skipped, s')
    ensures TrackedAt(s', c)
  {
    var row := Sequenced(s.server.sequence + 1 + skipped, op);
    ServerAppends(s.created, s.server, s.doc, row);
    AppendKeepsTracked(s.created, Log(s), row, s.server.sequence, s.doc, c, s.clients[c]);
  }

  lemma EchoStepTracked(s: System, row: Sequenced, s': System)
    requires Invariant(s) && TrackedAt(s, row.operation.clientId) && EchoStep(s, row, s')
    ensures TrackedAt(s', row.operation.clientId)
  {
    var c := row.operation.clientId;
    assert GoodLog(Log(s), s.server.sequence);
    EchoKeeps(s.created, Log(s), row, s.server.sequence, s.doc, c, s.clients[c]);
  }

  /** The one step that needs care. */
  lemma ReceiveStepTracked(s: System, c: ClientId, arrived: nat, s': System)
    requires Invariant(s) && TrackedAt(s, c) && ReceiveStep(s, c, arrived, s') && CarefulFor(s, Receive(c, arrived), c)
    ensures TrackedAt(s', c)
  {
    assert GoodLog(Log(s), s.server.sequence);
    CarefulKeepsTracked(s.created, Log(s), s.server.sequence, s.doc, c, s.clients[c], arrived);
  }

  lemma FailStepTracked(s: System, c: ClientId, s': System)
    requires TrackedAt(s, c) && FailStep(s, c, s')
    ensures TrackedAt(s', c)
  {
    var k := s.clients[c];
    MissCovers(Log(s), LastServerSeq(k.db, s.doc), k.session.value, 0);
    SameTables(Log(s), s.doc, k, k.(session := Some(Miss(k.session.value))));
  }

  lemma ConnectStepTracked(s: System, c: ClientId, capable: bool, arrived: nat, s': System)
    requires TrackedAt(s, c) && ConnectStep(s, c, capable, arrived, s')
    ensures TrackedAt(s', c)
  {
    ReconnectingCovers(Log(s), s.doc, s.clients[c], capable, arrived);
    SameTables(Log(s), s.doc, s.clients[c], s'.clients[c]);
  }

  lemma ConnectionStepTracked(s: System, step: Step, s': System)
    requires ConnectionStep(s, step, s') && TrackedAt(s, step.c)
    ensures TrackedAt(s', step.c)
  {
    SameTables(Log(s), s.doc, s.clients[step.c], s'.clients[step.c]);
  }

  lemma TablesStepTracked(s: System, step: Step, s': System)
    requires Invariant(s) && TablesStep(s, step, s') && TrackedAt(s, step.c)
    ensures TrackedAt(s', step.c)
  {
    assert ClientOk(s.created, Log(s), s.doc, step.c, s.clients[step.c]);
    InitializeKeeps(s.clients[step.c].db, s'.clients[step.c].db, s.doc);
  }

  lemma ActorTracked(s: System, step: Step, s': System, c: ClientId)
    requires Invariant(s) && TrackedAt(s, c) && StepTo(s, step, s') && CarefulFor(s, step, c)
    requires ActorOf(step) == Some(c)
    ensures TrackedAt(s', c)
  {
    if step.Edit? { EditStepTracked(s, c, step.cur, step.next, step.edit, s'); }
    else if step.Join? { if s' != s { JoinStepTracked(s, c, step.m, s'); } }
    else if step.Echo? { EchoStepTracked(s, step.row, s'); }
    else if step.Receive? { ReceiveStepTracked(s, c, step.arrived, s'); }
    else { SessionStepTracked(s, step, s', c); }
  }

  lemma SessionStepTracked(s: System, step: Step, s': System, c: ClientId)
    requires Invariant(s) && TrackedAt(s, c) && StepTo(s, step, s') && ActorOf(step) == Some(c)
    requires !step.Edit? && !step.Join? && !step.Echo? && !step.Receive?
    ensures TrackedAt(s', c)
  {
    match step
    case Connect(_, capable, arrived) => ConnectStepTracked(s, c, capable, arrived, s');
    case Submit(_, _) =>
    case Fail(_) => FailStepTracked(s, c, s');
    case Checkpointing(_, _) => TablesStepTracked(s, step, s');
    case OtherWork(_, _, _) => TablesStepTracked(s, step, s');
    case _ => ConnectionStepTracked(s, step, s');
  }

  /** A step in which the client is careful keeps its cursor sound. */
  lemma CarefulStepTracked(s: System, step: Step, s': System, c: ClientId)
    requires Invariant(s) && TrackedAt(s, c) && StepTo(s, step, s') && CarefulFor(s, step, c)
    ensures TrackedAt(s', c)
  {
    if step.Accept? {
      AcceptStepTracked(s, step.op, step.skipped, s', c);
    } else if ActorOf(step) == Some(c) {
      ActorTracked(s, step, s', c);
    } else {
      OthersStep(s, step, s', c);
    }
  }

  // ----- runs

  /** No client comes or goes. */
  lemma StepKeepsClients(s: System, step: Step, s': System)
    requires StepTo(s, step, s')
    ensures s'.clients.Keys == s.clients.Keys
  {}

  ghost predicate TrackingKept(s: System, s': System, c: ClientId) {
    Invariant(s) && (c in s.clients ==> TrackedAt(s, c)) ==> Invariant(s') && (c in s'.clients ==> TrackedAt(s', c))
  }

  lemma CarefulNextTracked(s: System, s': System, c: ClientId)
    requires CarefulNextOf(s, s', c)
    ensures TrackingKept(s, s', c)
  {
    var step :| StepTo(s, step, s') && CarefulFor(s, step, c);
    if Invariant(s) && (c in s.clients ==> TrackedAt(s, c)) {
      StepKeepsInvariant(s, step, s');
      StepKeepsClients(s, step, s');
      if c in s.clients { CarefulStepTracked(s, step, s', c); }
    }
  }

  lemma CarefulRunKeepsTracked(run: seq<System>, i: nat, c: ClientId)
    requires IsCarefulRunOf(run, c) && 0 < i < |run|
    ensures TrackingKept(run[i - 1], run[i], c)
  {
    assert CarefulNextOf(run[i - 1], run[i], c);
    CarefulNextTracked(run[i - 1], run[i], c);
  }

  /** In every state of every run in which the client is careful its cursor is sound, and
      its messages cover every row that they let the cursor pass. */
  lemma {:induction false} TrackedWhileCareful(run: seq<System>, i: nat, c: ClientId)
    requires IsCarefulRunOf(run, c) && i < |run|
    ensures Invariant(run[i]) && (c in run[i].clients ==> TrackedAt(run[i], c))
  {
    if i == 0 {
      InitialOk(run[0]);
    } else {
      TrackedWhileCareful(run, i - 1, c);
      CarefulRunKeepsTracked(run, i, c);
    }
  }

  lemma CarefulRunIsRun(run: seq<System>, c: ClientId)
    requires IsCarefulRunOf(run, c)
    ensures IsRun(run)
  {
    forall i, j | 0 <= i && j == i + 1 < |run| ensures Next(run[i], run[j]) {
      assert CarefulNextOf(run[i], run[j], c);
    }
  }

  /** Where everybody is careful, each one is. */
  lemma EveryoneCareful(run: seq<System>, c: ClientId)
    requires IsCarefulRun(run)
    ensures IsCarefulRunOf(run, c)
  {
    forall i, j | 0 <= i && j == i + 1 < |run| ensures CarefulNextOf(run[i], run[j], c) {
      assert CarefulNext(run[i], run[j]);
      CarefulNextIsCareful(run[i], run[j], c);
    }
  }

  lemma CarefulNextIsCareful(s: System, s': System, c: ClientId)
    requires CarefulNext(s, s')
    ensures CarefulNextOf(s, s', c)
  {
    var step :| StepTo(s, step, s') && Careful(s, step);
    assert CarefulFor(s, step, c);
  }

  lemma AllCarefulIsRun(run: seq<System>)
    requires IsCarefulRun(run)
    ensures IsRun(run)
  {
    forall i, j | 0 <= i && j == i + 1 < |run| ensures Next(run[i], run[j]) {
      assert CarefulNext(run[i], run[j]);
    }
  }

  lemma TrackedInEveryCarefulRun(run: seq<System>, i: nat)
    requires IsCarefulRun(run) && i < |run|
    ensures Invariant(run[i]) && AllTracked(run[i])
  {
    AllCarefulIsRun(run);
    InvariantInEveryRun(run, i);
    forall c | c in run[i].clients ensures Tracked(Log(run[i]), run[i].doc, run[i].clients[c]) {
      EveryoneCareful(run, c);
      TrackedWhileCareful(run, i, c);
    }
  }
}
