/** What every run of the system guarantees. */
module SyncTheorems {
  import opened Wrappers
  import opened JsStrings
  import opened Operations
  import opened AnchorGraph
  import opened Documents
  import opened EditSemantics
  import opened LocalDocumentControllers
  import opened LocalStore
  import opened OperationStores
  import opened Replays
  import opened RestoreSpec
  import opened ServerSnapshots
  import opened StoreFacts
  import opened SyncCursors
  import opened SyncEdits
  import opened SyncInvariants
  import opened SyncMessages
  import opened SyncOrigins
  import opened SyncRuns
  import opened SyncSystems
  import opened SyncTracking
  import opened TextEdit

  lemma ClientInRun(run: seq<System>, i: nat, c: ClientId)
    requires IsRun(run) && i < |run| && c in run[i].clients
    ensures Invariant(run[i]) && ClientOk(run[i].created, Log(run[i]), run[i].doc, c, run[i].clients[c])
    ensures GoodLog(Log(run[i]), run[i].server.sequence) && forall r | r in Log(run[i]) ::
      Made(run[i].created, r.operation)
  {
    InvariantInEveryRun(run, i);
  }

  // ----- messages

  /** In no run does a client reject a message that carries no snapshot: the tables take
      it and so does the replica, whatever was missed before it. */
  lemma NothingHonestIsRejected(run: seq<System>, i: nat, c: ClientId)
    requires IsRun(run) && i < |run| && c in run[i].clients
    requires HasMessage(run[i].clients[c]) && !IsBootstrap(FirstMessage(run[i].clients[c]))
    ensures var k, m := run[i].clients[c], FirstMessage(run[i].clients[c]);
      && k.replica.Some? && Ingested(k.db, run[i].doc, Items(m), Confirmed(m)).Success?
      && Replay(k.replica.value, OpsOf(Items(m))).ok
  {
    var s := run[i];
    var k := s.clients[c];
    ClientInRun(run, i, c);
    HoldsInOrder(s.created, Log(s), s.doc, c, k);
    IngestedDatabase(s.created, Log(s), s.doc, c, k.db, FirstMessage(k));
  }

  /** In every run a bootstrap is installed exactly when the document is still pristine
      and the log through the barrier replays and resolves; the client then knows exactly
      that part of the log. Otherwise nothing but the session changes. */
  lemma BootstrapsInstallExactly(run: seq<System>, i: nat, c: ClientId, arrived: nat)
    requires IsRun(run) && i < |run| && c in run[i].clients
    requires HasMessage(run[i].clients[c]) && IsBootstrap(FirstMessage(run[i].clients[c]))
    ensures run[i].clients[c].replica.Some?
    ensures var s, k := run[i], run[i].clients[c];
      var k', part := Handle(s.doc, k, arrived), Prefix(Log(s), Confirmed(FirstMessage(k)));
      if Eligible(k.db, s.doc) && Complete(part) then
        && k'.replica == Some(part.known) && k'.session == Some(Advance(k.session.value))
        && LastServerSeq(k'.db, s.doc) == Confirmed(FirstMessage(k))
      else k' == k.(session := Some(Refuse(k.session.value, arrived)))
  {
    var s := run[i];
    ClientInRun(run, i, c);
    HoldsInOrder(s.created, Log(s), s.doc, c, s.clients[c]);
    InstallKeeps(s.created, Log(s), s.server.sequence, s.doc, c, s.clients[c], arrived);
  }

  /** No join is ever refused for a cursor ahead of the log. */
  lemma JoinsAreNeverRefused(run: seq<System>, i: nat, c: ClientId)
    requires IsRun(run) && i < |run| && c in run[i].clients
    requires run[i].clients[c].session.Some? && run[i].clients[c].session.value.phase.Joining?
    ensures run[i].clients[c].session.value.phase.lastServerSeq <= Latest(Log(run[i]))
  {
    ClientInRun(run, i, c);
  }

  // ----- cursors

  ghost predicate CursorKept(doc: DocId, k: Client, k': Client) {
    LastServerSeq(k.db, doc) <= LastServerSeq(k'.db, doc)
  }

  ghost predicate CursorsKept(s: System, s': System, c: ClientId)
    requires c in s.clients
  {
    s'.doc == s.doc && c in s'.clients && CursorKept(s.doc, s.clients[c], s'.clients[c])
  }

  lemma EditKeepsCursors(s: System, d: ClientId, cur: seq<VisibleElement>, next: seq<JsString>, edit: LocalTextEdit,
          s': System, c: ClientId)
    requires EditStep(s, d, cur, next, edit, s') && c in s.clients
    ensures CursorsKept(s, s', c)
  {
    EditKeepsCursor(s.clients[d].db, s.doc, edit);
  }

  lemma ServerStepKeepsCursors(s: System, step: Step, s': System, c: ClientId)
    requires StepTo(s, step, s') && c in s.clients && (step.Join? || step.Accept? || step.Echo?)
    ensures CursorsKept(s, s', c)
  {}

  lemma SessionStepKeepsCursors(s: System, step: Step, s': System, c: ClientId)
    requires ConnectionStep(s, step, s') || TablesStep(s, step, s')
    requires c in s.clients
    ensures CursorsKept(s, s', c)
  {}

  lemma LocalStepKeepsCursors(s: System, step: Step, s': System, c: ClientId)
    requires StepTo(s, step, s') && c in s.clients && (step.Connect? || step.Submit? || step.Fail?)
    ensures CursorsKept(s, s', c)
  {}

  lemma ReceiveAdvances(s: System, c: ClientId, arrived: nat, s': System, d: ClientId)
    requires Invariant(s) && ReceiveStep(s, c, arrived, s') && d in s.clients
    ensures CursorsKept(s, s', d)
  {
    HandleKeeps(s.created, Log(s), s.server.sequence, s.doc, c, s.clients[c], arrived);
  }

  /** No step moves a cursor back. */
  lemma CursorsNeverGoBack(s: System, step: Step, s': System, c: ClientId)
    requires Invariant(s) && StepTo(s, step, s') && c in s.clients
    ensures CursorsKept(s, s', c)
  {
    if step.Join? || step.Accept? || step.Echo? {
      ServerStepKeepsCursors(s, step, s', c);
    } else if step.Receive? {
      ReceiveAdvances(s, step.c, step.arrived, s', c);
    } else if step.Edit? {
      EditKeepsCursors(s, step.c, step.cur, step.next, step.edit, s', c);
    } else if step.Connect? || step.Submit? || step.Fail? {
      LocalStepKeepsCursors(s, step, s', c);
    } else {
      SessionStepKeepsCursors(s, step, s', c);
    }
  }

  ghost predicate AllCursorsKept(s: System, s': System) {
    Invariant(s) ==> forall c | c in s.clients :: CursorsKept(s, s', c)
  }

  lemma NextKeepsCursors(s: System, s': System)
    requires Next(s, s')
    ensures AllCursorsKept(s, s')
  {
    var step :| StepTo(s, step, s');
    if Invariant(s) {
      forall c | c in s.clients ensures CursorsKept(s, s', c) { CursorsNeverGoBack(s, step, s', c); }
    }
  }

  lemma RunKeepsCursors(run: seq<System>, j: nat)
    requires IsRun(run) && 0 < j < |run|
    ensures AllCursorsKept(run[j - 1], run[j])
  {
    assert Next(run[j - 1], run[j]);
    NextKeepsCursors(run[j - 1], run[j]);
  }

  /** Between any two states of a run no cursor moves back. */
  lemma {:induction false} CursorsOnlyAdvance(run: seq<System>, i: nat, j: nat, c: ClientId)
    requires IsRun(run) && i <= j < |run| && c in run[i].clients
    ensures CursorsKept(run[i], run[j], c)
    decreases j
  {
    if i < j {
      CursorsOnlyAdvance(run, i, j - 1, c);
      InvariantInEveryRun(run, j - 1);
      RunKeepsCursors(run, j);
    }
  }

  /** Cursor soundness: as long as a client itself is careful, whatever the others do,
      it knows every row of the log up to its cursor, with the same payload. */
  lemma CursorsAreSound(run: seq<System>, i: nat, c: ClientId, r: Sequenced)
    requires IsCarefulRunOf(run, c) && i < |run| && c in run[i].clients
    requires r in Log(run[i]) && r.serverSeq <= LastServerSeq(run[i].clients[c].db, run[i].doc)
    ensures Made(KnownOf(run[i].clients[c].db, run[i].doc), r.operation)
  {
    TrackedWhileCareful(run, i, c);
    CarefulRunIsRun(run, c);
    ClientInRun(run, i, c);
  }

  /** And exactly then: wherever a client that has been careful handles a message without a
      snapshot, its cursor is sound afterwards exactly when whatever it missed before, as
      far as this message confirms the log, is known or part of the message. */
  lemma CareIsNeeded(run: seq<System>, i: nat, c: ClientId, arrived: nat)
    requires IsCarefulRunOf(run, c) && i < |run| && c in run[i].clients
    requires HasMessage(run[i].clients[c]) && !IsBootstrap(FirstMessage(run[i].clients[c]))
    ensures run[i].clients[c].replica.Some?
    ensures var s, k := run[i], run[i].clients[c];
      CursorSound(Log(s), s.doc, Handle(s.doc, k, arrived).db) <==> Recovered(s.doc, k, FirstMessage(k))
  {
    var s := run[i];
    TrackedWhileCareful(run, i, c);
    CarefulRunIsRun(run, c);
    ClientInRun(run, i, c);
    PlacedInEveryRun(run, i, c);
    GoingOnIsSoundExactly(s.created, Log(s), s.server.sequence, s.doc, c, s.clients[c], arrived);
  }

  // ----- edits

  /** No edit is lost, duplicated or mis-identified: every operation ever made is on
      record at its author, who keeps it in the outbox until the server has it; the
      log holds at most one row per identity, with increasing sequence numbers. */
  lemma NoEditIsLost(run: seq<System>, i: nat, x: Id)
    requires IsRun(run) && i < |run| && x in run[i].created
    ensures var s := run[i];
      var op := s.created[x];
      && op.opId == x && op.clientId in s.clients
      && x in s.clients[op.clientId].db.operations
      && (x in s.clients[op.clientId].db.outbox || Logged(Log(s), op))
    ensures GoodLog(Log(run[i]), run[i].server.sequence)
  {
    InvariantInEveryRun(run, i);
    ClientInRun(run, i, run[i].created[x].clientId);
  }

  /** A client knows the operation, got it in a baseline, or has it in a message. */
  ghost predicate SeenAt(doc: DocId, k: Client, op: Operation) {
    || Made(KnownOf(k.db, doc), op)
    || (doc in k.db.serverBaselines && InSnapshot(k.db.serverBaselines[doc].snapshot, op))
    || (k.session.Some? && exists m :: m in Messages(k.session.value) && Carries(m, op))
  }

  /** The operation is in the log, in the server's cached snapshot, on its way to the
      server, or with a client. */
  ghost predicate Seen(s: System, op: Operation) {
    || Logged(Log(s), op) || op in s.submitted
    || (s.doc in s.server.snapshots && InSnapshot(s.server.snapshots[s.doc].snapshot, op))
    || exists c :: c in s.clients && SeenAt(s.doc, s.clients[c], op)
  }

  /** Any two copies of an operation, wherever they are, are equal, and they are what
      their author made. */
  lemma CopiesAgree(run: seq<System>, i: nat, a: Operation, b: Operation)
    requires IsRun(run) && i < |run| && Seen(run[i], a) && Seen(run[i], b)
    ensures Made(run[i].created, a) && (a.opId == b.opId ==> a == b)
  {
    InvariantInEveryRun(run, i);
    SeenIsMade(run[i], a);
    SeenIsMade(run[i], b);
  }

  lemma SeenIsMade(s: System, op: Operation)
    requires Invariant(s) && Seen(s, op)
    ensures Made(s.created, op)
  {
    if Logged(Log(s), op) {
      LoggedIsMade(s.created, Log(s), op);
    } else if op in s.submitted {
    } else if c :| c in s.clients && SeenAt(s.doc, s.clients[c], op) {
      SeenAtIsMade(s.created, Log(s), s.doc, c, s.clients[c], op);
    } else {
      SnapshotIsLogged(Log(s), s.server.snapshots[s.doc], op);
      LoggedIsMade(s.created, Log(s), op);
    }
  }

  lemma LoggedIsMade(U: OpMap, log: seq<Sequenced>, op: Operation)
    requires (forall r | r in log :: Made(U, r.operation)) && Logged(log, op)
    ensures Made(U, op)
  {
    var r :| r in log && r.operation == op;
  }

  lemma SeenAtIsMade(U: OpMap, log: seq<Sequenced>, doc: DocId, c: ClientId, k: Client, op: Operation)
    requires ClientOk(U, log, doc, c, k) && (forall r | r in log :: Made(U, r.operation)) && SeenAt(doc, k, op)
    ensures Made(U, op)
  {
    if k.session.Some? && exists m :: m in Messages(k.session.value) && Carries(m, op) {
      MessageIsMade(U, log, LastServerSeq(k.db, doc), k.session.value, op);
    } else {
      StoredIsMade(U, doc, c, k.db, op);
    }
  }

  lemma MessageIsMade(U: OpMap, log: seq<Sequenced>, cursor: int, ses: Session, op: Operation)
    requires SessionOk(log, cursor, ses) && (forall r | r in log :: Made(U, r.operation))
    requires exists m :: m in Messages(ses) && Carries(m, op)
    ensures Made(U, op)
  {
    var m :| m in Messages(ses) && Carries(m, op);
    CarriedIsLogged(log, m, op);
    LoggedIsMade(U, log, op);
  }

  lemma StoredIsMade(U: OpMap, doc: DocId, c: ClientId, db: Database, op: Operation)
    requires TablesOk(U, doc, c, db)
    requires Made(KnownOf(db, doc), op)
             || (doc in db.serverBaselines && InSnapshot(db.serverBaselines[doc].snapshot, op))
    ensures Made(U, op)
  {
    if doc in db.serverBaselines { ListedInSnapshot(db.serverBaselines[doc].snapshot, BaselineOps(db, doc), op); }
  }

  /** What you typed, in every reachable state: as long as the counters stay within
      the safe integers, the edit is persisted and the document reads exactly what
      was typed, whatever else is still pending or on its way. */
  lemma TypedIsShown(run: seq<System>, i: nat, c: ClientId, next: seq<JsString>, edit: LocalTextEdit)
    returns (s': System)
    requires IsRun(run) && i < |run| && c in run[i].clients && run[i].clients[c].replica.Some?
    requires WellKeyed(run[i].clients[c].replica.value) && run[i].clients[c].db.clientMeta.Some?
    requires EditBetween(DocumentOf(run[i].clients[c].replica.value), next) == Some(edit)
    requires forall v | v in next :: !IsEmpty(v)
    requires Room(c, run[i].clients[c].db.clientMeta.value.nextCounter,
                  run[i].clients[c].db.clientMeta.value.lamportClock, EditSize(edit))
    ensures StepTo(run[i], Edit(c, DocumentOf(run[i].clients[c].replica.value), next, edit), s')
    ensures c in s'.clients && s'.clients[c].replica.Some? && WellKeyed(s'.clients[c].replica.value)
    ensures Values(DocumentOf(s'.clients[c].replica.value)) == next
  {
    var s, k := run[i], run[i].clients[c];
    ClientInRun(run, i, c);
    var cur := DocumentOf(k.replica.value);
    TypedIsPersisted(s.created, s.doc, c, k.db, cur, next, edit);
    s' := With(s, c, AfterEdit(s.doc, k, edit)).(created := Merge(s.created, EditedOps(k.db, edit)));
  }

  lemma TypedIsPersisted(U: OpMap, doc: DocId, c: ClientId, db: Database, cur: seq<VisibleElement>, next: seq<JsString>,
          edit: LocalTextEdit)
    requires UniverseOk(U) && TablesOk(U, doc, c, db) && IsDocument(KnownOf(db, doc), cur)
    requires EditBetween(cur, next) == Some(edit) && forall v | v in next :: !IsEmpty(v)
    requires Room(c, db.clientMeta.value.nextCounter, db.clientMeta.value.lamportClock, EditSize(edit))
    ensures EditError(db, doc, edit).None?
    ensures WellKeyed(Replay(KnownOf(db, doc), EditedOps(db, edit)).known)
    ensures Values(DocumentOf(Replay(KnownOf(db, doc), EditedOps(db, edit)).known)) == next
  {
    var K, m := KnownOf(db, doc), db.clientMeta.value;
    EditNotEmpty(cur, next, edit);
    FreshForPart(K, U, c, m.nextCounter);
    WhatYouTyped(K, cur, next, edit, c, m.nextCounter, m.lamportClock);
    RoomIsEnough(U, doc, c, db, edit);
  }

  lemma RoomIsEnough(U: OpMap, doc: DocId, c: ClientId, db: Database, edit: LocalTextEdit)
    requires TablesOk(U, doc, c, db) && EditSize(edit) > 0
    requires AllValid(EditOps(c, db.clientMeta.value.nextCounter, db.clientMeta.value.lamportClock, edit))
    ensures EditError(db, doc, edit).None?
  {
    var m := db.clientMeta.value;
    FreshForPart(KnownOf(db, doc), U, c, m.nextCounter);
    AllocatedFresh(KnownOf(db, doc), c, m.nextCounter, m.lamportClock, edit);
    FreshIsAddable(U, doc, c, db, EditOps(c, m.nextCounter, m.lamportClock, edit));
  }

  lemma FreshIsAddable(U: OpMap, doc: DocId, c: ClientId, db: Database, ops: seq<Operation>)
    requires TablesOk(U, doc, c, db) && FreshIds(KnownOf(db, doc), ops)
    ensures Addable(db.operations, ops) && Addable(db.outbox, ops)
  {
    forall o | o in ops ensures o.opId !in db.operations && o.opId !in db.outbox {
      assert Unreferenced(KnownOf(db, doc), o.opId);
      assert o.opId in db.operations ==> o.opId in DocOps(db, doc);
    }
  }

  // ----- convergence

  ghost predicate AtTheEnd(s: System, c: ClientId) {
    c in s.clients && LastServerSeq(s.clients[c].db, s.doc) == Latest(Log(s))
  }

  /** The client's cursor is at the end of the log and nothing waits in its outbox. */
  ghost predicate UpToDate(s: System, c: ClientId) {
    AtTheEnd(s, c) && s.clients[c].db.outbox == map[]
  }

  /** In every run a client at the end of the log knows exactly the log and what it made
      itself, or exactly the log once its outbox is empty, if and only if its cursor is
      sound. */
  lemma SoundMeansConverged(run: seq<System>, i: nat, c: ClientId)
    requires IsRun(run) && i < |run| && AtTheEnd(run[i], c)
    ensures var s, k := run[i], run[i].clients[c];
      && (CursorSound(Log(s), s.doc, k.db) <==> KnowsLogAndOwn(s.created, Log(s), s.doc, c, k.db))
      && (UpToDate(s, c) ==> (CursorSound(Log(s), s.doc, k.db) <==> KnownOf(k.db, s.doc) == LoggedOps(Log(s))))
      && (k.replica.Some? ==> k.replica.value == KnownOf(k.db, s.doc))
  {
    var s := run[i];
    ClientInRun(run, i, c);
    PlacedInEveryRun(run, i, c);
    SoundAtTheEnd(s.created, Log(s), s.doc, c, s.clients[c]);
  }

  /** Convergence: a client that has been careful itself and is at the end of the log knows
      exactly the logged operations and its own, and once its outbox is empty exactly the
      logged ones, whether they came one by one, as history or as a snapshot, and whatever
      the other clients did or still have to do. */
  lemma CarefulClientsConverge(run: seq<System>, i: nat, c: ClientId)
    requires IsCarefulRunOf(run, c) && i < |run| && AtTheEnd(run[i], c)
    ensures var s, k := run[i], run[i].clients[c];
      && KnowsLogAndOwn(s.created, Log(s), s.doc, c, k.db)
      && (UpToDate(s, c) ==> KnownOf(k.db, s.doc) == LoggedOps(Log(s)))
      && (k.replica.Some? ==> k.replica.value == KnownOf(k.db, s.doc))
  {
    TrackedWhileCareful(run, i, c);
    CarefulRunIsRun(run, c);
    SoundMeansConverged(run, i, c);
  }

  /** So any two such clients that are open show the same document. */
  lemma ConvergedClientsShowTheSame(run: seq<System>, i: nat, c: ClientId, d: ClientId)
    requires IsCarefulRunOf(run, c) && IsCarefulRunOf(run, d) && i < |run|
    requires UpToDate(run[i], c) && run[i].clients[c].replica.Some?
    requires UpToDate(run[i], d) && run[i].clients[d].replica.Some?
    ensures var K, L := run[i].clients[c].replica.value, run[i].clients[d].replica.value;
      WellKeyed(K) && K == L && Documents.Join(Values(DocumentOf(K))) == Documents.Join(Values(DocumentOf(L)))
  {
    CarefulClientsConverge(run, i, c);
    CarefulClientsConverge(run, i, d);
    CarefulRunIsRun(run, c);
    ClientInRun(run, i, c);
  }

  /** Every client is up to date. */
  ghost predicate Quiet(s: System) {
    forall c | c in s.clients :: UpToDate(s, c)
  }

  /** Once every client is up to date, the log holds exactly the operations ever made,
      nothing among them is pending, and a client knows all of them exactly when its
      cursor is sound. */
  lemma QuietMeansConverged(run: seq<System>, i: nat, c: ClientId)
    requires IsRun(run) && i < |run| && Quiet(run[i]) && c in run[i].clients
    ensures var s := run[i];
      && (forall op :: Made(s.created, op) <==> Logged(Log(s), op)) && Resolved(s.created)
      && (KnownOf(s.clients[c].db, s.doc) == s.created <==> CursorSound(Log(s), s.doc, s.clients[c].db))
  {
    var s := run[i];
    ClientInRun(run, i, c);
    AllLogged(s);
    LoggedMeans(s.created, Log(s));
    SameMade(LoggedOps(Log(s)), s.created, s.created);
    assert UpToDate(s, c);
    SoundMeansConverged(run, i, c);
  }

  lemma AllLogged(s: System)
    requires Invariant(s) && Quiet(s)
    ensures forall op :: Made(s.created, op) <==> Logged(Log(s), op)
  {
    forall op ensures Made(s.created, op) <==> Logged(Log(s), op) {
      if Made(s.created, op) {
        assert ClientOk(s.created, Log(s), s.doc, op.clientId, s.clients[op.clientId]);
        assert UpToDate(s, op.clientId);
      }
      if Logged(Log(s), op) { LoggedIsMade(s.created, Log(s), op); }
    }
  }

  /** Where everybody was careful and is up to date, each client knows everything. */
  lemma EveryoneConverges(run: seq<System>, i: nat, c: ClientId)
    requires IsCarefulRun(run) && i < |run| && Quiet(run[i]) && c in run[i].clients
    ensures KnownOf(run[i].clients[c].db, run[i].doc) == run[i].created && Resolved(run[i].created)
    ensures run[i].clients[c].replica.Some? ==> run[i].clients[c].replica.value == run[i].created
  {
    EveryoneCareful(run, c);
    TrackedWhileCareful(run, i, c);
    CarefulRunIsRun(run, c);
    QuietMeansConverged(run, i, c);
    ClientInRun(run, i, c);
  }

  // ----- closing and opening

  function Closed(k: Client): Client {
    k.(replica := None, session := None)
  }

  lemma TablesAreSynced(s: System, c: ClientId)
    requires Invariant(s) && c in s.clients
    ensures Synced(s.clients[c].db, s.doc, KnownOf(s.clients[c].db, s.doc))
  {
    assert ClientOk(s.created, Log(s), s.doc, c, s.clients[c]);
  }

  /** A document opens exactly when its tables leave nothing pending, and then knows
      what it knew when it was closed. */
  lemma OpensExactly(s: System, c: ClientId, s': System)
    requires Invariant(s) && c in s.clients
    ensures StepTo(With(s, c, Closed(s.clients[c])), Open(c), s') <==>
      && Resolved(KnownOf(s.clients[c].db, s.doc))
      && s' == With(s, c, Closed(s.clients[c]).(replica := Some(KnownOf(s.clients[c].db, s.doc))))
  {
    TablesAreSynced(s, c);
    WithTwice(s, c, Closed(s.clients[c]), Closed(s.clients[c]).(replica := Some(KnownOf(s.clients[c].db, s.doc))));
  }

  lemma WithTwice(s: System, c: ClientId, k: Client, k': Client)
    ensures With(s, c, k).clients[c] == k && With(s, c, k).doc == s.doc
    ensures With(With(s, c, k), c, k') == With(s, c, k')
  {
    assert s.clients[c := k][c := k'] == s.clients[c := k'];
  }

  /** A closed document opens exactly when the tables hold whatever their operations
      depend on, and then it is what it was before. */
  lemma ReopensAsItWas(run: seq<System>, i: nat, c: ClientId, s': System)
    requires IsRun(run) && i < |run| && c in run[i].clients
    ensures var s, k := run[i], run[i].clients[c];
      && (StepTo(With(s, c, Closed(k)), Open(c), s') <==>
            && DependenciesKnown(KnownOf(k.db, s.doc))
            && s' == With(s, c, Closed(k).(replica := Some(KnownOf(k.db, s.doc)))))
      && (DependenciesKnown(KnownOf(k.db, s.doc)) <==> Resolved(KnownOf(k.db, s.doc)))
      && (k.replica.Some? ==> k.replica.value == KnownOf(k.db, s.doc))
  {
    ClientInRun(run, i, c);
    OpensExactly(run[i], c, s');
    ResolvedPart(KnownOf(run[i].clients[c].db, run[i].doc), run[i].created);
  }

  /** Every logged operation hangs on ROOT or on a logged one. */
  ghost predicate LogIsClosed(log: seq<Sequenced>) {
    forall r | r in log :: DependencyOf(r.operation) == ROOT_ID
                           || exists q :: q in log && q.operation.opId == DependencyOf(r.operation)
  }

  lemma ClosedLog(U: OpMap, log: seq<Sequenced>)
    requires WellKeyed(U) && forall r | r in log :: Made(U, r.operation)
    ensures LogIsClosed(log) <==> DependenciesKnown(LoggedOps(log))
  {
    var L := LoggedOps(log);
    LoggedMeans(U, log);
    LoggedIds(U, log);
    forall r | r in log ensures Made(L, r.operation) { assert Logged(log, r.operation); }
    forall x | x in L ensures exists r :: r in log && r.operation == L[x] { assert Made(L, L[x]); }
  }

  lemma LoggedIds(U: OpMap, log: seq<Sequenced>)
    requires WellKeyed(U) && forall r | r in log :: Made(U, r.operation)
    ensures forall x :: x in LoggedOps(log) <==> exists q :: q in log && q.operation.opId == x
  {
    var L := LoggedOps(log);
    LoggedMeans(U, log);
    forall q | q in log ensures q.operation.opId in L { assert Logged(log, q.operation); }
    forall x | x in L ensures exists q :: q in log && q.operation.opId == x { assert Made(L, L[x]); }
  }

  /** The document of a careful client that is up to date can be opened again exactly when
      the log holds whatever its operations depend on; so it can once all that was ever
      made is logged. */
  lemma ConvergedDocumentsOpen(run: seq<System>, i: nat, c: ClientId)
    requires IsCarefulRunOf(run, c) && i < |run| && UpToDate(run[i], c)
    ensures DependenciesKnown(KnownOf(run[i].clients[c].db, run[i].doc)) <==> LogIsClosed(Log(run[i]))
    ensures (forall op | Made(run[i].created, op) :: Logged(Log(run[i]), op)) ==> LogIsClosed(Log(run[i]))
  {
    var s := run[i];
    CarefulClientsConverge(run, i, c);
    CarefulRunIsRun(run, c);
    ClientInRun(run, i, c);
    ClosedLog(s.created, Log(s));
    if forall op | Made(s.created, op) :: Logged(Log(s), op) {
      LoggedMeans(s.created, Log(s));
      SameMade(LoggedOps(Log(s)), s.created, s.created);
      ResolvedPart(s.created, s.created);
    }
  }

  /** The condition is needed: a client that closes after it has taken a second insert
      before the first one it hangs on, which the order of submission permits, does
      not open again. */
  lemma EarlyInsertBlocksOpening(author: ClientId, c: ClientId, doc: DocId, value: JsString)
    requires !IsBlank(author) && !IsEmpty(value)
    ensures var early := Insert(MakeOperationId(author, 2), author, 2, 2, MakeOperationId(author, 1), value);
      var r := Ingested(FreshDatabase(c, doc), doc, [Sequenced(1, early)], 1);
      IsValidOperation(early) && r.Success? && !Resolved(KnownOf(r.value, doc))
  {
    var early := Insert(MakeOperationId(author, 2), author, 2, 2, MakeOperationId(author, 1), value);
    LaterIdsDiffer(author, 1, 2);
    IdIsNotRoot(author, 1);
    var db, batch := FreshDatabase(c, doc), [Sequenced(1, early)];
    assert OpsOf(batch) == [early] && [early][1..] == [];
    var one := IngestOne(db, doc, early);
    assert IngestAll(db, doc, [early]) == IngestAll(one.value, doc, [early][1..]) == one;
    var db' := Ingested(db, doc, batch, 1).value;
    var K := KnownOf(db', doc);
    assert DocOps(db', doc) == map[early.opId := early] == K;
    AttachedStep(K, early.opId);
    assert PendingInsert(K, early.opId);
  }
}
