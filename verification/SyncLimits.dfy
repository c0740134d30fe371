/** Where the guarantees end: a document that was closed while something waited does not
    open again, and a cursor passes rows that its client never got. */
module SyncLimits {
  import opened Wrappers
  import opened JsStrings
  import opened Operations
  import opened AnchorGraph
  import opened EditSemantics
  import opened LocalDocumentControllers
  import opened LocalStore
  import opened OperationStores
  import opened Replays
  import opened ServerSnapshots
  import opened Snapshots
  import opened StoreFacts
  import opened SyncCursors
  import opened SyncInvariants
  import opened SyncMessages
  import opened SyncScenarios
  import opened SyncSystems
  import opened SyncTheorems
  import opened SyncTracking
  import opened TextEdit

  // ----- a document that does not open again

  /** The reader is about to take the second insert, the only one the server has. */
  lemma ReaderTakesSecond(t: Cast, next: seq<JsString>)
    requires t.Ok() && CanType(t.a, next) && |next| == 2
    ensures var second := FirstOps(t.a, next)[1];
      var reader := t.OpenedFresh(t.b);
      Reached(t.Stage(ServerWith(t.doc, [second]), Wrote(t, t.a, next),
                      Deliver(Joined0(reader), Live(Sequenced(1, second))),
                      Among(FirstOps(t.a, next)), Merge(map[], FirstOps(t.a, next))))
  {
    var ops, writer, reader := FirstOps(t.a, next), Wrote(t, t.a, next), t.OpenedFresh(t.b);
    var created := Merge(map[], ops);
    WriterDoneInTwo(t, next);
    FirstReplay(t.a, next);
    ReaderOpens(t, EmptyServer(), writer, Among(ops), created);
    FreshKnows(t.b, t.doc);
    ReaderJoins(t, writer, reader, Among(ops), created);
    OneMoreRow(t.doc, [], ops[1]);
    assert ops[1] in ops && [] + [ops[1]] == [ops[1]];
    ServerAccepts(t, EmptyServer(), writer, Joined0(reader), Among(ops), created, ops[1]);
  }

  /** The client handles the next message, and nothing went missing before. */
  lemma ReaderHandles(t: Cast, server: ServerDb, writer: Client, reader: Client, submitted: set<Operation>,
          created: OpMap)
    requires t.Ok() && Reached(t.Stage(server, writer, reader, submitted, created))
    requires HasMessage(reader) && !IsBootstrap(FirstMessage(reader)) && reader.session.value.missed == []
    ensures Ingested(reader.db, t.doc, Items(FirstMessage(reader)), Confirmed(FirstMessage(reader))).Success?
    ensures Reached(t.Stage(server, writer, AfterIngest(t.doc, reader), submitted, created))
  {
    var s := t.Stage(server, writer, reader, submitted, created);
    ReachedOk(s);
    assert s.clients[t.b] == reader && ClientOk(created, Log(s), t.doc, t.b, s.clients[t.b]);
    HoldsInOrder(created, Log(s), t.doc, t.b, reader);
    IngestKeeps(created, Log(s), t.doc, t.b, reader, 0);
    WithReader(t, server, writer, reader, submitted, created, AfterIngest(t.doc, reader));
    ReachStep(s, Receive(t.b, 0), t.Stage(server, writer, AfterIngest(t.doc, reader), submitted, created));
  }

  /** Taking an empty answer changes nothing but the queue. */
  lemma EmptyAnswerTaken(t: Cast, m: ServerMessage)
    requires t.Ok()
    ensures var k := Deliver(Joined0(t.OpenedFresh(t.b)), m);
      && HasMessage(k) && FirstMessage(k) == Sync(EmptyAnswer())
      && Ingested(k.db, t.doc, [], 0).Success?
      && AfterIngest(t.doc, k) == t.OpenedFresh(t.b).(session := Some(Session(Joined, [m], true, [])))
  {
    var db := FreshDatabase(t.b, t.doc);
    FreshKnows(t.b, t.doc);
    assert OpsOf([]) == [] && db.syncState == map[t.doc := 0] == db.syncState[t.doc := 0];
    assert [Sync(EmptyAnswer()), m][1..] == [m];
  }

  lemma ReaderCloses(t: Cast, server: ServerDb, writer: Client, reader: Client, submitted: set<Operation>,
          created: OpMap)
    requires t.Ok() && Reached(t.Stage(server, writer, reader, submitted, created))
    ensures Reached(t.Stage(server, writer, Closed(reader), submitted, created))
  {
    var s := t.Stage(server, writer, reader, submitted, created);
    WithReader(t, server, writer, reader, submitted, created, Closed(reader));
    assert s.clients[t.b] == reader;
    ReachStep(s, Close(t.b), t.Stage(server, writer, Closed(reader), submitted, created));
  }

  /** The reader before and after it took the second insert alone. */
  ghost function WithSecond(t: Cast, next: seq<JsString>): Client
    requires |next| == 2
  {
    t.OpenedFresh(t.b).(session := Some(Session(Joined, [Live(Sequenced(1, FirstOps(t.a, next)[1]))], true, [])))
  }

  ghost function SecondTaken(t: Cast, next: seq<JsString>): Client
    requires |next| == 2
      && Ingested(FreshDatabase(t.b, t.doc), t.doc, [Sequenced(1, FirstOps(t.a, next)[1])], 1).Success?
  {
    AfterIngest(t.doc, WithSecond(t, next))
  }

  lemma SecondIsPending(t: Cast, next: seq<JsString>)
    requires t.Ok() && CanType(t.a, next) && |next| == 2
    ensures Ingested(FreshDatabase(t.b, t.doc), t.doc, [Sequenced(1, FirstOps(t.a, next)[1])], 1).Success?
    ensures !Resolved(KnownOf(SecondTaken(t, next).db, t.doc))
  {
    var ops := FirstOps(t.a, next);
    assert ops[1] == OpAt(t.a, 1, 0, Typing(next), 1);
    assert next[1] in next;
    EarlyInsertBlocksOpening(t.a, t.b, t.doc, next[1]);
  }

  lemma SecondReached(t: Cast, next: seq<JsString>)
    requires t.Ok() && CanType(t.a, next) && |next| == 2
    requires Ingested(FreshDatabase(t.b, t.doc), t.doc, [Sequenced(1, FirstOps(t.a, next)[1])], 1).Success?
    ensures Reached(t.Stage(ServerWith(t.doc, [FirstOps(t.a, next)[1]]), Wrote(t, t.a, next),
                            Closed(SecondTaken(t, next)),
                            Among(FirstOps(t.a, next)), Merge(map[], FirstOps(t.a, next))))
  {
    var ops, writer, pristine := FirstOps(t.a, next), Wrote(t, t.a, next), t.OpenedFresh(t.b);
    var m, server, created := Live(Sequenced(1, ops[1])), ServerWith(t.doc, [ops[1]]), Merge(map[], ops);
    ReaderTakesSecond(t, next);
    EmptyAnswerTaken(t, m);
    ReaderHandles(t, server, writer, Deliver(Joined0(pristine), m), Among(ops), created);
    ReaderHandles(t, server, writer, WithSecond(t, next), Among(ops), created);
    ReaderCloses(t, server, writer, SecondTaken(t, next), Among(ops), created);
  }

  lemma PendingDoesNotOpen(s: System, c: ClientId)
    requires c in s.clients && !Resolved(KnownOf(s.clients[c].db, s.doc))
    ensures !exists s' :: StepTo(s, Open(c), s')
  {}

  /** Closed, with the operations `K` in its tables, of which something is waiting. */
  ghost predicate Shut(s: System, c: ClientId, K: OpMap) {
    c in s.clients && ShutClient(s.doc, s.clients[c], K)
  }

  ghost predicate ShutClient(doc: DocId, k: Client, K: OpMap) {
    match k
    case Client(db, replica, session) => replica.None? && session.None? && KnownOf(db, doc) == K && !Resolved(K)
  }

  lemma TablesStepKeepsKnown(s: System, step: Step, s': System)
    requires TablesStep(s, step, s')
    ensures KnownOf(s'.clients[step.c].db, s'.doc) == KnownOf(s.clients[step.c].db, s.doc)
  {
    var db, db' := s.clients[step.c].db, s'.clients[step.c].db;
    SameBaseline(db, db', s.doc);
    assert DocOps(db', s.doc) == DocOps(db, s.doc);
  }

  lemma StepStaysShut(s: System, step: Step, s': System, c: ClientId, K: OpMap)
    requires Shut(s, c, K) && StepTo(s, step, s')
    ensures Shut(s', c, K)
  {
    if ActorOf(step).Some? && ActorOf(step).value != c {
      OthersStep(s, step, s', c);
    } else if TablesStep(s, step, s') {
      TablesStepKeepsKnown(s, step, s');
    }
  }

  ghost predicate ShutKept(s: System, s': System, c: ClientId, K: OpMap) {
    Shut(s, c, K) ==> Shut(s', c, K)
  }

  lemma NextKeepsShut(s: System, s': System, c: ClientId, K: OpMap)
    requires Next(s, s')
    ensures ShutKept(s, s', c, K)
  {
    var step :| StepTo(s, step, s');
    if Shut(s, c, K) { StepStaysShut(s, step, s', c, K); }
  }

  lemma RunKeepsShut(run: seq<System>, j: nat, c: ClientId, K: OpMap)
    requires IsRun(run) && 0 < j < |run|
    ensures ShutKept(run[j - 1], run[j], c, K)
  {
    assert Next(run[j - 1], run[j]);
    NextKeepsShut(run[j - 1], run[j], c, K);
  }

  ghost predicate ShutAt(run: seq<System>, j: nat, c: ClientId, K: OpMap) {
    j < |run| ==> Shut(run[j], c, K)
  }

  lemma ShutNext(run: seq<System>, j: nat, c: ClientId, K: OpMap)
    requires IsRun(run) && ShutAt(run, j, c, K)
    ensures ShutAt(run, j + 1, c, K)
  {
    if j + 1 < |run| { RunKeepsShut(run, j + 1, c, K); }
  }

  lemma ShutLater(run: seq<System>, i: nat, j: nat, c: ClientId, K: OpMap)
    requires IsRun(run) && i <= j < |run| && Shut(run[i], c, K)
    ensures Shut(run[j], c, K)
  {
    var shut := (n: nat) => ShutAt(run, i + n, c, K);
    forall n: nat | shut(n) ensures shut(n + 1) { ShutNext(run, i + n, c, K); }
    assert ShutAt(run, i, c, K) && i + 0 == i && i + (j - i) == j;
    StepByStep(shut, j - i);
    assert ShutAt(run, j, c, K);
  }

  /** Such a document never opens again, and nothing reaches its tables any more. */
  lemma StaysShut(run: seq<System>, i: nat, j: nat, c: ClientId, K: OpMap)
    requires IsRun(run) && i <= j < |run| && Shut(run[i], c, K)
    ensures Shut(run[j], c, K) && !exists s' :: StepTo(run[j], Open(c), s')
  {
    ShutLater(run, i, j, c, K);
    PendingDoesNotOpen(run[j], c);
  }

  /** A document need not open again, even after a careful run: the writer types twice, the
      second insert overtakes the first on its way to the server, and the reader takes it
      and closes. */
  lemma ClosedTooEarly(t: Cast, next: seq<JsString>) returns (s: System)
    requires t.Ok() && CanType(t.a, next) && |next| == 2
    ensures Reached(s) && t.b in s.clients && Shut(s, t.b, KnownOf(s.clients[t.b].db, s.doc))
  {
    SecondIsPending(t, next);
    SecondReached(t, next);
    s := t.Stage(ServerWith(t.doc, [FirstOps(t.a, next)[1]]), Wrote(t, t.a, next), Closed(SecondTaken(t, next)),
                 Among(FirstOps(t.a, next)), Merge(map[], FirstOps(t.a, next)));
  }

  // ----- going on after a refused bootstrap

  /** The reader has asked for a snapshot and then typed something. */
  ghost function Asking(t: Cast, typed: seq<JsString>): Client {
    Wrote(t, t.b, typed).(session := Some(Session(Joining(0, true), [], true, [])))
  }

  lemma ReaderAsks(t: Cast, server: ServerDb, writer: Client, submitted: set<Operation>, created: OpMap)
    requires t.Ok() && Reached(t.Stage(server, writer, t.OpenedFresh(t.b), submitted, created))
    ensures var reader := t.OpenedFresh(t.b).(session := Some(Session(Joining(0, true), [], true, [])));
      Reached(t.Stage(server, writer, reader, submitted, created))
  {
    var k := t.OpenedFresh(t.b);
    var k' := k.(session := Some(Session(Joining(0, true), [], true, [])));
    FreshKnows(t.b, t.doc);
    WithReader(t, server, writer, k, submitted, created, k');
    var s := t.Stage(server, writer, k, submitted, created);
    assert s.clients[t.b] == k;
    ReachStep(s, Connect(t.b, true, 0), t.Stage(server, writer, k', submitted, created));
  }

  lemma {:induction false} ReaderTypes(t: Cast, server: ServerDb, writer: Client, submitted: set<Operation>,
          created: OpMap, typed: seq<JsString>)
    requires t.Ok() && CanType(t.b, typed)
    requires Reached(t.Stage(server, writer,
                             t.OpenedFresh(t.b).(session := Some(Session(Joining(0, true), [], true, []))),
                             submitted, created))
    ensures Reached(t.Stage(server, writer, Asking(t, typed), submitted, Merge(created, FirstOps(t.b, typed))))
  {
    var k := t.OpenedFresh(t.b).(session := Some(Session(Joining(0, true), [], true, [])));
    var s := t.Stage(server, writer, k, submitted, created);
    ReachedOk(s);
    assert s.clients[t.b] == k && ClientOk(created, Log(s), t.doc, t.b, s.clients[t.b]);
    FirstEdit(created, t.doc, t.b, typed);
    WithReader(t, server, writer, k, submitted, created, Asking(t, typed));
    ReachStep(s, Edit(t.b, [], typed, Typing(typed)),
              t.Stage(server, writer, Asking(t, typed), submitted, Merge(created, FirstOps(t.b, typed))));
  }

  ghost function Offered(t: Cast, typed: seq<JsString>, row: SnapshotRow): Client {
    Wrote(t, t.b, typed).(session := Some(Session(Joined, [Sync(Offer(row))], true, [])))
  }

  lemma {:induction false} ReaderIsOffered(t: Cast, ops: seq<Operation>, writer: Client, submitted: set<Operation>,
          created: OpMap, typed: seq<JsString>, row: SnapshotRow)
    requires t.Ok() && |ops| == SNAPSHOT_OPERATION_THRESHOLD && Complete(Replay(map[], ops))
    requires row.snapshotVersion == SERVER_SNAPSHOT_ENVELOPE_VERSION && row.snapshotSeq == |ops|
    requires IsExport(row.snapshot, Replay(map[], ops).known)
    requires Reached(t.Stage(ServerWith(t.doc, ops), writer, Asking(t, typed), submitted, created))
    ensures Reached(t.Stage(SnapshotOnly(ServerWith(t.doc, ops), t.doc, row), writer, Offered(t, typed, row),
                            submitted, created))
  {
    var server, server' := ServerWith(t.doc, ops), SnapshotOnly(ServerWith(t.doc, ops), t.doc, row);
    ServerOffers(t.doc, ops, row);
    FirstAnswer(0, true, Offer(row));
    WithReader(t, server, writer, Asking(t, typed), submitted, created, Offered(t, typed, row));
    var s := t.Stage(server, writer, Asking(t, typed), submitted, created);
    assert s.clients[t.b] == Asking(t, typed);
    ReachStep(s, Join(t.b, Offer(row)), t.Stage(server', writer, Offered(t, typed, row), submitted, created));
  }

  /** A writer types one value more than a snapshot needs, and the server has taken all
      but the last when a reader asks for a snapshot. The reader types something before
      the answer arrives, and the last operation is broadcast right behind it. */
  datatype Story = Story(t: Cast, next: seq<JsString>, typed: seq<JsString>, snapshot: Snapshot) {
    ghost predicate Ok() {
      && t.Ok() && CanType(t.a, next) && CanType(t.b, typed) && |next| == SNAPSHOT_OPERATION_THRESHOLD + 1
      && IsExport(snapshot, Replay(map[], Early()).known)
    }

    ghost function Ops(): seq<Operation> {
      FirstOps(t.a, next)
    }

    ghost function Early(): seq<Operation>
      requires |next| == SNAPSHOT_OPERATION_THRESHOLD + 1
    {
      Ops()[..SNAPSHOT_OPERATION_THRESHOLD]
    }

    ghost function Late(): Sequenced
      requires |next| == SNAPSHOT_OPERATION_THRESHOLD + 1
    {
      Sequenced(SNAPSHOT_OPERATION_THRESHOLD + 1, Ops()[SNAPSHOT_OPERATION_THRESHOLD])
    }

    function Cached(): SnapshotRow {
      SnapshotRow(SNAPSHOT_OPERATION_THRESHOLD, SERVER_SNAPSHOT_ENVELOPE_VERSION, snapshot)
    }

    ghost function Server(): ServerDb
      requires |next| == SNAPSHOT_OPERATION_THRESHOLD + 1
    {
      SnapshotOnly(ServerWith(t.doc, Early()), t.doc, Cached())
    }

    ghost function Created(): OpMap {
      Merge(Merge(map[], Ops()), FirstOps(t.b, typed))
    }

    ghost function Reader(queue: seq<ServerMessage>, open: bool, missed: seq<ServerMessage>): Client {
      Wrote(t, t.b, typed).(session := Some(Session(Joined, queue, open, missed)))
    }

    /** The state in which the reader has these messages to come, and missed those. */
    ghost function At(queue: seq<ServerMessage>, open: bool, missed: seq<ServerMessage>): System
      requires |next| == SNAPSHOT_OPERATION_THRESHOLD + 1
    {
      t.Stage(Appended(Server(), t.doc, Late()), Wrote(t, t.a, next), Reader(queue, open, missed), Among(Ops()),
              Created())
    }

    /** The offer and the late row are queued. */
    ghost function Waiting(): System
      requires |next| == SNAPSHOT_OPERATION_THRESHOLD + 1
    {
      At([Sync(Offer(Cached())), Live(Late())], true, [])
    }

    /** The offer was refused, the late row had arrived before that. */
    ghost function Refused(): System
      requires |next| == SNAPSHOT_OPERATION_THRESHOLD + 1
    {
      At([Live(Late())], false, [Sync(Offer(Cached()))])
    }
  }

  lemma EarlyOnes(y: Story)
    requires y.Ok()
    ensures |y.Ops()| == SNAPSHOT_OPERATION_THRESHOLD + 1 && FreshIds(map[], y.Ops()) && AllValid(y.Ops())
    ensures |y.Early()| == SNAPSHOT_OPERATION_THRESHOLD && Complete(Replay(map[], y.Early()))
    ensures y.Late().operation in y.Ops() && y.Ops()[0] in y.Early()
    ensures forall r | r in Rows(y.Early()) :: r.operation.opId != y.Late().operation.opId
  {
    FirstReplay(y.t.a, y.next);
    NotAmongTaken(y.Ops(), SNAPSHOT_OPERATION_THRESHOLD, y.t.doc);
    assert y.Early()[0] == y.Ops()[0];
  }

  lemma OfferReached(y: Story)
    requires y.Ok()
    ensures Reached(y.t.Stage(y.Server(), Wrote(y.t, y.t.a, y.next), Offered(y.t, y.typed, y.Cached()), Among(y.Ops()),
                              y.Created()))
  {
    var t, ops, writer := y.t, y.Ops(), Wrote(y.t, y.t.a, y.next);
    var server, created := ServerWith(t.doc, y.Early()), Merge(map[], ops);
    WriterDone(t, y.next);
    EarlyOnes(y);
    ServerTakes(t, writer, t.Fresh(t.b), ops, created, SNAPSHOT_OPERATION_THRESHOLD);
    ReaderOpens(t, server, writer, Among(ops), created);
    ReaderAsks(t, server, writer, Among(ops), created);
    ReaderTypes(t, server, writer, Among(ops), created, y.typed);
    ReaderIsOffered(t, y.Early(), writer, Among(ops), y.Created(), y.typed, y.Cached());
  }

  lemma LateDelivery(y: Story)
    requires y.Ok()
    ensures LogOf(y.Server(), y.t.doc) == Rows(y.Early()) && y.Server().sequence == SNAPSHOT_OPERATION_THRESHOLD
    ensures NextRow(y.Server(), y.Late().operation) == y.Late()
    ensures Deliver(Wrote(y.t, y.t.a, y.next), Live(y.Late())) == Wrote(y.t, y.t.a, y.next)
    ensures Deliver(Offered(y.t, y.typed, y.Cached()), Live(y.Late())) ==
      y.Reader([Sync(Offer(y.Cached())), Live(y.Late())], true, [])
  {
    EarlyOnes(y);
    OneMoreRow(y.t.doc, y.Early(), y.Late().operation);
    assert [Sync(Offer(y.Cached()))] + [Live(y.Late())] == [Sync(Offer(y.Cached())), Live(y.Late())];
  }

  /** The offer and the late row are on their way. */
  lemma LateRowReached(y: Story)
    requires y.Ok()
    ensures Reached(y.Waiting())
  {
    OfferReached(y);
    EarlyOnes(y);
    LateDelivery(y);
    ServerAccepts(y.t, y.Server(), Wrote(y.t, y.t.a, y.next), Offered(y.t, y.typed, y.Cached()), Among(y.Ops()),
                  y.Created(), y.Late().operation);
  }

  /** What the reader typed is all it knows. */
  lemma ReaderKnows(y: Story)
    requires y.Ok()
    ensures !Eligible(Wrote(y.t, y.t.b, y.typed).db, y.t.doc)
    ensures KnownOf(Wrote(y.t, y.t.b, y.typed).db, y.t.doc) == Merge(map[], FirstOps(y.t.b, y.typed))
    ensures LastServerSeq(Wrote(y.t, y.t.b, y.typed).db, y.t.doc) == 0
  {
    var db, ops := Wrote(y.t, y.t.b, y.typed).db, FirstOps(y.t.b, y.typed);
    FreshTables(y.t, y.t.b);
    FirstEdit(map[], y.t.doc, y.t.b, y.typed);
    FirstReplay(y.t.b, y.typed);
    assert ops[0] in ops && ops[0].opId in DocOps(db, y.t.doc);
  }

  lemma ReaderRefuses(t: Cast, server: ServerDb, writer: Client, reader: Client, submitted: set<Operation>,
          created: OpMap, arrived: nat)
    requires t.Ok() && Reached(t.Stage(server, writer, reader, submitted, created))
    requires HasMessage(reader) && IsBootstrap(FirstMessage(reader)) && !Eligible(reader.db, t.doc)
    ensures var s := t.Stage(server, writer, reader, submitted, created);
      var s' :=
        t.Stage(server, writer, reader.(session := Some(Refuse(reader.session.value, arrived))), submitted, created);
      StepTo(s, Receive(t.b, arrived), s') && Reached(s')
  {
    var s := t.Stage(server, writer, reader, submitted, created);
    var k' := reader.(session := Some(Refuse(reader.session.value, arrived)));
    ReachedOk(s);
    assert s.clients[t.b] == reader && ClientOk(created, Log(s), t.doc, t.b, reader);
    InstallKeeps(created, Log(s), server.sequence, t.doc, t.b, reader, arrived);
    HoldsInOrder(created, Log(s), t.doc, t.b, reader);
    WithReader(t, server, writer, reader, submitted, created, k');
    ReachStep(s, Receive(t.b, arrived), t.Stage(server, writer, k', submitted, created));
  }

  lemma RefusesFirst(m: ServerMessage, live: ServerMessage)
    ensures Refuse(Session(Joined, [m, live], true, []), 1) == Session(Joined, [live], false, [m])
  {
    assert [m, live][1..] == [live] == [live][..1];
  }

  /** The offer is refused, because the document is not pristine any more; the late row
      has arrived before that. */
  lemma OfferRefused(y: Story)
    requires y.Ok()
    ensures StepTo(y.Waiting(), Receive(y.t.b, 1), y.Refused()) && Reached(y.Refused())
  {
    var m, k := Sync(Offer(y.Cached())), y.Reader([Sync(Offer(y.Cached())), Live(y.Late())], true, []);
    LateRowReached(y);
    ReaderKnows(y);
    RefusesFirst(m, Live(y.Late()));
    ReaderRefuses(y.t, Appended(y.Server(), y.t.doc, y.Late()), Wrote(y.t, y.t.a, y.next), k, Among(y.Ops()),
                  y.Created(), 1);
  }

  /** The first operation is in the refused snapshot, and nowhere else for the reader. */
  lemma FirstIsMissing(y: Story)
    requires y.Ok()
    ensures !Recovered(y.t.doc, y.Reader([Live(y.Late())], false, [Sync(Offer(y.Cached()))]), Live(y.Late()))
  {
    var op, m, k := y.Ops()[0], Sync(Offer(y.Cached())), y.Reader([Live(y.Late())], false, [Sync(Offer(y.Cached()))]);
    EarlyOnes(y);
    FirstIsCached(y);
    NotTheReaders(y, op);
    CarriesItsRow(y.Late(), op);
    assert m in k.session.value.missed && CarriesThrough(m, op, Confirmed(Live(y.Late())));
  }

  lemma CarriesItsRow(row: Sequenced, op: Operation)
    ensures Carries(Live(row), op) <==> op == row.operation
  {
    assert OpsOf([row]) == [row.operation];
  }

  lemma FirstIsCached(y: Story)
    requires y.Ok() && |y.Ops()| > 0 && y.Ops()[0] in y.Early()
    ensures InSnapshot(y.snapshot, y.Ops()[0])
  {
    var known := Replay(map[], y.Early()).known;
    FirstReplay(y.t.a, y.next);
    MergeMeaning(map[], y.Early());
    ListedInSnapshot(y.snapshot, known, y.Ops()[0]);
  }

  lemma NotTheReaders(y: Story, op: Operation)
    requires y.Ok() && op in y.Ops()
    ensures op.opId !in KnownOf(Wrote(y.t, y.t.b, y.typed).db, y.t.doc)
  {
    var own := FirstOps(y.t.b, y.typed);
    FirstReplay(y.t.a, y.next);
    FirstReplay(y.t.b, y.typed);
    ReaderKnows(y);
    MergeMeaning(map[], own);
    forall o | o in own ensures o.opId != op.opId {
      OperationIdInjective(o, op);
    }
  }

  lemma GoingOnBreaksCursor(s: System, c: ClientId, k: Client)
    requires Reached(s) && c in s.clients && s.clients[c] == k && HasMessage(k) && !IsBootstrap(FirstMessage(k))
    requires !Recovered(s.doc, k, FirstMessage(k))
    ensures k.replica.Some? && !CursorSound(Log(s), s.doc, Handle(s.doc, k, 0).db)
    ensures LastServerSeq(Handle(s.doc, k, 0).db, s.doc) == Max(LastServerSeq(k.db, s.doc), Confirmed(FirstMessage(k)))
  {
    ReachedOk(s);
    ReachedPlaced(s, c);
    assert ClientOk(s.created, Log(s), s.doc, c, k) && Tracked(Log(s), s.doc, k);
    GoingOnIsSoundExactly(s.created, Log(s), s.server.sequence, s.doc, c, k, 0);
    IngestKeeps(s.created, Log(s), s.doc, c, k, 0);
  }

  lemma LateIsLast(y: Story, queue: seq<ServerMessage>, open: bool, missed: seq<ServerMessage>)
    requires y.Ok()
    ensures Latest(Log(y.At(queue, open, missed))) == SNAPSHOT_OPERATION_THRESHOLD + 1
  {}

  lemma LateRowBreaksCursor(y: Story)
    requires y.Ok()
    ensures var s, k := y.Refused(), y.Reader([Live(y.Late())], false, [Sync(Offer(y.Cached()))]);
      && s.clients[y.t.b] == k && k.replica.Some?
      && LastServerSeq(Handle(s.doc, k, 0).db, s.doc) == Latest(Log(s))
      && !CursorSound(Log(s), s.doc, Handle(s.doc, k, 0).db)
  {
    var s, k := y.Refused(), y.Reader([Live(y.Late())], false, [Sync(Offer(y.Cached()))]);
    OfferRefused(y);
    FirstIsMissing(y);
    ReaderKnows(y);
    LateIsLast(y, [Live(y.Late())], false, [Sync(Offer(y.Cached()))]);
    assert s.clients[y.t.b] == k;
    GoingOnBreaksCursor(s, y.t.b, k);
  }

  /** What the code does then: it goes on with the late row, and the cursor ends up at
      the end of a log whose first operation the reader does not know. */
  lemma RefusedOfferBreaksCursor(y: Story) returns (s: System)
    requires y.Ok()
    ensures Reached(y.Waiting()) && StepTo(y.Waiting(), Receive(y.t.b, 1), y.Refused())
    ensures StepTo(y.Refused(), Receive(y.t.b, 0), s)
    ensures y.t.b in s.clients && LastServerSeq(s.clients[y.t.b].db, s.doc) == Latest(Log(s))
    ensures !CursorSound(Log(s), s.doc, s.clients[y.t.b].db)
  {
    LateRowReached(y);
    OfferRefused(y);
    LateRowBreaksCursor(y);
    s := With(y.Refused(), y.t.b, Handle(y.t.doc, y.Refused().clients[y.t.b], 0));
  }

  /** It can happen to any such cast, whatever they type. */
  lemma StoryHappens(t: Cast, next: seq<JsString>, typed: seq<JsString>) returns (y: Story)
    requires t.Ok() && CanType(t.a, next) && CanType(t.b, typed) && |next| == SNAPSHOT_OPERATION_THRESHOLD + 1
    ensures y.Ok() && y.t == t && y.next == next && y.typed == typed
  {
    var early := FirstOps(t.a, next)[..SNAPSHOT_OPERATION_THRESHOLD];
    FirstReplay(t.a, next);
    AllAttachedWellFormed(map[]);
    ReplayAccepts(map[], early);
    var snapshot := ExportExists(Replay(map[], early).known);
    y := Story(t, next, typed, snapshot);
  }
}
