/** Runs of a small cast, a writer and a reader: from opening a fresh document over its
    first edit to joining, submitting and the server taking the operations. */
module SyncScenarios {
  import opened Wrappers
  import opened JsStrings
  import opened Operations
  import opened AnchorGraph
  import opened Documents
  import opened EditSemantics
  import opened LocalStore
  import opened OperationStores
  import opened Replays
  import opened ReplicaShape
  import opened ServerSnapshots
  import opened Snapshots
  import opened Sorting
  import opened StoreFacts
  import opened SyncEdits
  import opened SyncInvariants
  import opened SyncOrigins
  import opened SyncSystems
  import opened SyncTheorems
  import opened SyncTracking
  import opened TextEdit
  import opened TextReplicas

  // ----- building runs

  ghost predicate Reaches(run: seq<System>, s: System) {
    IsCarefulRun(run) && run[|run| - 1] == s
  }

  ghost predicate Reached(s: System) {
    exists run :: Reaches(run, s)
  }

  lemma ReachInitial(s: System)
    requires Initial(s)
    ensures Reached(s)
  {
    assert Reaches([s], s);
  }

  ghost predicate Chained<T(!new)>(run: seq<T>, next: (T, T) -> bool) {
    forall i, j {:trigger next(run[i], run[j])} | 0 <= i && j == i + 1 < |run| :: next(run[i], run[j])
  }

  lemma LongerChain<T(!new)>(run: seq<T>, x: T, next: (T, T) -> bool)
    requires run != [] && Chained(run, next) && next(run[|run| - 1], x)
    ensures Chained(run + [x], next)
  {
    var longer := run + [x];
    forall i, j | 0 <= i && j == i + 1 < |longer| ensures next(longer[i], longer[j]) {
      assert j < |run| ==> next(run[i], run[j]);
    }
  }

  lemma LongerRun(run: seq<System>, s': System)
    requires IsCarefulRun(run) && CarefulNext(run[|run| - 1], s')
    ensures IsCarefulRun(run + [s'])
  {
    var next := (s, s') => CarefulNext(s, s');
    assert Chained(run, next);
    LongerChain(run, s', next);
    var longer := run + [s'];
    forall i, j | 0 <= i && j == i + 1 < |longer| ensures CarefulNext(longer[i], longer[j]) {
      assert next(longer[i], longer[j]);
    }
  }

  lemma ReachStep(s: System, step: Step, s': System)
    requires Reached(s) && StepTo(s, step, s') && Careful(s, step)
    ensures Reached(s')
  {
    var run :| Reaches(run, s);
    assert CarefulNext(s, s');
    LongerRun(run, s');
    assert Reaches(run + [s'], s');
  }

  lemma ReachesOk(run: seq<System>, s: System)
    requires Reaches(run, s)
    ensures Invariant(s) && AllTracked(s)
  {
    TrackedInEveryCarefulRun(run, |run| - 1);
  }

  lemma ReachedPlaced(s: System, c: ClientId)
    requires Reached(s) && c in s.clients
    ensures PlacedAt(s, c)
  {
    var run :| Reaches(run, s);
    AllCarefulIsRun(run);
    PlacedInEveryRun(run, |run| - 1, c);
  }

  lemma ReachedOk(s: System)
    requires Reached(s)
    ensures Invariant(s) && AllTracked(s)
  {
    var run :| Reaches(run, s);
    ReachesOk(run, s);
  }

  // ----- a writer and a reader

  /** The parts of a system with two clients. */
  datatype Cast = Cast(doc: DocId, a: ClientId, b: ClientId) {
    ghost predicate Ok() {
      a != b && !IsBlank(a) && !IsBlank(b)
    }

    function Stage(server: ServerDb, writer: Client, reader: Client, submitted: set<Operation>, created: OpMap): System
    {
      System(doc, server, map[a := writer, b := reader], submitted, created)
    }

    function Fresh(c: ClientId): Client {
      Client(FreshDatabase(c, doc), None, None)
    }

    function OpenedFresh(c: ClientId): Client {
      Client(FreshDatabase(c, doc), Some(map[]), None)
    }
  }

  lemma WithWriter(t: Cast, server: ServerDb, writer: Client, reader: Client, submitted: set<Operation>, created: OpMap,
          writer': Client)
    requires t.Ok()
    ensures With(t.Stage(server, writer, reader, submitted, created), t.a, writer')
         == t.Stage(server, writer', reader, submitted, created)
  {
    assert map[t.a := writer, t.b := reader][t.a := writer'] == map[t.a := writer', t.b := reader];
  }

  lemma WithReader(t: Cast, server: ServerDb, writer: Client, reader: Client, submitted: set<Operation>, created: OpMap,
          reader': Client)
    requires t.Ok()
    ensures With(t.Stage(server, writer, reader, submitted, created), t.b, reader')
         == t.Stage(server, writer, reader', submitted, created)
  {
    assert map[t.a := writer, t.b := reader][t.b := reader'] == map[t.a := writer, t.b := reader'];
  }

  lemma FreshKnows(c: ClientId, doc: DocId)
    ensures KnownOf(FreshDatabase(c, doc), doc) == map[] && Eligible(FreshDatabase(c, doc), doc)
    ensures LastServerSeq(FreshDatabase(c, doc), doc) == 0
  {
    assert DocOps(FreshDatabase(c, doc), doc) == map[];
  }

  lemma Start(t: Cast)
    requires t.Ok()
    ensures Reached(t.Stage(ServerDb(map[], 0, map[]), t.Fresh(t.a), t.Fresh(t.b), {}, map[]))
  {
    ReachInitial(t.Stage(ServerDb(map[], 0, map[]), t.Fresh(t.a), t.Fresh(t.b), {}, map[]));
  }

  lemma FreshTables(t: Cast, c: ClientId)
    requires t.Ok() && (c == t.a || c == t.b)
    ensures UniverseOk(map[]) && TablesOk(map[], t.doc, c, FreshDatabase(c, t.doc))
  {
    var s := t.Stage(ServerDb(map[], 0, map[]), t.Fresh(t.a), t.Fresh(t.b), {}, map[]);
    Start(t);
    ReachedOk(s);
    assert s.clients[c] == t.Fresh(c) && ClientOk(map[], Log(s), t.doc, c, s.clients[c]);
  }

  lemma WriterOpens(t: Cast, server: ServerDb, reader: Client, submitted: set<Operation>, created: OpMap)
    requires t.Ok() && Reached(t.Stage(server, t.Fresh(t.a), reader, submitted, created))
    ensures Reached(t.Stage(server, t.OpenedFresh(t.a), reader, submitted, created))
  {
    var s, s' := t.Stage(server, t.Fresh(t.a), reader, submitted, created),
      t.Stage(server, t.OpenedFresh(t.a), reader, submitted, created);
    ReachedOk(s);
    FreshKnows(t.a, t.doc);
    WithWriter(t, server, t.Fresh(t.a), reader, submitted, created, t.OpenedFresh(t.a));
    assert s.clients[t.a] == t.Fresh(t.a) && ClientOk(created, Log(s), t.doc, t.a, s.clients[t.a]);
    ReachStep(s, Open(t.a), s');
  }

  lemma ReaderOpens(t: Cast, server: ServerDb, writer: Client, submitted: set<Operation>, created: OpMap)
    requires t.Ok() && Reached(t.Stage(server, writer, t.Fresh(t.b), submitted, created))
    ensures Reached(t.Stage(server, writer, t.OpenedFresh(t.b), submitted, created))
  {
    var s, s' := t.Stage(server, writer, t.Fresh(t.b), submitted, created),
      t.Stage(server, writer, t.OpenedFresh(t.b), submitted, created);
    ReachedOk(s);
    FreshKnows(t.b, t.doc);
    WithReader(t, server, writer, t.Fresh(t.b), submitted, created, t.OpenedFresh(t.b));
    assert s.clients[t.b] == t.Fresh(t.b) && ClientOk(created, Log(s), t.doc, t.b, s.clients[t.b]);
    ReachStep(s, Open(t.b), s');
  }

  // ----- the first edit of a fresh document

  function Typing(next: seq<JsString>): LocalTextEdit {
    LocalTextEdit([], ROOT_ID, next)
  }

  /** The operations of the first edit: a chain of inserts. */
  ghost function FirstOps(c: ClientId, next: seq<JsString>): seq<Operation> {
    EditOps(c, 1, 0, Typing(next))
  }

  ghost predicate CanType(c: ClientId, next: seq<JsString>) {
    !IsBlank(c) && next != [] && (forall v | v in next :: !IsEmpty(v)) && |next| <= MAX_SAFE_INTEGER
  }

  /** A fresh client after its first edit. */
  ghost function Wrote(t: Cast, c: ClientId, next: seq<JsString>): Client {
    AfterEdit(t.doc, t.OpenedFresh(c), Typing(next))
  }

  lemma FirstEditBetween(next: seq<JsString>)
    requires next != []
    ensures EditBetween([], next) == Some(Typing(next)) && IsDocument(map[], [])
  {
    assert next[0..|next| - 0] == next && ElementIds([]) == [];
  }

  lemma FirstEdit(U: OpMap, doc: DocId, c: ClientId, next: seq<JsString>)
    requires UniverseOk(U) && TablesOk(U, doc, c, FreshDatabase(c, doc)) && CanType(c, next)
    ensures Editable(FreshDatabase(c, doc), doc, [], next, Typing(next))
    ensures EditedOps(FreshDatabase(c, doc), Typing(next)) == FirstOps(c, next)
    ensures Replay(map[], FirstOps(c, next)).ok
    ensures var db' := Edited(FreshDatabase(c, doc), doc, Typing(next));
      && KnownOf(db', doc) == Replay(map[], FirstOps(c, next)).known == Merge(map[], FirstOps(c, next))
      && LastServerSeq(db', doc) == 0
      && (forall o | o in FirstOps(c, next) ::
            IsValidOperation(o) && o.clientId == c && o.opId in DocOps(db', doc) && DocOps(db', doc)[o.opId] == o)
  {
    var db, ops := FreshDatabase(c, doc), FirstOps(c, next);
    FreshKnows(c, doc);
    FirstEditBetween(next);
    TypedIsPersisted(U, doc, c, db, [], next, Typing(next));
    EditedTables(U, doc, c, db, [], next, Typing(next));
    EditedRows(doc, c, db, Typing(next));
    EditKeepsCursor(db, doc, Typing(next));
    FirstReplay(c, next);
    MergeMeaning(map[], ops);
    var db' := Edited(db, doc, Typing(next));
    forall o | o in ops ensures o.opId in DocOps(db', doc) && DocOps(db', doc)[o.opId] == o {
      assert o.opId in db'.operations && KnownOf(db', doc)[o.opId] == o;
    }
  }

  /** Any prefix of the first edit replays into a resolved replica. */
  lemma FirstReplay(c: ClientId, next: seq<JsString>)
    requires CanType(c, next)
    ensures AllValid(FirstOps(c, next)) && |FirstOps(c, next)| == |next|
    ensures OnePayload(map[], FirstOps(c, next)) && FreshIds(map[], FirstOps(c, next))
    ensures Replay(map[], FirstOps(c, next)) == Outcome(Merge(map[], FirstOps(c, next)), true)
    ensures forall o | o in FirstOps(c, next) :: o.clientId == c
    ensures forall k | 0 <= k <= |next| ::
      && Complete(Replay(map[], FirstOps(c, next)[..k])) && OnePayload(map[], FirstOps(c, next)[..k])
      && Replay(map[], FirstOps(c, next)[..k]) == Outcome(Merge(map[], FirstOps(c, next)[..k]), true)
  {
    var ops := FirstOps(c, next);
    AllocatedImplement(c, 1, 0, Typing(next));
    forall n | n >= 1 ensures MakeOperationId(c, n) != ROOT_ID { IdIsNotRoot(c, n); }
    AllocatedValid(c, 1, 0, Typing(next));
    AllocatedFresh(map[], c, 1, 0, Typing(next));
    forall k | 0 <= k <= |next| ensures Replay(map[], ops[..k]) == Outcome(Merge(map[], ops[..k]), true)
                                ensures Complete(Replay(map[], ops[..k])) && OnePayload(map[], ops[..k])
    {
      ChainReplays(ops, next, k);
    }
    assert ops[..|next|] == ops;
    forall o | o in ops ensures o.clientId == c {
      var i :| 0 <= i < |ops| && ops[i] == o;
      assert ops[i] == OpAt(c, 1, 0, Typing(next), i);
    }
  }

  lemma ChainReplays(ops: seq<Operation>, values: seq<JsString>, k: nat)
    requires Implements(ops, [], ROOT_ID, values, 0) && FreshIds(map[], ops) && AllValid(ops) && k <= |values|
    ensures Replay(map[], ops[..k]) == Outcome(Merge(map[], ops[..k]), true)
    ensures Complete(Replay(map[], ops[..k])) && OnePayload(map[], ops[..k])
  {
    var part, some := ops[..k], values[..k];
    forall i | 0 <= i < |part| ensures ImplementsAt(part, [], ROOT_ID, some, 0, i) {
      assert ImplementsAt(ops, [], ROOT_ID, values, 0, i);
    }
    AllAttachedWellFormed(map[]);
    EditGrounded(map[], [], ROOT_ID, some, part, 0);
    AllNewAccepted(map[], part);
    AllNewOnePayload(map[], part);
  }

  lemma WriterTypes(t: Cast, server: ServerDb, reader: Client, next: seq<JsString>)
    requires t.Ok() && CanType(t.a, next)
    requires Reached(t.Stage(server, t.OpenedFresh(t.a), reader, {}, map[]))
    ensures Reached(t.Stage(server, Wrote(t, t.a, next), reader, {}, Merge(map[], FirstOps(t.a, next))))
  {
    var s := t.Stage(server, t.OpenedFresh(t.a), reader, {}, map[]);
    ReachedOk(s);
    assert s.clients[t.a] == t.OpenedFresh(t.a) && ClientOk(map[], Log(s), t.doc, t.a, s.clients[t.a]);
    FirstEdit(map[], t.doc, t.a, next);
    WithWriter(t, server, t.OpenedFresh(t.a), reader, {}, map[], Wrote(t, t.a, next));
    ReachStep(s, Edit(t.a, [], next, Typing(next)),
              t.Stage(server, Wrote(t, t.a, next), reader, {}, Merge(map[], FirstOps(t.a, next))));
  }

  /** A connection to an empty log. */
  function EmptyAnswer(): SyncMessage {
    SyncMessage([], 0, None)
  }

  function Joined0(k: Client): Client {
    k.(session := Some(Session(Joined, [Sync(EmptyAnswer())], true, [])))
  }

  function EmptyServer(): ServerDb {
    ServerDb(map[], 0, map[])
  }

  lemma FirstAnswer(lastServerSeq: int, capable: bool, m: SyncMessage)
    ensures Answered(Session(Joining(lastServerSeq, capable), [], true, []), m) == Session(Joined, [Sync(m)], true, [])
  {
    assert [] + [Sync(m)] == [Sync(m)];
  }

  lemma WriterJoins(t: Cast, writer: Client, reader: Client, created: OpMap)
    requires t.Ok() && Reached(t.Stage(EmptyServer(), writer, reader, {}, created))
    requires writer.replica.Some? && writer.session.None? && LastServerSeq(writer.db, t.doc) == 0
    ensures Reached(t.Stage(EmptyServer(), Joined0(writer), reader, {}, created))
  {
    var joining := writer.(session := Some(Session(Joining(0, false), [], true, [])));
    WithWriter(t, EmptyServer(), writer, reader, {}, created, joining);
    WithWriter(t, EmptyServer(), joining, reader, {}, created, Joined0(writer));
    var s0, s1 := t.Stage(EmptyServer(), writer, reader, {}, created),
      t.Stage(EmptyServer(), joining, reader, {}, created);
    var s2 := t.Stage(EmptyServer(), Joined0(writer), reader, {}, created);
    assert s0.clients[t.a] == writer && s1.clients[t.a] == joining;
    ReachStep(s0, Connect(t.a, false, 0), s1);
    FirstAnswer(0, false, EmptyAnswer());
    ReachStep(s1, Join(t.a, EmptyAnswer()), s2);
  }

  lemma ReaderJoins(t: Cast, writer: Client, reader: Client, submitted: set<Operation>, created: OpMap)
    requires t.Ok() && Reached(t.Stage(EmptyServer(), writer, reader, submitted, created))
    requires reader.replica.Some? && reader.session.None? && LastServerSeq(reader.db, t.doc) == 0
    ensures Reached(t.Stage(EmptyServer(), writer, Joined0(reader), submitted, created))
  {
    var joining := reader.(session := Some(Session(Joining(0, false), [], true, [])));
    WithReader(t, EmptyServer(), writer, reader, submitted, created, joining);
    WithReader(t, EmptyServer(), writer, joining, submitted, created, Joined0(reader));
    var s0 := t.Stage(EmptyServer(), writer, reader, submitted, created);
    var s1 := t.Stage(EmptyServer(), writer, joining, submitted, created);
    var s2 := t.Stage(EmptyServer(), writer, Joined0(reader), submitted, created);
    assert s0.clients[t.b] == reader && s1.clients[t.b] == joining;
    ReachStep(s0, Connect(t.b, false, 0), s1);
    FirstAnswer(0, false, EmptyAnswer());
    ReachStep(s1, Join(t.b, EmptyAnswer()), s2);
  }

  lemma Prefixes<T>(s: seq<T>)
    ensures s[..0] == [] && s[..|s|] == s
    ensures forall k | 0 <= k < |s| :: s[..k + 1] == s[..k] + [s[k]]
  {}

  lemma AmongMore(ops: seq<Operation>, k: nat)
    requires k < |ops|
    ensures ops[..k + 1] == ops[..k] + [ops[k]] && ops[k] in ops
    ensures Among(ops[..k + 1]) == Among(ops[..k]) + {ops[k]}
  {
    Prefixes(ops);
  }

  /** The writer holds the operation in its tables as its own. */
  ghost predicate Owns(t: Cast, writer: Client, op: Operation) {
    op.opId in DocOps(writer.db, t.doc) && DocOps(writer.db, t.doc)[op.opId] == op && op.clientId == t.a
  }

  lemma {:induction false} WriterSubmits(t: Cast, writer: Client, reader: Client, ops: seq<Operation>, created: OpMap,
          k: nat)
    requires t.Ok() && k <= |ops| && (forall o | o in ops :: Owns(t, writer, o))
    requires writer.session.Some? && writer.session.value.phase.Joined?
    requires Reached(t.Stage(EmptyServer(), writer, reader, {}, created))
    ensures Reached(t.Stage(EmptyServer(), writer, reader, Among(ops[..k]), created))
    decreases k
  {
    if k == 0 {
      assert Among(ops[..0]) == {};
    } else {
      WriterSubmits(t, writer, reader, ops, created, k - 1);
      AmongMore(ops, k - 1);
      var s := t.Stage(EmptyServer(), writer, reader, Among(ops[..k - 1]), created);
      assert s.clients[t.a] == writer;
      ReachStep(s, Submit(t.a, ops[k - 1]), t.Stage(EmptyServer(), writer, reader, Among(ops[..k]), created));
    }
  }

  function Among(ops: seq<Operation>): set<Operation> {
    set o | o in ops
  }

  lemma WriterLeaves(t: Cast, writer: Client, reader: Client, submitted: set<Operation>, created: OpMap)
    requires t.Ok() && Reached(t.Stage(EmptyServer(), writer, reader, submitted, created))
    ensures Reached(t.Stage(EmptyServer(), writer.(session := None), reader, submitted, created))
  {
    var s := t.Stage(EmptyServer(), writer, reader, submitted, created);
    WithWriter(t, EmptyServer(), writer, reader, submitted, created, writer.(session := None));
    assert s.clients[t.a] == writer;
    ReachStep(s, Disconnect(t.a), t.Stage(EmptyServer(), writer.(session := None), reader, submitted, created));
  }

  /** The writer has typed, submitted everything and left; the reader has done nothing. */
  lemma WriterDone(t: Cast, next: seq<JsString>)
    requires t.Ok() && CanType(t.a, next)
    ensures var ops := FirstOps(t.a, next);
      Reached(t.Stage(EmptyServer(), Wrote(t, t.a, next), t.Fresh(t.b), Among(ops), Merge(map[], ops)))
  {
    var ops, writer, reader := FirstOps(t.a, next), Wrote(t, t.a, next), t.Fresh(t.b);
    Start(t);
    FreshTables(t, t.a);
    FirstEdit(map[], t.doc, t.a, next);
    WriterOpens(t, EmptyServer(), reader, {}, map[]);
    WriterTypes(t, EmptyServer(), reader, next);
    WriterJoins(t, writer, reader, Merge(map[], ops));
    WriterSubmits(t, Joined0(writer), reader, ops, Merge(map[], ops), |ops|);
    Prefixes(ops);
    assert Joined0(writer).(session := None) == writer;
    WriterLeaves(t, Joined0(writer), reader, Among(ops), Merge(map[], ops));
  }

  // ----- typing in two edits

  /** The edit that appends a second value to the first one. */
  function TypingOn(c: ClientId, value: JsString): LocalTextEdit {
    LocalTextEdit([], MakeOperationId(c, 1), [value])
  }

  lemma {:induction false} OpsInTwo(c: ClientId, next: seq<JsString>)
    requires |next| == 2
    ensures FirstOps(c, next) == FirstOps(c, next[..1]) + EditOps(c, 2, 1, TypingOn(c, next[1]))
    ensures |FirstOps(c, next[..1])| == |EditOps(c, 2, 1, TypingOn(c, next[1]))| == 1
  {
    var ops, first, second := FirstOps(c, next), FirstOps(c, next[..1]), EditOps(c, 2, 1, TypingOn(c, next[1]));
    assert ops[0] == OpAt(c, 1, 0, Typing(next), 0) == OpAt(c, 1, 0, Typing(next[..1]), 0) == first[0];
    assert ops[1] == OpAt(c, 1, 0, Typing(next), 1) == OpAt(c, 2, 1, TypingOn(c, next[1]), 0) == second[0];
  }

  lemma TablesInTwo(db: Database, doc: DocId, c: ClientId, next: seq<JsString>)
    requires |next| == 2 && db.clientMeta == Some(ClientMeta(c, 1, 0))
    ensures var first := Edited(db, doc, Typing(next[..1]));
      && Edited(first, doc, TypingOn(c, next[1])) == Edited(db, doc, Typing(next))
      && EditedOps(first, TypingOn(c, next[1])) == EditOps(c, 2, 1, TypingOn(c, next[1]))
  {
    var first := Edited(db, doc, Typing(next[..1]));
    var one, two := FirstOps(c, next[..1]), EditOps(c, 2, 1, TypingOn(c, next[1]));
    OpsInTwo(c, next);
    assert (one + two)[..1] == one && two[..0] == [] && one[..0] == [];
    assert first.clientMeta == Some(ClientMeta(c, 2, 1));
    assert AddRecords(db.operations, doc, one + two) == AddRecords(AddRecords(db.operations, doc, one), doc, two);
    assert AddMarkers(db.outbox, doc, one + two) == AddMarkers(AddMarkers(db.outbox, doc, one), doc, two);
  }

  lemma ReplicaInTwo(c: ClientId, next: seq<JsString>)
    requires CanType(c, next) && |next| == 2
    ensures var one, two := FirstOps(c, next[..1]), EditOps(c, 2, 1, TypingOn(c, next[1]));
      && Replay(Replay(map[], one).known, two).known == Replay(map[], FirstOps(c, next)).known
      && Merge(Merge(map[], one), two) == Merge(map[], FirstOps(c, next))
  {
    var one, two := FirstOps(c, next[..1]), EditOps(c, 2, 1, TypingOn(c, next[1]));
    OpsInTwo(c, next);
    FirstReplay(c, next[..1]);
    ReplayAppend(map[], one, two);
    MergeAppend(map[], one, two);
  }

  /** Typing the second value after the first leaves the client as if it had typed both. */
  lemma WroteInTwo(t: Cast, next: seq<JsString>)
    requires CanType(t.a, next) && |next| == 2
    ensures AfterEdit(t.doc, Joined0(Wrote(t, t.a, next[..1])), TypingOn(t.a, next[1])) == Joined0(Wrote(t, t.a, next))
    ensures EditedOps(Wrote(t, t.a, next[..1]).db, TypingOn(t.a, next[1])) == EditOps(t.a, 2, 1, TypingOn(t.a, next[1]))
  {
    TablesInTwo(FreshDatabase(t.a, t.doc), t.doc, t.a, next);
    ReplicaInTwo(t.a, next);
  }

  lemma FirstValueKnown(c: ClientId, next: seq<JsString>)
    requires CanType(c, next) && |next| == 2
    ensures forall x :: x in Replay(map[], FirstOps(c, next[..1])).known <==> x == MakeOperationId(c, 1)
  {
    var one := FirstOps(c, next[..1]);
    FirstReplay(c, next[..1]);
    OpsInTwo(c, next);
    assert one == [OpAt(c, 1, 0, Typing(next[..1]), 0)];
    MergeMeaning(map[], one);
  }

  lemma FirstValueShown(U: OpMap, doc: DocId, c: ClientId, next: seq<JsString>)
    requires UniverseOk(U) && TablesOk(U, doc, c, FreshDatabase(c, doc)) && CanType(c, next) && |next| == 2
    ensures var K := Replay(map[], FirstOps(c, next[..1])).known;
      WellKeyed(K) && EditBetween(DocumentOf(K), next) == Some(TypingOn(c, next[1]))
  {
    FreshKnows(c, doc);
    FirstEdit(U, doc, c, next[..1]);
    FirstEditBetween(next[..1]);
    TypedIsPersisted(U, doc, c, FreshDatabase(c, doc), [], next[..1], Typing(next[..1]));
    FirstValueKnown(c, next);
    FirstBetween(Replay(map[], FirstOps(c, next[..1])).known, c, next);
  }

  lemma FirstBetween(K: OpMap, c: ClientId, next: seq<JsString>)
    requires WellKeyed(K) && |next| == 2 && Values(DocumentOf(K)) == next[..1]
    requires forall x :: x in K <==> x == MakeOperationId(c, 1)
    ensures EditBetween(DocumentOf(K), next) == Some(TypingOn(c, next[1]))
  {
    var cur := DocumentOf(K);
    assert |cur| == 1 && cur[0] in cur && cur[0].value == Values(cur)[0] == next[..1][0];
    OneMoreBetween(cur, next);
  }

  lemma OneMoreBetween(cur: seq<VisibleElement>, next: seq<JsString>)
    requires |cur| == 1 && |next| == 2 && cur[0].value == next[0]
    ensures EditBetween(cur, next) == Some(LocalTextEdit([], cur[0].id, [next[1]]))
  {
    assert Values(cur)[0] == next[0];
    assert PrefixFrom(Values(cur), next, 1) == 1;
    assert SuffixFrom(Values(cur), next, 1, 0) == 0;
    assert ElementIds(cur[1..1]) == [] && next[1..2] == [next[1]];
  }

  lemma WriterTypesOn(t: Cast, reader: Client, next: seq<JsString>)
    requires t.Ok() && CanType(t.a, next) && |next| == 2
    requires Reached(t.Stage(EmptyServer(), Joined0(Wrote(t, t.a, next[..1])), reader, {},
                             Merge(map[], FirstOps(t.a, next[..1]))))
    ensures Reached(t.Stage(EmptyServer(), Joined0(Wrote(t, t.a, next)), reader, {},
                            Merge(map[], FirstOps(t.a, next))))
  {
    var k, edit := Joined0(Wrote(t, t.a, next[..1])), TypingOn(t.a, next[1]);
    var U := Merge(map[], FirstOps(t.a, next[..1]));
    var s := t.Stage(EmptyServer(), k, reader, {}, U);
    ReachedOk(s);
    assert s.clients[t.a] == k && ClientOk(U, Log(s), t.doc, t.a, k);
    FreshTables(t, t.a);
    FirstValueShown(map[], t.doc, t.a, next);
    var cur := DocumentOf(k.replica.value);
    OpsInTwo(t.a, next);
    TypedIsPersisted(U, t.doc, t.a, k.db, cur, next, edit);
    WroteInTwo(t, next);
    ReplicaInTwo(t.a, next);
    WithWriter(t, EmptyServer(), k, reader, {}, U, Joined0(Wrote(t, t.a, next)));
    ReachStep(s, Edit(t.a, cur, next, edit),
              t.Stage(EmptyServer(), Joined0(Wrote(t, t.a, next)), reader, {}, Merge(map[], FirstOps(t.a, next))));
  }

  lemma BothAmong(a: Operation, b: Operation)
    ensures Among([b, a][..2]) == Among([a, b])
  {
    assert [b, a][..2] == [b, a];
    assert forall o :: o in [b, a] <==> o in [a, b];
  }

  lemma FirstTyped(t: Cast, next: seq<JsString>)
    requires t.Ok() && CanType(t.a, next)
    ensures Reached(t.Stage(EmptyServer(), Joined0(Wrote(t, t.a, next)), t.Fresh(t.b), {},
                            Merge(map[], FirstOps(t.a, next))))
  {
    Start(t);
    FreshTables(t, t.a);
    FirstEdit(map[], t.doc, t.a, next);
    WriterOpens(t, EmptyServer(), t.Fresh(t.b), {}, map[]);
    WriterTypes(t, EmptyServer(), t.Fresh(t.b), next);
    WriterJoins(t, Wrote(t, t.a, next), t.Fresh(t.b), Merge(map[], FirstOps(t.a, next)));
  }

  lemma WriterOwns(t: Cast, next: seq<JsString>)
    requires t.Ok() && CanType(t.a, next)
    ensures forall o | o in FirstOps(t.a, next) :: Owns(t, Joined0(Wrote(t, t.a, next)), o)
  {
    FreshTables(t, t.a);
    FirstEdit(map[], t.doc, t.a, next);
  }

  lemma SecondOvertakes(t: Cast, reader: Client, next: seq<JsString>, created: OpMap)
    requires t.Ok() && CanType(t.a, next) && |next| == 2
    requires Reached(t.Stage(EmptyServer(), Joined0(Wrote(t, t.a, next)), reader, {}, created))
    ensures Reached(t.Stage(EmptyServer(), Wrote(t, t.a, next), reader, Among(FirstOps(t.a, next)), created))
  {
    var ops, writer := FirstOps(t.a, next), Wrote(t, t.a, next);
    WriterOwns(t, next);
    OpsInTwo(t.a, next);
    assert ops == [ops[0], ops[1]];
    WriterSubmits(t, Joined0(writer), reader, [ops[1], ops[0]], created, 2);
    BothAmong(ops[0], ops[1]);
    assert Joined0(writer).(session := None) == writer;
    WriterLeaves(t, Joined0(writer), reader, Among(ops), created);
  }

  /** The writer types one value before it joins and another after that. The second, sent
      at once, overtakes the first, which is still to be sent from the outbox. */
  lemma WriterDoneInTwo(t: Cast, next: seq<JsString>)
    requires t.Ok() && CanType(t.a, next) && |next| == 2
    ensures var ops := FirstOps(t.a, next);
      Reached(t.Stage(EmptyServer(), Wrote(t, t.a, next), t.Fresh(t.b), Among(ops), Merge(map[], ops)))
  {
    FirstTyped(t, next[..1]);
    WriterTypesOn(t, t.Fresh(t.b), next);
    SecondOvertakes(t, t.Fresh(t.b), next, Merge(map[], FirstOps(t.a, next)));
  }

  // ----- the server accepts

  function NextRow(server: ServerDb, op: Operation): Sequenced {
    Sequenced(server.sequence + 1, op)
  }

  lemma BothHear(t: Cast, writer: Client, reader: Client, m: ServerMessage)
    requires t.Ok()
    ensures Broadcast(map[t.a := writer, t.b := reader], m) == map[t.a := Deliver(writer, m), t.b := Deliver(reader, m)]
  {}

  lemma Accepted(s: System, op: Operation, clients: map<ClientId, Client>)
    requires Reached(s) && op in s.submitted && IsValidOperation(op) && s.server.sequence < MAX_SAFE_INTEGER
    requires forall r | r in Log(s) :: r.operation.opId != op.opId
    requires clients == Broadcast(s.clients, Live(NextRow(s.server, op)))
    ensures Reached(s.(server := Appended(s.server, s.doc, NextRow(s.server, op)), clients := clients))
  {
    ReachStep(s, Accept(op, 0), s.(server := Appended(s.server, s.doc, NextRow(s.server, op)), clients := clients));
  }

  lemma ServerAccepts(t: Cast, server: ServerDb, writer: Client, reader: Client, submitted: set<Operation>,
          created: OpMap, op: Operation)
    requires t.Ok() && Reached(t.Stage(server, writer, reader, submitted, created))
    requires op in submitted && IsValidOperation(op) && server.sequence < MAX_SAFE_INTEGER
    requires forall r | r in LogOf(server, t.doc) :: r.operation.opId != op.opId
    ensures var m := Live(NextRow(server, op));
      Reached(t.Stage(Appended(server, t.doc, NextRow(server, op)), Deliver(writer, m), Deliver(reader, m), submitted,
                      created))
  {
    var m := Live(NextRow(server, op));
    BothHear(t, writer, reader, m);
    Accepted(t.Stage(server, writer, reader, submitted, created), op,
             map[t.a := Deliver(writer, m), t.b := Deliver(reader, m)]);
  }

  function Rows(ops: seq<Operation>): (rows: seq<Sequenced>)
    ensures |rows| == |ops| && forall i | 0 <= i < |ops| :: rows[i] == Sequenced(i + 1, ops[i])
  {
    seq(|ops|, i requires 0 <= i < |ops| => Sequenced(i + 1, ops[i]))
  }

  /** A server that accepted these operations in this order. */
  function ServerWith(doc: DocId, ops: seq<Operation>): ServerDb {
    if ops == [] then EmptyServer() else ServerDb(map[doc := Rows(ops)], |ops|, map[])
  }

  lemma OneMoreRow(doc: DocId, ops: seq<Operation>, op: Operation)
    ensures LogOf(ServerWith(doc, ops), doc) == Rows(ops)
    ensures Appended(ServerWith(doc, ops), doc, NextRow(ServerWith(doc, ops), op)) == ServerWith(doc, ops + [op])
  {
    assert Rows(ops) + [Sequenced(|ops| + 1, op)] == Rows(ops + [op]);
    assert map[doc := Rows(ops)][doc := Rows(ops + [op])] == map[doc := Rows(ops + [op])];
  }

  lemma RowMeans(ops: seq<Operation>, r: Sequenced)
    requires r in Rows(ops)
    ensures 1 <= r.serverSeq <= |ops| && ops[r.serverSeq - 1] == r.operation
  {
    var i :| 0 <= i < |ops| && Rows(ops)[i] == r;
  }

  ghost predicate Taken(t: Cast, writer: Client, reader: Client, ops: seq<Operation>, created: OpMap, k: nat) {
    k <= |ops| ==> Reached(t.Stage(ServerWith(t.doc, ops[..k]), writer, reader, Among(ops), created))
  }

  lemma {:induction false} StepByStep(taken: nat -> bool, k: nat)
    requires taken(0) && forall i: nat | taken(i) :: taken(i + 1)
    ensures taken(k)
  {
    if k > 0 { StepByStep(taken, k - 1); }
  }

  /** With nobody connected the server takes as many of the operations as it likes. */
  lemma ServerTakes(t: Cast, writer: Client, reader: Client, ops: seq<Operation>, created: OpMap, k: nat)
    requires t.Ok() && k <= |ops| <= MAX_SAFE_INTEGER && FreshIds(map[], ops) && AllValid(ops)
    requires writer.session.None? && reader.session.None?
    requires Reached(t.Stage(EmptyServer(), writer, reader, Among(ops), created))
    ensures Reached(t.Stage(ServerWith(t.doc, ops[..k]), writer, reader, Among(ops), created))
  {
    var taken := (i: nat) => Taken(t, writer, reader, ops, created, i);
    Prefixes(ops);
    forall i: nat | taken(i) ensures taken(i + 1) {
      if i < |ops| { TakeOne(t, writer, reader, ops, created, i); }
    }
    StepByStep(taken, k);
    assert Taken(t, writer, reader, ops, created, k);
  }

  lemma TakeOne(t: Cast, writer: Client, reader: Client, ops: seq<Operation>, created: OpMap, k: nat)
    requires t.Ok() && k < |ops| <= MAX_SAFE_INTEGER && FreshIds(map[], ops) && AllValid(ops)
    requires writer.session.None? && reader.session.None?
    requires Reached(t.Stage(ServerWith(t.doc, ops[..k]), writer, reader, Among(ops), created))
    ensures Reached(t.Stage(ServerWith(t.doc, ops[..k + 1]), writer, reader, Among(ops), created))
  {
    var server, op := ServerWith(t.doc, ops[..k]), ops[k];
    AmongMore(ops, k);
    OneMoreRow(t.doc, ops[..k], op);
    NotAmongTaken(ops, k, t.doc);
    ServerAccepts(t, server, writer, reader, Among(ops), created, op);
  }

  lemma NotAmongTaken(ops: seq<Operation>, k: nat, doc: DocId)
    requires k < |ops| && FreshIds(map[], ops)
    ensures forall r | r in Rows(ops[..k]) :: r.operation.opId != ops[k].opId
  {
    forall r | r in Rows(ops[..k]) ensures r.operation.opId != ops[k].opId {
      RowMeans(ops[..k], r);
      assert ops[r.serverSeq - 1].opId != ops[k].opId;
    }
  }

  // ----- an offered snapshot

  ghost predicate ExportedNodesOf(K: OpMap, ns: seq<TextNode>) {
    && StrictlySorted((m: TextNode, n: TextNode) => StringLess(m.id, n.id), ns)
    && (forall i, j | 0 <= i < j < |ns| :: ns[i].id != ns[j].id)
    && (forall n | n in ns :: n.id in K && K[n.id] == InsertOf(n) && (n.tombstone <==> Deleted(K, n.id)))
    && (forall x | IsInsert(K, x) :: exists n :: n in ns && n.id == x)
  }

  lemma NodesListed(K: OpMap, ids: seq<Id>, ns: seq<TextNode>)
    requires WellFormed(K) && StrictlySorted(StringLess, ids) && forall x :: x in ids <==> IsInsert(K, x)
    requires |ns| == |ids| && forall i | 0 <= i < |ns| ::
      IsInsert(K, ids[i]) && ns[i] == NodeFor(K[ids[i]], Deleted(K, ids[i]))
    ensures ExportedNodesOf(K, ns)
  {
    forall i, j | 0 <= i < j < |ns| ensures ns[i].id != ns[j].id { StringLessIrreflexive(ids[i]); }
    forall x | IsInsert(K, x) ensures exists n :: n in ns && n.id == x {
      var i :| 0 <= i < |ids| && ids[i] == x;
      assert ns[i] in ns;
    }
  }

  lemma ExportOfNodes(K: OpMap) returns (ns: seq<TextNode>)
    requires WellFormed(K)
    ensures ExportedNodesOf(K, ns)
  {
    var inserts := set x | x in K && K[x].Insert?;
    StringOrder(inserts);
    var ids := SortedListing(StringLess, inserts);
    ns := NodesInOrder(map x | x in inserts :: NodeFor(K[x], Deleted(K, x)), ids);
    NodesListed(K, ids, ns);
  }

  lemma ExportOfDeletes(K: OpMap) returns (ids: seq<Id>)
    ensures StrictlySorted(StringLess, ids) && forall x :: x in ids <==> x in K && K[x].Delete?
  {
    var deletes := set x | x in K && K[x].Delete?;
    StringOrder(deletes);
    ids := SortedListing(StringLess, deletes);
  }

  /** Every well-formed operation set has an export. */
  lemma ExportExists(K: OpMap) returns (snap: Snapshot)
    requires WellFormed(K)
    ensures IsExport(snap, K)
  {
    var ns := ExportOfNodes(K);
    var deleteIds := ExportOfDeletes(K);
    var ds := DeletesInOrder(K, deleteIds);
    ExportedDeletes(K, deleteIds, ds);
    snap := Snapshot(1, ns, ds);
  }

  function SnapshotOnly(server: ServerDb, doc: DocId, row: SnapshotRow): ServerDb {
    server.(snapshots := map[doc := row])
  }

  /** The answer of a server that has no snapshot yet but enough operations for one. */
  function Offer(row: SnapshotRow): SyncMessage {
    SyncMessage([], row.snapshotSeq, Some(EnvelopeOf(row)))
  }

  lemma {:induction false} RowsInOrder(ops: seq<Operation>)
    ensures Latest(Rows(ops)) == |ops| && OpsOf(Rows(ops)) == ops
    ensures Between(Rows(ops), 0, |ops|) == Rows(ops) && Between(Rows(ops), |ops|, |ops|) == []
  {
    BetweenAll(Rows(ops), 0, |ops|);
    BetweenNothing(Rows(ops), |ops|, |ops|);
  }

  lemma {:induction false} ServerOffers(doc: DocId, ops: seq<Operation>, row: SnapshotRow)
    requires |ops| == SNAPSHOT_OPERATION_THRESHOLD && Complete(Replay(map[], ops))
    requires row.snapshotVersion == SERVER_SNAPSHOT_ENVELOPE_VERSION && row.snapshotSeq == |ops|
    requires IsExport(row.snapshot, Replay(map[], ops).known)
    ensures Answers(ServerWith(doc, ops), doc, 0, true, Offer(row), SnapshotOnly(ServerWith(doc, ops), doc, row))
  {
    var db, db' := ServerWith(doc, ops), SnapshotOnly(ServerWith(doc, ops), doc, row);
    RowsInOrder(ops);
    assert LogOf(db, doc) == Rows(ops) && map[][doc := row] == map[doc := row];
    assert Prepared(db, doc, Some(row), db');
  }
}
