/** When exactly a client may go on after a missed message. */
module SyncCursors {
  import opened Operations
  import opened AnchorGraph
  import opened LocalStore
  import opened OperationStores
  import opened Replays
  import opened ServerSnapshots
  import opened Snapshots
  import opened StoreFacts
  import opened SyncInvariants
  import opened SyncMessages
  import opened SyncSystems

  // Each message covers the rows that its confirmation lets the cursor pass; a message
  // that was refused, or lost to a storage failure, leaves its rows to be recovered.

  // ----- one ingest

  ghost predicate Brings(batch: seq<Sequenced>, x: Id) {
    exists b :: b in batch && b.operation.opId == x
  }

  lemma {:induction false} MergeKnows(K: OpMap, batch: seq<Sequenced>)
    requires OnePayload(K, OpsOf(batch))
    ensures forall x :: x in Merge(K, OpsOf(batch)) <==> x in K || Brings(batch, x)
  {
    var ops := OpsOf(batch);
    MergeMeaning(K, ops);
    forall x ensures x in Merge(K, ops) <==> x in K || Brings(batch, x) {
      if o :| o in ops && o.opId == x {
        var i :| 0 <= i < |ops| && ops[i] == o;
        assert batch[i] in batch;
      }
      if b :| b in batch && b.operation.opId == x {
        var i :| 0 <= i < |batch| && batch[i] == b;
        assert ops[i] in ops;
      }
    }
  }

  /** Every row between the cursor and the confirmed number is in the batch or known. */
  ghost predicate ClosesGap(log: seq<Sequenced>, doc: DocId, db: Database, batch: seq<Sequenced>, confirmed: int) {
    forall r | r in log && LastServerSeq(db, doc) < r.serverSeq <= confirmed ::
      r.operation.opId in KnownOf(db, doc) || Brings(batch, r.operation.opId)
  }

  /** Ingesting a batch keeps the cursor sound exactly when it closes the gap. */
  lemma CursorSoundExactly(U: OpMap, log: seq<Sequenced>, doc: DocId, c: ClientId, db: Database, batch: seq<Sequenced>,
          confirmed: int)
    requires UniverseOk(U) && TablesOk(U, doc, c, db) && BatchOk(U, log, batch, confirmed)
    requires CursorSound(log, doc, db)
    ensures Ingested(db, doc, batch, confirmed).Success?
    ensures CursorSound(log, doc, Ingested(db, doc, batch, confirmed).value) <==>
      ClosesGap(log, doc, db, batch, confirmed)
  {
    IngestAccepted(U, log, doc, c, db, batch, confirmed);
    IngestedTables(U, log, doc, c, db, batch, confirmed);
    MergeKnows(KnownOf(db, doc), batch);
    CursorMoves(db, doc, batch, confirmed);
  }

  // ----- sequences of messages

  lemma {:induction false} HorizonBounds(cursor: int, queue: seq<ServerMessage>)
    ensures Horizon(cursor, queue) >= cursor && forall m | m in queue :: Horizon(cursor, queue) >= Confirmed(m)
    decreases |queue|
  {
    if queue != [] {
      HorizonBounds(Max(cursor, Confirmed(queue[0])), queue[1..]);
      assert forall m | m in queue :: m == queue[0] || m in queue[1..];
    }
  }

  /** Every row up to the horizon is covered by one of the messages. */
  lemma {:induction false} FlowsCover(log: seq<Sequenced>, cursor: int, queue: seq<ServerMessage>, r: Sequenced)
    requires Flows(log, cursor, queue) && r in log && cursor < r.serverSeq <= Horizon(cursor, queue)
    ensures exists m :: m in queue && Covers(m, r)
    decreases |queue|
  {
    if r.serverSeq <= Confirmed(queue[0]) {
      assert queue[0] in queue && Covers(queue[0], r);
    } else {
      FlowsCover(log, Max(cursor, Confirmed(queue[0])), queue[1..], r);
      var m :| m in queue[1..] && Covers(m, r);
      assert m in queue;
    }
  }

  lemma {:induction false} FlowsPrefix(log: seq<Sequenced>, cursor: int, a: seq<ServerMessage>, b: seq<ServerMessage>)
    requires Flows(log, cursor, a + b)
    ensures Flows(log, cursor, a)
    decreases |a|
  {
    if a != [] {
      assert (a + b)[1..] == a[1..] + b;
      FlowsPrefix(log, Max(cursor, Confirmed(a[0])), a[1..], b);
    }
  }

  /** Once the cursor has passed what a message confirms, the message can go. */
  lemma {:induction false} FlowsWithout(log: seq<Sequenced>, cursor: int, a: seq<ServerMessage>, m: ServerMessage,
          b: seq<ServerMessage>)
    requires Flows(log, cursor, a + [m] + b)
    ensures Flows(log, Max(cursor, Confirmed(m)), a + b)
    ensures Horizon(Max(cursor, Confirmed(m)), a + b) == Horizon(cursor, a + [m] + b)
    decreases |a|
  {
    if a == [] {
      assert a + [m] + b == [m] + b && a + b == b && ([m] + b)[1..] == b;
    } else {
      assert (a + [m] + b)[1..] == a[1..] + [m] + b && (a + b)[1..] == a[1..] + b;
      FlowsWithout(log, Max(cursor, Confirmed(a[0])), a[1..], m, b);
      MaxSwaps(cursor, Confirmed(a[0]), Confirmed(m));
    }
  }

  lemma MaxSwaps(a: int, b: int, c: int)
    ensures Max(Max(a, b), c) == Max(Max(a, c), b)
  {}

  // ----- what a message carries

  lemma ItemCarried(m: ServerMessage, r: Sequenced)
    requires r in Items(m)
    ensures r.operation in OpsOf(Items(m))
  {
    var i :| 0 <= i < |Items(m)| && Items(m)[i] == r;
    assert OpsOf(Items(m))[i] == r.operation;
  }

  /** A covered row is carried. */
  lemma CoveredIsCarried(U: OpMap, log: seq<Sequenced>, sequence: int, m: ServerMessage, r: Sequenced, through: int)
    requires UniverseOk(U) && GoodLog(log, sequence) && (forall r | r in log :: Made(U, r.operation))
    requires MessageOk(log, m) && r in log && Covers(m, r) && r.serverSeq <= through
    ensures CarriesThrough(m, r.operation, through)
  {
    if r !in Items(m) {
      var row := RowOf(m.sync.bootstrap.value);
      var K0 := Prefix(log, row.snapshotSeq).known;
      PrefixMade(U, log, sequence, row, K0);
      ListedInSnapshot(row.snapshot, K0, r.operation);
    }
  }

  /** A snapshot holds exactly the operations it describes. */
  lemma ListedInSnapshot(snap: Snapshot, K: OpMap, op: Operation)
    requires Lists(snap, K)
    ensures InSnapshot(snap, op) <==> op.opId in K && K[op.opId] == op
  {
    if op.opId in K && K[op.opId] == op && op.Insert? {
      assert IsInsert(K, op.opId);
      var n :| n in snap.nodes && n.id == op.opId;
    }
  }

  /** Whatever a message carries stands in a row that the message confirms. */
  lemma CarriedIsLogged(log: seq<Sequenced>, m: ServerMessage, op: Operation)
    requires MessageOk(log, m) && Carries(m, op)
    ensures exists r :: r in log && r.operation == op && r.serverSeq <= Confirmed(m)
  {
    if op in OpsOf(Items(m)) {
      var i :| 0 <= i < |OpsOf(Items(m))| && OpsOf(Items(m))[i] == op;
      assert Items(m)[i] in Items(m) && Items(m)[i].operation == op;
    } else {
      SnapshotIsLogged(log, RowOf(m.sync.bootstrap.value), op);
    }
  }

  lemma SnapshotIsLogged(log: seq<Sequenced>, row: SnapshotRow, op: Operation)
    requires StandsForPrefix(log, row) && InSnapshot(row.snapshot, op)
    ensures exists r :: r in log && r.operation == op && r.serverSeq <= row.snapshotSeq
  {
    var prefix := Between(log, 0, row.snapshotSeq);
    var K0 := Prefix(log, row.snapshotSeq).known;
    ListedInSnapshot(row.snapshot, K0, op);
    ReplayedIsGiven(OpsOf(prefix), op);
    var i :| 0 <= i < |prefix| && OpsOf(prefix)[i] == op;
    BetweenMembers(log, 0, row.snapshotSeq);
    assert prefix[i] in prefix;
  }

  lemma {:induction false} ReplayedIsGiven(ops: seq<Operation>, op: Operation)
    requires Replay(map[], ops).ok && op.opId in Replay(map[], ops).known && Replay(map[], ops).known[op.opId] == op
    ensures op in ops
  {
    AllAttachedWellFormed(map[]);
    ReplayAccepts(map[], ops);
    MergeMeaning(map[], ops);
  }

  // ----- going on after messages that were not taken

  lemma RecoveredClosesGap(U: OpMap, log: seq<Sequenced>, sequence: int, doc: DocId, c: ClientId, k: Client)
    requires UniverseOk(U) && ClientOk(U, log, doc, c, k) && Tracked(log, doc, k) && HasMessage(k)
    requires GoodLog(log, sequence) && (forall r | r in log :: Made(U, r.operation))
    requires !IsBootstrap(FirstMessage(k)) && Recovered(doc, k, FirstMessage(k))
    ensures ClosesGap(log, doc, k.db, Items(FirstMessage(k)), Confirmed(FirstMessage(k)))
  {
    var cursor, ses, m := LastServerSeq(k.db, doc), k.session.value, FirstMessage(k);
    var received := ses.missed + [m];
    HoldsInOrder(U, log, doc, c, k);
    assert Messages(ses) == received + ses.queue[1..];
    FlowsPrefix(log, cursor, received, ses.queue[1..]);
    HorizonBounds(cursor, received);
    assert m in received;
    forall r | r in log && cursor < r.serverSeq <= Confirmed(m)
      ensures r.operation.opId in KnownOf(k.db, doc) || Brings(Items(m), r.operation.opId)
    {
      FlowsCover(log, cursor, received, r);
      var m0 :| m0 in received && Covers(m0, r);
      CoveredIsRecovered(U, log, sequence, doc, k, m0, r);
    }
  }

  lemma CoveredIsRecovered(U: OpMap, log: seq<Sequenced>, sequence: int, doc: DocId, k: Client, m0: ServerMessage,
          r: Sequenced)
    requires UniverseOk(U) && GoodLog(log, sequence) && (forall r | r in log :: Made(U, r.operation))
    requires HasMessage(k) && !IsBootstrap(FirstMessage(k)) && Recovered(doc, k, FirstMessage(k))
    requires m0 in k.session.value.missed + [FirstMessage(k)] && MessageOk(log, m0)
    requires r in log && Covers(m0, r) && r.serverSeq <= Confirmed(FirstMessage(k))
    ensures r.operation.opId in KnownOf(k.db, doc) || Brings(Items(FirstMessage(k)), r.operation.opId)
  {
    var m := FirstMessage(k);
    if m0 in k.session.value.missed {
      CoveredIsCarried(U, log, sequence, m0, r, Confirmed(m));
      CarriedIsBrought(m, r.operation);
    } else {
      assert m0 == m && r in Items(m);
    }
  }

  lemma CarriedIsBrought(m: ServerMessage, op: Operation)
    requires !IsBootstrap(m)
    ensures Carries(m, op) ==> Brings(Items(m), op.opId)
    ensures (exists b :: b in Items(m) && b.operation == op) ==> Carries(m, op)
  {
    if Carries(m, op) {
      var i :| 0 <= i < |OpsOf(Items(m))| && OpsOf(Items(m))[i] == op;
      assert Items(m)[i] in Items(m);
    }
    if b :| b in Items(m) && b.operation == op { ItemCarried(m, b); }
  }

  /** What a missed message carried through `through` stands in a row up to there. */
  lemma CarriedThroughIsLogged(log: seq<Sequenced>, m0: ServerMessage, op: Operation, through: int)
    requires MessageOk(log, m0) && CarriesThrough(m0, op, through) && (IsBootstrap(m0) ==> Confirmed(m0) <= through)
    ensures exists r :: r in log && r.operation == op && r.serverSeq <= through
  {
    if r :| r in Items(m0) && r.operation == op && r.serverSeq <= through {
      assert r in log;
    } else {
      SnapshotIsLogged(log, RowOf(m0.sync.bootstrap.value), op);
    }
  }

  /** A sound cursor afterwards means that nothing missed is lacking. */
  lemma ClosedGapIsRecovered(U: OpMap, log: seq<Sequenced>, doc: DocId, c: ClientId, k: Client)
    requires ClientOk(U, log, doc, c, k) && CursorSound(log, doc, k.db) && HasMessage(k)
    requires (forall r | r in log :: Made(U, r.operation)) && !IsBootstrap(FirstMessage(k))
    requires BootstrapsLead(Messages(k.session.value))
    requires ClosesGap(log, doc, k.db, Items(FirstMessage(k)), Confirmed(FirstMessage(k)))
    ensures Recovered(doc, k, FirstMessage(k))
  {
    var m := FirstMessage(k);
    HoldsInOrder(U, log, doc, c, k);
    forall m0, op | m0 in k.session.value.missed && CarriesThrough(m0, op, Confirmed(m))
      ensures op.opId in KnownOf(k.db, doc) || Carries(m, op)
    {
      MissedBootstrapLeads(k, m0);
      CarriedThroughIsLogged(log, m0, op, Confirmed(m));
      var r :| r in log && r.operation == op && r.serverSeq <= Confirmed(m);
      if op.opId !in KnownOf(k.db, doc) {
        var b :| b in Items(m) && b.operation.opId == op.opId;
        assert b in log && Made(U, b.operation) && Made(U, op);
        CarriedIsBrought(m, op);
      }
    }
  }

  lemma MissedBootstrapLeads(k: Client, m0: ServerMessage)
    requires HasMessage(k) && BootstrapsLead(Messages(k.session.value)) && m0 in k.session.value.missed
    ensures IsBootstrap(m0) ==> Confirmed(m0) <= Confirmed(FirstMessage(k))
  {
    var missed, messages := k.session.value.missed, Messages(k.session.value);
    var i :| 0 <= i < |missed| && missed[i] == m0;
    assert messages[i] == m0 && messages[|missed|] == FirstMessage(k);
  }

  /** Whether a client may go on: handling the next message although earlier ones were not
      taken keeps the cursor sound exactly when whatever those carried, as far as this one
      confirms, is known or part of it. */
  lemma GoingOnIsSoundExactly(U: OpMap, log: seq<Sequenced>, sequence: int, doc: DocId, c: ClientId, k: Client,
          arrived: nat)
    requires UniverseOk(U) && ClientOk(U, log, doc, c, k) && Tracked(log, doc, k) && HasMessage(k)
    requires GoodLog(log, sequence) && (forall r | r in log :: Made(U, r.operation)) && !IsBootstrap(FirstMessage(k))
    ensures k.replica.Some?
    ensures Recovered(doc, k, FirstMessage(k)) ==> CursorSound(log, doc, Handle(doc, k, arrived).db)
    ensures BootstrapsLead(Messages(k.session.value)) ==>
      (CursorSound(log, doc, Handle(doc, k, arrived).db) <==> Recovered(doc, k, FirstMessage(k)))
  {
    var m := FirstMessage(k);
    HoldsInOrder(U, log, doc, c, k);
    IngestKeeps(U, log, doc, c, k, arrived);
    CursorSoundExactly(U, log, doc, c, k.db, Items(m), Confirmed(m));
    if Recovered(doc, k, m) { RecoveredClosesGap(U, log, sequence, doc, c, k); }
    if ClosesGap(log, doc, k.db, Items(m), Confirmed(m)) && BootstrapsLead(Messages(k.session.value)) {
      ClosedGapIsRecovered(U, log, doc, c, k);
    }
  }

  // ----- tracking is kept

  lemma AdvanceCovers(log: seq<Sequenced>, cursor: int, ses: Session)
    requires SessionCovers(log, cursor, ses) && ses.queue != []
    ensures SessionCovers(log, Max(cursor, Confirmed(ses.queue[0])), Advance(ses))
  {
    var a, m, b := ses.missed, ses.queue[0], ses.queue[1..];
    assert Messages(ses) == a + [m] + b && Messages(Advance(ses)) == a + b;
    FlowsWithout(log, cursor, a, m, b);
  }

  /** A message that is not taken stays among those whose rows are still to come. */
  lemma MissCovers(log: seq<Sequenced>, cursor: int, ses: Session, arrived: nat)
    requires SessionCovers(log, cursor, ses) && ses.queue != []
    ensures SessionCovers(log, cursor, Miss(ses)) && SessionCovers(log, cursor, Refuse(ses, arrived))
  {
    var rest := ses.queue[1..];
    assert Messages(Miss(ses)) == Messages(ses);
    var kept := Refuse(ses, arrived).queue;
    var dropped := if arrived < |rest| then rest[arrived..] else [];
    assert Messages(ses) == Messages(Refuse(ses, arrived)) + dropped;
    FlowsPrefix(log, cursor, Messages(Refuse(ses, arrived)), dropped);
  }

  lemma ReconnectingCovers(log: seq<Sequenced>, doc: DocId, k: Client, capable: bool, arrived: nat)
    requires Tracked(log, doc, k)
    ensures var cursor := LastServerSeq(k.db, doc);
      SessionCovers(log, cursor, Reconnecting(k.session, Joining(cursor, capable), arrived))
  {
    if k.session.Some? {
      var ses := k.session.value;
      var kept := Arrived(ses.queue, arrived);
      assert ses.missed + ses.queue == ses.missed + kept + ses.queue[|kept|..];
      FlowsPrefix(log, LastServerSeq(k.db, doc), ses.missed + kept, ses.queue[|kept|..]);
    }
  }

  /** A careful client stays tracked, whatever it handles. */
  lemma CarefulKeepsTracked(U: OpMap, log: seq<Sequenced>, sequence: int, doc: DocId, c: ClientId, k: Client,
          arrived: nat)
    requires UniverseOk(U) && ClientOk(U, log, doc, c, k) && Tracked(log, doc, k) && HasMessage(k) && k.replica.Some?
    requires GoodLog(log, sequence) && (forall r | r in log :: Made(U, r.operation))
    requires IsBootstrap(FirstMessage(k)) || Recovered(doc, k, FirstMessage(k))
    ensures Tracked(log, doc, Handle(doc, k, arrived))
  {
    var cursor, ses := LastServerSeq(k.db, doc), k.session.value;
    AdvanceCovers(log, cursor, ses);
    if IsBootstrap(FirstMessage(k)) {
      InstallKeeps(U, log, sequence, doc, c, k, arrived);
      MissCovers(log, cursor, ses, arrived);
    } else {
      IngestKeeps(U, log, doc, c, k, arrived);
      GoingOnIsSoundExactly(U, log, sequence, doc, c, k, arrived);
    }
  }
}
