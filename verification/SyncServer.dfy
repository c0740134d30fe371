/** The server's steps keep the system's invariant: appending and broadcasting,
    echoing a retry, and answering a join. What matters is that each queued message
    in turn covers the rows that its confirmation lets the cursor pass, and that an
    open session's queue reaches to the end of the log. */
module SyncServers {
  import opened Operations
  import opened LocalStore
  import opened OperationStores
  import opened ServerSnapshots
  import opened SyncInvariants
  import opened SyncSystems

  // ----- queues

  lemma {:induction false} FlowsAppend(log: seq<Sequenced>, cursor: int, queue: seq<ServerMessage>, m: ServerMessage)
    requires Flows(log, cursor, queue) && CoversGap(log, Horizon(cursor, queue), m)
    ensures Flows(log, cursor, queue + [m]) && Horizon(cursor, queue + [m]) == Max(Horizon(cursor, queue), Confirmed(m))
    decreases |queue|
  {
    if queue == [] {
      assert [m][1..] == [] && queue + [m] == [m];
    } else {
      assert (queue + [m])[1..] == queue[1..] + [m];
      FlowsAppend(log, Max(cursor, Confirmed(queue[0])), queue[1..], m);
    }
  }

  /** A row beyond everything that is confirmed opens no gap. */
  lemma {:induction false} FlowsInLongerLog(log: seq<Sequenced>, row: Sequenced, cursor: int, queue: seq<ServerMessage>)
    requires Flows(log, cursor, queue) && forall m | m in queue :: Confirmed(m) < row.serverSeq
    ensures Flows(log + [row], cursor, queue)
    decreases |queue|
  {
    if queue != [] {
      assert queue[0] in queue;
      FlowsInLongerLog(log, row, Max(cursor, Confirmed(queue[0])), queue[1..]);
    }
  }

  // ----- append and broadcast

  lemma MessageInLongerLog(log: seq<Sequenced>, row: Sequenced, sequence: int, m: ServerMessage)
    requires GoodLog(log, sequence) && row.serverSeq > sequence && sequence >= 0 && MessageOk(log, m)
    ensures MessageOk(log + [row], m) && Confirmed(m) < row.serverSeq
  {
    assert log != [] ==> log[|log| - 1] in log;
    if IsBootstrap(m) {
      PrefixKept(log, row, sequence, RowOf(m.sync.bootstrap.value));
      BetweenKept(log, row, m.sync.bootstrap.value.snapshotSeq, Confirmed(m));
    }
  }

  /** The row is queued if the session is open; nothing else about the session changes. */
  function Delivered(ses: Session, m: ServerMessage): Session {
    if ses.open && ses.phase.Joined? then ses.(queue := ses.queue + [m]) else ses
  }

  lemma SessionInLongerLog(log: seq<Sequenced>, row: Sequenced, sequence: int, cursor: int, ses: Session)
    requires GoodLog(log, sequence) && 0 <= sequence < row.serverSeq <= MAX_SAFE_INTEGER && SessionOk(log, cursor, ses)
    ensures SessionOk(log + [row], cursor, Delivered(ses, Live(row)))
  {
    forall m | m in Messages(ses) ensures MessageOk(log + [row], m) {
      MessageInLongerLog(log, row, sequence, m);
    }
    LiveRowOk(log, row, sequence);
    assert forall m | m in Messages(Delivered(ses, Live(row))) :: m in Messages(ses) || m == Live(row);
  }

  lemma LiveRowOk(log: seq<Sequenced>, row: Sequenced, sequence: int)
    requires GoodLog(log, sequence) && 0 <= sequence < row.serverSeq <= MAX_SAFE_INTEGER
    ensures MessageOk(log + [row], Live(row))
  {
    assert (log + [row])[|log|] == row;
  }

  lemma CoversInLongerLog(log: seq<Sequenced>, row: Sequenced, sequence: int, cursor: int, ses: Session)
    requires GoodLog(log, sequence) && 0 <= sequence < row.serverSeq <= MAX_SAFE_INTEGER
    requires SessionOk(log, cursor, ses) && SessionCovers(log, cursor, ses)
    ensures SessionCovers(log + [row], cursor, Delivered(ses, Live(row)))
  {
    forall m | m in Messages(ses) ensures Confirmed(m) < row.serverSeq {
      MessageInLongerLog(log, row, sequence, m);
    }
    FlowsInLongerLog(log, row, cursor, Messages(ses));
    LastIsLargest(log);
    if ses.open && ses.phase.Joined? {
      FlowsAppend(log + [row], cursor, Messages(ses), Live(row));
      assert Messages(Delivered(ses, Live(row))) == Messages(ses) + [Live(row)];
    }
  }

  /** An appended row reaches every open session and leaves every client in order. */
  lemma AppendKeeps(U: OpMap, log: seq<Sequenced>, row: Sequenced, sequence: int, doc: DocId, c: ClientId, k: Client)
    requires ClientOk(U, log, doc, c, k) && GoodLog(log, sequence) && 0 <= sequence < row.serverSeq <= MAX_SAFE_INTEGER
    ensures ClientOk(U, log + [row], doc, c, Deliver(k, Live(row)))
  {
    LatestPositive(log, row, sequence);
    LoggedInLonger(log, row);
    if k.session.Some? { SessionInLongerLog(log, row, sequence, LastServerSeq(k.db, doc), k.session.value); }
  }

  /** It opens no gap for any of them. */
  lemma AppendKeepsTracked(U: OpMap, log: seq<Sequenced>, row: Sequenced, sequence: int, doc: DocId, c: ClientId,
          k: Client)
    requires ClientOk(U, log, doc, c, k) && Tracked(log, doc, k)
    requires GoodLog(log, sequence) && 0 <= sequence < row.serverSeq <= MAX_SAFE_INTEGER
    ensures Tracked(log + [row], doc, Deliver(k, Live(row)))
  {
    LatestPositive(log, row, sequence);
    if k.session.Some? { CoversInLongerLog(log, row, sequence, LastServerSeq(k.db, doc), k.session.value); }
  }

  lemma LatestPositive(log: seq<Sequenced>, row: Sequenced, sequence: int)
    requires GoodLog(log, sequence) && 0 <= sequence < row.serverSeq
    ensures 0 <= Latest(log) < Latest(log + [row]) == row.serverSeq
  {
    assert log != [] ==> log[|log| - 1] in log;
  }

  lemma LoggedInLonger(log: seq<Sequenced>, row: Sequenced)
    ensures forall o | Logged(log, o) :: Logged(log + [row], o)
  {
    forall o | Logged(log, o) ensures Logged(log + [row], o) {
      var r :| r in log && r.operation == o;
      assert r in log + [row];
    }
  }

  // ----- echo

  lemma EchoKeeps(U: OpMap, log: seq<Sequenced>, row: Sequenced, sequence: int, doc: DocId, c: ClientId, k: Client)
    requires ClientOk(U, log, doc, c, k) && GoodLog(log, sequence) && sequence <= MAX_SAFE_INTEGER && row in log
    ensures ClientOk(U, log, doc, c, Deliver(k, Live(row)))
    ensures Tracked(log, doc, k) ==> Tracked(log, doc, Deliver(k, Live(row)))
  {
    LastIsLargest(log);
    if k.session.Some? { EchoedSession(log, row, sequence, LastServerSeq(k.db, doc), k.session.value); }
  }

  lemma EchoedSession(log: seq<Sequenced>, row: Sequenced, sequence: int, cursor: int, ses: Session)
    requires GoodLog(log, sequence) && sequence <= MAX_SAFE_INTEGER && row in log && SessionOk(log, cursor, ses)
    ensures SessionOk(log, cursor, Delivered(ses, Live(row)))
    ensures SessionCovers(log, cursor, ses) ==> SessionCovers(log, cursor, Delivered(ses, Live(row)))
  {
    LastIsLargest(log);
    if ses.open && ses.phase.Joined? {
      assert Messages(Delivered(ses, Live(row))) == Messages(ses) + [Live(row)];
      if SessionCovers(log, cursor, ses) { FlowsAppend(log, cursor, Messages(ses), Live(row)); }
    }
  }

  // ----- connect and join

  /** What arrived over a lost connection stays in order. */
  lemma ReconnectingOk(log: seq<Sequenced>, doc: DocId, k: Client, capable: bool, arrived: nat)
    requires ConnectionOk(log, doc, k)
    ensures var cursor := LastServerSeq(k.db, doc);
      SessionOk(log, cursor, Reconnecting(k.session, Joining(cursor, capable), arrived))
  {
    if k.session.Some? {
      var ses := k.session.value;
      assert forall m | m in ses.missed + Arrived(ses.queue, arrived) :: m in Messages(ses);
    }
  }

  /** The answer to a join is in order behind whatever is still queued: it passes the
      client's batch check and covers everything after the queue. */
  lemma AnswerOk(db: ServerDb, doc: DocId, ses: Session, m: SyncMessage, db': ServerDb, cursor: int)
    requires CacheOk(db) && db.sequence <= MAX_SAFE_INTEGER && ses.phase.Joining?
      && SessionOk(LogOf(db, doc), cursor, ses)
    requires Answers(db, doc, ses.phase.lastServerSeq, ses.phase.capable, m, db')
    ensures SessionOk(LogOf(db, doc), cursor, Answered(ses, m))
    ensures SessionCovers(LogOf(db, doc), cursor, ses) ==> SessionCovers(LogOf(db, doc), cursor, Answered(ses, m))
  {
    AnswerMessageOk(db, doc, ses.phase.lastServerSeq, ses.phase.capable, m, db');
    HorizonAhead(cursor, Messages(ses));
    AnswerCovers(db, doc, ses.phase.lastServerSeq, ses.phase.capable, m, db', Horizon(cursor, Messages(ses)));
    AnsweredInOrder(LogOf(db, doc), cursor, ses, m);
  }

  lemma {:induction false} AnsweredInOrder(log: seq<Sequenced>, cursor: int, ses: Session, m: SyncMessage)
    requires SessionOk(log, cursor, ses) && MessageOk(log, Sync(m)) && m.latestServerSeq == Latest(log)
    requires CoversGap(log, Horizon(cursor, Messages(ses)), Sync(m))
    ensures SessionOk(log, cursor, Answered(ses, m))
    ensures SessionCovers(log, cursor, ses) ==> SessionCovers(log, cursor, Answered(ses, m))
  {
    assert Messages(Answered(ses, m)) == Messages(ses) + [Sync(m)];
    if SessionCovers(log, cursor, ses) { FlowsAppend(log, cursor, Messages(ses), Sync(m)); }
  }

  lemma {:induction false} HorizonAhead(cursor: int, queue: seq<ServerMessage>)
    ensures Horizon(cursor, queue) >= cursor
    decreases |queue|
  {
    if queue != [] { HorizonAhead(Max(cursor, Confirmed(queue[0])), queue[1..]); }
  }

  lemma AnswerMessageOk(db: ServerDb, doc: DocId, lastServerSeq: int, capable: bool, m: SyncMessage, db': ServerDb)
    requires CacheOk(db) && db.sequence <= MAX_SAFE_INTEGER && Answers(db, doc, lastServerSeq, capable, m, db')
    ensures MessageOk(LogOf(db, doc), Sync(m))
  {
    var log := LogOf(db, doc);
    JoinKeepsCache(db, doc, lastServerSeq, capable, m, db');
    var after := if m.bootstrap.Some? then m.bootstrap.value.snapshotSeq else lastServerSeq;
    assert GoodLog(log, db.sequence);
    SyncBatchValid(log, db.sequence, after);
    BetweenMembers(log, after, Latest(log));
  }

  lemma AnswerCovers(db: ServerDb, doc: DocId, lastServerSeq: int, capable: bool, m: SyncMessage, db': ServerDb,
          cursor: int)
    requires Answers(db, doc, lastServerSeq, capable, m, db') && lastServerSeq <= cursor
    ensures CoversGap(LogOf(db, doc), cursor, Sync(m))
  {
    var after := if m.bootstrap.Some? then m.bootstrap.value.snapshotSeq else lastServerSeq;
    BetweenMembers(LogOf(db, doc), after, Latest(LogOf(db, doc)));
  }
}
