/** Joining: snapshots that stand for the log. */
module ServerSnapshots {
  import opened Wrappers
  import opened Operations
  import opened AnchorGraph
  import opened Convergence
  import opened LocalStore
  import opened OperationStores
  import opened Replays
  import opened RestoreSpec
  import opened Snapshots
  import opened TextReplicas

  const SNAPSHOT_OPERATION_THRESHOLD := 1000
  const SERVER_SNAPSHOT_ENVELOPE_VERSION := 1

  datatype SyncMessage = SyncMessage(operations: seq<Sequenced>, latestServerSeq: int, bootstrap: Option<Bootstrap>)

  /** Replaying the log through a sequence number into an empty replica. */
  ghost function Prefix(log: seq<Sequenced>, through: int): Outcome {
    Replay(map[], OpsOf(Between(log, 0, through)))
  }

  ghost predicate Complete(r: Outcome) {
    r.ok && Resolved(r.known)
  }

  /** The row is the export of the log through its sequence number. */
  ghost predicate StandsForPrefix(log: seq<Sequenced>, row: SnapshotRow) {
    && row.snapshotVersion == SERVER_SNAPSHOT_ENVELOPE_VERSION && 1 <= row.snapshotSeq <= Latest(log)
    && Complete(Prefix(log, row.snapshotSeq)) && IsExport(row.snapshot, Prefix(log, row.snapshotSeq).known)
  }

  ghost predicate RowsOk(db: ServerDb, rows: map<DocId, SnapshotRow>) {
    forall doc | doc in rows :: StandsForPrefix(LogOf(db, doc), rows[doc])
  }

  ghost predicate CacheOk(db: ServerDb) {
    GoodLogs(db) && RowsOk(db, db.snapshots)
  }

  /** A cached row that the server is willing to send. */
  ghost predicate Usable(db: ServerDb, doc: DocId) {
    && doc in db.snapshots
    && db.snapshots[doc].snapshotVersion == SERVER_SNAPSHOT_ENVELOPE_VERSION && db.snapshots[doc].snapshotSeq >= 1
    && Acceptable(db.snapshots[doc].snapshot)
  }

  /** The row a join is offered and the cache that goes with it: a row built at the
      barrier once enough operations have no snapshot, otherwise the cached one. */
  ghost predicate Prepared(db: ServerDb, doc: DocId, row: Option<SnapshotRow>, db': ServerDb) {
    var log := LogOf(db, doc);
    var uncovered := if Usable(db, doc) then |Between(log, db.snapshots[doc].snapshotSeq, Latest(log))| else |log|;
    if log != [] && uncovered >= SNAPSHOT_OPERATION_THRESHOLD && Complete(Prefix(log, Latest(log))) then
      && row.Some? && row.value.snapshotSeq == Latest(log) && StandsForPrefix(log, row.value)
      && db' == db.(snapshots := db.snapshots[doc := row.value])
    else
      db' == db && row == if log != [] && Usable(db, doc) then Some(db.snapshots[doc]) else None
  }

  /** The answer to a join: the whole history after the cursor or, for a capable
      client without a cursor, an offered row with the operations after it. */
  ghost predicate Answers(db: ServerDb, doc: DocId, lastServerSeq: int, capable: bool, m: SyncMessage, db': ServerDb) {
    var log := LogOf(db, doc);
    && m.latestServerSeq == Latest(log)
    && m.operations ==
      Between(log, if m.bootstrap.Some? then m.bootstrap.value.snapshotSeq else lastServerSeq, Latest(log))
    && if !capable || lastServerSeq > 0 then m.bootstrap.None? && db' == db
       else exists row :: Prepared(db, doc, row, db')
                          && m.bootstrap == if row.Some? then Some(EnvelopeOf(row.value)) else None
  }

  function EnvelopeOf(row: SnapshotRow): Bootstrap {
    Bootstrap(SERVER_SNAPSHOT_ENVELOPE_VERSION, row.snapshotSeq, row.snapshot)
  }

  class ServerSnapshotManager {
    const store: OperationStore

    constructor (store: OperationStore)
      ensures this.store == store
    {
      this.store := store;
    }

    method BuildSyncMessage(doc: DocId, lastServerSeq: int, snapshotCapable: bool) returns (m: SyncMessage)
      requires GoodLogs(store.db)
      modifies store
      ensures Answers(old(store.db), doc, lastServerSeq, snapshotCapable, m, store.db)
    {
      var barrier := store.GetLatestServerSeq(doc);
      BarrierPositive(store.db, doc);
      if !snapshotCapable || lastServerSeq > 0 {
        return SyncMessage(store.LoadOperationsAfter(doc, lastServerSeq, barrier), barrier, None);
      }
      var bootstrap := PrepareSnapshotBootstrap(doc, barrier);
      assert Prepared(old(store.db), doc, bootstrap, store.db);
      if bootstrap.None? {
        return SyncMessage(store.LoadOperationsAfter(doc, lastServerSeq, barrier), barrier, None);
      }
      var suffix := store.LoadOperationsAfter(doc, bootstrap.value.snapshotSeq, barrier);
      return SyncMessage(suffix, barrier, Some(EnvelopeOf(bootstrap.value)));
    }

    method PrepareSnapshotBootstrap(doc: DocId, barrier: int) returns (row: Option<SnapshotRow>)
      requires GoodLogs(store.db) && barrier == Latest(LogOf(store.db, doc))
      modifies store
      ensures Prepared(old(store.db), doc, row, store.db)
    {
      var historyCount := store.CountOperations(doc);
      BarrierPositive(store.db, doc);
      if historyCount == 0 || barrier < 1 { return None; }
      var existing := LoadValidSnapshot(doc);
      if existing.None? {
        if historyCount < SNAPSHOT_OPERATION_THRESHOLD { return None; }
        row := TryBuildSnapshot(doc, barrier);
        return;
      }
      var suffixCount := store.CountOperationsAfter(doc, existing.value.snapshotSeq, barrier);
      if suffixCount >= SNAPSHOT_OPERATION_THRESHOLD {
        row := TryBuildSnapshot(doc, barrier);
        if row.None? { return existing; }
        return;
      }
      return existing;
    }

    method LoadValidSnapshot(doc: DocId) returns (row: Option<SnapshotRow>)
      ensures row.Some? <==> Usable(store.db, doc)
      ensures row.Some? ==> row.value == store.db.snapshots[doc]
    {
      var cached := store.LoadSnapshotRow(doc);
      if cached.None? { return None; }
      if cached.value.snapshotVersion != SERVER_SNAPSHOT_ENVELOPE_VERSION { return None; }
      if cached.value.snapshotSeq < 1 { return None; }
      var restored := TextReplica.FromSnapshot(cached.value.snapshot);
      if restored.Failure? { return None; }
      return cached;
    }

    /** Exports the log through the barrier and caches the result; a log that does
        not replay, or leaves something unresolved, builds nothing. */
    method TryBuildSnapshot(doc: DocId, barrier: int) returns (row: Option<SnapshotRow>)
      requires GoodLogs(store.db) && barrier == Latest(LogOf(store.db, doc)) && barrier >= 1
      modifies store
      ensures row.Some? <==> Complete(Prefix(LogOf(old(store.db), doc), barrier))
      ensures row.None? ==> store.db == old(store.db)
      ensures row.Some? ==> StandsForPrefix(LogOf(old(store.db), doc), row.value) && row.value.snapshotSeq == barrier
      ensures row.Some? ==> store.db == old(store.db).(snapshots := old(store.db.snapshots)[doc := row.value])
    {
      var prefix := store.LoadOperationsThrough(doc, barrier);
      var snapshot := ExportPrefixSnapshot(OpsOf(prefix));
      if snapshot.Failure? { return None; }
      row := Some(SnapshotRow(barrier, SERVER_SNAPSHOT_ENVELOPE_VERSION, snapshot.value));
      store.SaveSnapshotRow(doc, row.value);
    }

    static method ExportPrefixSnapshot(prefix: seq<Operation>) returns (r: Result<Snapshot, CrdtError>)
      ensures r.Success? <==> Complete(Replay(map[], prefix))
      ensures r.Success? ==> IsExport(r.value, Replay(map[], prefix).known)
    {
      var replica := new TextReplica();
      var error := replica.ApplyAll(prefix);
      if error.Some? { return Failure(error.value); }
      var unresolved := replica.GetUnresolvedOperationIds();
      if unresolved != [] { return Failure(UnresolvedSnapshot); }
      r := replica.ExportSnapshot();
    }
  }

  lemma BarrierPositive(db: ServerDb, doc: DocId)
    requires GoodLogs(db)
    ensures LogOf(db, doc) == [] <==> Latest(LogOf(db, doc)) < 1
  {
    var log := LogOf(db, doc);
    assert log != [] ==> log[|log| - 1] in log;
  }

  // ----- the cache over every run of appends and joins

  lemma AppendKeepsCache(db: ServerDb, doc: DocId, row: Sequenced)
    requires CacheOk(db) && GoodLogs(Appended(db, doc, row)) && row.serverSeq > db.sequence
    ensures CacheOk(Appended(db, doc, row))
  {
    var db' := Appended(db, doc, row);
    forall d | d in db'.snapshots ensures StandsForPrefix(LogOf(db', d), db'.snapshots[d]) {
      if d == doc { PrefixKept(LogOf(db, doc), row, db.sequence, db.snapshots[doc]); }
    }
  }

  /** What a cached row stands for does not change when the log grows. */
  lemma PrefixKept(log: seq<Sequenced>, row: Sequenced, sequence: int, cached: SnapshotRow)
    requires GoodLog(log, sequence) && row.serverSeq > sequence && StandsForPrefix(log, cached)
    ensures StandsForPrefix(log + [row], cached)
  {
    assert log[|log| - 1] in log;
    BetweenKept(log, row, 0, cached.snapshotSeq);
  }

  lemma RowCached(db: ServerDb, doc: DocId, row: SnapshotRow)
    requires CacheOk(db) && StandsForPrefix(LogOf(db, doc), row)
    ensures CacheOk(db.(snapshots := db.snapshots[doc := row]))
  {
    OneMoreRowOk(db, db.snapshots, doc, row);
    assert forall d :: LogOf(db.(snapshots := db.snapshots[doc := row]), d) == LogOf(db, d);
  }

  lemma OneMoreRowOk(db: ServerDb, rows: map<DocId, SnapshotRow>, doc: DocId, row: SnapshotRow)
    requires RowsOk(db, rows) && StandsForPrefix(LogOf(db, doc), row)
    ensures RowsOk(db, rows[doc := row])
  {}

  lemma PreparedKeepsCache(db: ServerDb, doc: DocId, row: Option<SnapshotRow>, db': ServerDb)
    requires CacheOk(db) && Prepared(db, doc, row, db')
    ensures CacheOk(db') && db'.logs == db.logs && db'.sequence == db.sequence
    ensures row.Some? ==> doc in db'.snapshots && row.value == db'.snapshots[doc]
  {
    if row.Some? && StandsForPrefix(LogOf(db, doc), row.value) { RowCached(db, doc, row.value); }
  }

  /** Answering a join keeps the log and the cache's meaning; what it offers is a
      cached row. */
  lemma JoinKeepsCache(db: ServerDb, doc: DocId, lastServerSeq: int, capable: bool, m: SyncMessage, db': ServerDb)
    requires CacheOk(db) && Answers(db, doc, lastServerSeq, capable, m, db')
    ensures CacheOk(db') && db'.logs == db.logs && db'.sequence == db.sequence
    ensures m.bootstrap.Some? ==> doc in db'.snapshots && m.bootstrap.value == EnvelopeOf(db'.snapshots[doc])
  {
    if capable && lastServerSeq <= 0 {
      var row :| Prepared(db, doc, row, db') && m.bootstrap == if row.Some? then Some(EnvelopeOf(row.value)) else None;
      PreparedKeepsCache(db, doc, row, db');
    }
  }

  /** The rows that the cached snapshot does not cover. */
  function Uncovered(db: ServerDb, doc: DocId): seq<Sequenced> {
    if doc in db.snapshots then Between(LogOf(db, doc), db.snapshots[doc].snapshotSeq, Latest(LogOf(db, doc)))
    else LogOf(db, doc)
  }

  lemma CachedIsUsable(db: ServerDb, doc: DocId)
    requires CacheOk(db)
    ensures Usable(db, doc) <==> doc in db.snapshots
    ensures doc in db.snapshots ==> LogOf(db, doc) != []
  {
    if doc in db.snapshots { PrefixAcceptable(LogOf(db, doc), db.snapshots[doc]); }
  }

  lemma NothingBefore(db: ServerDb, doc: DocId)
    requires CacheOk(db)
    ensures Between(LogOf(db, doc), 0, Latest(LogOf(db, doc))) == LogOf(db, doc)
    ensures Between(LogOf(db, doc), Latest(LogOf(db, doc)), Latest(LogOf(db, doc))) == []
  {
    var log := LogOf(db, doc);
    assert GoodLog(log, db.sequence);
    LastIsLargest(log);
    BetweenAll(log, 0, Latest(log));
    BetweenNothing(log, Latest(log), Latest(log));
  }

  lemma PreparedExactly(db: ServerDb, doc: DocId, row: Option<SnapshotRow>, db': ServerDb)
    requires CacheOk(db) && Prepared(db, doc, row, db')
    ensures row == if doc in db'.snapshots then Some(db'.snapshots[doc]) else None
    ensures LogOf(db', doc) == LogOf(db, doc)
    ensures Complete(Prefix(LogOf(db, doc), Latest(LogOf(db, doc)))) ==> |Uncovered(db', doc)| < 1000
    ensures db' != db ==> |Uncovered(db, doc)| >= 1000 && Uncovered(db', doc) == []
  {
    CachedIsUsable(db, doc);
    NothingBefore(db, doc);
  }

  /** What a new client is sent: the cached snapshot if there is one afterwards and whatever
      it does not cover, and never as many as a thousand operations unless the log leaves
      something unresolved. A snapshot is built only when that many are not covered. */
  lemma AnswerExactly(db: ServerDb, doc: DocId, m: SyncMessage, db': ServerDb)
    requires CacheOk(db) && Answers(db, doc, 0, true, m, db')
    ensures m.operations == Uncovered(db', doc)
    ensures m.bootstrap == (if doc !in db'.snapshots then None
                            else Some(Bootstrap(1, db'.snapshots[doc].snapshotSeq, db'.snapshots[doc].snapshot)))
    ensures Complete(Prefix(LogOf(db, doc), Latest(LogOf(db, doc)))) ==> |m.operations| < 1000
    ensures db' != db ==> |Uncovered(db, doc)| >= 1000 && Uncovered(db', doc) == []
  {
    var row :| Prepared(db, doc, row, db') && m.bootstrap == if row.Some? then Some(EnvelopeOf(row.value)) else None;
    PreparedExactly(db, doc, row, db');
    NothingBefore(db, doc);
  }

  /** An operation is appended to some log, whoever sent it, or a join is answered. */
  ghost predicate ServerStep(db: ServerDb, db': ServerDb) {
    || (exists doc, row :: IsNewRow(db, doc, row) && db' == Appended(db, doc, row))
    || (exists doc, lastServerSeq, capable, m :: Answers(db, doc, lastServerSeq, capable, m, db'))
  }

  ghost predicate IsNewRow(db: ServerDb, doc: DocId, row: Sequenced) {
    && row.serverSeq > db.sequence && IsValidOperation(row.operation)
    && forall r | r in LogOf(db, doc) :: r.operation.opId != row.operation.opId
  }

  /** In every run of appends and joins each cached snapshot is the export of its
      log through its sequence number. */
  lemma {:induction false} CacheOkInEveryRun(run: seq<ServerDb>, i: nat)
    requires run != [] && run[0] == ServerDb(map[], 0, map[])
    requires forall k | 0 <= k < |run| - 1 :: ServerStep(run[k], run[k + 1])
    requires i < |run|
    ensures CacheOk(run[i])
  {
    if i > 0 {
      CacheOkInEveryRun(run, i - 1);
      var db, db' := run[i - 1], run[i];
      assert ServerStep(run[i - 1], run[i - 1 + 1]);
      if doc, row :| IsNewRow(db, doc, row) && db' == Appended(db, doc, row) {
        AppendKeepsGood(db, doc, row);
        AppendKeepsCache(db, doc, row);
      } else {
        var doc, lastServerSeq, capable, m :| Answers(db, doc, lastServerSeq, capable, m, db');
        JoinKeepsCache(db, doc, lastServerSeq, capable, m, db');
      }
    }
  }

  // ----- a snapshot with a suffix is the whole history

  lemma {:induction false} PrefixAndSuffix(log: seq<Sequenced>, sequence: int, at: int, through: int)
    requires GoodLog(log, sequence) && 0 <= at <= through
    ensures OpsOf(Between(log, 0, at)) + OpsOf(Between(log, at, through)) == OpsOf(Between(log, 0, through))
  {
    BetweenSplit(log, 0, at, through);
    OpsOfAppend(Between(log, 0, at), Between(log, at, through));
  }

  lemma OpsOfAppend(a: seq<Sequenced>, b: seq<Sequenced>)
    ensures OpsOf(a + b) == OpsOf(a) + OpsOf(b)
  {}

  lemma WholeLog(log: seq<Sequenced>, sequence: int)
    requires GoodLog(log, sequence)
    ensures Prefix(log, Latest(log)) == Replay(map[], OpsOf(log))
  {
    LastIsLargest(log);
    BetweenAll(log, 0, Latest(log));
  }

  /** Restoring the cached snapshot and applying the rows after it, through any later
      one, gives the same known operations, or the same rejection, as replaying the log
      that far: for every log, whatever its authors submitted. */
  lemma {:induction false} SnapshotEqualsHistory(log: seq<Sequenced>, sequence: int, row: SnapshotRow, K0: OpMap,
          through: int)
    requires GoodLog(log, sequence) && StandsForPrefix(log, row) && Describes(row.snapshot, K0)
    requires row.snapshotSeq <= through
    ensures Replay(K0, OpsOf(Between(log, row.snapshotSeq, through))) == Prefix(log, through)
    ensures through == Latest(log) ==> Prefix(log, through) == Replay(map[], OpsOf(log))
  {
    PrefixAndSuffix(log, sequence, row.snapshotSeq, through);
    SnapshotPlusSuffix(row.snapshot, OpsOf(Between(log, 0, row.snapshotSeq)),
                       OpsOf(Between(log, row.snapshotSeq, through)), K0);
    WholeLog(log, sequence);
  }

  /** A client accepts the bootstrap exactly when replaying the log through the barrier
      leaves nothing unresolved, and ends up knowing exactly that part of the log. */
  lemma {:induction false} BootstrapIsHistory(log: seq<Sequenced>, sequence: int, row: SnapshotRow, through: int)
    requires GoodLog(log, sequence) && StandsForPrefix(log, row)
    requires ValidSnapshotSuffix(Between(log, row.snapshotSeq, through), row.snapshotSeq, through)
    ensures var batch := Between(log, row.snapshotSeq, through);
      && ((exists K0, K :: Bootstraps(EnvelopeOf(row), batch, through, K0, K)) <==> Complete(Prefix(log, through)))
      && (forall K0, K | Bootstraps(EnvelopeOf(row), batch, through, K0, K) ::
            K0 == Prefix(log, row.snapshotSeq).known && K == Prefix(log, through).known)
  {
    var batch, K0 := Between(log, row.snapshotSeq, through), Prefix(log, row.snapshotSeq).known;
    var whole := Prefix(log, through);
    SnapshotEqualsHistory(log, sequence, row, K0, through);
    PrefixAcceptable(log, row);
    DescribedUnique(row.snapshot, K0);
    if Complete(whole) {
      assert whole == Outcome(whole.known, true);
      assert Bootstraps(EnvelopeOf(row), batch, through, K0, whole.known);
    }
  }

  lemma PrefixAcceptable(log: seq<Sequenced>, row: SnapshotRow)
    requires StandsForPrefix(log, row)
    ensures Acceptable(row.snapshot)
  {
    EmptyWellFormed();
    ReplayAccepts(map[], OpsOf(Between(log, 0, row.snapshotSeq)));
  }
}
