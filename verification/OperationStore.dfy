/** The server's operation log and snapshot cache. */
module OperationStores {
  import opened Wrappers
  import opened Operations
  import opened LocalStore
  import opened Replays
  import opened Snapshots

  datatype SnapshotRow = SnapshotRow(snapshotSeq: int, snapshotVersion: int, snapshot: Snapshot)
  /** Every query names a document, so the operations table is kept as one log per
      document; row numbers come from one counter that only grows and may skip
      values. */
  datatype ServerDb = ServerDb(logs: map<DocId, seq<Sequenced>>, sequence: int, snapshots: map<DocId, SnapshotRow>)
  datatype AppendResult = AppendResult(serverSeq: int, inserted: bool)

  function LogOf(db: ServerDb, doc: DocId): seq<Sequenced> {
    if doc in db.logs then db.logs[doc] else []
  }

  /** `MAX(server_seq)`, or 0 of an empty log. */
  function Latest(log: seq<Sequenced>): int {
    if log == [] then 0 else log[|log| - 1].serverSeq
  }

  /** The rows with `after < server_seq <= through`, in order. */
  function Between(log: seq<Sequenced>, after: int, through: int): seq<Sequenced> {
    if log == [] then []
    else
      var init, last := log[..|log| - 1], log[|log| - 1];
      Between(init, after, through) + if after < last.serverSeq <= through then [last] else []
  }

  ghost predicate Increasing(log: seq<Sequenced>) {
    forall i, j | 0 <= i < j < |log| :: log[i].serverSeq < log[j].serverSeq
  }

  /** At most one row per identity, sequence numbers strictly increasing and drawn
      from the counter, every operation valid. */
  ghost predicate GoodLog(log: seq<Sequenced>, sequence: int) {
    && Increasing(log)
    && (forall s | s in log :: 1 <= s.serverSeq <= sequence && IsValidOperation(s.operation))
    && (forall i, j | 0 <= i < j < |log| :: log[i].operation.opId != log[j].operation.opId)
  }

  ghost predicate GoodLogs(db: ServerDb) {
    db.sequence >= 0 && forall doc | doc in db.logs :: GoodLog(db.logs[doc], db.sequence)
  }

  function Appended(db: ServerDb, doc: DocId, row: Sequenced): ServerDb {
    db.(logs := db.logs[doc := LogOf(db, doc) + [row]], sequence := row.serverSeq)
  }

  /** The log holds another operation under this identity. */
  ghost predicate Conflicts(log: seq<Sequenced>, op: Operation) {
    exists s :: s in log && s.operation.opId == op.opId && s.operation != op
  }

  ghost predicate Logged(log: seq<Sequenced>, op: Operation) {
    exists s :: s in log && s.operation == op
  }

  class OperationStore {
    var db: ServerDb

    constructor ()
      ensures db == ServerDb(map[], 0, map[])
    {
      db := ServerDb(map[], 0, map[]);
    }

    /** Appends a new operation, recognises a retry, or changes nothing. */
    method AppendOperation(doc: DocId, op: Operation, skipped: nat) returns (r: Result<AppendResult, CrdtError>)
      requires GoodLogs(db)
      modifies this
      ensures GoodLogs(db)
      ensures r.Failure? <==> !IsValidOperation(op) || Conflicts(LogOf(old(db), doc), op)
      ensures r.Failure? ==> r.error == if IsValidOperation(op) then IdentityConflict else InvalidOperation
      ensures r.Success? ==> Sequenced(r.value.serverSeq, op) in LogOf(db, doc)
      ensures r.Success? ==> (r.value.inserted <==> !Logged(LogOf(old(db), doc), op))
      ensures r.Success? && r.value.inserted ==>
        && r.value.serverSeq == old(db.sequence) + 1 + skipped
        && db == Appended(old(db), doc, Sequenced(r.value.serverSeq, op))
      ensures r.Failure? || !r.value.inserted ==> db == old(db)
    {
      if !IsValidOperation(op) { return Failure(InvalidOperation); }
      var existing := Find(LogOf(db, doc), op.opId);
      FindRow(LogOf(db, doc), op.opId, db.sequence);
      if existing.Some? {
        if existing.value.operation != op { return Failure(IdentityConflict); }
        return Success(AppendResult(existing.value.serverSeq, false));
      }
      var row := Sequenced(db.sequence + 1 + skipped, op);
      AppendKeepsGood(db, doc, row);
      db := Appended(db, doc, row);
      return Success(AppendResult(row.serverSeq, true));
    }

    function LoadOperationsAfter(doc: DocId, after: int, through: int): seq<Sequenced>
      reads this
    {
      Between(LogOf(db, doc), after, through)
    }

    /** Row numbers are positive, so this is every row up to `through`. */
    function LoadOperationsThrough(doc: DocId, through: int): (rows: seq<Sequenced>)
      reads this
      ensures GoodLogs(db) ==> forall s :: s in rows <==> s in LogOf(db, doc) && s.serverSeq <= through
    {
      BetweenMembers(LogOf(db, doc), 0, through);
      Between(LogOf(db, doc), 0, through)
    }

    function GetLatestServerSeq(doc: DocId): int
      reads this
    {
      Latest(LogOf(db, doc))
    }

    function CountOperations(doc: DocId): nat
      reads this
    {
      |LogOf(db, doc)|
    }

    function CountOperationsAfter(doc: DocId, after: int, through: int): nat
      reads this
    {
      |Between(LogOf(db, doc), after, through)|
    }

    function LoadSnapshotRow(doc: DocId): Option<SnapshotRow>
      reads this
    {
      if doc in db.snapshots then Some(db.snapshots[doc]) else None
    }

    method SaveSnapshotRow(doc: DocId, row: SnapshotRow)
      modifies this
      ensures db == old(db).(snapshots := old(db.snapshots)[doc := row])
    {
      db := db.(snapshots := db.snapshots[doc := row]);
    }
  }

  /** The row with an identity, if there is one. */
  function Find(log: seq<Sequenced>, id: Id): Option<Sequenced> {
    if log == [] then None
    else if log[0].operation.opId == id then Some(log[0])
    else Find(log[1..], id)
  }

  lemma {:induction false} FindRow(log: seq<Sequenced>, id: Id, sequence: int)
    requires GoodLog(log, sequence)
    ensures match Find(log, id)
            case Some(row) =>
              row in log && row.operation.opId == id && forall s | s in log && s.operation.opId == id :: s == row
            case None => forall s | s in log :: s.operation.opId != id
  {
    if log != [] {
      assert forall s | s in log[1..] :: s in log;
      FindRow(log[1..], id, sequence);
    }
  }

  lemma GoodLogGrows(log: seq<Sequenced>, row: Sequenced, sequence: int)
    requires GoodLog(log, sequence) && 1 <= row.serverSeq && IsValidOperation(row.operation)
    requires forall s | s in log :: s.serverSeq < row.serverSeq && s.operation.opId != row.operation.opId
    ensures GoodLog(log + [row], if sequence <= row.serverSeq then row.serverSeq else sequence)
  {
    var longer := log + [row];
    forall i, j | 0 <= i < j < |longer|
      ensures longer[i].serverSeq < longer[j].serverSeq && longer[i].operation.opId != longer[j].operation.opId
    {
      assert log[i] in log;
    }
  }

  lemma AppendKeepsGood(db: ServerDb, doc: DocId, row: Sequenced)
    requires GoodLogs(db) && row.serverSeq > db.sequence && IsValidOperation(row.operation)
    requires forall s | s in LogOf(db, doc) :: s.operation.opId != row.operation.opId
    ensures GoodLogs(Appended(db, doc, row))
  {
    GoodLogGrows(LogOf(db, doc), row, db.sequence);
  }

  /** The last row is later than, and different from, every row before it. */
  lemma GoodLogShrinks(log: seq<Sequenced>, sequence: int)
    requires GoodLog(log, sequence) && log != []
    ensures GoodLog(log[..|log| - 1], sequence)
    ensures var last := log[|log| - 1];
      && last in log
      && forall s | s in log[..|log| - 1] :: s.serverSeq < last.serverSeq && s.operation.opId != last.operation.opId
  {
    assert forall s | s in log[..|log| - 1] :: s in log;
  }

  // ----- ranges of the log

  lemma {:induction false} BetweenMembers(log: seq<Sequenced>, after: int, through: int)
    ensures forall s :: s in Between(log, after, through) <==> s in log && after < s.serverSeq <= through
  {
    if log != [] {
      var init, last := log[..|log| - 1], log[|log| - 1];
      BetweenMembers(init, after, through);
      assert log == init + [last];
    }
  }

  lemma {:induction false} BetweenOrdered(log: seq<Sequenced>, after: int, through: int, sequence: int)
    requires GoodLog(log, sequence)
    ensures GoodLog(Between(log, after, through), sequence)
  {
    if log != [] {
      var init, last := log[..|log| - 1], log[|log| - 1];
      GoodLogShrinks(log, sequence);
      BetweenOrdered(init, after, through, sequence);
      BetweenMembers(init, after, through);
      GoodLogGrows(Between(init, after, through), last, sequence);
    }
  }

  lemma LastIsLargest(log: seq<Sequenced>)
    requires Increasing(log)
    ensures forall s | s in log :: s.serverSeq <= Latest(log)
    ensures log != [] ==> forall s | s in log[..|log| - 1] :: s.serverSeq < Latest(log)
  {
    forall s | s in log ensures s.serverSeq <= Latest(log) {
      var i :| 0 <= i < |log| && log[i] == s;
    }
  }

  /** Rows beyond a range do not change it. */
  lemma {:induction false} BetweenKept(log: seq<Sequenced>, row: Sequenced, after: int, through: int)
    requires row.serverSeq > through
    ensures Between(log + [row], after, through) == Between(log, after, through)
  {
    assert (log + [row])[..|log|] == log;
  }

  lemma {:induction false} BetweenNothing(log: seq<Sequenced>, after: int, through: int)
    requires forall s | s in log :: s.serverSeq <= after || s.serverSeq > through
    ensures Between(log, after, through) == []
  {
    if log != [] {
      assert log[|log| - 1] in log;
      BetweenNothing(log[..|log| - 1], after, through);
    }
  }

  lemma {:induction false} BetweenAll(log: seq<Sequenced>, after: int, through: int)
    requires forall s | s in log :: after < s.serverSeq <= through
    ensures Between(log, after, through) == log
  {
    if log != [] {
      assert log == log[..|log| - 1] + [log[|log| - 1]];
      BetweenAll(log[..|log| - 1], after, through);
    }
  }

  /** A range splits at every sequence number inside it. */
  lemma {:induction false} BetweenSplit(log: seq<Sequenced>, after: int, middle: int, through: int)
    requires Increasing(log) && after <= middle <= through
    ensures Between(log, after, through) == Between(log, after, middle) + Between(log, middle, through)
  {
    if log != [] {
      var init, last := log[..|log| - 1], log[|log| - 1];
      var a, b := Between(init, after, middle), Between(init, middle, through);
      BetweenSplit(init, after, middle, through);
      LastIsLargest(log);
      if after < last.serverSeq <= middle {
        BetweenNothing(init, middle, through);
        assert a + [] + [last] == a + [last] + [];
      } else if middle < last.serverSeq <= through {
        assert a + b + [last] == a + (b + [last]);
      }
    }
  }

  /** Every sync batch passes the receiver's batch check. */
  lemma {:induction false} SyncBatchValid(log: seq<Sequenced>, sequence: int, after: int)
    requires GoodLog(log, sequence) && sequence <= MAX_SAFE_INTEGER
    ensures ValidServerBatch(Between(log, after, Latest(log)), Latest(log))
    ensures 1 <= after <= Latest(log) ==> ValidSnapshotSuffix(Between(log, after, Latest(log)), after, Latest(log))
  {
    var batch := Between(log, after, Latest(log));
    BetweenOrdered(log, after, Latest(log), sequence);
    BetweenMembers(log, after, Latest(log));
    assert log != [] ==> log[|log| - 1] in log;
    assert forall i | 0 <= i < |batch| :: batch[i] in batch;
  }
}
