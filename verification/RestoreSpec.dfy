/** Rebuilding a replica from the durable tables: checkpoints never change the
    result, and a reload rebuilds exactly what was in memory. */
module RestoreSpec {
  import opened Operations
  import opened AnchorGraph
  import opened Convergence
  import opened LocalStore
  import opened Replays
  import opened Snapshots
  import opened StoreFacts
  import opened TextEdit

  /** If a trusted checkpoint takes the whole log without error, it ends with
      exactly what a fresh replay of the log gives. */
  lemma {:induction false} CheckpointTransparent(K0: OpMap, ops: seq<Operation>)
    requires WellFormed(K0) && Replay(K0, ops).ok
    requires forall x | x in K0 :: exists o :: o in ops && o.opId == x
    ensures Replay(map[], ops) == Replay(K0, ops)
  {
    ReplayAccepts(K0, ops);
    MergeMeaning(K0, ops);
    EmptyWellFormed();
    ReplayAccepts(map[], ops);
    MergeMeaning(map[], ops);
    MergeOfLog(K0, ops);
  }

  lemma {:induction false} MergeOfLog(K0: OpMap, ops: seq<Operation>)
    requires OnePayload(K0, ops) && forall x | x in K0 :: exists o :: o in ops && o.opId == x
    ensures OnePayload(map[], ops) && Merge(map[], ops) == Merge(K0, ops)
  {
    MergeMeaning(K0, ops);
    MergeMeaning(map[], ops);
    var L, R := Merge(map[], ops), Merge(K0, ops);
    forall x ensures x in L <==> x in R
             ensures x in L && x in R ==> L[x] == R[x] {
      if o :| o in ops && o.opId == x { } else { }
    }
  }

  /** The log holds the recorded operations of the document in some order. */
  ghost predicate IsLog(db: Database, doc: DocId, ops: seq<Operation>) {
    forall op :: op in ops <==> exists x :: x in db.operations && db.operations[x] == OperationRecord(doc, op)
  }

  /** The tables and a replica that knows `K` agree. */
  ghost predicate Synced(db: Database, doc: DocId, K: OpMap) {
    && WellFormed(K) && Filed(db) && K == KnownOf(db, doc)
    && (forall x | x in BaselineOps(db, doc) && x in DocOps(db, doc) :: BaselineOps(db, doc)[x] == DocOps(db, doc)[x])
    && (doc in db.serverBaselines ==>
          && Describes(db.serverBaselines[doc].snapshot, BaselineOps(db, doc))
          && Acceptable(db.serverBaselines[doc].snapshot)
          && IsPositiveSafe(db.serverBaselines[doc].snapshotSeq)
          && db.serverBaselines[doc].snapshotSeq <= LastServerSeq(db, doc) <= MAX_SAFE_INTEGER)
  }

  lemma LogOperations(db: Database, doc: DocId, ops: seq<Operation>)
    requires Filed(db) && IsLog(db, doc, ops)
    ensures forall op :: op in ops <==> op.opId in DocOps(db, doc) && DocOps(db, doc)[op.opId] == op
  {
    forall op ensures op in ops <==> op.opId in DocOps(db, doc) && DocOps(db, doc)[op.opId] == op {
      if op in ops {
        var x :| x in db.operations && db.operations[x] == OperationRecord(doc, op);
        assert x == op.opId;
      }
      if op.opId in DocOps(db, doc) && DocOps(db, doc)[op.opId] == op {
        assert db.operations[op.opId] == OperationRecord(doc, op);
      }
    }
  }

  /** Reload equivalence: from tables in agreement with a replica, replaying the log
      in any order over the baseline, or over nothing, rebuilds what it knew. */
  lemma {:induction false} ReloadRebuilds(db: Database, doc: DocId, K: OpMap, ops: seq<Operation>, K0: OpMap)
    requires Synced(db, doc, K) && IsLog(db, doc, ops)
    requires if doc in db.serverBaselines then Describes(db.serverBaselines[doc].snapshot, K0) else K0 == map[]
    ensures Replay(K0, ops) == Outcome(K, true)
  {
    if doc in db.serverBaselines { BaselineOpsAre(db, doc, K0); }
    LogOperations(db, doc, ops);
    BaselineAndLogMerge(db, doc, K, ops, K0);
    ReplayWithin(K0, K, ops);
  }

  lemma {:induction false} BaselineAndLogMerge(db: Database, doc: DocId, K: OpMap, ops: seq<Operation>, K0: OpMap)
    requires Synced(db, doc, K) && K0 == BaselineOps(db, doc)
    requires forall op :: op in ops <==> op.opId in DocOps(db, doc) && DocOps(db, doc)[op.opId] == op
    ensures Sub(K0, K) && OnePayload(K0, ops) && Merge(K0, ops) == K
    ensures forall op | op in ops :: op.opId in K && K[op.opId] == op
  {
    LogMerge(K0, DocOps(db, doc), ops);
  }

  /** Merging a log over a baseline is the union of the two. */
  lemma {:induction false} LogMerge(B: OpMap, D: OpMap, ops: seq<Operation>)
    requires forall op :: op in ops <==> op.opId in D && D[op.opId] == op
    requires forall x | x in D :: D[x].opId == x
    requires OnePayload(B, ops) || forall x | x in B && x in D :: B[x] == D[x]
    ensures OnePayload(B, ops) && Merge(B, ops) == B + D
    ensures forall x | x in B && x in D :: B[x] == D[x]
  {
    assert forall x | x in D :: D[x] in ops;
    MergeMeaning(B, ops);
    var M, K := Merge(B, ops), B + D;
    forall x ensures x in M <==> x in K
             ensures x in M && x in K ==> M[x] == K[x] {
      if x in D { assert D[x] in ops; }
      else if o :| o in ops && o.opId == x { } else { }
    }
  }

  // ----- what a restore demands and gives

  /** Restoring over a baseline succeeds. */
  ghost predicate BaselineRestores(baseline: Baseline, operations: seq<Operation>, lastServerSeq: int) {
    && IsPositiveSafe(baseline.snapshotSeq) && baseline.snapshotSeq <= lastServerSeq <= MAX_SAFE_INTEGER
    && Acceptable(baseline.snapshot)
    && forall K0 | Describes(baseline.snapshot, K0) :: Replay(K0, operations).ok
  }

  lemma DescribedUnique(snap: Snapshot, K: OpMap)
    requires Describes(snap, K)
    ensures forall L | Describes(snap, L) :: L == K
  {
    forall L | Describes(snap, L) ensures L == K { ListedSetUnique(snap, K, L); }
  }

  /** A successful restore over a baseline agrees with the tables. */
  lemma {:induction false} BaselineRestoreSynced(db: Database, doc: DocId, ops: seq<Operation>)
    requires Filed(db) && IsLog(db, doc, ops) && doc in db.serverBaselines
    requires BaselineRestores(db.serverBaselines[doc], ops, LastServerSeq(db, doc))
    ensures Describes(db.serverBaselines[doc].snapshot, BaselineOps(db, doc))
    ensures Synced(db, doc, Replay(BaselineOps(db, doc), ops).known)
  {
    var snap := db.serverBaselines[doc].snapshot;
    var K0 :| Describes(snap, K0);
    BaselineOpsAre(db, doc, K0);
    AcceptableWellFormed(snap, K0);
    ReplayAccepts(K0, ops);
    LogOperations(db, doc, ops);
    LogMerge(K0, DocOps(db, doc), ops);
  }

  /** Tables that agree with a replica restore over their baseline. */
  lemma {:induction false} SyncedRestores(db: Database, doc: DocId, ops: seq<Operation>)
    requires IsLog(db, doc, ops) && doc in db.serverBaselines && Synced(db, doc, KnownOf(db, doc))
    ensures BaselineRestores(db.serverBaselines[doc], ops, LastServerSeq(db, doc))
    ensures Replay(BaselineOps(db, doc), ops).known == KnownOf(db, doc)
  {
    DescribedUnique(db.serverBaselines[doc].snapshot, BaselineOps(db, doc));
    ReloadRebuilds(db, doc, KnownOf(db, doc), ops, BaselineOps(db, doc));
  }

  /** A successful replay of the log agrees with the tables. */
  lemma {:induction false} LogRestoreSynced(db: Database, doc: DocId, ops: seq<Operation>)
    requires Filed(db) && IsLog(db, doc, ops) && doc !in db.serverBaselines
    ensures Replay(map[], ops).ok ==> Synced(db, doc, Replay(map[], ops).known)
    ensures Synced(db, doc, KnownOf(db, doc)) ==> Replay(map[], ops) == Outcome(KnownOf(db, doc), true)
  {
    if Replay(map[], ops).ok {
      EmptyWellFormed();
      ReplayAccepts(map[], ops);
      LogOperations(db, doc, ops);
      LogMerge(map[], DocOps(db, doc), ops);
    }
    if Synced(db, doc, KnownOf(db, doc)) {
      ReloadRebuilds(db, doc, KnownOf(db, doc), ops, map[]);
    }
  }

  // ----- agreement is kept by every transaction

  /** Recording operations in the tables and applying them to the replica keeps
      the two in agreement. */
  lemma {:induction false} SyncedExtends(db: Database, db': Database, doc: DocId, K: OpMap, ops: seq<Operation>)
    requires Synced(db, doc, K) && Replay(K, ops).ok
    requires Filed(db') && DocOps(db', doc) == Merge(DocOps(db, doc), ops) && OnePayload(DocOps(db, doc), ops)
    requires db'.serverBaselines == db.serverBaselines
    requires LastServerSeq(db, doc) <= LastServerSeq(db', doc) <= Max(LastServerSeq(db, doc), MAX_SAFE_INTEGER)
    ensures Synced(db', doc, Replay(K, ops).known)
  {
    ReplayAccepts(K, ops);
    if doc in db.serverBaselines { BaselineOpsAre(db', doc, BaselineOps(db, doc)); }
    KnownMerges(BaselineOps(db, doc), DocOps(db, doc), ops);
    AgreementKept(BaselineOps(db, doc), DocOps(db, doc), ops);
  }

  lemma {:induction false} AgreementKept(B: OpMap, D: OpMap, ops: seq<Operation>)
    requires forall x | x in B && x in D :: B[x] == D[x]
    requires OnePayload(D, ops) && OnePayload(B + D, ops)
    ensures forall x | x in B && x in Merge(D, ops) :: B[x] == Merge(D, ops)[x]
  {
    MergeMeaning(D, ops);
    forall x | x in B && x in Merge(D, ops) ensures B[x] == Merge(D, ops)[x] {
      if x !in D {
        var o :| o in ops && o.opId == x;
        assert (B + D)[x] == B[x];
      }
    }
  }

  lemma {:induction false} EditKeepsSync(db: Database, doc: DocId, K: OpMap, edit: LocalTextEdit)
    requires Synced(db, doc, K) && EditError(db, doc, edit).None? && Replay(K, EditedOps(db, edit)).ok
    ensures Synced(Edited(db, doc, edit), doc, Replay(K, EditedOps(db, edit)).known)
  {
    if EditSize(edit) == 0 {
      assert Edited(db, doc, edit) == db && Replay(K, EditedOps(db, edit)).known == K;
    } else {
      RecordingKeepsSync(db, Edited(db, doc, edit), doc, K, EditedOps(db, edit));
    }
  }

  lemma {:induction false} RecordingKeepsSync(db: Database, db': Database, doc: DocId, K: OpMap, ops: seq<Operation>)
    requires Synced(db, doc, K) && Replay(K, ops).ok && Addable(db.operations, ops)
    requires db'.operations == AddRecords(db.operations, doc, ops)
    requires db'.serverBaselines == db.serverBaselines && db'.syncState == db.syncState
    ensures Synced(db', doc, Replay(K, ops).known)
  {
    RecordedDoc(db, db', doc, ops);
    SyncedExtends(db, db', doc, K, ops);
  }

  lemma {:induction false} IngestKeepsSync(db: Database, doc: DocId, K: OpMap, batch: seq<Sequenced>, confirmed: int)
    requires Synced(db, doc, K) && Ingested(db, doc, batch, confirmed).Success? && Replay(K, OpsOf(batch)).ok
    ensures Synced(Ingested(db, doc, batch, confirmed).value, doc, Replay(K, OpsOf(batch)).known)
  {
    IngestAllMeaning(db, doc, OpsOf(batch));
    var r := IngestAll(db, doc, OpsOf(batch)).value;
    var db' := Ingested(db, doc, batch, confirmed).value;
    assert DocOps(db', doc) == DocOps(r, doc);
    SyncedExtends(db, db', doc, K, OpsOf(batch));
  }

  lemma InstallMakesSync(db: Database, doc: DocId, boot: Bootstrap, batch: seq<Sequenced>, confirmed: int, K0: OpMap,
          K: OpMap)
    requires Filed(db) && Installable(db, doc, boot, batch, confirmed) && Bootstraps(boot, batch, confirmed, K0, K)
    ensures Synced(Installed(db, doc, boot, batch, confirmed), doc, K)
  {
    var db' := Installed(db, doc, boot, batch, confirmed);
    InstalledDoc(db, doc, boot, batch, confirmed);
    BaselineOpsAre(db', doc, K0);
    AcceptableWellFormed(boot.snapshot, K0);
    SuffixOverBaseline(K0, OpsOf(batch), K);
  }

  lemma InstalledDoc(db: Database, doc: DocId, boot: Bootstrap, batch: seq<Sequenced>, confirmed: int)
    requires Filed(db) && db.clientMeta.Some? && Eligible(db, doc) && Addable(db.operations, OpsOf(batch))
    ensures Filed(Installed(db, doc, boot, batch, confirmed))
    ensures OnePayload(map[], OpsOf(batch))
    ensures DocOps(Installed(db, doc, boot, batch, confirmed), doc) == Merge(map[], OpsOf(batch))
  {
    assert DocOps(db, doc) == map[];
    RecordedDoc(db, Installed(db, doc, boot, batch, confirmed), doc, OpsOf(batch));
  }

  lemma {:induction false} SuffixOverBaseline(K0: OpMap, ops: seq<Operation>, K: OpMap)
    requires WellFormed(K0) && OnePayload(map[], ops) && Replay(K0, ops) == Outcome(K, true)
    ensures WellFormed(K) && K == K0 + Merge(map[], ops)
    ensures forall x | x in K0 && x in Merge(map[], ops) :: K0[x] == Merge(map[], ops)[x]
  {
    ReplayAccepts(K0, ops);
    assert K0 + map[] == K0;
    KnownMerges(K0, map[], ops);
    AgreementKept(K0, map[], ops);
  }
}
