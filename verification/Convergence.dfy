/** Convergence, element order, cascades and snapshots. */
module Convergence {
  import opened Operations
  import opened AnchorGraph
  import opened DocumentOrder
  import opened Documents
  import opened Replays
  import opened ReplicaShape
  import opened Snapshots
  import opened Sorting

  /** Two replicas fed the same operations, in any order and with any
      duplication, end in the same state and show the same document. */
  lemma {:induction false} ReplicasConverge(ops: seq<Operation>, ops': seq<Operation>, s: ReplicaState, t: ReplicaState)
    requires SameElements(ops, ops') && Replay(map[], ops).ok
    requires Represents(s) && s.known == Replay(map[], ops).known
    requires Represents(t) && t.known == Replay(map[], ops').known
    ensures Replay(map[], ops').ok && s == t
    ensures DocumentOf(s.known) == DocumentOf(t.known)
  {
    EmptyWellFormed();
    DeliveryOrderIrrelevant(map[], ops, ops');
    StateDetermined(s, t);
  }

  lemma EmptyWellFormed()
    ensures WellFormed(map[])
  {
    AllAttachedWellFormed(map[]);
  }

  /** Documents of replicas that know different parts of one universe list the
      elements they share in the same relative order. */
  lemma SharedElementsKeepOrder(K1: OpMap, K2: OpMap, U: OpMap, d1: seq<VisibleElement>, d2: seq<VisibleElement>,
          i: nat, j: nat, k: nat, l: nat)
    requires Sub(K1, U) && Sub(K2, U) && IsDocument(K1, d1) && IsDocument(K2, d2)
    requires i < |d1| && j < |d1| && k < |d2| && l < |d2|
    requires d1[i].id == d2[k].id && d1[j].id == d2[l].id
    ensures i < j <==> k < l
  {
    assert d1[i] in d1 && d1[j] in d1 && d2[k] in d2 && d2[l] in d2;
    GlobalOrder(K1, K2, U, d1[i].id, d1[j].id);
    PositionsFollowOrder(K1, d1, i, j);
    PositionsFollowOrder(K2, d2, k, l);
  }

  lemma PositionsFollowOrder(K: OpMap, d: seq<VisibleElement>, i: nat, j: nat)
    requires IsDocument(K, d) && i < |d| && j < |d|
    ensures i < j <==> Before(K, d[i].id, d[j].id)
  {
    if i >= j && Before(K, d[i].id, d[j].id) {
      BeforeAsymmetric(K, d[i].id, d[j].id);
      BeforeIrreflexive(K, d[i].id);
    }
  }

  /** Attaching an insert attaches exactly the inserts whose anchor chain leads
      to it, and detaches nothing. */
  lemma CascadeExact(K: OpMap, op: Operation, x: Id)
    requires WellKeyed(K) && op.Insert? && op.opId !in K && op.opId != ROOT_ID && Anchored(K, op.afterId)
    ensures Attached(K[op.opId := op], x) <==> Attached(K, x) || Reaches(K[op.opId := op], x, op.opId)
  {
    var K' := K[op.opId := op];
    NewestAttached(K, op);
    if Attached(K, x) { AttachedMonotone(K, K', x); }
    if Reaches(K', x, op.opId) {
      var k: nat :| Chain(K', x, op.opId, k);
      ChainToAttached(K', x, op.opId, k);
    }
    if Attached(K', x) { NewlyAttached(K, op, x, Level(K', x)); }
  }

  lemma {:induction false} ChainToAttached(K: OpMap, x: Id, y: Id, k: nat)
    requires Chain(K, x, y, k) && Attached(K, y)
    ensures Attached(K, x)
    decreases k
  {
    if k > 0 {
      ChainToAttached(K, K[x].afterId, y, k - 1);
      AttachedStep(K, x);
    }
  }

  lemma {:induction false} NewlyAttached(K: OpMap, op: Operation, x: Id, n: nat)
    requires op.Insert? && op.opId !in K && AttachedAt(K[op.opId := op], x, n)
    ensures Attached(K, x) || Reaches(K[op.opId := op], x, op.opId)
    decreases n
  {
    var K' := K[op.opId := op];
    if x == op.opId {
      assert Chain(K', x, x, 0);
    } else if n == 0 {
      assert AttachedAt(K, x, 0);
    } else {
      var a := K'[x].afterId;
      NewlyAttached(K, op, a, n - 1);
      if Attached(K, a) {
        AttachedStep(K, x);
      } else {
        var k: nat :| Chain(K', a, op.opId, k);
        assert Chain(K', x, op.opId, k + 1);
      }
    }
  }

  /** Exporting and restoring gives back exactly the same state. */
  lemma SnapshotRoundTrip(s: ReplicaState, snap: Snapshot, t: ReplicaState)
    requires Represents(s) && Resolved(s.known) && IsExport(snap, s.known)
    requires Represents(t) && Describes(snap, t.known)
    ensures Acceptable(snap) && t == s
  {
    ListedSetUnique(snap, s.known, t.known);
    StateDetermined(s, t);
  }

  /** Restoring a snapshot and replaying a suffix equals replaying everything:
      the same known operations or the same rejection. */
  lemma {:induction false} SnapshotPlusSuffix(snap: Snapshot, prefix: seq<Operation>, suffix: seq<Operation>, K: OpMap)
    requires Replay(map[], prefix).ok && Describes(snap, Replay(map[], prefix).known)
    requires Describes(snap, K)
    ensures Replay(K, suffix) == Replay(map[], prefix + suffix)
  {
    ListedSetUnique(snap, K, Replay(map[], prefix).known);
    ReplayAppend(map[], prefix, suffix);
  }

  /** Restoring an acceptable snapshot gives the state of every replica that was fed the
      operations it describes, in any order and with any duplication. */
  lemma {:induction false} SnapshotIsReplay(snap: Snapshot, ops: seq<Operation>, s: ReplicaState, t: ReplicaState)
    requires Acceptable(snap) && Represents(s) && Describes(snap, s.known)
    requires forall op :: op in ops <==> op.opId in s.known && s.known[op.opId] == op
    requires Represents(t) && t.known == Replay(map[], ops).known
    ensures Replay(map[], ops).ok && s == t
  {
    AcceptableWellFormed(snap, s.known);
    ReplayAll(s.known, ops);
    StateDetermined(s, t);
  }

  lemma {:induction false} ReplayAll(K: OpMap, ops: seq<Operation>)
    requires WellFormed(K)
    requires forall op :: op in ops <==> op.opId in K && K[op.opId] == op
    ensures Replay(map[], ops) == Outcome(K, true)
  {
    EmptyWellFormed();
    ReplayWithin(map[], K, ops);
    MergeOfAll(K, ops);
    assert Replay(map[], ops) == Outcome(Replay(map[], ops).known, true);
  }

  lemma {:induction false} MergeOfAll(K: OpMap, ops: seq<Operation>)
    requires OnePayload(map[], ops) && forall x | x in K :: K[x].opId == x
    requires forall op :: op in ops <==> op.opId in K && K[op.opId] == op
    ensures Merge(map[], ops) == K
  {
    MergeMeaning(map[], ops);
    var M := Merge(map[], ops);
    forall x ensures x in M <==> x in K
             ensures x in M && x in K ==> M[x] == K[x] {
      if x in K { assert K[x] in ops; }
    }
  }
}
