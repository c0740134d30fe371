/** Snapshots: which operation sets they describe and which are acceptable. */
module Snapshots {
  import opened JsStrings
  import opened Operations
  import opened AnchorGraph
  import opened ReplicaShape
  import opened Sorting

  datatype Snapshot = Snapshot(version: int, nodes: seq<TextNode>, deleteOperations: seq<DeleteOperation>)

  function InsertOf(n: TextNode): Operation {
    Insert(n.id, n.clientId, n.counter, n.lamport, n.afterId, n.value)
  }

  /** The entries are exactly the operations of `K`, each once. */
  ghost predicate Lists(snap: Snapshot, K: OpMap) {
    && (forall x | x in K :: K[x].opId == x)
    && (forall n | n in snap.nodes :: n.id in K && K[n.id] == InsertOf(n))
    && (forall d | d in snap.deleteOperations :: d.opId in K && K[d.opId] == d)
    && (forall x | IsInsert(K, x) :: exists n :: n in snap.nodes && n.id == x)
    && (forall x | x in K && K[x].Delete? :: K[x] in snap.deleteOperations)
    && (forall i, j | 0 <= i < j < |snap.nodes| :: snap.nodes[i].id != snap.nodes[j].id)
    && (forall i, j | 0 <= i < j < |snap.deleteOperations| ::
          snap.deleteOperations[i].opId != snap.deleteOperations[j].opId)
  }

  ghost predicate TombstonesMatch(snap: Snapshot, K: OpMap) {
    forall n | n in snap.nodes :: n.tombstone <==> Deleted(K, n.id)
  }

  /** `snap` stands for the operation set `K`. */
  ghost predicate Describes(snap: Snapshot, K: OpMap) {
    Lists(snap, K) && TombstonesMatch(snap, K)
  }

  /** A version-1 listing of a well-formed, fully resolved operation set. */
  ghost predicate Acceptable(snap: Snapshot) {
    snap.version == 1 && exists K :: Describes(snap, K) && WellFormed(K) && Resolved(K)
  }

  /** The canonical snapshot of `K`. */
  ghost predicate IsExport(snap: Snapshot, K: OpMap) {
    && snap.version == 1
    && Describes(snap, K)
    && StrictlySorted((m: TextNode, n: TextNode) => StringLess(m.id, n.id), snap.nodes)
    && StrictlySorted((c: Operation, d: Operation) => StringLess(c.opId, d.opId), snap.deleteOperations)
  }

  lemma ListedSetUnique(snap: Snapshot, K: OpMap, L: OpMap)
    requires Lists(snap, K) && Lists(snap, L)
    ensures K == L
  {
    ListedIn(snap, K, L);
    ListedIn(snap, L, K);
  }

  lemma ListedIn(snap: Snapshot, K: OpMap, L: OpMap)
    requires Lists(snap, K) && Lists(snap, L)
    ensures Sub(K, L)
  {
    forall x | x in K ensures x in L && L[x] == K[x] {
      if K[x].Insert? {
        assert IsInsert(K, x);
        var n :| n in snap.nodes && n.id == x;
      } else {
        assert K[x] in snap.deleteOperations;
      }
    }
  }

  lemma AcceptableWellFormed(snap: Snapshot, K: OpMap)
    requires Acceptable(snap) && Describes(snap, K)
    ensures WellFormed(K) && Resolved(K)
  {
    var L :| Describes(snap, L) && WellFormed(L) && Resolved(L);
    ListedSetUnique(snap, K, L);
  }

  lemma DescribedNode(snap: Snapshot, K: OpMap, x: Id)
    requires Describes(snap, K) && IsInsert(K, x)
    ensures NodeFor(K[x], Deleted(K, x)) in snap.nodes
    ensures forall n | n in snap.nodes && n.id == x :: n == NodeFor(K[x], Deleted(K, x))
  {
    var n :| n in snap.nodes && n.id == x;
  }

  /** Two resolved replicas export equal snapshots exactly when they know the
      same operations. */
  lemma ExportCanonical(s: Snapshot, K: OpMap, t: Snapshot, L: OpMap)
    requires IsExport(s, K) && IsExport(t, L)
    ensures s == t <==> K == L
  {
    if s == t { ListedSetUnique(s, K, L); }
    if K == L {
      ExportNodesUnique(s, t, K);
      ExportDeletesUnique(s, t, K);
    }
  }

  lemma ExportNodesUnique(s: Snapshot, t: Snapshot, K: OpMap)
    requires IsExport(s, K) && IsExport(t, K)
    ensures s.nodes == t.nodes
  {
    var less := (m: TextNode, n: TextNode) => StringLess(m.id, n.id);
    forall m, n | m in s.nodes && n in s.nodes && less(m, n) ensures !less(n, m) {
      if less(n, m) {
        StringLessTransitive(m.id, n.id, m.id);
        StringLessIrreflexive(m.id);
      }
    }
    forall n ensures n in s.nodes <==> n in t.nodes {
      if n in s.nodes { DescribedNode(s, K, n.id); DescribedNode(t, K, n.id); }
      if n in t.nodes { DescribedNode(s, K, n.id); DescribedNode(t, K, n.id); }
    }
    SortedUnique(less, s.nodes, t.nodes);
  }

  lemma ExportDeletesUnique(s: Snapshot, t: Snapshot, K: OpMap)
    requires IsExport(s, K) && IsExport(t, K)
    ensures s.deleteOperations == t.deleteOperations
  {
    var less := (c: Operation, d: Operation) => StringLess(c.opId, d.opId);
    forall c, d | c in s.deleteOperations && d in s.deleteOperations && less(c, d) ensures !less(d, c) {
      if less(d, c) {
        StringLessTransitive(c.opId, d.opId, c.opId);
        StringLessIrreflexive(c.opId);
      }
    }
    var a: seq<Operation>, b: seq<Operation> := s.deleteOperations, t.deleteOperations;
    SortedUnique(less, a, b);
  }
}
