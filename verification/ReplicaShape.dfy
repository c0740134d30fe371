/** The state of a replica and the invariant of its maps. */
module ReplicaShape {
  import opened JsStrings
  import opened Operations
  import opened AnchorGraph
  import opened Sorting

  datatype TextNode = TextNode(id: Id, afterId: Id, value: JsString, clientId: JsString,
                               counter: int, lamport: int, tombstone: bool)

  datatype ReplicaState = ReplicaState(
    nodes: map<Id, TextNode>,
    children: map<Id, seq<Id>>,
    known: OpMap,
    pendingInserts: map<Id, set<Id>>,
    pendingDeletes: map<Id, set<Id>>)

  function NodeFor(op: Operation, tombstone: bool): TextNode
    requires op.Insert?
  {
    TextNode(op.opId, op.afterId, op.value, op.clientId, op.counter, op.lamport, tombstone)
  }

  function NodeKey(n: TextNode): Key {
    Key(n.lamport, n.clientId, n.counter)
  }

  ghost predicate SiblingBefore(K: OpMap, x: Id, y: Id) {
    x in K && y in K && KeyLess(KeyOf(K[x]), KeyOf(K[y]))
  }

  ghost predicate SortedSiblings(K: OpMap, s: seq<Id>) {
    forall i, j | 0 <= i < j < |s| :: SiblingBefore(K, s[i], s[j])
  }

  /** `childrenByParent.get(parentId) ?? []` */
  function SiblingsOf(C: map<Id, seq<Id>>, p: Id): seq<Id> {
    if p in C then C[p] else []
  }

  // ----- the invariant, with inserts `Q` queued between two loop iterations

  ghost predicate NodesOk(K: OpMap, nodes: map<Id, TextNode>) {
    forall x | x in nodes :: Attached(K, x) && nodes[x] == NodeFor(K[x], Deleted(K, x))
  }

  ghost predicate Listed(C: map<Id, seq<Id>>, p: Id, x: Id) {
    p in C && x in C[p]
  }

  ghost predicate Waits(P: map<Id, set<Id>>, a: Id, x: Id) {
    a in P && x in P[a]
  }

  ghost predicate ChildrenOk(K: OpMap, A: set<Id>, C: map<Id, seq<Id>>) {
    && (forall p | p in C :: C[p] != [] && SortedSiblings(K, C[p]))
    && (forall p, x | Listed(C, p, x) :: x in A && IsInsert(K, x) && K[x].afterId == p)
    && (forall x | x in A && IsInsert(K, x) :: Listed(C, K[x].afterId, x))
  }

  /** Inserts that are neither attached nor queued wait under their anchors. */
  ghost predicate PendingInsertsOk(K: OpMap, A: set<Id>, Q: set<Id>, P: map<Id, set<Id>>) {
    && (forall a | a in P :: P[a] != {} && a != ROOT_ID && a !in A)
    && (forall a, x | Waits(P, a, x) :: IsInsert(K, x) && x !in A && x !in Q && K[x].afterId == a)
    && (forall x | IsInsert(K, x) && x !in A && x !in Q :: Waits(P, K[x].afterId, x))
  }

  ghost predicate PendingDeletesOk(K: OpMap, A: set<Id>, D: map<Id, set<Id>>) {
    && (forall t | t in D :: D[t] != {} && t !in A)
    && (forall t, d | Waits(D, t, d) :: d in K && K[d].Delete? && K[d].targetId == t)
    && (forall d | d in K && K[d].Delete? && K[d].targetId !in A :: Waits(D, K[d].targetId, d))
  }

  /** Queued inserts are ready to attach. */
  ghost predicate QueueOk(K: OpMap, A: set<Id>, Q: set<Id>) {
    forall x | x in Q :: IsInsert(K, x) && x !in A && (K[x].afterId == ROOT_ID || K[x].afterId in A)
  }

  ghost predicate Cascading(s: ReplicaState, Q: set<Id>) {
    && WellFormed(s.known)
    && NodesOk(s.known, s.nodes)
    && ChildrenOk(s.known, s.nodes.Keys, s.children)
    && PendingInsertsOk(s.known, s.nodes.Keys, Q, s.pendingInserts)
    && PendingDeletesOk(s.known, s.nodes.Keys, s.pendingDeletes)
    && QueueOk(s.known, s.nodes.Keys, Q)
  }

  /** The invariant of a replica at rest. */
  ghost predicate Represents(s: ReplicaState) {
    Cascading(s, {})
  }

  // ----- the closed form

  lemma NodesAreAttached(s: ReplicaState)
    requires Represents(s)
    ensures forall x :: x in s.nodes <==> Attached(s.known, x)
  {
    var K, A := s.known, s.nodes.Keys;
    forall x | IsInsert(K, x) && (K[x].afterId == ROOT_ID || K[x].afterId in A) ensures x in A {
      assert x !in A ==> Waits(s.pendingInserts, K[x].afterId, x);
    }
    AttachedIsClosure(K, A);
  }

  /** The node table answers whether a dependency is attached. */
  lemma NodeIsAttached(s: ReplicaState, x: Id)
    requires Represents(s)
    ensures x in s.nodes <==> Attached(s.known, x)
  {
    NodesAreAttached(s);
  }

  /** At rest the nodes are exactly the known inserts whose anchor chain reaches
      ROOT, tombstoned iff some known delete targets them; every other insert
      waits under its anchor, every delete without a node under its target. */
  lemma ClosedForm(s: ReplicaState)
    requires Represents(s)
    ensures forall x :: x in s.nodes <==> Attached(s.known, x)
    ensures forall x | x in s.nodes :: s.nodes[x] == NodeFor(s.known[x], Deleted(s.known, x))
    ensures forall a, x ::
      (Waits(s.pendingInserts, a, x) <==> PendingInsert(s.known, x) && s.known[x].afterId == a)
    ensures forall t, d ::
      (Waits(s.pendingDeletes, t, d) <==> PendingDelete(s.known, d) && s.known[d].targetId == t)
    ensures forall p, x ::
      (Listed(s.children, p, x) <==> Attached(s.known, x) && s.known[x].afterId == p)
  {
    NodesAreAttached(s);
    PendingClosedForm(s);
  }

  lemma PendingClosedForm(s: ReplicaState)
    requires Represents(s) && forall x :: x in s.nodes <==> Attached(s.known, x)
    ensures forall a, x ::
      (Waits(s.pendingInserts, a, x) <==> PendingInsert(s.known, x) && s.known[x].afterId == a)
    ensures forall t, d ::
      (Waits(s.pendingDeletes, t, d) <==> PendingDelete(s.known, d) && s.known[d].targetId == t)
  {
    forall t, d | Waits(s.pendingDeletes, t, d) ensures PendingDelete(s.known, d) && s.known[d].targetId == t {
      assert t !in s.nodes;
    }
  }

  /** Everything a replica stores is determined by the operations it knows. */
  lemma StateDetermined(s: ReplicaState, t: ReplicaState)
    requires Represents(s) && Represents(t) && s.known == t.known
    ensures s == t
  {
    ClosedForm(s);
    ClosedForm(t);
    SameNodes(s.known, s.nodes, t.nodes);
    SamePending(s.pendingInserts, t.pendingInserts);
    SamePending(s.pendingDeletes, t.pendingDeletes);
    SameChildren(s.known, s.children, t.children);
  }

  lemma SameNodes(K: OpMap, m: map<Id, TextNode>, n: map<Id, TextNode>)
    requires NodesOk(K, m) && NodesOk(K, n)
    requires forall x :: x in m <==> Attached(K, x)
    requires forall x :: x in n <==> Attached(K, x)
    ensures m == n
  {}

  lemma SamePending(P: map<Id, set<Id>>, R: map<Id, set<Id>>)
    requires forall a | a in P :: P[a] != {}
    requires forall a | a in R :: R[a] != {}
    requires forall a, x :: (Waits(P, a, x) <==> Waits(R, a, x))
    ensures P == R
  {
    forall a ensures a in P <==> a in R {
      if a in P { var x :| x in P[a]; assert Waits(P, a, x); }
      if a in R { var x :| x in R[a]; assert Waits(R, a, x); }
    }
    forall a | a in P ensures P[a] == R[a] {
      assert forall x :: x in P[a] <==> Waits(P, a, x);
      assert forall x :: x in R[a] <==> Waits(R, a, x);
    }
  }

  lemma SameChildren(K: OpMap, C: map<Id, seq<Id>>, E: map<Id, seq<Id>>)
    requires forall p | p in C :: C[p] != [] && SortedSiblings(K, C[p])
    requires forall p | p in E :: E[p] != [] && SortedSiblings(K, E[p])
    requires forall p, x :: (Listed(C, p, x) <==> Listed(E, p, x))
    ensures C == E
  {
    forall p ensures p in C <==> p in E {
      if p in C { assert Listed(C, p, C[p][0]); }
      if p in E { assert Listed(E, p, E[p][0]); }
    }
    forall p | p in C ensures C[p] == E[p] {
      assert forall x :: x in C[p] <==> Listed(C, p, x);
      assert forall x :: x in E[p] <==> Listed(E, p, x);
      SiblingsUnique(K, C[p], E[p]);
    }
  }

  lemma SiblingsUnique(K: OpMap, s: seq<Id>, t: seq<Id>)
    requires SortedSiblings(K, s) && SortedSiblings(K, t)
    requires forall x :: x in s <==> x in t
    ensures s == t
  {
    var less := (x: Id, y: Id) => SiblingBefore(K, x, y);
    forall x, y | x in s && y in s && less(x, y) ensures !less(y, x) {
      if less(y, x) {
        KeyLessTransitive(KeyOf(K[x]), KeyOf(K[y]), KeyOf(K[x]));
        KeyLessIrreflexive(KeyOf(K[x]));
      }
    }
    assert forall i, j | 0 <= i < j < |s| :: less(s[i], s[j]);
    SortedUnique(less, s, t);
  }

  /** The already-attached and missing-anchor branches of the cascade loop are
      dead, and each iteration leaves one insert fewer to attach. */
  ghost function Unattached(s: ReplicaState): set<Id> {
    s.known.Keys - s.nodes.Keys
  }

  // ----- elementary updates

  /** Recording an insert whose anchor is attached, before the cascade. */
  lemma BeginCascade(s: ReplicaState, op: Operation)
    requires Represents(s) && op.Insert? && IsValidOperation(op) && op.opId !in s.known
    requires op.afterId == ROOT_ID || op.afterId in s.nodes
    ensures Cascading(s.(known := s.known[op.opId := op]), {op.opId})
  {
    BeginWellFormed(s, op);
    BeginParts(s.known, op, s.nodes, s.nodes.Keys, s.children, s.pendingInserts, s.pendingDeletes);
  }

  lemma BeginParts(K: OpMap, op: Operation, nodes: map<Id, TextNode>, A: set<Id>, C: map<Id, seq<Id>>,
          P: map<Id, set<Id>>, D: map<Id, set<Id>>)
    requires NodesOk(K, nodes) && ChildrenOk(K, A, C) && PendingInsertsOk(K, A, {}, P) && PendingDeletesOk(K, A, D)
    requires A == nodes.Keys && op.Insert? && op.opId !in K && (op.afterId == ROOT_ID || op.afterId in A)
    ensures NodesOk(K[op.opId := op], nodes) && ChildrenOk(K[op.opId := op], A, C)
    ensures PendingInsertsOk(K[op.opId := op], A, {op.opId}, P) && PendingDeletesOk(K[op.opId := op], A, D)
    ensures QueueOk(K[op.opId := op], A, {op.opId})
  {
    KeepTables(K, op, nodes, A, C, D);
    QueueNewInsert(K, op, A, P);
  }

  /** What a new insert leaves alone. */
  lemma KeepTables(K: OpMap, op: Operation, nodes: map<Id, TextNode>, A: set<Id>, C: map<Id, seq<Id>>,
          D: map<Id, set<Id>>)
    requires NodesOk(K, nodes) && ChildrenOk(K, A, C) && PendingDeletesOk(K, A, D) && A == nodes.Keys
    requires op.Insert? && op.opId !in K
    ensures NodesOk(K[op.opId := op], nodes) && ChildrenOk(K[op.opId := op], A, C)
    ensures PendingDeletesOk(K[op.opId := op], A, D) && op.opId !in A
  {
    assert op.opId !in nodes;
    KeepNodes(K, op, nodes);
    KeepChildren(K, op, A, C);
    KeepPendingDeletes(K, op, A, D);
  }

  lemma BeginWellFormed(s: ReplicaState, op: Operation)
    requires Represents(s) && op.Insert? && IsValidOperation(op) && op.opId !in s.known
    requires op.afterId == ROOT_ID || op.afterId in s.nodes
    ensures WellFormed(s.known[op.opId := op])
  {
    NodesAreAttached(s);
    InsertKeepsWellFormed(s.known, op);
  }

  lemma QueueNewInsert(K: OpMap, op: Operation, A: set<Id>, P: map<Id, set<Id>>)
    requires PendingInsertsOk(K, A, {}, P) && op.Insert? && op.opId !in K
    ensures PendingInsertsOk(K[op.opId := op], A, {op.opId}, P)
  {}

  lemma KeepPendingDeletes(K: OpMap, op: Operation, A: set<Id>, D: map<Id, set<Id>>)
    requires PendingDeletesOk(K, A, D) && op.opId !in K
    requires op.Delete? ==> op.targetId in A
    ensures PendingDeletesOk(K[op.opId := op], A, D)
  {}

  /** An attached anchor makes a new insert acceptable without a cycle check. */
  lemma InsertKeepsWellFormed(K: OpMap, op: Operation)
    requires WellFormed(K) && op.Insert? && IsValidOperation(op) && op.opId !in K
    requires Anchored(K, op.afterId)
    ensures WellFormed(K[op.opId := op])
  {
    ValidIdHasColon(op);
    RootNotKnown(K);
    AttachedAnchorIsSafe(K, op);
    AcyclicExtend(K, op);
    InsertNoDeleteAnchors(K, op);
  }

  /** Learning an operation that deletes no node leaves the nodes right. */
  lemma KeepNodes(K: OpMap, op: Operation, nodes: map<Id, TextNode>)
    requires NodesOk(K, nodes) && op.opId !in K
    requires op.Delete? ==> op.targetId !in nodes
    ensures NodesOk(K[op.opId := op], nodes)
  {
    var K' := K[op.opId := op];
    forall x | x in nodes ensures Attached(K', x) && nodes[x] == NodeFor(K'[x], Deleted(K', x)) {
      AttachedMonotone(K, K', x);
      if Deleted(K, x) {
        var d :| d in K && K[d].Delete? && K[d].targetId == x;
        assert d in K' && K'[d] == K[d];
      }
    }
  }

  lemma KeepChildren(K: OpMap, op: Operation, A: set<Id>, C: map<Id, seq<Id>>)
    requires ChildrenOk(K, A, C) && op.opId !in K && op.opId !in A
    ensures ChildrenOk(K[op.opId := op], A, C)
  {
    var K' := K[op.opId := op];
    forall p | p in C ensures SortedSiblings(K', C[p]) {
      KeepSorted(K, K', C[p]);
    }
  }

  lemma KeepSorted(K: OpMap, K': OpMap, s: seq<Id>)
    requires Sub(K, K') && SortedSiblings(K, s)
    ensures SortedSiblings(K', s)
  {
    assert forall i, j | 0 <= i < j < |s| :: SiblingBefore(K, s[i], s[j]);
  }

  /** `pendingSet.get(a) ?? new Set()` with `x` added. */
  function AddPending(P: map<Id, set<Id>>, a: Id, x: Id): map<Id, set<Id>> {
    P[a := (if a in P then P[a] else {}) + {x}]
  }

  lemma AddPendingWaits(P: map<Id, set<Id>>, a: Id, x: Id)
    ensures forall b, y :: (Waits(AddPending(P, a, x), b, y) <==> Waits(P, b, y) || (b == a && y == x))
  {}

  /** Buffering an insert whose anchor is not attached. */
  lemma BufferInsert(s: ReplicaState, op: Operation)
    requires Represents(s) && op.Insert? && op.opId !in s.known && WellFormed(s.known[op.opId := op])
    requires op.afterId != ROOT_ID && op.afterId !in s.nodes
    ensures Represents(s.(known := s.known[op.opId := op],
                          pendingInserts := AddPending(s.pendingInserts, op.afterId, op.opId)))
  {
    KeepTables(s.known, op, s.nodes, s.nodes.Keys, s.children, s.pendingDeletes);
    BufferPendingInsert(s.known, op, s.nodes.Keys, s.pendingInserts);
  }

  lemma BufferPendingInsert(K: OpMap, op: Operation, A: set<Id>, P: map<Id, set<Id>>)
    requires PendingInsertsOk(K, A, {}, P) && op.Insert? && op.opId !in K
    requires op.afterId != ROOT_ID && op.afterId !in A && op.opId !in A
    ensures PendingInsertsOk(K[op.opId := op], A, {}, AddPending(P, op.afterId, op.opId))
  {
    AddPendingWaits(P, op.afterId, op.opId);
  }

  /** The state after a new delete: a tombstone, or a buffered delete. */
  function AfterDelete(s: ReplicaState, op: Operation): ReplicaState
    requires op.Delete?
  {
    var t := s.(known := s.known[op.opId := op]);
    if op.targetId in s.nodes then
      t.(nodes := s.nodes[op.targetId := s.nodes[op.targetId].(tombstone := true)])
    else
      t.(pendingDeletes := AddPending(s.pendingDeletes, op.targetId, op.opId))
  }

  lemma DeleteTransition(s: ReplicaState, op: Operation)
    requires Represents(s) && op.Delete? && op.opId !in s.known && WellFormed(s.known[op.opId := op])
    ensures Represents(AfterDelete(s, op))
    ensures op.targetId in s.nodes <==> Attached(s.known, op.targetId)
  {
    NodeIsAttached(s, op.targetId);
    if op.targetId in s.nodes { TombstoneNode(s, op); } else { BufferDelete(s, op); }
  }

  lemma BufferDelete(s: ReplicaState, op: Operation)
    requires Represents(s) && op.Delete? && op.opId !in s.known && WellFormed(s.known[op.opId := op])
    requires op.targetId !in s.nodes
    ensures Represents(s.(known := s.known[op.opId := op],
                          pendingDeletes := AddPending(s.pendingDeletes, op.targetId, op.opId)))
  {
    LearnDelete(s, op);
    KeepNodes(s.known, op, s.nodes);
    BufferPendingDelete(s.known, op, s.nodes.Keys, s.pendingDeletes);
  }

  lemma LearnDelete(s: ReplicaState, op: Operation)
    requires Represents(s) && op.Delete? && op.opId !in s.known
    ensures ChildrenOk(s.known[op.opId := op], s.nodes.Keys, s.children)
    ensures PendingInsertsOk(s.known[op.opId := op], s.nodes.Keys, {}, s.pendingInserts)
  {
    assert op.opId !in s.nodes;
    KeepChildren(s.known, op, s.nodes.Keys, s.children);
    KeepPendingInserts(s.known, op, s.nodes.Keys, s.pendingInserts);
  }

  /** The buffer lookup decides whether a new delete is acceptable. */
  lemma DeleteAcceptance(s: ReplicaState, op: Operation)
    requires Represents(s) && op.Delete? && IsValidOperation(op) && op.opId !in s.known
    ensures op.opId in s.pendingInserts <==> !WellFormed(s.known[op.opId := op])
  {
    ValidIdHasColon(op);
    BufferedAnchors(s, op.opId);
    AcyclicAddDelete(s.known, op);
    DeleteNoDeleteAnchors(s.known, op);
  }

  lemma DeleteNoDeleteAnchors(K: OpMap, op: Operation)
    requires NoDeleteAnchors(K) && op.Delete? && op.opId !in K
    ensures NoDeleteAnchors(K[op.opId := op]) <==> forall x | IsInsert(K, x) :: K[x].afterId != op.opId
  {
    var K' := K[op.opId := op];
    forall x | IsInsert(K, x) && K[x].afterId == op.opId ensures !NoDeleteAnchors(K') {
      assert IsInsert(K', x);
    }
  }

  lemma BufferedAnchors(s: ReplicaState, id: Id)
    requires Represents(s) && id !in s.known && id != ROOT_ID
    ensures id in s.pendingInserts <==> exists x :: IsInsert(s.known, x) && s.known[x].afterId == id
  {
    var K := s.known;
    if id in s.pendingInserts {
      var x :| x in s.pendingInserts[id];
      assert Waits(s.pendingInserts, id, x);
    }
    forall x | IsInsert(K, x) && K[x].afterId == id ensures id in s.pendingInserts {
      if x in s.nodes {
        AttachedStep(K, x);
      } else {
        assert Waits(s.pendingInserts, id, x);
      }
    }
  }

  lemma KeepPendingInserts(K: OpMap, op: Operation, A: set<Id>, P: map<Id, set<Id>>)
    requires PendingInsertsOk(K, A, {}, P) && op.Delete? && op.opId !in K
    ensures PendingInsertsOk(K[op.opId := op], A, {}, P)
  {}

  lemma BufferPendingDelete(K: OpMap, op: Operation, A: set<Id>, D: map<Id, set<Id>>)
    requires PendingDeletesOk(K, A, D) && op.Delete? && op.opId !in K && op.targetId !in A
    ensures PendingDeletesOk(K[op.opId := op], A, AddPending(D, op.targetId, op.opId))
  {
    AddPendingWaits(D, op.targetId, op.opId);
  }

  lemma TombstoneNode(s: ReplicaState, op: Operation)
    requires Represents(s) && op.Delete? && op.opId !in s.known && WellFormed(s.known[op.opId := op])
    requires op.targetId in s.nodes
    ensures Represents(s.(known := s.known[op.opId := op],
                          nodes := s.nodes[op.targetId := s.nodes[op.targetId].(tombstone := true)]))
  {
    var nodes' := s.nodes[op.targetId := s.nodes[op.targetId].(tombstone := true)];
    TombstoneNodes(s.known, op, s.nodes);
    RelabelNodes(s, op, nodes');
  }

  lemma RelabelNodes(s: ReplicaState, op: Operation, nodes': map<Id, TextNode>)
    requires Represents(s) && op.Delete? && op.opId !in s.known && WellFormed(s.known[op.opId := op])
    requires nodes'.Keys == s.nodes.Keys && NodesOk(s.known[op.opId := op], nodes')
    requires op.targetId in s.nodes.Keys
    ensures Represents(s.(known := s.known[op.opId := op], nodes := nodes'))
  {
    LearnDelete(s, op);
    KeepPendingDeletes(s.known, op, s.nodes.Keys, s.pendingDeletes);
  }

  lemma TombstoneNodes(K: OpMap, op: Operation, nodes: map<Id, TextNode>)
    requires NodesOk(K, nodes) && op.Delete? && op.opId !in K && op.targetId in nodes
    ensures NodesOk(K[op.opId := op], nodes[op.targetId := nodes[op.targetId].(tombstone := true)])
  {
    var t, K' := op.targetId, K[op.opId := op];
    KeepNodes(K, op, nodes - {t});
    AttachedMonotone(K, K', t);
    assert op.opId in K' && K'[op.opId].targetId == t;
  }

  /** One iteration of the cascade: the insert becomes a node among its siblings,
      takes the deletes that waited for it, and releases the inserts that did. */
  function AfterAttach(s: ReplicaState, x: Id, siblings: seq<Id>): ReplicaState
    requires IsInsert(s.known, x)
  {
    ReplicaState(s.nodes[x := NodeFor(s.known[x], x in s.pendingDeletes)],
                 s.children[s.known[x].afterId := siblings],
                 s.known, s.pendingInserts - {x}, s.pendingDeletes - {x})
  }

  lemma AttachNode(s: ReplicaState, Q: set<Id>, x: Id, siblings: seq<Id>)
    requires Cascading(s, Q) && x in Q
    requires SortedSiblings(s.known, siblings)
    requires forall y :: y in siblings <==> Listed(s.children, s.known[x].afterId, y) || y == x
    ensures Cascading(AfterAttach(s, x, siblings),
                      Q - {x} + (if x in s.pendingInserts then s.pendingInserts[x] else {}))
  {
    AttachParts(s.known, s.nodes, s.nodes.Keys, s.children, s.pendingInserts, s.pendingDeletes, Q, x, siblings);
    OneMoreKey(s.nodes, x, NodeFor(s.known[x], x in s.pendingDeletes));
  }

  lemma OneMoreKey(nodes: map<Id, TextNode>, x: Id, n: TextNode)
    ensures nodes[x := n].Keys == nodes.Keys + {x}
  {}

  lemma AttachParts(K: OpMap, nodes: map<Id, TextNode>, A: set<Id>, C: map<Id, seq<Id>>, P: map<Id, set<Id>>,
          D: map<Id, set<Id>>, Q: set<Id>, x: Id, siblings: seq<Id>)
    requires A == nodes.Keys && x in Q && NodesOk(K, nodes) && ChildrenOk(K, A, C) && PendingInsertsOk(K, A, Q, P)
    requires PendingDeletesOk(K, A, D) && QueueOk(K, A, Q) && SortedSiblings(K, siblings)
    requires forall y :: y in siblings <==> Listed(C, K[x].afterId, y) || y == x
    ensures NodesOk(K, nodes[x := NodeFor(K[x], x in D)])
    ensures ChildrenOk(K, A + {x}, C[K[x].afterId := siblings])
    ensures PendingInsertsOk(K, A + {x}, Q - {x} + (if x in P then P[x] else {}), P - {x})
    ensures QueueOk(K, A + {x}, Q - {x} + (if x in P then P[x] else {}))
    ensures PendingDeletesOk(K, A + {x}, D - {x})
  {
    AttachNodes(K, nodes, D, x);
    AttachChildren(K, A, C, x, siblings);
    AttachPendingInserts(K, A, Q, P, x);
    AttachPendingDeletes(K, A, D, x);
  }

  lemma AttachNodes(K: OpMap, nodes: map<Id, TextNode>, D: map<Id, set<Id>>, x: Id)
    requires NodesOk(K, nodes) && PendingDeletesOk(K, nodes.Keys, D) && IsInsert(K, x) && x !in nodes
    requires K[x].afterId == ROOT_ID || K[x].afterId in nodes
    ensures NodesOk(K, nodes[x := NodeFor(K[x], x in D)])
  {
    AttachedStep(K, x);
    if x in D {
      var d :| d in D[x];
      assert Waits(D, x, d);
    }
  }

  lemma AttachChildren(K: OpMap, A: set<Id>, C: map<Id, seq<Id>>, x: Id, siblings: seq<Id>)
    requires ChildrenOk(K, A, C) && IsInsert(K, x) && x !in A
    requires SortedSiblings(K, siblings)
    requires forall y :: y in siblings <==> Listed(C, K[x].afterId, y) || y == x
    ensures ChildrenOk(K, A + {x}, C[K[x].afterId := siblings])
  {
    var a := K[x].afterId;
    assert x in siblings && siblings != [];
    var C' := C[a := siblings];
    forall p, y ensures Listed(C', p, y) <==> Listed(C, p, y) || (p == a && y == x) {
      assert p == a ==> C'[p] == siblings;
    }
  }

  lemma AttachPendingInserts(K: OpMap, A: set<Id>, Q: set<Id>, P: map<Id, set<Id>>, x: Id)
    requires PendingInsertsOk(K, A, Q, P) && QueueOk(K, A, Q) && x in Q
    ensures PendingInsertsOk(K, A + {x}, Q - {x} + (if x in P then P[x] else {}), P - {x})
    ensures QueueOk(K, A + {x}, Q - {x} + (if x in P then P[x] else {}))
  {
    assert forall y :: Waits(P, x, y) <==> x in P && y in P[x];
    assert forall a, y :: (Waits(P - {x}, a, y) <==> Waits(P, a, y) && a != x);
    assert !Waits(P, x, x);
  }

  lemma AttachPendingDeletes(K: OpMap, A: set<Id>, D: map<Id, set<Id>>, x: Id)
    requires PendingDeletesOk(K, A, D)
    ensures PendingDeletesOk(K, A + {x}, D - {x})
  {
    assert forall a, y :: (Waits(D - {x}, a, y) <==> Waits(D, a, y) && a != x);
  }
}
