/** The sequence CRDT: a replica that buffers operations arriving early, attaches
    inserts in cascades, keeps siblings ordered and walks the tree with a stack. */
module TextReplicas {
  import opened Wrappers
  import opened JsStrings
  import opened Operations
  import opened AnchorGraph
  import opened DocumentOrder
  import opened Documents
  import opened ElementOrders
  import opened PreOrder
  import opened Replays
  import opened ReplicaShape
  import opened SnapshotRestore
  import opened Snapshots
  import opened Sorting
  import opened Texts
  import opened Traversal

  datatype ApplyStatus = Applied | Pending | Duplicate

  /** The status of an accepted operation. */
  ghost function StatusOf(K: OpMap, op: Operation): ApplyStatus {
    if op.opId in K then Duplicate
    else if op.Insert? then (if Anchored(K, op.afterId) then Applied else Pending)
    else if Attached(K, op.targetId) then Applied else Pending
  }

  ghost predicate Queued(K: OpMap, queue: seq<Operation>) {
    && (forall o | o in queue :: o.Insert? && o.opId in K && K[o.opId] == o)
    && (forall i, j | 0 <= i < j < |queue| :: queue[i].opId != queue[j].opId)
  }

  ghost function Ids(queue: seq<Operation>): set<Id> {
    set o | o in queue :: o.opId
  }

  lemma RelearnIsNoop(K: OpMap, op: Operation)
    requires op.opId in K && K[op.opId] == op
    ensures K[op.opId := op] == K
  {}

  class TextReplica {
    var nodes: map<Id, TextNode>
    var childrenByParent: map<Id, seq<Id>>
    var knownOperations: OpMap
    var pendingInsertsByAnchor: map<Id, set<Id>>
    var pendingDeletesByTarget: map<Id, set<Id>>

    ghost function State(): ReplicaState
      reads this
    {
      ReplicaState(nodes, childrenByParent, knownOperations, pendingInsertsByAnchor, pendingDeletesByTarget)
    }

    ghost predicate Valid()
      reads this
    {
      Represents(State())
    }

    constructor ()
      ensures Valid() && knownOperations == map[]
    {
      nodes, childrenByParent, knownOperations := map[], map[], map[];
      pendingInsertsByAnchor, pendingDeletesByTarget := map[], map[];
    }

    /** Accepts exactly the operations that keep the known set well formed; a
        rejected or repeated operation changes nothing. */
    method Apply(op: Operation) returns (r: Result<ApplyStatus, CrdtError>)
      requires Valid()
      modifies this
      ensures Valid()
      ensures r.Success? <==> Accepts(old(knownOperations), op)
      ensures Accepts(old(knownOperations), op) ==> WellMade(op)
      ensures !WellMade(op) ==> r == Failure(InvalidOperation)
      ensures r.Success? ==> r.value == StatusOf(old(knownOperations), op)
      ensures r.Failure? ==> r.error == ErrorOf(old(knownOperations), op)
      ensures r.Success? ==> knownOperations == old(knownOperations)[op.opId := op]
      ensures r.Failure? || r.value == Duplicate ==> State() == old(State())
    {
      ValidExactly(op);
      var e := Check(op);
      if e.Some? {
        r := Failure(e.value);
      } else if op.opId in knownOperations {
        RelearnIsNoop(knownOperations, op);
        r := Success(Duplicate);
      } else {
        var status := Learn(op);
        r := Success(status);
      }
    }

    /** The checks that may reject an operation; none of them changes anything. */
    method Check(op: Operation) returns (e: Option<CrdtError>)
      requires Valid()
      ensures e.None? <==> Accepts(knownOperations, op)
      ensures e.Some? ==> e.value == ErrorOf(knownOperations, op)
    {
      if !IsValidOperation(op) { return Some(InvalidOperation); }
      if op.opId in knownOperations {
        return if knownOperations[op.opId] != op then Some(IdentityConflict) else None;
      }
      e := CheckDependencies(op);
    }

    /** Records a checked operation and applies or buffers it. */
    method Learn(op: Operation) returns (status: ApplyStatus)
      requires Valid() && IsValidOperation(op) && op.opId !in knownOperations
      requires WellFormed(knownOperations[op.opId := op])
      modifies this
      ensures Valid() && knownOperations == old(knownOperations)[op.opId := op]
      ensures status == StatusOf(old(knownOperations), op)
    {
      ghost var s := State();
      knownOperations := knownOperations[op.opId := op];
      if op.Insert? {
        status := ApplyInsert(op, s);
      } else {
        DeleteTransition(s, op);
        status := ApplyDelete(op, s);
      }
    }

    /** The checks of a new operation against its dependencies. */
    method CheckDependencies(op: Operation) returns (e: Option<CrdtError>)
      requires Valid() && IsValidOperation(op) && op.opId !in knownOperations
      ensures e.None? <==> WellFormed(knownOperations[op.opId := op])
      ensures e.Some? ==> e.value == ErrorOf(knownOperations, op)
    {
      if op.Insert? {
        if !AnchorExists(op.afterId) {
          e := CheckCycle(op);
          return;
        }
        NodeIsAttached(State(), op.afterId);
        InsertKeepsWellFormed(knownOperations, op);
      } else {
        DeleteAcceptance(State(), op);
        if op.opId in pendingInsertsByAnchor { return Some(InvalidOperation); }
      }
      return None;
    }

    method ApplyInsert(op: Operation, ghost s: ReplicaState) returns (status: ApplyStatus)
      requires Represents(s) && op.Insert? && IsValidOperation(op) && op.opId !in s.known
      requires WellFormed(s.known[op.opId := op]) && State() == s.(known := s.known[op.opId := op])
      modifies this
      ensures Valid() && knownOperations == old(knownOperations)
      ensures status == StatusOf(s.known, op)
    {
      NodeIsAttached(s, op.afterId);
      if !AnchorExists(op.afterId) {
        BufferInsert(s, op);
        pendingInsertsByAnchor := AddPending(pendingInsertsByAnchor, op.afterId, op.opId);
        return Pending;
      }
      BeginCascade(s, op);
      AttachInsertAndResolve(op);
      return Applied;
    }

    method ApplyDelete(op: Operation, ghost s: ReplicaState) returns (status: ApplyStatus)
      requires op.Delete? && State() == s.(known := s.known[op.opId := op])
      modifies this
      ensures State() == AfterDelete(s, op)
      ensures status == if op.targetId in s.nodes then Applied else Pending
    {
      if op.targetId !in nodes {
        pendingDeletesByTarget := AddPending(pendingDeletesByTarget, op.targetId, op.opId);
        return Pending;
      }
      nodes := nodes[op.targetId := nodes[op.targetId].(tombstone := true)];
      return Applied;
    }

    predicate AnchorExists(anchorId: Id)
      reads this`nodes
    {
      anchorId == ROOT_ID || anchorId in nodes
    }

    /** Walks the anchor chain of a new insert until it leaves the known inserts. */
    method CheckCycle(op: Operation) returns (e: Option<CrdtError>)
      requires WellFormed(knownOperations) && op.Insert? && IsValidOperation(op) && op.opId !in knownOperations
      ensures e.None? <==> WellFormed(knownOperations[op.opId := op])
      ensures e.Some? ==> e.value == ErrorOf(knownOperations, op)
    {
      ghost var K := knownOperations;
      var cursor := op.afterId;
      var visited: set<Id> := {};
      ghost var steps: nat := 0;
      while cursor != ROOT_ID
        invariant Chain(K, op.afterId, cursor, steps)
        invariant visited <= K.Keys
        invariant forall v | v in visited :: Follows(K, v, cursor)
        decreases K.Keys - visited
      {
        if cursor == op.opId {
          WalkFindsSelf(K, op, steps);
          return Some(DependencyCycle);
        }
        if cursor in visited {
          assert false;
        }
        if cursor !in knownOperations {
          WalkEndsOutside(K, op, cursor, steps);
          return None;
        }
        if knownOperations[cursor].Delete? {
          WalkMeetsDelete(K, op, cursor, steps);
          return Some(InvalidOperation);
        }
        FollowsStep(K, visited, cursor);
        ChainStep(K, op.afterId, cursor, steps);
        visited, cursor, steps := visited + {cursor}, knownOperations[cursor].afterId, steps + 1;
      }
      RootNotKnown(K);
      ValidIdHasColon(op);
      WalkEndsOutside(K, op, ROOT_ID, steps);
      return None;
    }

    /** Attaches an insert and, transitively, exactly the inserts that were
        waiting for it: afterwards the invariant at rest holds again. The
        already-attached and missing-anchor branches are dead. */
    method AttachInsertAndResolve(initialOperation: Operation)
      requires Cascading(State(), {initialOperation.opId})
      requires initialOperation.Insert? && initialOperation.opId in knownOperations
      requires knownOperations[initialOperation.opId] == initialOperation
      modifies this
      ensures Valid() && knownOperations == old(knownOperations)
    {
      var queue := [initialOperation];
      assert Ids(queue) == {initialOperation.opId};
      while queue != []
        invariant knownOperations == old(knownOperations)
        invariant Queued(knownOperations, queue)
        invariant Cascading(State(), Ids(queue))
        decreases Unattached(State())
      {
        ghost var s, was := State(), queue;
        HeadIsReady(s, queue);
        ghost var i: nat;
        queue, i := AttachNext(queue);
        QueueTail(s.known, was);
        AttachHead(s, was, i, State(), queue);
        AttachProgress(s, was, i, State(), queue);
      }
      assert Ids(queue) == {};
    }

    /** One iteration of the cascade: attaches the head of the queue, applies the
        deletes that waited for it and queues the inserts that did. */
    method AttachNext(queue: seq<Operation>) returns (rest: seq<Operation>, ghost i: nat)
      requires HeadReady(State(), queue)
      modifies this
      ensures Queued(old(knownOperations), rest)
      ensures Attaches(old(State()), queue, i, State(), rest)
    {
      var op := queue[0];
      rest := queue[1..];
      if op.opId in nodes {
        assert false;
      }
      if !AnchorExists(op.afterId) {
        assert false;
      }
      ghost var s := State();
      var node := NodeFor(op, false);
      nodes := nodes[op.opId := node];
      i := InsertChild(op.afterId, node);
      SplicedBefore(s.nodes, op.opId, node, s.children, op.afterId, i, KeyOf(op));
      UpdatedTwice(s.nodes, op.opId, node, NodeFor(op, true));
      if op.opId in pendingDeletesByTarget {
        nodes := nodes[op.opId := NodeFor(op, true)];
      }
      pendingDeletesByTarget := pendingDeletesByTarget - {op.opId};
      if op.opId in pendingInsertsByAnchor {
        rest := Enqueue(rest, pendingInsertsByAnchor[op.opId]);
      }
      pendingInsertsByAnchor := pendingInsertsByAnchor - {op.opId};
    }

    /** Queues the waiting inserts; the order in which a set is enumerated is left open. */
    method Enqueue(queue: seq<Operation>, waiting: set<Id>) returns (longer: seq<Operation>)
      requires Queued(knownOperations, queue)
      requires forall x | x in waiting :: IsInsert(knownOperations, x) && knownOperations[x].opId == x
      requires waiting !! Ids(queue)
      ensures Queued(knownOperations, longer)
      ensures Ids(longer) == Ids(queue) + waiting
    {
      longer := queue;
      var left := waiting;
      while left != {}
        invariant left <= waiting
        invariant Queued(knownOperations, longer)
        invariant Ids(longer) == Ids(queue) + (waiting - left)
      {
        var x :| x in left;
        QueueOne(knownOperations, longer, x);
        longer := longer + [knownOperations[x]];
        left := left - {x};
      }
    }

    /** Puts the node before the first sibling that it precedes. */
    method InsertChild(parentId: Id, node: TextNode) returns (insertionIndex: nat)
      requires forall y | Listed(childrenByParent, parentId, y) :: y in nodes
      modifies this`childrenByParent
      ensures SplicePoint(nodes, SiblingsOf(old(childrenByParent), parentId), insertionIndex, NodeKey(node))
      ensures StandsAmong(nodes, SiblingsOf(old(childrenByParent), parentId), insertionIndex, node)
      ensures childrenByParent == old(childrenByParent)[parentId :=
        Splice(SiblingsOf(old(childrenByParent), parentId), insertionIndex, node.id)]
    {
      var siblings := SiblingsOf(childrenByParent, parentId);
      assert forall y | y in siblings :: Listed(childrenByParent, parentId, y);
      insertionIndex := |siblings|;
      var index := 0;
      while index < |siblings|
        invariant index <= |siblings| && insertionIndex == |siblings|
        invariant forall k | 0 <= k < index :: !KeyLess(NodeKey(node), NodeKey(nodes[siblings[k]]))
      {
        if KeyLess(NodeKey(node), NodeKey(nodes[siblings[index]])) {
          insertionIndex := index;
          break;
        }
        index := index + 1;
      }
      SpliceExactly(nodes, siblings, insertionIndex, node);
      childrenByParent := childrenByParent[parentId := Splice(siblings, insertionIndex, node.id)];
    }

    /** Applies in sequence; an error leaves the operations before it applied. */
    method ApplyAll(ops: seq<Operation>) returns (error: Option<CrdtError>)
      requires Valid()
      modifies this
      ensures Valid()
      ensures error.None? <==> Replay(old(knownOperations), ops).ok
      ensures knownOperations == Replay(old(knownOperations), ops).known
    {
      for i := 0 to |ops|
        invariant Valid()
        invariant Replay(old(knownOperations), ops) == Replay(knownOperations, ops[i..])
      {
        assert ops[i..][1..] == ops[i + 1..];
        var r := Apply(ops[i]);
        if r.Failure? { return Some(r.error); }
      }
      error := None;
    }

    /** The walk with an explicit stack lists the document, as the recursive walk over
        the same sibling lists does; it ends, and meets no missing node. */
    method GetVisibleElements() returns (output: seq<VisibleElement>)
      requires Valid()
      ensures IsDocument(knownOperations, output)
      ensures IsTree(knownOperations, childrenByParent) && output == PreOrderDocument(knownOperations, childrenByParent)
      ensures InOrder(knownOperations, output)
    {
      ghost var K := knownOperations;
      output := [];
      var stack := Reverse(SiblingsOf(childrenByParent, ROOT_ID));
      WalkBegins(State());
      ghost var seen: set<Id> := {};
      while stack != []
        invariant Traversing(K, seen, stack) && Shown(K, seen, output)
        invariant seen <= nodes.Keys
        decreases nodes.Keys - seen
      {
        var top := |stack| - 1;
        var currentId, rest := stack[top], stack[..top];
        SplitLast(stack);
        WalkStep(State(), seen, rest, currentId, output);
        var node := nodes[currentId];
        if !node.tombstone {
          output := output + [VisibleElement(node.id, node.value)];
        }
        stack := PushChildren(rest, SiblingsOf(childrenByParent, node.id));
        seen := seen + {currentId};
      }
      WalkEnds(State(), seen, output);
      DocumentInOrder(K, output);
    }

    /** The inner loop: children go on the stack last to first. */
    static method PushChildren(rest: seq<Id>, children: seq<Id>) returns (stack: seq<Id>)
      ensures stack == rest + Reverse(children)
    {
      stack := rest;
      var index := |children|;
      while index > 0
        invariant 0 <= index <= |children|
        invariant stack == rest + Reverse(children[index..])
      {
        index := index - 1;
        assert Reverse(children[index..]) == Reverse(children[index + 1..]) + [children[index]];
        stack := stack + [children[index]];
      }
    }

    method Materialize() returns (text: JsString)
      requires Valid()
      ensures WellKeyed(knownOperations)
      ensures text == Join(Values(DocumentOf(knownOperations)))
      ensures Spells(text, Values(DocumentOf(knownOperations)))
    {
      var elements := GetVisibleElements();
      DocumentUnique(knownOperations, elements, DocumentOf(knownOperations));
      text := Join(Values(elements));
      JoinSpells(Values(elements));
    }

    function GetKnownOperationCount(): nat
      reads this
    {
      |knownOperations|
    }

    method GetKnownOperationIds() returns (ids: seq<Id>)
      ensures forall x :: x in ids <==> x in knownOperations
      ensures StrictlySorted(StringLess, ids)
    {
      StringOrder(knownOperations.Keys);
      ids := Sort(StringLess, knownOperations.Keys);
    }

    method GetUnresolvedOperationIds() returns (ids: seq<Id>)
      requires Valid()
      ensures forall x :: x in ids <==> PendingInsert(knownOperations, x) || PendingDelete(knownOperations, x)
      ensures StrictlySorted(StringLess, ids)
      ensures ids == [] <==> Resolved(knownOperations)
    {
      var inserts := AllWaiting(pendingInsertsByAnchor);
      var deletes := AllWaiting(pendingDeletesByTarget);
      UnresolvedAreWaiting(State());
      StringOrder(inserts + deletes);
      ids := Sort(StringLess, inserts + deletes);
      NothingUnresolved(knownOperations, ids);
    }

    static method AllWaiting(pending: map<Id, set<Id>>) returns (all: set<Id>)
      ensures forall x :: x in all <==> exists a :: Waits(pending, a, x)
    {
      all := {};
      var left := pending.Keys;
      while left != {}
        invariant left <= pending.Keys
        invariant forall x | x in all :: exists a :: Waits(pending, a, x)
        invariant forall a, x | a in pending.Keys - left && Waits(pending, a, x) :: x in all
      {
        var a :| a in left;
        assert forall x | x in pending[a] :: Waits(pending, a, x);
        all, left := all + pending[a], left - {a};
      }
    }

    /** A resolved replica exports the canonical snapshot of what it knows. */
    method ExportSnapshot() returns (r: Result<Snapshot, CrdtError>)
      requires Valid()
      ensures r.Success? <==> Resolved(knownOperations)
      ensures r.Success? ==> IsExport(r.value, knownOperations)
    {
      var unresolved := GetUnresolvedOperationIds();
      if unresolved != [] { return Failure(UnresolvedSnapshot); }
      StringOrder(nodes.Keys);
      var nodeIds := Sort(StringLess, nodes.Keys);
      var deletes := set x | x in knownOperations && knownOperations[x].Delete?;
      StringOrder(deletes);
      var deleteIds := Sort(StringLess, deletes);
      var ns, ds := NodesInOrder(nodes, nodeIds), DeletesInOrder(knownOperations, deleteIds);
      ExportedNodes(State(), nodeIds, ns);
      ExportedDeletes(knownOperations, deleteIds, ds);
      return Success(Snapshot(1, ns, ds));
    }

    /** Restores exactly the acceptable snapshots, to exactly what they describe. */
    static method FromSnapshot(snap: Snapshot) returns (r: Result<TextReplica, CrdtError>)
      ensures r.Success? <==> Acceptable(snap)
      ensures r.Failure? ==> r.error == RestoreError(snap)
      ensures r.Success? ==> fresh(r.value) && r.value.Valid()
      ensures r.Success? ==> Describes(snap, r.value.knownOperations) && Resolved(r.value.knownOperations)
    {
      var restored := RestoreState(snap);
      if restored.Failure? { return Failure(restored.error); }
      var replica := new TextReplica();
      replica.Refill(restored.value);
      return Success(replica);
    }

    /** Replaces all five maps; nothing waits in a restored replica. */
    method Refill(s: ReplicaState)
      requires s.pendingInserts == s.pendingDeletes == map[]
      modifies this
      ensures State() == s
    {
      nodes, childrenByParent, knownOperations := s.nodes, s.children, s.known;
      pendingInsertsByAnchor, pendingDeletesByTarget := map[], map[];
    }
  }

  // ----- steps of the cascade

  /** `siblings.splice(i, 0, x)` */
  function Splice(siblings: seq<Id>, i: nat, x: Id): seq<Id>
    requires i <= |siblings|
  {
    siblings[..i] + [x] + siblings[i..]
  }

  /** `i` is the first position whose sibling follows the key, or the end. */
  ghost predicate SplicePoint(nodes: map<Id, TextNode>, siblings: seq<Id>, i: nat, key: Key) {
    && i <= |siblings|
    && (forall y | y in siblings :: y in nodes)
    && (forall k | 0 <= k < i :: !KeyLess(key, NodeKey(nodes[siblings[k]])))
    && (i < |siblings| ==> KeyLess(key, NodeKey(nodes[siblings[i]])))
  }

  /** The node stands first among the sibling at `i` and itself, and among no earlier one. */
  ghost predicate StandsAmong(nodes: map<Id, TextNode>, siblings: seq<Id>, i: nat, node: TextNode) {
    && i <= |siblings| && (forall y | y in siblings :: y in nodes)
    && (forall k | 0 <= k < i :: !StandsFirst(InsertOf(node), InsertOf(nodes[siblings[k]])))
    && (i < |siblings| ==> StandsFirst(InsertOf(node), InsertOf(nodes[siblings[i]])))
  }

  lemma SpliceExactly(nodes: map<Id, TextNode>, siblings: seq<Id>, i: nat, node: TextNode)
    requires SplicePoint(nodes, siblings, i, NodeKey(node))
    ensures StandsAmong(nodes, siblings, i, node)
  {
    forall y | y in siblings
      ensures KeyLess(NodeKey(node), NodeKey(nodes[y])) <==> StandsFirst(InsertOf(node), InsertOf(nodes[y]))
    {
      KeyLessExactly(InsertOf(node), InsertOf(nodes[y]));
    }
  }

  /** The new node is not among the siblings that it was compared with. */
  lemma SplicedBefore(nodes: map<Id, TextNode>, x: Id, n: TextNode, C: map<Id, seq<Id>>, p: Id, i: nat, key: Key)
    requires SplicePoint(nodes[x := n], SiblingsOf(C, p), i, key) && x !in nodes
    requires forall y | Listed(C, p, y) :: y in nodes
    ensures SplicePoint(nodes, SiblingsOf(C, p), i, key)
  {
    var siblings := SiblingsOf(C, p);
    forall y | y in siblings ensures y in nodes { assert Listed(C, p, y); }
    assert forall k | 0 <= k < |siblings| :: siblings[k] in siblings;
  }

  lemma UpdatedTwice(nodes: map<Id, TextNode>, x: Id, m: TextNode, n: TextNode)
    ensures nodes[x := m][x := n] == nodes[x := n]
  {}

  function WaitingFor(P: map<Id, set<Id>>, x: Id): set<Id> {
    if x in P then P[x] else {}
  }

  /** What one iteration needs of the head of the queue. */
  ghost predicate HeadReady(s: ReplicaState, queue: seq<Operation>) {
    && queue != [] && queue[0].Insert? && queue[0].opId !in s.nodes
    && (queue[0].afterId == ROOT_ID || queue[0].afterId in s.nodes)
    && (forall y | Listed(s.children, queue[0].afterId, y) :: y in s.nodes)
    && Queued(s.known, queue[1..])
    && (forall y | y in WaitingFor(s.pendingInserts, queue[0].opId) :: IsInsert(s.known, y) && s.known[y].opId == y)
    && WaitingFor(s.pendingInserts, queue[0].opId) !! Ids(queue[1..])
  }

  /** What one iteration does to the state and the queue. */
  ghost predicate Attaches(s: ReplicaState, queue: seq<Operation>, i: nat, t: ReplicaState, rest: seq<Operation>)
    requires queue != [] && queue[0].Insert?
  {
    var op := queue[0];
    var siblings := SiblingsOf(s.children, op.afterId);
    && SplicePoint(s.nodes, siblings, i, KeyOf(op))
    && t.nodes == s.nodes[op.opId := NodeFor(op, op.opId in s.pendingDeletes)]
    && t.children == s.children[op.afterId := Splice(siblings, i, op.opId)]
    && t.known == s.known
    && t.pendingInserts == s.pendingInserts - {op.opId}
    && t.pendingDeletes == s.pendingDeletes - {op.opId}
    && Ids(rest) == Ids(queue[1..]) + WaitingFor(s.pendingInserts, op.opId)
  }

  lemma QueueTail(K: OpMap, queue: seq<Operation>)
    requires queue != [] && Queued(K, queue)
    ensures queue[0].Insert? && queue[0].opId in Ids(queue) && queue[0].opId in K && K[queue[0].opId] == queue[0]
    ensures Queued(K, queue[1..]) && Ids(queue[1..]) == Ids(queue) - {queue[0].opId}
  {
    assert queue[0] in queue;
    assert forall o :: o in queue <==> o == queue[0] || o in queue[1..];
    assert forall o | o in queue[1..] :: o.opId != queue[0].opId;
  }

  lemma HeadIsReady(s: ReplicaState, queue: seq<Operation>)
    requires queue != [] && Queued(s.known, queue) && Cascading(s, Ids(queue))
    ensures HeadReady(s, queue)
  {
    QueueTail(s.known, queue);
    var x := queue[0].opId;
    assert forall y | y in WaitingFor(s.pendingInserts, x) :: Waits(s.pendingInserts, x, y);
  }

  lemma AttachHead(s: ReplicaState, queue: seq<Operation>, i: nat, t: ReplicaState, rest: seq<Operation>)
    requires queue != [] && Queued(s.known, queue) && Cascading(s, Ids(queue))
    requires queue[0].Insert? && Attaches(s, queue, i, t, rest)
    ensures Cascading(t, Ids(rest))
  {
    var op := queue[0];
    QueueTail(s.known, queue);
    SpliceSibling(s, op, i);
    assert t == AfterAttach(s, op.opId, Splice(SiblingsOf(s.children, op.afterId), i, op.opId));
    AttachNode(s, Ids(queue), op.opId, Splice(SiblingsOf(s.children, op.afterId), i, op.opId));
  }

  lemma AttachProgress(s: ReplicaState, queue: seq<Operation>, i: nat, t: ReplicaState, rest: seq<Operation>)
    requires HeadReady(s, queue) && queue[0].opId in s.known && Attaches(s, queue, i, t, rest)
    ensures Unattached(t) < Unattached(s)
  {
    assert Unattached(t) == Unattached(s) - {queue[0].opId};
    assert queue[0].opId in Unattached(s);
  }

  lemma QueueOne(K: OpMap, queue: seq<Operation>, x: Id)
    requires Queued(K, queue) && IsInsert(K, x) && K[x].opId == x && x !in Ids(queue)
    ensures Queued(K, queue + [K[x]]) && Ids(queue + [K[x]]) == Ids(queue) + {x}
  {
    assert forall o | o in queue :: o.opId in Ids(queue);
    assert forall i | 0 <= i < |queue| :: queue[i] in queue;
  }

  /** The first sibling that the new insert precedes marks its right place. */
  lemma SpliceSibling(s: ReplicaState, op: Operation, i: nat)
    requires WellKeyed(s.known) && NodesOk(s.known, s.nodes) && ChildrenOk(s.known, s.nodes.Keys, s.children)
    requires op.Insert? && op.opId in s.known && s.known[op.opId] == op && op.opId !in s.nodes
    requires SplicePoint(s.nodes, SiblingsOf(s.children, op.afterId), i, KeyOf(op))
    ensures SortedSiblings(s.known, Splice(SiblingsOf(s.children, op.afterId), i, op.opId))
    ensures forall y :: y in Splice(SiblingsOf(s.children, op.afterId), i, op.opId)
              <==> Listed(s.children, op.afterId, y) || y == op.opId
  {
    var siblings := SiblingsOf(s.children, op.afterId);
    assert forall y :: y in siblings <==> Listed(s.children, op.afterId, y);
    assert forall y | y in siblings :: y in s.known && NodeKey(s.nodes[y]) == KeyOf(s.known[y]);
    SpliceSorted(s.known, siblings, i, op.opId);
  }

  lemma SpliceSorted(K: OpMap, siblings: seq<Id>, i: nat, x: Id)
    requires WellKeyed(K) && x in K && x !in siblings
    requires SortedSiblings(K, siblings) && i <= |siblings|
    requires forall y | y in siblings :: y in K
    requires forall k | 0 <= k < i :: !KeyLess(KeyOf(K[x]), KeyOf(K[siblings[k]]))
    requires i < |siblings| ==> KeyLess(KeyOf(K[x]), KeyOf(K[siblings[i]]))
    ensures SortedSiblings(K, Splice(siblings, i, x))
    ensures forall y :: y in Splice(siblings, i, x) <==> y in siblings || y == x
  {
    var less := (a: Id, b: Id) => SiblingBefore(K, a, b);
    assert forall j, k | 0 <= j < k < |siblings| :: less(siblings[j], siblings[k]);
    forall k | 0 <= k < i ensures less(siblings[k], x) {
      assert siblings[k] in siblings;
      KeyLessTotal(KeyOf(K[x]), KeyOf(K[siblings[k]]));
      OperationIdInjective(K[x], K[siblings[k]]);
    }
    forall k | i <= k < |siblings| ensures less(x, siblings[k]) {
      assert siblings[k] in siblings;
      if k > i { KeyLessTransitive(KeyOf(K[x]), KeyOf(K[siblings[i]]), KeyOf(K[siblings[k]])); }
    }
    InsertKeepsSorted(less, siblings, i, x);
  }

  // ----- the walk

  lemma SiblingListIsChildren(s: ReplicaState, a: Id)
    requires Represents(s)
    ensures ChildrenOf(s.known, a, SiblingsOf(s.children, a))
  {
    ChildrenClosedForm(s);
    var cs := SiblingsOf(s.children, a);
    assert forall x :: x in cs <==> Listed(s.children, a, x);
  }

  lemma ChildrenClosedForm(s: ReplicaState)
    requires Represents(s)
    ensures forall p, x ::
      (Listed(s.children, p, x) <==> Attached(s.known, x) && s.known[x].afterId == p)
  {
    ClosedForm(s);
  }

  /** The output lists the visible part of what was seen. */
  ghost predicate Shown(K: OpMap, seen: set<Id>, output: seq<VisibleElement>) {
    && (forall i, j | 0 <= i < j < |output| :: Before(K, output[i].id, output[j].id))
    && (forall e | e in output :: e.id in seen && Visible(K, e.id) && e.value == K[e.id].value)
    && (forall v | v in seen && Visible(K, v) :: VisibleElement(v, K[v].value) in output)
  }

  lemma ShowStep(K: OpMap, seen: set<Id>, rest: seq<Id>, x: Id, output: seq<VisibleElement>)
    requires Traversing(K, seen, rest + [x]) && Shown(K, seen, output) && Attached(K, x)
    ensures Deleted(K, x) ==> Shown(K, seen + {x}, output)
    ensures !Deleted(K, x) ==> Shown(K, seen + {x}, output + [VisibleElement(x, K[x].value)])
  {
    assert (rest + [x])[|rest|] == x;
    var longer := output + [VisibleElement(x, K[x].value)];
    forall i, j | 0 <= i < j < |longer| ensures Before(K, longer[i].id, longer[j].id) {
      if j == |output| { assert output[i] in output; }
    }
  }

  lemma WalkBegins(s: ReplicaState)
    requires Represents(s)
    ensures Traversing(s.known, {}, Reverse(SiblingsOf(s.children, ROOT_ID))) && Shown(s.known, {}, [])
  {
    SiblingListIsChildren(s, ROOT_ID);
    BeginTraversal(s.known, SiblingsOf(s.children, ROOT_ID));
  }

  lemma SplitLast<T>(s: seq<T>)
    requires s != []
    ensures s == s[..|s| - 1] + [s[|s| - 1]]
  {}

  /** Popping `x`, showing it unless it is deleted, and pushing its children. */
  lemma WalkStep(s: ReplicaState, seen: set<Id>, rest: seq<Id>, x: Id, output: seq<VisibleElement>)
    requires Represents(s) && Traversing(s.known, seen, rest + [x]) && Shown(s.known, seen, output)
    ensures x in s.nodes && x !in seen && s.nodes[x].id == x
    ensures Traversing(s.known, seen + {x}, rest + Reverse(SiblingsOf(s.children, x)))
    ensures Shown(s.known, seen + {x},
                  if s.nodes[x].tombstone then output else output + [VisibleElement(x, s.nodes[x].value)])
  {
    TopUnseen(s.known, seen, rest, x);
    NodeIsAttached(s, x);
    ShowStep(s.known, seen, rest, x, output);
    SiblingListIsChildren(s, x);
    TraversalStep(s.known, seen, rest, x, SiblingsOf(s.children, x));
  }

  lemma ShownAll(K: OpMap, seen: set<Id>, output: seq<VisibleElement>)
    requires Traversing(K, seen, []) && Shown(K, seen, output)
    ensures IsDocument(K, output)
  {
    forall x | Visible(K, x) ensures VisibleElement(x, K[x].value) in output {
      assert Covered(K, seen, [], x);
    }
  }

  lemma NothingUnresolved(K: OpMap, ids: seq<Id>)
    requires forall x :: x in ids <==> PendingInsert(K, x) || PendingDelete(K, x)
    ensures ids == [] <==> Resolved(K)
  {
    assert ids != [] ==> ids[0] in ids;
  }

  /** With the stack empty, everything visible has been shown. */
  lemma WalkEnds(s: ReplicaState, seen: set<Id>, output: seq<VisibleElement>)
    requires Represents(s) && Traversing(s.known, seen, []) && Shown(s.known, seen, output)
    ensures IsDocument(s.known, output)
    ensures IsTree(s.known, s.children) && output == PreOrderDocument(s.known, s.children)
  {
    ShownAll(s.known, seen, output);
    WalkIsPreOrder(s, output);
  }

  lemma WalkIsPreOrder(s: ReplicaState, output: seq<VisibleElement>)
    requires Represents(s) && IsDocument(s.known, output)
    ensures IsTree(s.known, s.children) && output == PreOrderDocument(s.known, s.children)
  {
    forall a ensures ChildrenOf(s.known, a, SiblingsOf(s.children, a)) { SiblingListIsChildren(s, a); }
    PreOrderIsDocument(s.known, s.children);
    DocumentUnique(s.known, output, PreOrderDocument(s.known, s.children));
  }

  // ----- snapshots

  lemma StringOrder(ids: set<Id>)
    ensures StrictTotalOrderOn(StringLess, ids)
  {
    forall x | x in ids ensures !StringLess(x, x) { StringLessIrreflexive(x); }
    forall x, y, z | x in ids && y in ids && z in ids && StringLess(x, y) && StringLess(y, z) ensures StringLess(x, z) {
      StringLessTransitive(x, y, z);
    }
    forall x, y | x in ids && y in ids ensures x == y || StringLess(x, y) || StringLess(y, x) {
      StringLessTotal(x, y);
    }
  }

  lemma UnresolvedAreWaiting(s: ReplicaState)
    requires Represents(s)
    ensures forall x :: PendingInsert(s.known, x) <==> exists a :: Waits(s.pendingInserts, a, x)
    ensures forall x :: PendingDelete(s.known, x) <==> exists a :: Waits(s.pendingDeletes, a, x)
  {
    NodesAreAttached(s);
    PendingClosedForm(s);
    forall x | PendingInsert(s.known, x) ensures exists a :: Waits(s.pendingInserts, a, x) {
      assert Waits(s.pendingInserts, s.known[x].afterId, x);
    }
    forall x | PendingDelete(s.known, x) ensures exists a :: Waits(s.pendingDeletes, a, x) {
      assert Waits(s.pendingDeletes, s.known[x].targetId, x);
    }
  }

  function NodesInOrder(nodes: map<Id, TextNode>, ids: seq<Id>): (ns: seq<TextNode>)
    requires forall x | x in ids :: x in nodes
    ensures |ns| == |ids| && forall i | 0 <= i < |ids| :: ids[i] in nodes && ns[i] == nodes[ids[i]]
  {
    if ids == [] then [] else [nodes[ids[0]]] + NodesInOrder(nodes, ids[1..])
  }

  function DeletesInOrder(known: OpMap, ids: seq<Id>): (ds: seq<DeleteOperation>)
    requires forall x | x in ids :: x in known && known[x].Delete?
    ensures |ds| == |ids| && forall i | 0 <= i < |ids| :: ids[i] in known && ds[i] == known[ids[i]]
  {
    if ids == [] then [] else [known[ids[0]]] + DeletesInOrder(known, ids[1..])
  }

  lemma ExportedNodes(s: ReplicaState, nodeIds: seq<Id>, ns: seq<TextNode>)
    requires Represents(s) && Resolved(s.known)
    requires StrictlySorted(StringLess, nodeIds) && (forall x :: x in nodeIds <==> x in s.nodes)
    requires |ns| == |nodeIds| && forall i | 0 <= i < |ns| :: nodeIds[i] in s.nodes && ns[i] == s.nodes[nodeIds[i]]
    ensures StrictlySorted((m: TextNode, n: TextNode) => StringLess(m.id, n.id), ns)
    ensures forall i, j | 0 <= i < j < |ns| :: ns[i].id != ns[j].id
    ensures forall n | n in ns :: n.id in s.known && s.known[n.id] == InsertOf(n)
                                  && (n.tombstone <==> Deleted(s.known, n.id))
    ensures forall x | IsInsert(s.known, x) :: exists n :: n in ns && n.id == x
  {
    NodesAreAttached(s);
    forall i | 0 <= i < |ns| ensures ns[i].id == nodeIds[i] {}
    forall i, j | 0 <= i < j < |ns| ensures ns[i].id != ns[j].id {
      StringLessIrreflexive(nodeIds[i]);
    }
    forall x | IsInsert(s.known, x) ensures exists n :: n in ns && n.id == x {
      assert !PendingInsert(s.known, x);
      var i :| 0 <= i < |nodeIds| && nodeIds[i] == x;
      assert ns[i] in ns;
    }
  }

  lemma ExportedDeletes(K: OpMap, deleteIds: seq<Id>, ds: seq<DeleteOperation>)
    requires WellKeyed(K) && StrictlySorted(StringLess, deleteIds)
    requires forall x :: x in deleteIds <==> x in K && K[x].Delete?
    requires |ds| == |deleteIds| && forall i | 0 <= i < |ds| :: deleteIds[i] in K && ds[i] == K[deleteIds[i]]
    ensures StrictlySorted((c: Operation, d: Operation) => StringLess(c.opId, d.opId), ds)
    ensures forall i, j | 0 <= i < j < |ds| :: ds[i].opId != ds[j].opId
    ensures forall d | d in ds :: d.opId in K && K[d.opId] == d
    ensures forall x | x in K && K[x].Delete? :: K[x] in ds
  {
    forall i, j | 0 <= i < j < |ds| ensures ds[i].opId != ds[j].opId {
      StringLessIrreflexive(deleteIds[i]);
    }
    forall x | x in K && K[x].Delete? ensures K[x] in ds {
      var i :| 0 <= i < |deleteIds| && deleteIds[i] == x;
      assert ds[i] in ds;
    }
  }
}
