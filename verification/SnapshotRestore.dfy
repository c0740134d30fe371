/** Restoring from a snapshot: each stage of the validation, and the walk that
    colours the anchor graph, decided exactly. */
module SnapshotRestore {
  import opened Wrappers
  import opened Operations
  import opened AnchorGraph
  import opened Replays
  import opened ReplicaShape
  import opened Snapshots
  import opened Sorting

  // ----- what each stage checks

  ghost predicate NodeEntriesOk(ns: seq<TextNode>) {
    && (forall n | n in ns :: IsValidOperation(InsertOf(n)))
    && (forall i, j | 0 <= i < j < |ns| :: ns[i].id != ns[j].id)
  }

  ghost predicate DeleteEntriesOk(ds: seq<DeleteOperation>, ids: set<Id>) {
    && (forall d | d in ds :: IsValidOperation(d) && d.opId !in ids && d.targetId in ids)
    && (forall i, j | 0 <= i < j < |ds| :: ds[i].opId != ds[j].opId)
  }

  ghost predicate LinkOk(n: TextNode, ids: set<Id>, deletedTargets: set<Id>) {
    && (n.afterId == ROOT_ID || n.afterId in ids)
    && (n.tombstone <==> n.id in deletedTargets)
  }

  ghost function NodeIds(ns: seq<TextNode>): set<Id> {
    set n | n in ns :: n.id
  }

  ghost function Targets(ds: seq<DeleteOperation>): set<Id> {
    set d | d in ds :: d.targetId
  }

  ghost function DeleteIds(ds: seq<DeleteOperation>): set<Id> {
    set d | d in ds :: d.opId
  }

  ghost predicate EntriesOk(snap: Snapshot) {
    && snap.version == 1
    && NodeEntriesOk(snap.nodes)
    && DeleteEntriesOk(snap.deleteOperations, NodeIds(snap.nodes))
    && (forall n | n in snap.nodes :: LinkOk(n, NodeIds(snap.nodes), Targets(snap.deleteOperations)))
  }

  ghost predicate AllAttached(K: OpMap) {
    forall x | IsInsert(K, x) :: Attached(K, x)
  }

  /** The deletes before the `i`-th can be read, and it repeats the identity of an entry
      before it with another payload. */
  ghost predicate ConflictAt(ds: seq<DeleteOperation>, ids: set<Id>, i: nat) {
    && i < |ds| && DeleteEntriesOk(ds[..i], ids) && IsValidOperation(ds[i])
    && (ds[i].opId in ids || exists d :: d in ds[..i] && d.opId == ds[i].opId && d != ds[i])
  }

  ghost function DeletesError(ds: seq<DeleteOperation>, ids: set<Id>): CrdtError {
    if exists i :: ConflictAt(ds, ids, i) then IdentityConflict else InvalidSnapshot
  }

  /** The error of a snapshot that is not acceptable. */
  ghost function RestoreError(snap: Snapshot): CrdtError {
    if snap.version == 1 && NodeEntriesOk(snap.nodes) && !DeleteEntriesOk(snap.deleteOperations, NodeIds(snap.nodes))
    then DeletesError(snap.deleteOperations, NodeIds(snap.nodes))
    else InvalidSnapshot
  }

  // ----- the stages decide acceptability

  lemma ListedIds(snap: Snapshot, K: OpMap)
    requires Lists(snap, K)
    ensures forall x :: x in NodeIds(snap.nodes) <==> IsInsert(K, x)
    ensures forall x :: x in Targets(snap.deleteOperations) <==> Deleted(K, x)
  {
    forall x ensures x in NodeIds(snap.nodes) <==> IsInsert(K, x) {
      if IsInsert(K, x) { var n :| n in snap.nodes && n.id == x; }
    }
    forall x ensures x in Targets(snap.deleteOperations) <==> Deleted(K, x) {
      if Deleted(K, x) {
        var d :| d in K && K[d].Delete? && K[d].targetId == x;
        assert K[d] in snap.deleteOperations;
      }
      if x in Targets(snap.deleteOperations) {
        var d :| d in snap.deleteOperations && d.targetId == x;
        assert d.opId in K && K[d.opId] == d;
      }
    }
  }

  lemma AcceptableEntries(snap: Snapshot)
    requires Acceptable(snap)
    ensures EntriesOk(snap)
  {
    var K :| Describes(snap, K) && WellFormed(K) && Resolved(K);
    ListedIds(snap, K);
    forall d | d in snap.deleteOperations ensures d.targetId in NodeIds(snap.nodes) {
      assert !PendingDelete(K, d.opId);
    }
    forall n | n in snap.nodes ensures LinkOk(n, NodeIds(snap.nodes), Targets(snap.deleteOperations)) {
      assert !PendingInsert(K, n.id);
      AttachedStep(K, n.id);
    }
  }

  /** For well-formed entries acceptability is a question of reaching ROOT. */
  lemma EntriesDecide(snap: Snapshot, K: OpMap)
    requires EntriesOk(snap) && Lists(snap, K)
    ensures Acceptable(snap) <==> AllAttached(K)
    ensures AllAttached(K) ==> Describes(snap, K) && WellFormed(K) && Resolved(K)
  {
    ListedIds(snap, K);
    EntriesWellKeyed(snap, K);
    if AllAttached(K) {
      AllAttachedWellFormed(K);
      assert Resolved(K);
      assert Describes(snap, K);
    }
    if Acceptable(snap) {
      var L :| Describes(snap, L) && WellFormed(L) && Resolved(L);
      ListedSetUnique(snap, K, L);
      forall x | IsInsert(K, x) ensures Attached(K, x) {
        assert !PendingInsert(L, x);
      }
    }
  }

  lemma EntriesWellKeyed(snap: Snapshot, K: OpMap)
    requires EntriesOk(snap) && Lists(snap, K)
    ensures WellKeyed(K)
    ensures forall x | x in K && K[x].Delete? :: IsInsert(K, K[x].targetId)
  {
    ListedIds(snap, K);
    forall x | x in K ensures IsValidOperation(K[x]) {
      if K[x].Insert? {
        assert IsInsert(K, x);
        var n :| n in snap.nodes && n.id == x;
      } else {
        assert K[x] in snap.deleteOperations;
      }
    }
    forall x | x in K && K[x].Delete? ensures IsInsert(K, K[x].targetId) {
      assert K[x] in snap.deleteOperations;
    }
  }

  // ----- the stages

  /** The first loop: node entries into tables. */
  method ReadNodes(ns: seq<TextNode>) returns (ok: bool, known: OpMap, nodes: map<Id, TextNode>)
    ensures ok <==> NodeEntriesOk(ns)
    ensures ok ==> known.Keys == nodes.Keys == NodeIds(ns)
    ensures ok ==> forall n | n in ns :: known[n.id] == InsertOf(n) && nodes[n.id] == n
  {
    known, nodes := map[], map[];
    assert NodeIds(ns[..0]) == {};
    for i := 0 to |ns|
      invariant NodeEntriesOk(ns[..i])
      invariant known.Keys == nodes.Keys == NodeIds(ns[..i])
      invariant forall n | n in ns[..i] :: known[n.id] == InsertOf(n) && nodes[n.id] == n
    {
      var n := ns[i];
      assert n in ns;
      if n.id == ROOT_ID {
        RootEntryInvalid(n);
        return false, known, nodes;
      }
      if n.id in nodes {
        assert exists m :: m in ns[..i] && m.id == n.id;
        return false, known, nodes;
      }
      if !IsValidOperation(InsertOf(n)) { return false, known, nodes; }
      ReadNode(ns, i);
      known, nodes := known[n.id := InsertOf(n)], nodes[n.id := n];
    }
    assert ns[..|ns|] == ns;
    ok := true;
  }

  lemma RootEntryInvalid(n: TextNode)
    requires n.id == ROOT_ID
    ensures !IsValidOperation(InsertOf(n))
  {
    if IsValidOperation(InsertOf(n)) { ValidIdHasColon(InsertOf(n)); }
  }

  lemma ReadNode(ns: seq<TextNode>, i: nat)
    requires i < |ns|
    ensures forall n :: n in ns[..i + 1] <==> n in ns[..i] || n == ns[i]
    ensures NodeIds(ns[..i + 1]) == NodeIds(ns[..i]) + {ns[i].id}
    ensures NodeEntriesOk(ns[..i]) && IsValidOperation(InsertOf(ns[i])) && ns[i].id !in NodeIds(ns[..i])
      ==> NodeEntriesOk(ns[..i + 1])
  {
    assert ns[..i + 1] == ns[..i] + [ns[i]];
    assert forall k | 0 <= k < i :: ns[..i][k] in ns[..i] && ns[..i][k].id in NodeIds(ns[..i]);
  }

  /** The deletes read so far are recorded beside the inserts. */
  ghost predicate DeletesRead(ds: seq<DeleteOperation>, ids: set<Id>, inserts: OpMap, known: OpMap,
          deletedTargets: set<Id>)
  {
    && inserts.Keys == ids
    && DeleteEntriesOk(ds, ids)
    && deletedTargets == Targets(ds)
    && known.Keys == ids + DeleteIds(ds)
    && (forall x | x in ids :: known[x] == inserts[x])
    && (forall d | d in ds :: known[d.opId] == d)
  }

  /** The second loop: delete entries. */
  method ReadDeletes(ds: seq<DeleteOperation>, ids: set<Id>, inserts: OpMap)
    returns (error: Option<CrdtError>, known: OpMap, deletedTargets: set<Id>)
    requires inserts.Keys == ids && forall x | x in ids :: inserts[x].Insert?
    ensures error.None? <==> DeleteEntriesOk(ds, ids)
    ensures error.Some? ==> error.value == DeletesError(ds, ids)
    ensures error.None? ==> DeletesRead(ds, ids, inserts, known, deletedTargets)
  {
    known, deletedTargets := inserts, {};
    for i := 0 to |ds|
      invariant DeletesRead(ds[..i], ids, inserts, known, deletedTargets)
    {
      var d := ds[i];
      if !IsValidOperation(d) || d.opId in known || d.targetId !in ids {
        DeleteFault(ds, ids, inserts, known, deletedTargets, i);
      }
      if !IsValidOperation(d) { return Some(InvalidSnapshot), known, deletedTargets; }
      if d.opId in known {
        return Some(if known[d.opId] == d then InvalidSnapshot else IdentityConflict), known, deletedTargets;
      }
      if d.targetId !in ids { return Some(InvalidSnapshot), known, deletedTargets; }
      ReadDelete(ds, i, ids, inserts, known, deletedTargets);
      known, deletedTargets := known[d.opId := d], deletedTargets + {d.targetId};
    }
    assert ds[..|ds|] == ds;
    error := None;
  }

  /** If the entries before `i` can be read and `i` cannot, it alone decides the error. */
  lemma FirstFault(ds: seq<DeleteOperation>, ids: set<Id>, i: nat)
    requires i < |ds| && DeleteEntriesOk(ds[..i], ids) && !DeleteEntriesOk(ds[..i + 1], ids)
    ensures !DeleteEntriesOk(ds, ids)
    ensures DeletesError(ds, ids) == if ConflictAt(ds, ids, i) then IdentityConflict else InvalidSnapshot
  {
    PartReadable(ds, ids, i + 1, |ds|);
    assert ds[..|ds|] == ds;
    forall k: nat | ConflictAt(ds, ids, k) ensures k == i {
      if k > i {
        PartReadable(ds, ids, i + 1, k);
      } else if k < i {
        PartReadable(ds, ids, k + 1, i);
        ReadableMeansNoConflict(ds, ids, k);
      }
    }
  }

  lemma PartReadable(ds: seq<DeleteOperation>, ids: set<Id>, i: nat, j: nat)
    requires i <= j <= |ds|
    ensures DeleteEntriesOk(ds[..j], ids) ==> DeleteEntriesOk(ds[..i], ids)
  {
    assert ds[..j][..i] == ds[..i];
    assert forall d | d in ds[..i] :: d in ds[..j];
  }

  lemma ReadableMeansNoConflict(ds: seq<DeleteOperation>, ids: set<Id>, k: nat)
    requires k < |ds| && DeleteEntriesOk(ds[..k + 1], ids)
    ensures !ConflictAt(ds, ids, k)
  {
    var part := ds[..k + 1];
    assert part[k] == ds[k] && part[k] in part;
    forall d | d in ds[..k] ensures d.opId != ds[k].opId {
      var j :| 0 <= j < k && ds[j] == d;
      assert part[j] == d;
    }
  }

  /** A conflict shows in the table of what was read. */
  lemma ConflictMeans(ds: seq<DeleteOperation>, ids: set<Id>, inserts: OpMap, known: OpMap, targets: set<Id>, i: nat)
    requires i < |ds| && DeletesRead(ds[..i], ids, inserts, known, targets) && forall x | x in ids :: inserts[x].Insert?
    ensures ConflictAt(ds, ids, i) <==> IsValidOperation(ds[i]) && ds[i].opId in known && known[ds[i].opId] != ds[i]
  {
    if ds[i].opId in known && ds[i].opId !in ids {
      var d :| d in ds[..i] && d.opId == ds[i].opId;
      assert known[ds[i].opId] == d;
    }
  }

  /** A delete that cannot be read decides the error. */
  lemma DeleteFault(ds: seq<DeleteOperation>, ids: set<Id>, inserts: OpMap, known: OpMap, targets: set<Id>, i: nat)
    requires i < |ds| && DeletesRead(ds[..i], ids, inserts, known, targets) && forall x | x in ids :: inserts[x].Insert?
    requires !IsValidOperation(ds[i]) || ds[i].opId in known || ds[i].targetId !in ids
    ensures !DeleteEntriesOk(ds, ids)
    ensures DeletesError(ds, ids) ==
      if IsValidOperation(ds[i]) && ds[i].opId in known && known[ds[i].opId] != ds[i]
      then IdentityConflict else InvalidSnapshot
  {
    UnreadableStops(ds, ids, inserts, known, targets, i);
    FirstFault(ds, ids, i);
    ConflictMeans(ds, ids, inserts, known, targets, i);
  }

  lemma UnreadableStops(ds: seq<DeleteOperation>, ids: set<Id>, inserts: OpMap, known: OpMap, targets: set<Id>, i: nat)
    requires i < |ds| && DeletesRead(ds[..i], ids, inserts, known, targets)
    requires !IsValidOperation(ds[i]) || ds[i].opId in known || ds[i].targetId !in ids
    ensures !DeleteEntriesOk(ds[..i + 1], ids)
  {
    var part := ds[..i + 1];
    assert part[i] == ds[i] && part[i] in part;
    if ds[i].opId in known && ds[i].opId !in ids {
      var d :| d in ds[..i] && d.opId == ds[i].opId;
      var k :| 0 <= k < i && ds[k] == d;
      assert part[k] == d;
    }
  }

  lemma ReadDelete(ds: seq<DeleteOperation>, i: nat, ids: set<Id>, inserts: OpMap, known: OpMap, targets: set<Id>)
    requires i < |ds| && DeletesRead(ds[..i], ids, inserts, known, targets)
    requires IsValidOperation(ds[i]) && ds[i].opId !in known && ds[i].targetId in ids
    ensures DeletesRead(ds[..i + 1], ids, inserts, known[ds[i].opId := ds[i]], targets + {ds[i].targetId})
  {
    OneMore(ds, i);
    DeleteAdded(ds[..i], ids, inserts, known, targets, ds[i]);
  }

  lemma DeleteAdded(ds: seq<DeleteOperation>, ids: set<Id>, inserts: OpMap, known: OpMap, targets: set<Id>,
          d: DeleteOperation)
    requires DeletesRead(ds, ids, inserts, known, targets)
    requires IsValidOperation(d) && d.opId !in known && d.targetId in ids
    ensures DeletesRead(ds + [d], ids, inserts, known[d.opId := d], targets + {d.targetId})
  {
    GrowSets(ds, d);
    DeleteEntriesGrow(ds, ids, d);
  }

  lemma OneMore<T>(s: seq<T>, i: nat)
    requires i < |s|
    ensures s[..i + 1] == s[..i] + [s[i]]
  {}

  lemma GrowSets(ds: seq<DeleteOperation>, d: DeleteOperation)
    ensures Targets(ds + [d]) == Targets(ds) + {d.targetId}
    ensures DeleteIds(ds + [d]) == DeleteIds(ds) + {d.opId}
    ensures forall e :: e in ds + [d] <==> e in ds || e == d
  {
  }

  lemma DeleteEntriesGrow(ds: seq<DeleteOperation>, ids: set<Id>, d: DeleteOperation)
    requires DeleteEntriesOk(ds, ids) && IsValidOperation(d) && d.opId !in ids && d.targetId in ids
    requires forall e | e in ds :: e.opId != d.opId
    ensures DeleteEntriesOk(ds + [d], ids)
  {
    assert forall k | 0 <= k < |ds| :: ds[k] in ds;
  }

  /** The third loop: anchors and tombstone flags. */
  method CheckLinks(ns: seq<TextNode>, ids: set<Id>, deletedTargets: set<Id>) returns (ok: bool)
    ensures ok <==> forall n | n in ns :: LinkOk(n, ids, deletedTargets)
  {
    for i := 0 to |ns|
      invariant forall k | 0 <= k < i :: LinkOk(ns[k], ids, deletedTargets)
    {
      var n := ns[i];
      assert n in ns;
      if n.afterId != ROOT_ID && n.afterId !in ids { return false; }
      if n.tombstone && n.id !in deletedTargets { return false; }
      if !n.tombstone && n.id in deletedTargets { return false; }
    }
    ok := true;
  }

  // ----- the colouring walk

  /** `nodes` are the inserts of `K`, and every anchor is a node or ROOT. */
  ghost predicate Linked(K: OpMap, nodes: map<Id, TextNode>) {
    && ROOT_ID !in K
    && (forall x :: x in nodes <==> IsInsert(K, x))
    && (forall x | x in nodes :: nodes[x].afterId == K[x].afterId)
    && (forall x | x in nodes :: nodes[x].afterId == ROOT_ID || nodes[x].afterId in nodes)
  }

  /** The gray path: each element is anchored on the next, the last on `cursor`. */
  ghost predicate GrayPath(K: OpMap, stack: seq<Id>, cursor: Id) {
    && (forall i | 0 <= i < |stack| :: IsInsert(K, stack[i]))
    && (forall i | 0 <= i < |stack| - 1 :: K[stack[i]].afterId == stack[i + 1])
    && (stack != [] ==> K[stack[|stack| - 1]].afterId == cursor)
  }

  lemma {:induction false} GrayChain(K: OpMap, stack: seq<Id>, cursor: Id, i: nat)
    requires GrayPath(K, stack, cursor) && i < |stack|
    ensures Chain(K, stack[i], cursor, |stack| - i)
    decreases |stack| - i
  {
    assert Chain(K, cursor, cursor, 0);
    if i < |stack| - 1 { GrayChain(K, stack, cursor, i + 1); }
  }

  lemma {:induction false} GrayAttached(K: OpMap, stack: seq<Id>, cursor: Id, i: nat)
    requires GrayPath(K, stack, cursor) && Anchored(K, cursor) && i <= |stack|
    ensures forall j | i <= j < |stack| :: Attached(K, stack[j])
    decreases |stack| - i
  {
    if i < |stack| {
      GrayAttached(K, stack, cursor, i + 1);
      assert Anchored(K, if i < |stack| - 1 then stack[i + 1] else cursor);
      AttachedStep(K, stack[i]);
    }
  }

  /** Follows anchors from every node, colouring each node gray at most once;
      fails exactly if some node does not hang below ROOT. */
  method CheckAcyclic(ghost K: OpMap, nodes: map<Id, TextNode>) returns (ok: bool, ghost grays: nat)
    requires Linked(K, nodes)
    ensures ok <==> forall x | x in nodes :: Attached(K, x)
    ensures grays <= |nodes|
  {
    var black: set<Id> := {};
    var left := nodes.Keys;
    grays := 0;
    while left != {}
      invariant left <= nodes.Keys && black <= nodes.Keys
      invariant nodes.Keys - left <= black
      invariant forall x | x in black :: Attached(K, x)
      invariant grays == |black|
    {
      var startId :| startId in left;
      left := left - {startId};
      var gray;
      ok, gray := ColourFrom(K, nodes, black, startId);
      ColouredAreNodes(black, gray, nodes.Keys);
      grays := grays + |gray|;
      if !ok { return; }
      black := black + gray;
    }
    ColouredAreNodes(black, {}, nodes.Keys);
    ok := true;
  }

  /** The inner loop: from one node towards ROOT, until a finished node, or a node of
      the same walk, is met. */
  method ColourFrom(ghost K: OpMap, nodes: map<Id, TextNode>, black: set<Id>, startId: Id)
    returns (ok: bool, gray: set<Id>)
    requires Linked(K, nodes) && startId in nodes && forall x | x in black :: Attached(K, x)
    ensures gray <= nodes.Keys && gray !! black
    ensures ok ==> startId in black + gray && forall x | x in gray :: Attached(K, x)
    ensures !ok ==> exists x :: x in nodes && !Attached(K, x)
  {
    var stack: seq<Id> := [];
    gray := {};
    var cursor := startId;
    while cursor != ROOT_ID && cursor !in black
      invariant cursor == ROOT_ID || cursor in nodes
      invariant GrayPath(K, stack, cursor)
      invariant gray == set x | x in stack
      invariant gray <= nodes.Keys && gray !! black
      invariant if stack == [] then cursor == startId else stack[0] == startId
      decreases nodes.Keys - gray
    {
      if cursor in gray {
        var i :| 0 <= i < |stack| && stack[i] == cursor;
        GrayChain(K, stack, cursor, i);
        CycleNotAttached(K, cursor, |stack| - i);
        return false, gray;
      }
      PushGray(K, stack, cursor);
      gray, stack := gray + {cursor}, stack + [cursor];
      cursor := nodes[cursor].afterId;
    }
    GrayAttached(K, stack, cursor, 0);
    ok := true;
  }

  lemma ColouredAreNodes(black: set<Id>, gray: set<Id>, ids: set<Id>)
    requires black <= ids && gray <= ids && gray !! black
    ensures |black + gray| == |black| + |gray| <= |ids|
  {
    assert ids == black + gray + (ids - (black + gray));
  }

  lemma PushGray(K: OpMap, stack: seq<Id>, cursor: Id)
    requires GrayPath(K, stack, cursor) && IsInsert(K, cursor)
    ensures GrayPath(K, stack + [cursor], K[cursor].afterId)
    ensures (set x | x in stack + [cursor]) == (set x | x in stack) + {cursor}
  {
  }

  // ----- rebuilding the sibling lists

  ghost predicate Grouped(K: OpMap, ids: set<Id>, groups: map<Id, set<Id>>) {
    && (forall p | p in groups :: groups[p] != {})
    && (forall p, x :: (Waits(groups, p, x) <==> x in ids && IsInsert(K, x) && K[x].afterId == p))
  }

  /** Groups the nodes by anchor and sorts every group. */
  method BuildChildren(ghost K: OpMap, nodes: map<Id, TextNode>) returns (children: map<Id, seq<Id>>)
    requires WellKeyed(K) && Linked(K, nodes)
    requires forall x | x in nodes :: NodeKey(nodes[x]) == KeyOf(K[x])
    ensures ChildrenOk(K, nodes.Keys, children)
  {
    var groups: map<Id, set<Id>> := map[];
    var left := nodes.Keys;
    while left != {}
      invariant left <= nodes.Keys
      invariant Grouped(K, nodes.Keys - left, groups)
    {
      var x :| x in left;
      GroupOne(K, nodes.Keys - left, groups, x);
      groups := AddPending(groups, nodes[x].afterId, x);
      assert nodes.Keys - (left - {x}) == nodes.Keys - left + {x};
      left := left - {x};
    }
    assert nodes.Keys - left == nodes.Keys;
    children := SortGroups(K, nodes, groups);
    GroupsToChildren(K, nodes.Keys, groups, children);
  }

  method SortGroups(ghost K: OpMap, nodes: map<Id, TextNode>, groups: map<Id, set<Id>>)
    returns (children: map<Id, seq<Id>>)
    requires WellKeyed(K)
    requires forall p, x | Waits(groups, p, x) :: x in nodes && x in K && NodeKey(nodes[x]) == KeyOf(K[x])
    ensures children.Keys == groups.Keys
    ensures forall p | p in children :: SortedSiblings(K, children[p])
    ensures forall p, x | p in children :: (x in children[p] <==> x in groups[p])
  {
    children := map[];
    var parents := groups.Keys;
    while parents != {}
      invariant parents <= groups.Keys
      invariant children.Keys == groups.Keys - parents
      invariant forall p | p in children :: SortedSiblings(K, children[p])
      invariant forall p, x | p in children :: (x in children[p] <==> x in groups[p])
    {
      var p :| p in parents;
      assert forall x | x in groups[p] :: Waits(groups, p, x);
      var siblings := SortGroup(K, nodes, groups[p], p);
      children := children[p := siblings];
      parents := parents - {p};
    }
  }

  lemma GroupOne(K: OpMap, ids: set<Id>, groups: map<Id, set<Id>>, x: Id)
    requires Grouped(K, ids, groups) && IsInsert(K, x)
    ensures Grouped(K, ids + {x}, AddPending(groups, K[x].afterId, x))
  {
    AddPendingWaits(groups, K[x].afterId, x);
  }

  lemma GroupsToChildren(K: OpMap, A: set<Id>, groups: map<Id, set<Id>>, C: map<Id, seq<Id>>)
    requires Grouped(K, A, groups) && C.Keys == groups.Keys
    requires forall p | p in C :: SortedSiblings(K, C[p])
    requires forall p, x | p in C :: (x in C[p] <==> x in groups[p])
    ensures ChildrenOk(K, A, C)
  {
    forall p | p in C ensures C[p] != [] {
      var x :| x in groups[p];
      assert x in C[p];
    }
    assert forall p, x :: (Listed(C, p, x) <==> Waits(groups, p, x));
  }

  method SortGroup(ghost K: OpMap, nodes: map<Id, TextNode>, group: set<Id>, ghost p: Id) returns (siblings: seq<Id>)
    requires WellKeyed(K)
    requires forall x | x in group :: x in nodes && x in K && NodeKey(nodes[x]) == KeyOf(K[x])
    ensures SortedSiblings(K, siblings)
    ensures forall x :: x in siblings <==> x in group
  {
    var less := (x: Id, y: Id) => x in nodes && y in nodes && KeyLess(NodeKey(nodes[x]), NodeKey(nodes[y]));
    KeysOrder(K, group);
    assert forall x, y | x in group && y in group :: less(x, y) == SiblingBefore(K, x, y);
    siblings := Sort(less, group);
    forall i, j | 0 <= i < j < |siblings| ensures SiblingBefore(K, siblings[i], siblings[j]) {
      assert siblings[i] in siblings && siblings[j] in siblings && less(siblings[i], siblings[j]);
    }
  }

  lemma KeysOrder(K: OpMap, group: set<Id>)
    requires WellKeyed(K) && forall x | x in group :: x in K
    ensures forall x | x in group :: !SiblingBefore(K, x, x)
    ensures forall x, y, z | x in group && y in group && z in group && SiblingBefore(K, x, y) && SiblingBefore(K, y, z)
              :: SiblingBefore(K, x, z)
    ensures forall x, y | x in group && y in group :: x == y || SiblingBefore(K, x, y) || SiblingBefore(K, y, x)
  {
    forall x | x in group ensures !SiblingBefore(K, x, x) { KeyLessIrreflexive(KeyOf(K[x])); }
    forall x, y, z | x in group && y in group && z in group && SiblingBefore(K, x, y) && SiblingBefore(K, y, z)
      ensures SiblingBefore(K, x, z)
    {
      KeyLessTransitive(KeyOf(K[x]), KeyOf(K[y]), KeyOf(K[z]));
    }
    forall x, y | x in group && y in group ensures x == y || SiblingBefore(K, x, y) || SiblingBefore(K, y, x) {
      KeyLessTotal(KeyOf(K[x]), KeyOf(K[y]));
      OperationIdInjective(K[x], K[y]);
    }
  }

  /** The rebuilt tables are exactly the state of a replica that knows `K`. */
  lemma RestoredState(snap: Snapshot, K: OpMap, nodes: map<Id, TextNode>, C: map<Id, seq<Id>>)
    requires Describes(snap, K) && WellFormed(K) && AllAttached(K)
    requires forall x | x in K && K[x].Delete? :: IsInsert(K, K[x].targetId)
    requires forall x :: x in nodes <==> IsInsert(K, x)
    requires forall n | n in snap.nodes :: nodes[n.id] == n
    requires ChildrenOk(K, nodes.Keys, C)
    ensures Represents(ReplicaState(nodes, C, K, map[], map[]))
  {
    assert NodesOk(K, nodes) by {
      forall x | x in nodes ensures nodes[x] == NodeFor(K[x], Deleted(K, x)) {
        DescribedNode(snap, K, x);
      }
    }
  }

  /** Validation and reconstruction, in the order of the source. */
  method RestoreState(snap: Snapshot) returns (r: Result<ReplicaState, CrdtError>)
    ensures r.Success? <==> Acceptable(snap)
    ensures r.Failure? ==> r.error == RestoreError(snap)
    ensures r.Success? ==> Represents(r.value) && r.value.pendingInserts == r.value.pendingDeletes == map[]
    ensures r.Success? ==> Describes(snap, r.value.known) && Resolved(r.value.known)
  {
    var error, known, nodes := ReadEntries(snap);
    if error.Some? { return Failure(error.value); }
    EntriesDecide(snap, known);
    EntriesWellKeyed(snap, known);
    ghost var grays;
    var ok;
    ok, grays := CheckAcyclic(known, nodes);
    if !ok { return Failure(InvalidSnapshot); }
    var children := BuildChildren(known, nodes);
    RestoredState(snap, known, nodes, children);
    return Success(ReplicaState(nodes, children, known, map[], map[]));
  }

  /** The three validation loops. */
  method ReadEntries(snap: Snapshot) returns (error: Option<CrdtError>, known: OpMap, nodes: map<Id, TextNode>)
    ensures Acceptable(snap) ==> error.None?
    ensures error.Some? ==> error.value == RestoreError(snap)
    ensures error.None? ==> EntriesOk(snap) && Lists(snap, known) && Linked(known, nodes)
    ensures error.None? ==> forall x | x in nodes :: NodeKey(nodes[x]) == KeyOf(known[x])
    ensures error.None? ==> forall n | n in snap.nodes :: n.id in nodes && nodes[n.id] == n
  {
    if Acceptable(snap) { AcceptableEntries(snap); }
    known, nodes := map[], map[];
    if snap.version != 1 { return Some(InvalidSnapshot), known, nodes; }
    var ok, inserts, deletedTargets;
    ok, inserts, nodes := ReadNodes(snap.nodes);
    if !ok { return Some(InvalidSnapshot), known, nodes; }
    InsertsRead(snap.nodes, inserts);
    error, known, deletedTargets := ReadDeletes(snap.deleteOperations, nodes.Keys, inserts);
    if error.Some? { return; }
    ok := CheckLinks(snap.nodes, nodes.Keys, deletedTargets);
    if !ok { return Some(InvalidSnapshot), known, nodes; }
    EntriesRead(snap, inserts, nodes, known, deletedTargets);
    error := None;
  }

  lemma InsertsRead(ns: seq<TextNode>, inserts: OpMap)
    requires inserts.Keys == NodeIds(ns) && forall n | n in ns :: inserts[n.id] == InsertOf(n)
    ensures forall x | x in inserts :: inserts[x].Insert?
  {
    forall x | x in inserts ensures inserts[x].Insert? {
      var n :| n in ns && n.id == x;
    }
  }

  /** What passes the three loops is listed and linked. */
  lemma EntriesRead(snap: Snapshot, inserts: OpMap, nodes: map<Id, TextNode>, known: OpMap, targets: set<Id>)
    requires NodeEntriesOk(snap.nodes) && inserts.Keys == nodes.Keys == NodeIds(snap.nodes)
    requires forall n | n in snap.nodes :: inserts[n.id] == InsertOf(n) && nodes[n.id] == n
    requires DeletesRead(snap.deleteOperations, nodes.Keys, inserts, known, targets)
    requires forall n | n in snap.nodes :: LinkOk(n, nodes.Keys, targets)
    ensures Lists(snap, known) && Linked(known, nodes)
    ensures forall x | x in nodes :: NodeKey(nodes[x]) == KeyOf(known[x])
  {
    ReadListsNodes(snap, inserts, nodes, known, targets);
    ReadListsDeletes(snap, inserts, nodes, known, targets);
    NoRootEntry(snap, nodes, known, targets);
    EntriesListed(snap, nodes, known);
    EntriesLinked(snap, nodes, known, targets);
  }

  lemma EntriesListed(snap: Snapshot, nodes: map<Id, TextNode>, known: OpMap)
    requires NodeEntriesOk(snap.nodes) && DeleteEntriesOk(snap.deleteOperations, nodes.Keys)
    requires forall n | n in snap.nodes :: n.id in nodes
    requires forall d | d in snap.deleteOperations :: d.opId in known && known[d.opId] == d
    requires forall x | x in nodes ::
      x in known && nodes[x].id == x && nodes[x] in snap.nodes && known[x] == InsertOf(nodes[x])
    requires forall n | n in snap.nodes :: nodes[n.id] == n
    requires forall x | x in known && x !in nodes ::
      known[x].opId == x && known[x].Delete? && known[x] in snap.deleteOperations
    ensures Lists(snap, known)
  {}

  lemma EntriesLinked(snap: Snapshot, nodes: map<Id, TextNode>, known: OpMap, targets: set<Id>)
    requires forall x | x in nodes ::
      x in known && nodes[x].id == x && nodes[x] in snap.nodes && known[x] == InsertOf(nodes[x])
    requires forall x | x in known && x !in nodes :: known[x].Delete?
    requires ROOT_ID !in known && forall n | n in snap.nodes :: LinkOk(n, nodes.Keys, targets)
    ensures Linked(known, nodes) && forall x | x in nodes :: NodeKey(nodes[x]) == KeyOf(known[x])
  {}

  lemma ReadListsNodes(snap: Snapshot, inserts: OpMap, nodes: map<Id, TextNode>, known: OpMap, targets: set<Id>)
    requires NodeEntriesOk(snap.nodes) && inserts.Keys == nodes.Keys == NodeIds(snap.nodes)
    requires forall n | n in snap.nodes :: inserts[n.id] == InsertOf(n) && nodes[n.id] == n
    requires DeletesRead(snap.deleteOperations, nodes.Keys, inserts, known, targets)
    ensures forall x | x in nodes ::
      x in known && nodes[x].id == x && nodes[x] in snap.nodes && known[x] == InsertOf(nodes[x])
  {
    forall x | x in nodes
      ensures x in known && nodes[x].id == x && nodes[x] in snap.nodes && known[x] == InsertOf(nodes[x])
    {
      var n :| n in snap.nodes && n.id == x;
    }
  }

  lemma ReadListsDeletes(snap: Snapshot, inserts: OpMap, nodes: map<Id, TextNode>, known: OpMap, targets: set<Id>)
    requires DeletesRead(snap.deleteOperations, nodes.Keys, inserts, known, targets)
    ensures forall x | x in known && x !in nodes ::
      known[x].opId == x && known[x].Delete? && known[x] in snap.deleteOperations
  {
    forall x | x in known && x !in nodes
      ensures known[x].opId == x && known[x].Delete? && known[x] in snap.deleteOperations
    {
      var d :| d in snap.deleteOperations && d.opId == x;
    }
  }

  lemma NoRootEntry(snap: Snapshot, nodes: map<Id, TextNode>, known: OpMap, targets: set<Id>)
    requires NodeEntriesOk(snap.nodes) && DeleteEntriesOk(snap.deleteOperations, nodes.Keys)
    requires forall x | x in nodes :: nodes[x].id == x && nodes[x] in snap.nodes
    requires forall x | x in known && x !in nodes :: known[x].opId == x && known[x] in snap.deleteOperations
    ensures ROOT_ID !in known || ROOT_ID in nodes
    ensures ROOT_ID !in nodes
  {
    if ROOT_ID in nodes { RootEntryInvalid(nodes[ROOT_ID]); }
    if ROOT_ID in known && ROOT_ID !in nodes { ValidIdHasColon(known[ROOT_ID]); }
  }
}
