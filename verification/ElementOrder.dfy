/** The document order in the words of the operations alone. */
module ElementOrders {
  import opened Operations
  import opened AnchorGraph
  import opened DocumentOrder
  import opened Documents

  /** Anchor steps lead from `y` to `x`, or they are the same. */
  ghost predicate IsOver(K: OpMap, x: Id, y: Id) {
    Attached(K, x) && Reaches(K, y, x)
  }

  /** Two inserts with one anchor. */
  ghost predicate Siblings(K: OpMap, a: Id, b: Id) {
    IsInsert(K, a) && IsInsert(K, b) && K[a].afterId == K[b].afterId
  }

  /** `x` and `y` hang under two different siblings, and that of `x` stands first. */
  ghost predicate ForksBefore(K: OpMap, x: Id, y: Id, a: Id, b: Id) {
    IsOver(K, a, x) && IsOver(K, b, y) && Siblings(K, a, b) && StandsFirst(K[a], K[b])
  }

  /** An element stands before what hangs under it, and otherwise as the siblings do at
      which the two part ways. */
  ghost predicate Precedes(K: OpMap, x: Id, y: Id) {
    (x != y && IsOver(K, x, y)) || exists a, b :: ForksBefore(K, x, y, a, b)
  }

  // ----- ancestors and paths

  lemma ReachesSelf(K: OpMap, x: Id)
    ensures Reaches(K, x, x)
  {
    assert Chain(K, x, x, 0);
  }

  lemma ReachesFromAnchor(K: OpMap, x: Id, y: Id)
    requires IsInsert(K, x) && Reaches(K, K[x].afterId, y)
    ensures Reaches(K, x, y)
  {
    var k: nat :| Chain(K, K[x].afterId, y, k);
    assert Chain(K, x, y, k + 1);
  }

  /** Every non-empty prefix of a path belongs to an element that it reaches. */
  lemma {:induction false} OverAt(K: OpMap, y: Id, m: nat) returns (z: Id)
    requires Attached(K, y) && 1 <= m <= |PathOf(K, y)|
    ensures IsOver(K, z, y) && PathOf(K, z) == PathOf(K, y)[..m]
    decreases Level(K, y)
  {
    if m == |PathOf(K, y)| {
      ReachesSelf(K, y);
      z := y;
    } else {
      LevelOfAnchor(K, y);
      z := OverAt(K, K[y].afterId, m);
      ReachesFromAnchor(K, y, z);
    }
  }

  lemma {:induction false} OverIsPrefix(K: OpMap, x: Id, y: Id, k: nat)
    requires WellKeyed(K) && Attached(K, y) && Attached(K, x) && Chain(K, y, x, k)
    ensures PathOf(K, x) <= PathOf(K, y) && |PathOf(K, y)| == |PathOf(K, x)| + k
    decreases k
  {
    if k > 0 {
      RootNotKnown(K);
      PathStep(K, y);
      if K[y].afterId != ROOT_ID { OverIsPrefix(K, x, K[y].afterId, k - 1); }
    }
  }

  // ----- from paths to siblings

  /** Where two ordered paths part ways. */
  lemma {:induction false} PathsFork(p: Path, q: Path) returns (m: nat)
    requires PathLess(p, q) && !(p <= q)
    ensures m < |p| && m < |q| && p[..m] == q[..m] && KeyLess(p[m], q[m])
  {
    if KeyLess(p[0], q[0]) { return 0; }
    assert p == [p[0]] + p[1..] && q == [q[0]] + q[1..];
    var k := PathsFork(p[1..], q[1..]);
    assert p[..k + 1] == [p[0]] + p[1..][..k] && q[..k + 1] == [q[0]] + q[1..][..k];
    m := k + 1;
  }

  lemma {:induction false} SameAnchor(K: OpMap, a: Id, b: Id, p: Path, q: Path)
    requires WellKeyed(K) && Attached(K, a) && Attached(K, b) && p != [] && q != []
    requires PathOf(K, a) == p && PathOf(K, b) == q && p[..|p| - 1] == q[..|q| - 1]
    ensures K[a].afterId == K[b].afterId
  {
    var c, d := K[a].afterId, K[b].afterId;
    PathStep(K, a);
    PathStep(K, b);
    assert AnchorPath(K, c) == p[..|p| - 1] && AnchorPath(K, d) == q[..|q| - 1];
    if c != ROOT_ID && d != ROOT_ID { PathInjective(K, c, d); }
  }

  lemma BeforeGivesFork(K: OpMap, x: Id, y: Id)
    requires WellKeyed(K) && Before(K, x, y)
    ensures Precedes(K, x, y)
  {
    var p, q := PathOf(K, x), PathOf(K, y);
    if p <= q {
      PathLessIrreflexive(p);
      var z := OverAt(K, y, |p|);
      PathInjective(K, x, z);
    } else {
      var m := PathsFork(p, q);
      var a, b := ForkAt(K, x, y, m);
    }
  }

  lemma ForkAt(K: OpMap, x: Id, y: Id, m: nat) returns (a: Id, b: Id)
    requires WellKeyed(K) && Attached(K, x) && Attached(K, y) && m < |PathOf(K, x)| && m < |PathOf(K, y)|
    requires PathOf(K, x)[..m] == PathOf(K, y)[..m] && KeyLess(PathOf(K, x)[m], PathOf(K, y)[m])
    ensures ForksBefore(K, x, y, a, b)
  {
    var p, q := PathOf(K, x)[..m + 1], PathOf(K, y)[..m + 1];
    a := OverAt(K, x, m + 1);
    b := OverAt(K, y, m + 1);
    assert p[..m] == PathOf(K, x)[..m] && q[..m] == PathOf(K, y)[..m];
    SameAnchor(K, a, b, p, q);
    KeyLessExactly(K[a], K[b]);
  }

  // ----- from siblings to paths

  lemma OverGivesBefore(K: OpMap, x: Id, y: Id)
    requires WellKeyed(K) && Attached(K, y) && IsOver(K, x, y) && x != y
    ensures Before(K, x, y)
  {
    var k: nat :| Chain(K, y, x, k);
    OverIsPrefix(K, x, y, k);
    PrefixLess(PathOf(K, x), PathOf(K, y));
  }

  lemma ForkGivesBefore(K: OpMap, x: Id, y: Id, a: Id, b: Id)
    requires WellKeyed(K) && Attached(K, x) && Attached(K, y) && ForksBefore(K, x, y, a, b)
    ensures Before(K, x, y)
  {
    var i: nat :| Chain(K, x, a, i);
    var j: nat :| Chain(K, y, b, j);
    OverIsPrefix(K, a, x, i);
    OverIsPrefix(K, b, y, j);
    PathStep(K, a);
    PathStep(K, b);
    KeyLessExactly(K[a], K[b]);
    var p := AnchorPath(K, K[a].afterId);
    SiblingLess(p, KeyOf(K[a]), KeyOf(K[b]));
    KeyLessIrreflexive(KeyOf(K[a]));
    assert (p + [KeyOf(K[a])])[|p|] != (p + [KeyOf(K[b])])[|p|];
    ForkLess(PathOf(K, a), PathOf(K, b), PathOf(K, x), PathOf(K, y));
  }

  // ----- the document

  lemma BeforeExactly(K: OpMap, x: Id, y: Id)
    requires WellKeyed(K) && Attached(K, x) && Attached(K, y)
    ensures Before(K, x, y) <==> Precedes(K, x, y)
  {
    if Before(K, x, y) { BeforeGivesFork(K, x, y); }
    if x != y && IsOver(K, x, y) { OverGivesBefore(K, x, y); }
    if a, b :| ForksBefore(K, x, y, a, b) { ForkGivesBefore(K, x, y, a, b); }
  }

  /** The order of a document, from the operations alone: of two elements the first is the
      one that the other hangs under, or the one under the sibling that stands first. */
  lemma DocumentOrderExactly(K: OpMap, doc: seq<VisibleElement>, i: nat, j: nat)
    requires WellKeyed(K) && IsDocument(K, doc) && i < |doc| && j < |doc|
    ensures i < j <==> Precedes(K, doc[i].id, doc[j].id)
  {
    assert doc[i] in doc && doc[j] in doc;
    BeforeExactly(K, doc[i].id, doc[j].id);
    if i > j { BeforeAsymmetric(K, doc[j].id, doc[i].id); }
    if i == j { BeforeIrreflexive(K, doc[i].id); }
  }

  ghost predicate InOrder(K: OpMap, doc: seq<VisibleElement>) {
    forall i, j | 0 <= i < |doc| && 0 <= j < |doc| :: i < j <==> Precedes(K, doc[i].id, doc[j].id)
  }

  lemma DocumentInOrder(K: OpMap, doc: seq<VisibleElement>)
    requires WellKeyed(K) && IsDocument(K, doc)
    ensures InOrder(K, doc)
  {
    forall i, j | 0 <= i < |doc| && 0 <= j < |doc| ensures i < j <==> Precedes(K, doc[i].id, doc[j].id) {
      DocumentOrderExactly(K, doc, i, j);
    }
  }

  /** In particular, of two elements with one anchor the one listed first has the larger
      Lamport value, or with equal ones the client id that comes first by code units, or
      with one client the smaller counter. */
  lemma SiblingsStandInOrder(K: OpMap, doc: seq<VisibleElement>, i: nat, j: nat)
    requires WellKeyed(K) && IsDocument(K, doc) && i < |doc| && j < |doc| && i != j
    requires Siblings(K, doc[i].id, doc[j].id)
    ensures i < j <==> StandsFirst(K[doc[i].id], K[doc[j].id])
  {
    var x, y := doc[i].id, doc[j].id;
    assert doc[i] in doc && doc[j] in doc;
    PathStep(K, x);
    PathStep(K, y);
    SiblingLess(AnchorPath(K, K[x].afterId), KeyOf(K[x]), KeyOf(K[y]));
    KeyLessExactly(K[x], K[y]);
    if i > j { BeforeAsymmetric(K, y, x); }
  }

  /** No element of a document is empty. */
  lemma NothingEmpty(K: OpMap, doc: seq<VisibleElement>)
    requires WellKeyed(K) && IsDocument(K, doc)
    ensures forall e | e in doc :: |e.value.units| > 0 && e.id.units != [82, 79, 79, 84]
  {
    forall e | e in doc ensures |e.value.units| > 0 && e.id.units != [82, 79, 79, 84] {
      assert IsValidOperation(K[e.id]);
      ValidIdHasColon(K[e.id]);
    }
  }
}
