/** The order of elements in a document, which never changes. */
module DocumentOrder {
  import opened Operations
  import opened AnchorGraph

  /** Every attached insert has a path of sibling keys from ROOT; documents list
      elements by path, lexicographically, an ancestor before its descendants. A
      path depends on nothing but the anchor chain. */
  type Path = seq<Key>

  ghost predicate PathLess(p: Path, q: Path) {
    if q == [] then false
    else if p == [] then true
    else KeyLess(p[0], q[0]) || (p[0] == q[0] && PathLess(p[1..], q[1..]))
  }

  lemma {:induction false} PathLessIrreflexive(p: Path)
    ensures !PathLess(p, p)
  {
    if p != [] {
      KeyLessIrreflexive(p[0]);
      PathLessIrreflexive(p[1..]);
    }
  }

  lemma {:induction false} PathLessTransitive(p: Path, q: Path, r: Path)
    requires PathLess(p, q) && PathLess(q, r)
    ensures PathLess(p, r)
  {
    if p != [] {
      if p[0] == q[0] && q[0] == r[0] {
        PathLessTransitive(p[1..], q[1..], r[1..]);
      } else if KeyLess(p[0], q[0]) && KeyLess(q[0], r[0]) {
        KeyLessTransitive(p[0], q[0], r[0]);
      }
    }
  }

  lemma {:induction false} PathLessTotal(p: Path, q: Path)
    ensures p == q || PathLess(p, q) || PathLess(q, p)
  {
    if p != [] && q != [] {
      KeyLessTotal(p[0], q[0]);
      if p[0] == q[0] {
        PathLessTotal(p[1..], q[1..]);
        assert p == [p[0]] + p[1..] && q == [q[0]] + q[1..];
      }
    }
  }

  /** An ancestor precedes its descendants. */
  lemma {:induction false} PrefixLess(p: Path, q: Path)
    requires p < q
    ensures PathLess(p, q)
  {
    if p != [] { PrefixLess(p[1..], q[1..]); }
  }

  /** Two paths that part ways stay in the same order below the fork. */
  lemma {:induction false} ForkLess(p: Path, q: Path, p': Path, q': Path)
    requires PathLess(p, q) && !(p <= q)
    requires p <= p' && q <= q'
    ensures PathLess(p', q') && !(p' <= q') && !(q' <= p')
  {
    KeyLessIrreflexive(p[0]);
    if p[0] == q[0] {
      assert p == [p[0]] + p[1..] && q == [q[0]] + q[1..];
      ForkLess(p[1..], q[1..], p'[1..], q'[1..]);
    }
  }

  /** Siblings are ordered by their keys. */
  lemma {:induction false} SiblingLess(p: Path, j: Key, k: Key)
    ensures PathLess(p + [j], p + [k]) <==> KeyLess(j, k)
  {
    if p == [] {
      PathLessIrreflexive([]);
    } else {
      KeyLessIrreflexive(p[0]);
      assert (p + [j])[1..] == p[1..] + [j] && (p + [k])[1..] == p[1..] + [k];
      SiblingLess(p[1..], j, k);
    }
  }

  /** A child whose key precedes every sibling's directly follows its parent. */
  lemma {:induction false} NewestChildLess(p: Path, k: Key, q: Path)
    requires PathLess(p, q)
    requires p < q ==> KeyLess(k, q[|p|])
    ensures PathLess(p + [k], q)
  {
    if p != [] {
      assert (p + [k])[1..] == p[1..] + [k];
      if p[0] == q[0] && PathLess(p[1..], q[1..]) {
        NewestChildLess(p[1..], k, q[1..]);
      }
    }
  }

  // ----- paths of attached inserts

  ghost function PathOf(K: OpMap, x: Id): (p: Path)
    requires Attached(K, x)
    ensures p != [] && p[|p| - 1] == KeyOf(K[x])
    decreases Level(K, x)
  {
    if K[x].afterId == ROOT_ID then [KeyOf(K[x])]
    else
      LevelOfAnchor(K, x);
      PathOf(K, K[x].afterId) + [KeyOf(K[x])]
  }

  ghost function AnchorPath(K: OpMap, a: Id): Path
    requires Anchored(K, a)
  {
    if a == ROOT_ID then [] else PathOf(K, a)
  }

  lemma {:induction false} PathStep(K: OpMap, x: Id)
    requires Attached(K, x)
    ensures Anchored(K, K[x].afterId)
    ensures PathOf(K, x) == AnchorPath(K, K[x].afterId) + [KeyOf(K[x])]
  {
    AttachedStep(K, x);
  }

  lemma {:induction false} PathMonotone(K: OpMap, U: OpMap, x: Id)
    requires Sub(K, U) && Attached(K, x)
    ensures Attached(U, x) && PathOf(U, x) == PathOf(K, x)
    decreases Level(K, x)
  {
    AttachedMonotone(K, U, x);
    if K[x].afterId != ROOT_ID {
      LevelOfAnchor(K, x);
      PathMonotone(K, U, K[x].afterId);
    }
  }

  lemma {:induction false} PathInjective(K: OpMap, x: Id, y: Id)
    requires WellKeyed(K) && Attached(K, x) && Attached(K, y)
    requires PathOf(K, x) == PathOf(K, y)
    ensures x == y
  {
    OperationIdInjective(K[x], K[y]);
  }

  /** Every non-empty prefix of a path belongs to an ancestor. */
  lemma {:induction false} AncestorAt(K: OpMap, y: Id, m: nat) returns (z: Id)
    requires Attached(K, y) && 1 <= m <= |PathOf(K, y)|
    ensures Attached(K, z) && PathOf(K, z) == PathOf(K, y)[..m]
    decreases Level(K, y)
  {
    if m == |PathOf(K, y)| {
      z := y;
    } else {
      LevelOfAnchor(K, y);
      z := AncestorAt(K, K[y].afterId, m);
    }
  }

  // ----- the document order

  /** `x` stands before `y` in every document that shows both. */
  ghost predicate Before(K: OpMap, x: Id, y: Id) {
    Attached(K, x) && Attached(K, y) && PathLess(PathOf(K, x), PathOf(K, y))
  }

  lemma BeforeIrreflexive(K: OpMap, x: Id)
    ensures !Before(K, x, x)
  {
    if Attached(K, x) { PathLessIrreflexive(PathOf(K, x)); }
  }

  lemma BeforeTransitive(K: OpMap, x: Id, y: Id, z: Id)
    requires Before(K, x, y) && Before(K, y, z)
    ensures Before(K, x, z)
  {
    PathLessTransitive(PathOf(K, x), PathOf(K, y), PathOf(K, z));
  }

  lemma BeforeAsymmetric(K: OpMap, x: Id, y: Id)
    requires Before(K, x, y)
    ensures !Before(K, y, x)
  {
    if Before(K, y, x) {
      BeforeTransitive(K, x, y, x);
      BeforeIrreflexive(K, x);
    }
  }

  lemma BeforeTotal(K: OpMap, x: Id, y: Id)
    requires WellKeyed(K) && Attached(K, x) && Attached(K, y)
    ensures x == y || Before(K, x, y) || Before(K, y, x)
  {
    PathLessTotal(PathOf(K, x), PathOf(K, y));
    if PathOf(K, x) == PathOf(K, y) { PathInjective(K, x, y); }
  }

  lemma BeforeMonotone(K: OpMap, U: OpMap, x: Id, y: Id)
    requires Sub(K, U) && Before(K, x, y)
    ensures Before(U, x, y)
  {
    PathMonotone(K, U, x); PathMonotone(K, U, y);
  }

  /** One global element order: replicas that know different parts of one
      universe agree on the order of any two elements attached in both. */
  lemma GlobalOrder(K1: OpMap, K2: OpMap, U: OpMap, x: Id, y: Id)
    requires Sub(K1, U) && Sub(K2, U)
    requires Attached(K1, x) && Attached(K1, y) && Attached(K2, x) && Attached(K2, y)
    ensures Before(K1, x, y) <==> Before(K2, x, y)
  {
    PathMonotone(K1, U, x); PathMonotone(K1, U, y);
    PathMonotone(K2, U, x); PathMonotone(K2, U, y);
  }
}
