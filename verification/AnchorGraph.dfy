/** The graph of insert operations and their anchors: which operation sets are
    well formed and which inserts are attached. */
module AnchorGraph {
  import opened Operations

  predicate IsInsert(K: OpMap, x: Id) {
    x in K && K[x].Insert?
  }

  /** `k` anchor steps through known inserts lead from `x` to `y`. */
  ghost predicate Chain(K: OpMap, x: Id, y: Id, k: nat)
    decreases k
  {
    if k == 0 then x == y else IsInsert(K, x) && Chain(K, K[x].afterId, y, k - 1)
  }

  ghost predicate Reaches(K: OpMap, x: Id, y: Id) {
    exists k: nat :: Chain(K, x, y, k)
  }

  ghost predicate Acyclic(K: OpMap) {
    forall x, k: nat | k > 0 :: !Chain(K, x, x, k)
  }

  /** Keys are the operations' own identities and every operation is valid. */
  ghost predicate WellKeyed(K: OpMap) {
    forall x | x in K :: K[x].opId == x && IsValidOperation(K[x])
  }

  ghost predicate NoDeleteAnchors(K: OpMap) {
    forall x | IsInsert(K, x) && K[x].afterId in K :: K[K[x].afterId].Insert?
  }

  /** One payload per identity is built into the map; this is everything else
      that a replica demands of the operations it knows. */
  ghost predicate WellFormed(K: OpMap) {
    WellKeyed(K) && NoDeleteAnchors(K) && Acyclic(K)
  }

  /** `x` is an insert whose anchor chain reaches ROOT after `n` further inserts. */
  predicate AttachedAt(K: OpMap, x: Id, n: nat)
    decreases n
  {
    IsInsert(K, x) &&
    if K[x].afterId == ROOT_ID then n == 0 else n > 0 && AttachedAt(K, K[x].afterId, n - 1)
  }

  ghost predicate Attached(K: OpMap, x: Id) {
    exists n: nat :: AttachedAt(K, x, n)
  }

  ghost predicate Anchored(K: OpMap, a: Id) {
    a == ROOT_ID || Attached(K, a)
  }

  /** Some known delete targets `x`. */
  ghost predicate Deleted(K: OpMap, x: Id) {
    exists d :: d in K && K[d].Delete? && K[d].targetId == x
  }

  ghost predicate PendingInsert(K: OpMap, x: Id) {
    IsInsert(K, x) && !Attached(K, x)
  }

  ghost predicate PendingDelete(K: OpMap, x: Id) {
    x in K && K[x].Delete? && !Attached(K, K[x].targetId)
  }

  /** Nothing waits for a missing dependency. */
  ghost predicate Resolved(K: OpMap) {
    forall x | x in K :: !PendingInsert(K, x) && !PendingDelete(K, x)
  }

  ghost predicate Sub(K: OpMap, U: OpMap) {
    forall x | x in K :: x in U && U[x] == K[x]
  }

  // ----- chains

  lemma {:induction false} ChainAppend(K: OpMap, x: Id, y: Id, z: Id, j: nat, k: nat)
    requires Chain(K, x, y, j) && Chain(K, y, z, k)
    ensures Chain(K, x, z, j + k)
    decreases j
  {
    if j > 0 { ChainAppend(K, K[x].afterId, y, z, j - 1, k); }
  }

  lemma {:induction false} ChainDrop(K: OpMap, x: Id, y: Id, z: Id, j: nat, k: nat)
    requires Chain(K, x, y, j) && Chain(K, x, z, k) && j <= k
    ensures Chain(K, y, z, k - j)
    decreases j
  {
    if j > 0 { ChainDrop(K, K[x].afterId, y, z, j - 1, k - 1); }
  }

  lemma {:induction false} ChainMonotone(K: OpMap, U: OpMap, x: Id, y: Id, k: nat)
    requires Sub(K, U) && Chain(K, x, y, k)
    ensures Chain(U, x, y, k)
    decreases k
  {
    if k > 0 { ChainMonotone(K, U, K[x].afterId, y, k - 1); }
  }

  /** A chain in the extended map either avoids the new identity or first meets
      it after a chain in the old map. */
  lemma {:induction false} ChainWithout(K: OpMap, id: Id, op: Operation, x: Id, y: Id, k: nat)
    returns (j: nat)
    requires id !in K && Chain(K[id := op], x, y, k)
    ensures j <= k
    ensures Chain(K, x, id, j) || Chain(K, x, y, k)
    decreases k
  {
    if x == id {
      j := 0;
    } else if k == 0 {
      j := 0;
    } else {
      var i := ChainWithout(K, id, op, K[x].afterId, y, k - 1);
      j := i + 1;
    }
  }

  lemma WellFormedMonotone(K: OpMap, U: OpMap)
    requires Sub(K, U) && WellFormed(U)
    ensures WellFormed(K)
  {
    forall x, k: nat | k > 0 ensures !Chain(K, x, x, k) {
      if Chain(K, x, x, k) { ChainMonotone(K, U, x, x, k); }
    }
  }

  /** Adding a new insert closes a cycle exactly when its anchor chain already
      leads to its own identity. */
  lemma AcyclicExtend(K: OpMap, op: Operation)
    requires Acyclic(K) && op.Insert? && op.opId !in K
    ensures Acyclic(K[op.opId := op]) <==> !Reaches(K, op.afterId, op.opId)
  {
    var id, K' := op.opId, K[op.opId := op];
    if Reaches(K, op.afterId, id) {
      var k: nat :| Chain(K, op.afterId, id, k);
      ChainMonotone(K, K', op.afterId, id, k);
      assert Chain(K', id, id, k + 1);
    } else {
      forall x, k: nat | k > 0 ensures !Chain(K', x, x, k) {
        if Chain(K', x, x, k) {
          var j := ChainWithout(K, id, op, x, x, k);
          ChainMonotone(K, K', x, id, j);
          ChainDrop(K', x, id, x, j, k);
          ChainAppend(K', id, x, id, k - j, j);
          var i := ChainWithout(K, id, op, op.afterId, id, k - 1);
        }
      }
    }
  }

  lemma AcyclicAddDelete(K: OpMap, op: Operation)
    requires Acyclic(K) && op.Delete? && op.opId !in K
    ensures Acyclic(K[op.opId := op])
  {
    var K' := K[op.opId := op];
    forall x, k: nat | k > 0 ensures !Chain(K', x, x, k) {
      if Chain(K', x, x, k) {
        DeleteChain(K, op, x, x, k);
      }
    }
  }

  lemma {:induction false} DeleteChain(K: OpMap, op: Operation, x: Id, y: Id, k: nat)
    requires op.Delete? && op.opId !in K && Chain(K[op.opId := op], x, y, k)
    ensures Chain(K, x, y, k)
    decreases k
  {
    if k > 0 { DeleteChain(K, op, K[x].afterId, y, k - 1); }
  }

  // ----- attachment

  lemma {:induction false} LevelUnique(K: OpMap, x: Id, m: nat, n: nat)
    requires AttachedAt(K, x, m) && AttachedAt(K, x, n)
    ensures m == n
    decreases m
  {
    if K[x].afterId != ROOT_ID { LevelUnique(K, K[x].afterId, m - 1, n - 1); }
  }

  ghost function Level(K: OpMap, x: Id): (n: nat)
    requires Attached(K, x)
    ensures AttachedAt(K, x, n)
  {
    var n: nat :| AttachedAt(K, x, n); n
  }

  lemma LevelOfAnchor(K: OpMap, x: Id)
    requires Attached(K, x) && K[x].afterId != ROOT_ID
    ensures Attached(K, K[x].afterId) && Level(K, K[x].afterId) == Level(K, x) - 1
  {
    var a := K[x].afterId;
    assert AttachedAt(K, a, Level(K, x) - 1);
    LevelUnique(K, a, Level(K, a), Level(K, x) - 1);
  }

  /** An insert is attached exactly when its anchor is. */
  lemma AttachedStep(K: OpMap, x: Id)
    requires IsInsert(K, x)
    ensures Attached(K, x) <==> Anchored(K, K[x].afterId)
  {
    var a := K[x].afterId;
    if a == ROOT_ID {
      assert AttachedAt(K, x, 0);
    } else if Attached(K, a) {
      assert AttachedAt(K, x, Level(K, a) + 1);
    } else if Attached(K, x) {
      LevelOfAnchor(K, x);
    }
  }

  lemma {:induction false} AttachedAtMonotone(K: OpMap, U: OpMap, x: Id, n: nat)
    requires Sub(K, U) && AttachedAt(K, x, n)
    ensures AttachedAt(U, x, n)
    decreases n
  {
    if n > 0 { AttachedAtMonotone(K, U, K[x].afterId, n - 1); }
  }

  lemma AttachedMonotone(K: OpMap, U: OpMap, x: Id)
    requires Sub(K, U) && Attached(K, x)
    ensures Attached(U, x) && U[x] == K[x]
  {
    AttachedAtMonotone(K, U, x, Level(K, x));
  }

  /** Chains that start at an attached insert stay attached until ROOT. */
  lemma {:induction false} ChainFromAttached(K: OpMap, x: Id, y: Id, n: nat, k: nat)
    requires AttachedAt(K, x, n) && Chain(K, x, y, k) && ROOT_ID !in K
    ensures if k <= n then AttachedAt(K, y, n - k) else y == ROOT_ID
    decreases k
  {
    if k > 0 && K[x].afterId != ROOT_ID {
      ChainFromAttached(K, K[x].afterId, y, n - 1, k - 1);
    }
  }

  lemma RootNotKnown(K: OpMap)
    requires WellKeyed(K)
    ensures ROOT_ID !in K
  {
    if ROOT_ID in K { ValidIdHasColon(K[ROOT_ID]); }
  }

  /** An insert under an attached anchor cannot close a cycle. */
  lemma AttachedAnchorIsSafe(K: OpMap, op: Operation)
    requires WellFormed(K) && op.Insert? && op.opId !in K && op.opId != ROOT_ID
    requires Anchored(K, op.afterId)
    ensures !Reaches(K, op.afterId, op.opId)
  {
    RootNotKnown(K);
    forall k: nat ensures !Chain(K, op.afterId, op.opId, k) {
      if Chain(K, op.afterId, op.opId, k) {
        if op.afterId != ROOT_ID {
          ChainFromAttached(K, op.afterId, op.opId, Level(K, op.afterId), k);
        }
      }
    }
  }

  lemma {:induction false} CycleNotAttached(K: OpMap, x: Id, k: nat)
    requires ROOT_ID !in K && k > 0 && Chain(K, x, x, k)
    ensures !Attached(K, x)
  {
    if Attached(K, x) {
      ChainFromAttached(K, x, x, Level(K, x), k);
      if k <= Level(K, x) { LevelUnique(K, x, Level(K, x), Level(K, x) - k); }
    }
  }

  /** If every insert is attached there is no cycle and no anchor is a delete. */
  lemma AllAttachedWellFormed(K: OpMap)
    requires WellKeyed(K)
    requires forall x | IsInsert(K, x) :: Attached(K, x)
    ensures WellFormed(K)
  {
    RootNotKnown(K);
    forall x, k: nat | k > 0 ensures !Chain(K, x, x, k) {
      if Chain(K, x, x, k) { CycleNotAttached(K, x, k); }
    }
    forall x | IsInsert(K, x) && K[x].afterId in K ensures K[K[x].afterId].Insert? {
      AttachedStep(K, x);
    }
  }

  /** The attached inserts are the only set of inserts that is built from ROOT
      downwards and leaves no insert under one of its members out. */
  lemma AttachedIsClosure(K: OpMap, A: set<Id>)
    requires forall x | x in A :: Attached(K, x)
    requires forall x | IsInsert(K, x) && (K[x].afterId == ROOT_ID || K[x].afterId in A) :: x in A
    ensures forall x :: x in A <==> Attached(K, x)
  {
    forall x | Attached(K, x) ensures x in A {
      ClosureContains(K, A, x, Level(K, x));
    }
  }

  lemma {:induction false} ClosureContains(K: OpMap, A: set<Id>, x: Id, n: nat)
    requires forall x | IsInsert(K, x) && (K[x].afterId == ROOT_ID || K[x].afterId in A) :: x in A
    requires AttachedAt(K, x, n)
    ensures x in A
    decreases n
  {
    if n > 0 { ClosureContains(K, A, K[x].afterId, n - 1); }
  }

  // ----- parts of a resolved set

  /** Nothing in the set depends on an operation outside. */
  ghost predicate DependenciesKnown(K: OpMap) {
    forall x | x in K :: DependencyOf(K[x]) == ROOT_ID || DependencyOf(K[x]) in K
  }

  lemma {:induction false} AttachedInPart(K: OpMap, U: OpMap, x: Id, n: nat)
    requires Sub(K, U) && DependenciesKnown(K) && x in K && AttachedAt(U, x, n)
    ensures AttachedAt(K, x, n)
    decreases n
  {
    if n > 0 { AttachedInPart(K, U, K[x].afterId, n - 1); }
  }

  /** A part of a resolved set is resolved exactly when it holds all its dependencies. */
  lemma ResolvedPart(K: OpMap, U: OpMap)
    requires Sub(K, U) && WellKeyed(U) && Resolved(U)
    ensures Resolved(K) <==> DependenciesKnown(K)
  {
    RootNotKnown(U);
    if DependenciesKnown(K) {
      forall x | x in K ensures !PendingInsert(K, x) && !PendingDelete(K, x) {
        assert !PendingInsert(U, x) && !PendingDelete(U, x);
        var y := if K[x].Insert? then x else K[x].targetId;
        assert Attached(U, y) && y != ROOT_ID;
        AttachedInPart(K, U, y, Level(U, y));
      }
    }
    if Resolved(K) {
      forall x | x in K ensures DependencyOf(K[x]) == ROOT_ID || DependencyOf(K[x]) in K {
        assert !PendingInsert(K, x) && !PendingDelete(K, x);
        if K[x].Insert? { AttachedStep(K, x); }
      }
    }
  }

  // ----- walking an anchor chain

  /** `y` comes after `x` on its anchor chain. */
  ghost predicate Follows(K: OpMap, x: Id, y: Id) {
    exists k: nat :: k > 0 && Chain(K, x, y, k)
  }

  lemma FollowsStep(K: OpMap, visited: set<Id>, c: Id)
    requires IsInsert(K, c) && forall v | v in visited :: Follows(K, v, c)
    ensures forall v | v in visited + {c} :: Follows(K, v, K[c].afterId)
  {
    var next := K[c].afterId;
    assert Chain(K, next, next, 0);
    assert Chain(K, c, next, 1);
    forall v | v in visited ensures Follows(K, v, next) {
      var k: nat :| k > 0 && Chain(K, v, c, k);
      ChainAppend(K, v, c, next, k, 1);
    }
  }

  lemma ChainStep(K: OpMap, x: Id, c: Id, k: nat)
    requires Chain(K, x, c, k) && IsInsert(K, c)
    ensures Chain(K, x, K[c].afterId, k + 1)
  {
    assert Chain(K, K[c].afterId, K[c].afterId, 0);
    ChainAppend(K, x, c, K[c].afterId, k, 1);
  }

  /** A chain that ends outside the known operations reaches nothing else there. */
  lemma {:induction false} ChainEnds(K: OpMap, x: Id, end: Id, y: Id, n: nat)
    requires Chain(K, x, end, n) && end !in K && y !in K && y != end
    ensures !Reaches(K, x, y)
  {
    forall k: nat ensures !Chain(K, x, y, k) {
      if Chain(K, x, y, k) {
        if k <= n { ChainDrop(K, x, y, end, k, n); } else { ChainDrop(K, x, end, y, n, k); }
      }
    }
  }

  /** No anchor chain leads into a delete. */
  lemma {:induction false} ChainMeetsNoDelete(K: OpMap, x: Id, y: Id, k: nat)
    requires NoDeleteAnchors(K) && k > 0 && Chain(K, x, y, k)
    ensures y in K ==> K[y].Insert?
    decreases k
  {
    if k > 1 { ChainMeetsNoDelete(K, K[x].afterId, y, k - 1); }
  }

  lemma InsertNoDeleteAnchors(K: OpMap, op: Operation)
    requires NoDeleteAnchors(K) && op.Insert? && op.opId !in K && op.afterId != op.opId
    ensures NoDeleteAnchors(K[op.opId := op]) <==> (op.afterId in K ==> K[op.afterId].Insert?)
  {
    var K' := K[op.opId := op];
    assert IsInsert(K', op.opId);
  }
}
