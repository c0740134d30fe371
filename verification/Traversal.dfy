/** Why an explicit-stack walk over ordered sibling lists visits the attached
    inserts in document order. */
module Traversal {
  import opened Operations
  import opened AnchorGraph
  import opened DocumentOrder
  import opened ReplicaShape

  function Reverse<T(!new)>(s: seq<T>): (r: seq<T>)
    ensures |r| == |s| && forall i | 0 <= i < |s| :: r[i] == s[|s| - 1 - i]
    ensures forall x :: x in r <==> x in s
  {
    var r := seq(|s|, i requires 0 <= i < |s| => s[|s| - 1 - i]);
    assert forall i | 0 <= i < |s| :: s[i] == r[|s| - 1 - i];
    r
  }

  /** `x` and its whole subtree stand before `y` and its whole subtree. */
  ghost predicate Fork(K: OpMap, x: Id, y: Id) {
    Before(K, x, y) && !(PathOf(K, x) <= PathOf(K, y))
  }

  /** `y` is `t` or hangs below `t`. */
  ghost predicate Under(K: OpMap, t: Id, y: Id) {
    Attached(K, t) && Attached(K, y) && PathOf(K, t) <= PathOf(K, y)
  }

  ghost predicate Covered(K: OpMap, seen: set<Id>, stack: seq<Id>, y: Id) {
    y in seen || exists t :: t in stack && Under(K, t, y)
  }

  /** Everything seen stands before everything stacked, the stack holds disjoint
      subtrees in reverse document order, and nothing attached is missed. */
  ghost predicate Traversing(K: OpMap, seen: set<Id>, stack: seq<Id>) {
    && (forall t | t in stack :: Attached(K, t))
    && (forall v, t | v in seen && t in stack :: Before(K, v, t))
    && (forall i, j | 0 <= i < j < |stack| :: Fork(K, stack[j], stack[i]))
    && (forall y | Attached(K, y) :: Covered(K, seen, stack, y))
  }

  /** `cs` is the sorted list of all attached children of `a`. */
  ghost predicate ChildrenOf(K: OpMap, a: Id, cs: seq<Id>) {
    && SortedSiblings(K, cs)
    && (forall x :: x in cs <==> Attached(K, x) && K[x].afterId == a)
  }

  lemma ChildUnder(K: OpMap, a: Id, y: Id) returns (z: Id)
    requires WellKeyed(K) && Anchored(K, a) && Attached(K, y)
    requires AnchorPath(K, a) < PathOf(K, y)
    ensures Under(K, z, y) && K[z].afterId == a
  {
    z := AncestorAt(K, y, |AnchorPath(K, a)| + 1);
    PathStep(K, z);
    var b := K[z].afterId;
    assert AnchorPath(K, b) == PathOf(K, z)[..|PathOf(K, z)| - 1] == AnchorPath(K, a);
    if a != ROOT_ID && b != ROOT_ID { PathInjective(K, a, b); }
  }

  lemma SiblingsFork(K: OpMap, a: Id, x: Id, y: Id)
    requires Attached(K, x) && Attached(K, y) && K[x].afterId == K[y].afterId == a
    requires SiblingBefore(K, x, y)
    ensures Fork(K, x, y)
  {
    PathStep(K, x);
    PathStep(K, y);
    SiblingLess(AnchorPath(K, a), KeyOf(K[x]), KeyOf(K[y]));
    KeyLessIrreflexive(KeyOf(K[x]));
  }

  lemma ChildrenFork(K: OpMap, a: Id, cs: seq<Id>)
    requires ChildrenOf(K, a, cs)
    ensures forall i, j | 0 <= i < j < |cs| :: Fork(K, Reverse(cs)[j], Reverse(cs)[i])
  {
    var r := Reverse(cs);
    forall i, j | 0 <= i < j < |cs| ensures Fork(K, r[j], r[i]) {
      assert SiblingBefore(K, cs[|cs| - 1 - j], cs[|cs| - 1 - i]);
      assert r[i] in cs && r[j] in cs;
      SiblingsFork(K, a, r[j], r[i]);
    }
  }

  lemma BeginTraversal(K: OpMap, cs: seq<Id>)
    requires WellKeyed(K) && ChildrenOf(K, ROOT_ID, cs)
    ensures Traversing(K, {}, Reverse(cs))
  {
    ChildrenFork(K, ROOT_ID, cs);
    forall y | Attached(K, y) ensures Covered(K, {}, Reverse(cs), y) {
      var z := ChildUnder(K, ROOT_ID, y);
    }
  }

  /** Popping `x` and pushing its children. */
  lemma TraversalStep(K: OpMap, seen: set<Id>, rest: seq<Id>, x: Id, cs: seq<Id>)
    requires WellKeyed(K) && Traversing(K, seen, rest + [x]) && ChildrenOf(K, x, cs)
    ensures x !in seen
    ensures Traversing(K, seen + {x}, rest + Reverse(cs))
  {
    var stack' := rest + Reverse(cs);
    TopUnseen(K, seen, rest, x);
    ChildrenBelow(K, x, cs);
    StepAttached(K, seen, rest, x, cs, stack');
    StepBefore(K, seen, rest, x, cs, stack');
    StepFork(K, seen, rest, x, cs, stack');
    forall y | Attached(K, y) ensures Covered(K, seen + {x}, stack', y) {
      StepCovered(K, seen, rest, x, cs, stack', y);
    }
  }

  lemma TopUnseen(K: OpMap, seen: set<Id>, rest: seq<Id>, x: Id)
    requires Traversing(K, seen, rest + [x])
    ensures Attached(K, x) && x !in seen
  {
    assert (rest + [x])[|rest|] == x;
    BeforeIrreflexive(K, x);
  }

  lemma {:induction false} ChildrenBelow(K: OpMap, x: Id, cs: seq<Id>)
    requires WellKeyed(K) && Attached(K, x) && ChildrenOf(K, x, cs)
    ensures forall c | c in cs :: Attached(K, c) && Before(K, x, c) && PathOf(K, x) <= PathOf(K, c)
  {
    RootNotKnown(K);
    forall c | c in cs ensures Attached(K, c) && Before(K, x, c) && PathOf(K, x) <= PathOf(K, c) {
      PathStep(K, c);
      PrefixLess(PathOf(K, x), PathOf(K, c));
    }
  }

  lemma StepAttached(K: OpMap, seen: set<Id>, rest: seq<Id>, x: Id, cs: seq<Id>, stack': seq<Id>)
    requires Traversing(K, seen, rest + [x]) && ChildrenOf(K, x, cs) && stack' == rest + Reverse(cs)
    ensures forall t | t in stack' :: Attached(K, t)
  {
    forall t | t in stack' ensures Attached(K, t) {
      assert t in rest + [x] || t in cs;
    }
  }

  lemma StepBefore(K: OpMap, seen: set<Id>, rest: seq<Id>, x: Id, cs: seq<Id>, stack': seq<Id>)
    requires Traversing(K, seen, rest + [x]) && stack' == rest + Reverse(cs)
    requires forall c | c in cs :: Before(K, x, c)
    ensures forall v, t | v in seen + {x} && t in stack' :: Before(K, v, t)
  {
    var stack := rest + [x];
    forall v, t | v in seen + {x} && t in stack' ensures Before(K, v, t) {
      assert stack[|rest|] == x;
      if t in rest {
        var i :| 0 <= i < |rest| && rest[i] == t;
        assert Fork(K, stack[|rest|], stack[i]);
      } else if v != x {
        assert t in cs && Before(K, v, x);
        BeforeTransitive(K, v, x, t);
      }
    }
  }

  lemma {:induction false} StepFork(K: OpMap, seen: set<Id>, rest: seq<Id>, x: Id, cs: seq<Id>, stack': seq<Id>)
    requires Traversing(K, seen, rest + [x]) && ChildrenOf(K, x, cs) && stack' == rest + Reverse(cs)
    requires forall c | c in cs :: Attached(K, c) && PathOf(K, x) <= PathOf(K, c)
    ensures forall i, j | 0 <= i < j < |stack'| :: Fork(K, stack'[j], stack'[i])
  {
    var stack := rest + [x];
    ChildrenFork(K, x, cs);
    forall i, j | 0 <= i < j < |stack'| ensures Fork(K, stack'[j], stack'[i]) {
      if j < |rest| {
        assert stack[i] == stack'[i] && stack[j] == stack'[j];
      } else if i < |rest| {
        assert Fork(K, stack[|rest|], stack[i]);
        assert stack'[j] == Reverse(cs)[j - |rest|];
        assert stack'[j] in cs;
        ForkLess(PathOf(K, x), PathOf(K, stack'[i]), PathOf(K, stack'[j]), PathOf(K, stack'[i]));
      } else {
        assert stack'[j] == Reverse(cs)[j - |rest|] && stack'[i] == Reverse(cs)[i - |rest|];
      }
    }
  }

  lemma StepCovered(K: OpMap, seen: set<Id>, rest: seq<Id>, x: Id, cs: seq<Id>, stack': seq<Id>, y: Id)
    requires WellKeyed(K) && Traversing(K, seen, rest + [x]) && ChildrenOf(K, x, cs)
    requires Attached(K, y) && stack' == rest + Reverse(cs)
    ensures Covered(K, seen + {x}, stack', y)
  {
    var stack := rest + [x];
    assert Covered(K, seen, stack, y);
    if y !in seen && y != x {
      var t :| t in stack && Under(K, t, y);
      if t == x {
        if PathOf(K, x) == PathOf(K, y) { PathInjective(K, x, y); }
        RootNotKnown(K);
        var z := ChildUnder(K, x, y);
        assert z in cs && z in stack';
      } else {
        assert t in stack';
      }
    }
  }
}
