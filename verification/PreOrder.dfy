/** The document as a recursive walk over the sibling lists. */
module PreOrder {
  import opened Operations
  import opened AnchorGraph
  import opened DocumentOrder
  import opened Documents
  import opened ReplicaShape
  import opened Traversal

  /** The sibling lists hold the attached children of every anchor, in order. */
  ghost predicate IsTree(K: OpMap, C: map<Id, seq<Id>>) {
    WellKeyed(K) && forall a :: ChildrenOf(K, a, SiblingsOf(C, a))
  }

  /** The inserts that hang below `a`. */
  ghost function Below(K: OpMap, a: Id): set<Id>
    requires Anchored(K, a)
  {
    set y | y in K && Attached(K, y) && AnchorPath(K, a) < PathOf(K, y)
  }

  lemma {:induction false} ChildIsBelow(K: OpMap, a: Id, c: Id)
    requires WellKeyed(K) && Anchored(K, a) && Attached(K, c) && K[c].afterId == a
    ensures c in Below(K, a) && c !in Below(K, c) && {c} + Below(K, c) <= Below(K, a)
    ensures AnchorPath(K, c) == PathOf(K, c) && AnchorPath(K, a) < PathOf(K, c)
  {
    RootNotKnown(K);
    PathStep(K, c);
  }

  /** `x`, then everything below it. */
  ghost function Subtree(K: OpMap, C: map<Id, seq<Id>>, x: Id): seq<Id>
    requires IsTree(K, C) && Attached(K, x)
    decreases {x} + Below(K, x), 0
  {
    PathStep(K, x);
    ChildIsBelow(K, K[x].afterId, x);
    [x] + Forest(K, C, x, SiblingsOf(C, x))
  }

  /** The subtrees of some children of `a`, one after the other. */
  ghost function Forest(K: OpMap, C: map<Id, seq<Id>>, a: Id, cs: seq<Id>): seq<Id>
    requires IsTree(K, C) && Anchored(K, a) && forall c | c in cs :: Attached(K, c) && K[c].afterId == a
    decreases Below(K, a), |cs|
  {
    if cs == [] then []
    else
      ChildIsBelow(K, a, cs[0]);
      Subtree(K, C, cs[0]) + Forest(K, C, a, cs[1..])
  }

  /** The visible part of a list of attached inserts. */
  ghost function Show(K: OpMap, ids: seq<Id>): seq<VisibleElement>
    requires forall x | x in ids :: Attached(K, x)
  {
    if ids == [] then []
    else
      assert ids[0] in ids && AttachedAt(K, ids[0], Level(K, ids[0]));
      (if Deleted(K, ids[0]) then [] else [VisibleElement(ids[0], K[ids[0]].value)]) + Show(K, ids[1..])
  }

  ghost predicate Ordered(K: OpMap, ids: seq<Id>) {
    forall i, j | 0 <= i < j < |ids| :: Before(K, ids[i], ids[j])
  }

  lemma OrderedJoin(K: OpMap, a: seq<Id>, b: seq<Id>)
    requires Ordered(K, a) && Ordered(K, b) && forall y, z | y in a && z in b :: Before(K, y, z)
    ensures Ordered(K, a + b)
  {
    var s := a + b;
    forall i, j | 0 <= i < j < |s| ensures Before(K, s[i], s[j]) {
      if i < |a| <= j { assert a[i] in a && b[j - |a|] in b; }
    }
  }

  /** A subtree holds exactly what hangs under its root, in document order. */
  lemma {:induction false} SubtreeListing(K: OpMap, C: map<Id, seq<Id>>, x: Id)
    requires IsTree(K, C) && Attached(K, x)
    ensures Ordered(K, Subtree(K, C, x))
    ensures forall y :: y in Subtree(K, C, x) <==> Under(K, x, y)
    decreases {x} + Below(K, x), 0
  {
    var cs := SiblingsOf(C, x);
    PathStep(K, x);
    ChildIsBelow(K, K[x].afterId, x);
    ForestListing(K, C, x, cs);
    forall y ensures (exists c :: c in cs && Under(K, c, y)) <==> Under(K, x, y) && y != x
             ensures (exists c :: c in cs && Under(K, c, y)) ==> Before(K, x, y)
    {
      UnderChildren(K, x, cs, y);
    }
    OrderedJoin(K, [x], Forest(K, C, x, cs));
  }

  lemma UnderChildren(K: OpMap, x: Id, cs: seq<Id>, y: Id)
    requires WellKeyed(K) && Attached(K, x) && ChildrenOf(K, x, cs)
    ensures (exists c :: c in cs && Under(K, c, y)) <==> Under(K, x, y) && y != x
    ensures (exists c :: c in cs && Under(K, c, y)) ==> Before(K, x, y)
  {
    RootNotKnown(K);
    if c :| c in cs && Under(K, c, y) {
      ChildIsBelow(K, x, c);
      PrefixLess(PathOf(K, x), PathOf(K, y));
    }
    if Under(K, x, y) && y != x {
      if PathOf(K, x) == PathOf(K, y) { PathInjective(K, x, y); }
      var z := ChildUnder(K, x, y);
      assert z in cs;
    }
  }

  lemma {:induction false} ForestListing(K: OpMap, C: map<Id, seq<Id>>, a: Id, cs: seq<Id>)
    requires IsTree(K, C) && Anchored(K, a) && forall c | c in cs :: Attached(K, c) && K[c].afterId == a
    requires SortedSiblings(K, cs)
    ensures Ordered(K, Forest(K, C, a, cs))
    ensures forall y :: y in Forest(K, C, a, cs) <==> exists c :: c in cs && Under(K, c, y)
    decreases Below(K, a), |cs|
  {
    if cs != [] {
      var c, rest := cs[0], cs[1..];
      ChildIsBelow(K, a, c);
      SubtreeListing(K, C, c);
      SiblingsTail(K, cs);
      ForestListing(K, C, a, rest);
      forall y, z | y in Subtree(K, C, c) && z in Forest(K, C, a, rest) ensures Before(K, y, z) {
        var d :| d in rest && Under(K, d, z);
        SiblingsFork(K, a, c, d);
        ForkLess(PathOf(K, c), PathOf(K, d), PathOf(K, y), PathOf(K, z));
      }
      OrderedJoin(K, Subtree(K, C, c), Forest(K, C, a, rest));
      assert forall d :: d in cs <==> d == c || d in rest;
    }
  }

  lemma SiblingsTail(K: OpMap, cs: seq<Id>)
    requires SortedSiblings(K, cs) && cs != []
    ensures SortedSiblings(K, cs[1..])
    ensures forall d | d in cs[1..] :: SiblingBefore(K, cs[0], d)
  {
    assert forall i | 0 < i < |cs| :: SiblingBefore(K, cs[0], cs[i]);
    var rest := cs[1..];
    forall i, j | 0 <= i < j < |rest| ensures SiblingBefore(K, rest[i], rest[j]) {
      assert SiblingBefore(K, cs[i + 1], cs[j + 1]);
    }
  }

  lemma {:induction false} ShowListing(K: OpMap, ids: seq<Id>)
    requires Ordered(K, ids) && forall x | x in ids :: Attached(K, x)
    ensures forall e :: e in Show(K, ids) <==> e.id in ids && !Deleted(K, e.id) && e.value == K[e.id].value
    ensures forall i, j | 0 <= i < j < |Show(K, ids)| :: Before(K, Show(K, ids)[i].id, Show(K, ids)[j].id)
    decreases |ids|
  {
    if ids != [] {
      var rest := ids[1..];
      ShowListing(K, rest);
      assert forall x :: x in ids <==> x == ids[0] || x in rest;
      var shown := Show(K, rest);
      forall k | 0 <= k < |shown| ensures Before(K, ids[0], shown[k].id) {
        assert shown[k] in shown;
        var m :| 0 <= m < |rest| && rest[m] == shown[k].id;
        assert ids[m + 1] == rest[m];
      }
    }
  }

  /** What the recursive walk from ROOT shows: every attached insert, then its children's
      subtrees in sibling order, with deleted elements left out and their descendants
      kept in place. */
  ghost function PreOrderDocument(K: OpMap, C: map<Id, seq<Id>>): seq<VisibleElement>
    requires IsTree(K, C)
  {
    AllUnderRoot(K, C);
    Show(K, Forest(K, C, ROOT_ID, SiblingsOf(C, ROOT_ID)))
  }

  lemma {:induction false} AllUnderRoot(K: OpMap, C: map<Id, seq<Id>>)
    requires IsTree(K, C)
    ensures Ordered(K, Forest(K, C, ROOT_ID, SiblingsOf(C, ROOT_ID)))
    ensures forall y :: y in Forest(K, C, ROOT_ID, SiblingsOf(C, ROOT_ID)) <==> Attached(K, y)
  {
    var cs := SiblingsOf(C, ROOT_ID);
    ForestListing(K, C, ROOT_ID, cs);
    forall y | Attached(K, y) ensures exists c :: c in cs && Under(K, c, y) {
      var z := ChildUnder(K, ROOT_ID, y);
      assert z in cs;
    }
  }

  /** The recursive walk shows exactly the document. */
  lemma PreOrderIsDocument(K: OpMap, C: map<Id, seq<Id>>)
    requires IsTree(K, C)
    ensures IsDocument(K, PreOrderDocument(K, C))
  {
    AllUnderRoot(K, C);
    ShowListing(K, Forest(K, C, ROOT_ID, SiblingsOf(C, ROOT_ID)));
  }
}
