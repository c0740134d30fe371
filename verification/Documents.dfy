/** Documents: what a replica that knows the operations `K` shows. */
module Documents {
  import opened JsStrings
  import opened Operations
  import opened AnchorGraph
  import opened DocumentOrder
  import opened Sorting

  datatype VisibleElement = VisibleElement(id: Id, value: JsString)

  ghost predicate Visible(K: OpMap, x: Id) {
    Attached(K, x) && !Deleted(K, x)
  }

  /** `doc` lists exactly the visible inserts of `K`, in document order. */
  ghost predicate IsDocument(K: OpMap, doc: seq<VisibleElement>) {
    && (forall i, j | 0 <= i < j < |doc| :: Before(K, doc[i].id, doc[j].id))
    && (forall e | e in doc :: Visible(K, e.id) && e.value == K[e.id].value)
    && (forall x | Visible(K, x) :: VisibleElement(x, K[x].value) in doc)
  }

  function Values(doc: seq<VisibleElement>): seq<JsString> {
    seq(|doc|, i requires 0 <= i < |doc| => doc[i].value)
  }

  /** The materialized text. */
  function Join(values: seq<JsString>): JsString {
    if values == [] then Utf16([]) else Concat(values[0], Join(values[1..]))
  }

  /** What is known determines what is shown. */
  lemma DocumentUnique(K: OpMap, d: seq<VisibleElement>, e: seq<VisibleElement>)
    requires IsDocument(K, d) && IsDocument(K, e)
    ensures d == e
  {
    var less := (a: VisibleElement, b: VisibleElement) => Before(K, a.id, b.id);
    forall x, y | x in d && y in d && less(x, y) ensures !less(y, x) {
      BeforeAsymmetric(K, x.id, y.id);
    }
    forall x ensures x in d <==> x in e {
      if x in d { assert x == VisibleElement(x.id, K[x.id].value); }
      if x in e { assert x == VisibleElement(x.id, K[x.id].value); }
    }
    SortedUnique(less, d, e);
  }

  lemma DocumentExists(K: OpMap)
    requires WellKeyed(K)
    ensures exists doc :: IsDocument(K, doc)
  {
    var less := (a: VisibleElement, b: VisibleElement) => Before(K, a.id, b.id);
    var dom := set x | x in K && Visible(K, x) :: VisibleElement(x, K[x].value);
    forall x | x in dom ensures !less(x, x) { BeforeIrreflexive(K, x.id); }
    forall x, y, z | x in dom && y in dom && z in dom && less(x, y) && less(y, z) ensures less(x, z) {
      BeforeTransitive(K, x.id, y.id, z.id);
    }
    forall x, y | x in dom && y in dom ensures x == y || less(x, y) || less(y, x) {
      BeforeTotal(K, x.id, y.id);
    }
    var doc := SortedListing(less, dom);
    forall i, j | 0 <= i < j < |doc| ensures Before(K, doc[i].id, doc[j].id) {
      assert less(doc[i], doc[j]);
    }
    assert IsDocument(K, doc);
  }

  ghost function DocumentOf(K: OpMap): (doc: seq<VisibleElement>)
    requires WellKeyed(K)
    ensures IsDocument(K, doc)
  {
    DocumentExists(K);
    var doc :| IsDocument(K, doc);
    doc
  }

  // ----- how one more operation changes the document

  lemma {:induction false} AttachedAtWithout(K: OpMap, op: Operation, x: Id, n: nat)
    requires op.opId !in K && AttachedAt(K[op.opId := op], x, n)
    requires op.Insert? ==> x != op.opId && forall y | IsInsert(K, y) :: K[y].afterId != op.opId
    ensures AttachedAt(K, x, n)
    decreases n
  {
    if n > 0 { AttachedAtWithout(K, op, K[x].afterId, n - 1); }
  }

  /** A new delete attaches nothing; a new insert that no known insert waits for
      attaches at most itself. Paths and order of everything else stay. */
  lemma ExtendAttached(K: OpMap, op: Operation, x: Id)
    requires op.opId !in K
    requires op.Insert? ==> x != op.opId && forall y | IsInsert(K, y) :: K[y].afterId != op.opId
    ensures Attached(K[op.opId := op], x) <==> Attached(K, x)
    ensures Attached(K, x) ==> PathOf(K[op.opId := op], x) == PathOf(K, x)
  {
    var K' := K[op.opId := op];
    if Attached(K', x) { AttachedAtWithout(K, op, x, Level(K', x)); }
    if Attached(K, x) { PathMonotone(K, K', x); }
  }

  lemma DeleteKeepsAttached(K: OpMap, op: Operation)
    requires op.Delete? && op.opId !in K
    ensures forall x :: Attached(K[op.opId := op], x) <==> Attached(K, x)
    ensures forall x :: Deleted(K[op.opId := op], x) <==> Deleted(K, x) || x == op.targetId
  {
    var K' := K[op.opId := op];
    forall x ensures Attached(K', x) <==> Attached(K, x) {
      ExtendAttached(K, op, x);
    }
    forall x ensures Deleted(K', x) <==> Deleted(K, x) || x == op.targetId {
      if Deleted(K, x) {
        var d :| d in K && K[d].Delete? && K[d].targetId == x;
        assert d in K' && K'[d] == K[d];
      }
      if x == op.targetId { assert op.opId in K' && K'[op.opId].targetId == x; }
    }
  }

  lemma DeleteStep(K: OpMap, op: Operation, doc: seq<VisibleElement>, i: nat)
    requires IsDocument(K, doc) && op.Delete? && op.opId !in K
    requires i < |doc| && doc[i].id == op.targetId
    ensures IsDocument(K[op.opId := op], doc[..i] + doc[i + 1..])
  {
    var K', doc' := K[op.opId := op], doc[..i] + doc[i + 1..];
    DeleteKeepsAttached(K, op);
    var less := (a: VisibleElement, b: VisibleElement) => Before(K', a.id, b.id);
    forall j, k | 0 <= j < k < |doc| ensures less(doc[j], doc[k]) {
      BeforeMonotone(K, K', doc[j].id, doc[k].id);
    }
    BeforeIrreflexive(K', doc[i].id);
    RemoveKeepsSorted(less, doc, i);
    SortedGivesBefore(K', doc');
    DeleteContents(K, K', op, doc, doc', i);
  }

  lemma SortedGivesBefore(K: OpMap, doc: seq<VisibleElement>)
    requires StrictlySorted((a: VisibleElement, b: VisibleElement) => Before(K, a.id, b.id), doc)
    ensures forall i, j | 0 <= i < j < |doc| :: Before(K, doc[i].id, doc[j].id)
  {
    var less := (a: VisibleElement, b: VisibleElement) => Before(K, a.id, b.id);
    forall i, j | 0 <= i < j < |doc| ensures Before(K, doc[i].id, doc[j].id) {
      assert less(doc[i], doc[j]);
    }
  }

  lemma DeleteContents(K: OpMap, K': OpMap, op: Operation, doc: seq<VisibleElement>, doc': seq<VisibleElement>, i: nat)
    requires IsDocument(K, doc) && op.Delete? && op.opId !in K && K' == K[op.opId := op]
    requires i < |doc| && doc[i].id == op.targetId
    requires forall e :: e in doc' <==> e in doc && e != doc[i]
    ensures forall e | e in doc' :: Visible(K', e.id) && e.value == K'[e.id].value
    ensures forall x | Visible(K', x) :: VisibleElement(x, K'[x].value) in doc'
  {
    DeleteKeepsAttached(K, op);
    assert doc[i] in doc;
    forall e | e in doc' ensures Visible(K', e.id) && e.value == K'[e.id].value {
      assert e in doc && e.id != op.targetId;
    }
    forall x | Visible(K', x) ensures VisibleElement(x, K'[x].value) in doc' {
      assert VisibleElement(x, K[x].value) in doc;
    }
  }

  /** The new insert's key precedes that of every known operation. */
  ghost predicate Newest(K: OpMap, op: Operation) {
    forall y | y in K :: K[y].lamport < op.lamport
  }

  ghost predicate Unreferenced(K: OpMap, id: Id) {
    forall y | y in K :: y != id && DependencyOf(K[y]) != id
  }

  /** A newest insert stands directly after its anchor, before everything that
      followed the anchor until then. */
  lemma NewestFollowsAnchor(K: OpMap, op: Operation, y: Id)
    requires WellKeyed(K) && op.Insert? && op.opId !in K && op.opId != ROOT_ID
    requires Anchored(K, op.afterId) && Newest(K, op)
    requires Attached(K, y) && (op.afterId != ROOT_ID ==> Before(K, op.afterId, y))
    ensures Before(K[op.opId := op], op.opId, y)
  {
    var K' := K[op.opId := op];
    NewestAttached(K, op);
    PathMonotone(K, K', y);
    var p, q := AnchorPath(K, op.afterId), PathOf(K, y);
    if p < q {
      var z := AncestorAt(K, y, |p| + 1);
      assert q[|p|] == PathOf(K, z)[|p|];
    }
    NewestChildLess(p, KeyOf(op), q);
  }

  lemma NewestAttached(K: OpMap, op: Operation)
    requires op.Insert? && op.opId !in K && Anchored(K, op.afterId)
    ensures Attached(K[op.opId := op], op.opId)
    ensures PathOf(K[op.opId := op], op.opId) == AnchorPath(K, op.afterId) + [KeyOf(op)]
  {
    var K' := K[op.opId := op];
    if op.afterId != ROOT_ID { PathMonotone(K, K', op.afterId); }
    AttachedStep(K', op.opId);
    PathStep(K', op.opId);
  }

  /** Inserting after the element before position `i` puts the new element there. */
  lemma InsertStep(K: OpMap, op: Operation, doc: seq<VisibleElement>, i: nat)
    requires WellKeyed(K) && IsDocument(K, doc) && op.Insert? && op.opId != ROOT_ID
    requires Unreferenced(K, op.opId) && Newest(K, op)
    requires i <= |doc| && op.afterId == if i == 0 then ROOT_ID else doc[i - 1].id
    ensures IsDocument(K[op.opId := op], doc[..i] + [VisibleElement(op.opId, op.value)] + doc[i..])
  {
    var K', newest := K[op.opId := op], VisibleElement(op.opId, op.value);
    var less := (a: VisibleElement, b: VisibleElement) => Before(K', a.id, b.id);
    OldStayOrdered(K, K', doc);
    OldBeforeNew(K, op, doc, i);
    NewBeforeOld(K, op, doc, i);
    InsertKeepsSorted(less, doc, i, newest);
    SortedGivesBefore(K', doc[..i] + [newest] + doc[i..]);
    assert i > 0 ==> doc[i - 1] in doc;
    InsertContents(K, K', op, doc, doc[..i] + [newest] + doc[i..]);
  }

  lemma InsertContents(K: OpMap, K': OpMap, op: Operation, doc: seq<VisibleElement>, doc': seq<VisibleElement>)
    requires IsDocument(K, doc) && op.Insert? && Unreferenced(K, op.opId) && K' == K[op.opId := op]
    requires Anchored(K, op.afterId)
    requires forall e :: e in doc' <==> e in doc || e == VisibleElement(op.opId, op.value)
    ensures forall e | e in doc' :: Visible(K', e.id) && e.value == K'[e.id].value
    ensures forall x | Visible(K', x) :: VisibleElement(x, K'[x].value) in doc'
  {
    InsertKeepsDeleted(K, op);
    NewestAttached(K, op);
    forall x | x != op.opId ensures Attached(K', x) <==> Attached(K, x) {
      ExtendAttached(K, op, x);
    }
    forall x | Visible(K', x) ensures VisibleElement(x, K'[x].value) in doc' {
      assert x != op.opId ==> VisibleElement(x, K[x].value) in doc;
    }
  }

  lemma InsertKeepsDeleted(K: OpMap, op: Operation)
    requires op.Insert? && Unreferenced(K, op.opId)
    ensures forall x :: Deleted(K[op.opId := op], x) <==> Deleted(K, x)
    ensures !Deleted(K, op.opId)
  {
    var K' := K[op.opId := op];
    forall x ensures Deleted(K', x) <==> Deleted(K, x) {
      if Deleted(K, x) {
        var d :| d in K && K[d].Delete? && K[d].targetId == x;
        assert d in K' && K'[d] == K[d];
      }
    }
  }

  lemma OldStayOrdered(K: OpMap, K': OpMap, doc: seq<VisibleElement>)
    requires IsDocument(K, doc) && Sub(K, K')
    ensures forall j, k | 0 <= j < k < |doc| :: Before(K', doc[j].id, doc[k].id)
  {
    forall j, k | 0 <= j < k < |doc| ensures Before(K', doc[j].id, doc[k].id) {
      BeforeMonotone(K, K', doc[j].id, doc[k].id);
    }
  }

  lemma OldBeforeNew(K: OpMap, op: Operation, doc: seq<VisibleElement>, i: nat)
    requires WellKeyed(K) && IsDocument(K, doc) && op.Insert? && op.opId !in K
    requires i <= |doc| && (i > 0 ==> op.afterId == doc[i - 1].id)
    ensures forall k | 0 <= k < i :: Before(K[op.opId := op], doc[k].id, op.opId)
  {
    RootNotKnown(K);
    forall k | 0 <= k < i ensures Before(K[op.opId := op], doc[k].id, op.opId) {
      assert doc[i - 1] in doc;
      assert k < i - 1 ==> Before(K, doc[k].id, doc[i - 1].id);
      BeforeAnchorBeforeNew(K, op, doc[k].id);
    }
  }

  lemma NewBeforeOld(K: OpMap, op: Operation, doc: seq<VisibleElement>, i: nat)
    requires WellKeyed(K) && IsDocument(K, doc) && op.Insert? && op.opId != ROOT_ID
    requires op.opId !in K && Newest(K, op)
    requires i <= |doc| && op.afterId == if i == 0 then ROOT_ID else doc[i - 1].id
    ensures forall k | i <= k < |doc| :: Before(K[op.opId := op], op.opId, doc[k].id)
  {
    forall k | i <= k < |doc| ensures Before(K[op.opId := op], op.opId, doc[k].id) {
      assert doc[k] in doc;
      assert i > 0 ==> doc[i - 1] in doc && Before(K, doc[i - 1].id, doc[k].id);
      NewestFollowsAnchor(K, op, doc[k].id);
    }
  }

  lemma BeforeAnchorBeforeNew(K: OpMap, op: Operation, x: Id)
    requires op.Insert? && op.opId !in K && op.afterId != ROOT_ID && Attached(K, op.afterId)
    requires x == op.afterId || Before(K, x, op.afterId)
    ensures Before(K[op.opId := op], x, op.opId)
  {
    var K' := K[op.opId := op];
    NewestAttached(K, op);
    PathMonotone(K, K', op.afterId);
    PrefixLess(PathOf(K, op.afterId), PathOf(K', op.opId));
    if x != op.afterId {
      BeforeMonotone(K, K', x, op.afterId);
      BeforeTransitive(K', x, op.afterId, op.opId);
    }
  }
}
