/** Caret positions in identity space: captured as a trail of preceding elements,
    resolved against the document after further operations. */
module SelectionAnchors {
  import opened Wrappers
  import opened JsStrings
  import opened Operations
  import opened AnchorGraph
  import opened Convergence
  import opened DocumentOrder
  import opened Documents
  import opened Texts

  datatype Direction = Forward | Backward | NoDirection
  datatype SelectionAnchor = SelectionAnchor(
    startAfterId: Id,
    endAfterId: Id,
    startFallbackTrail: seq<Id>,
    endFallbackTrail: seq<Id>,
    direction: Direction)
  datatype SelectionOffsets = SelectionOffsets(start: nat, end: nat)

  const MAX_FALLBACK_TRAIL := 32

  function Width(e: VisibleElement): nat {
    |e.value.units|
  }

  /** The UTF-16 offset of the boundary before element `i`. */
  function Offset(elements: seq<VisibleElement>, i: nat): nat
    requires i <= |elements|
  {
    if i == 0 then 0 else Offset(elements, i - 1) + Width(elements[i - 1])
  }

  /** The offset of a boundary is the length of the text before it, and cutting the text
      there cuts it between the elements. */
  lemma {:induction false} OffsetCutsText(elements: seq<VisibleElement>, i: nat)
    requires i <= |elements|
    ensures Offset(elements, i) == |Join(Values(elements[..i])).units| <= |Join(Values(elements)).units|
    ensures Join(Values(elements)).units[..Offset(elements, i)] == Join(Values(elements[..i])).units
    ensures Join(Values(elements)).units[Offset(elements, i)..] == Join(Values(elements[i..])).units
  {
    OffsetIsPlace(elements, i);
    JoinCut(Values(elements), i);
    assert Values(elements)[..i] == Values(elements[..i]) && Values(elements)[i..] == Values(elements[i..]);
  }

  lemma {:induction false} OffsetIsPlace(elements: seq<VisibleElement>, i: nat)
    requires i <= |elements|
    ensures Offset(elements, i) == Place(Values(elements), i)
    decreases i
  {
    if i > 0 { OffsetIsPlace(elements, i - 1); }
  }

  /** The first boundary at or past the offset. */
  ghost predicate IsIndexFor(elements: seq<VisibleElement>, offset: int, index: nat) {
    && index <= |elements|
    && (forall k | 0 <= k < index :: Offset(elements, k) < offset)
    && (index < |elements| ==> offset <= Offset(elements, index))
  }

  method OffsetToElementIndex(elements: seq<VisibleElement>, offset: int) returns (index: nat)
    ensures IsIndexFor(elements, offset, index)
  {
    if offset <= 0 { return 0; }
    var consumed := 0;
    for i := 0 to |elements|
      invariant consumed == Offset(elements, i)
      invariant forall k | 0 <= k <= i :: Offset(elements, k) < offset
    {
      consumed := consumed + Width(elements[i]);
      if consumed >= offset { return i + 1; }
    }
    return |elements|;
  }

  method ElementIndexToOffset(elements: seq<VisibleElement>, elementIndex: int) returns (offset: nat)
    ensures elementIndex <= 0 ==> offset == 0
    ensures 0 <= elementIndex <= |elements| ==> offset == Offset(elements, elementIndex)
    ensures elementIndex > |elements| ==> offset == Offset(elements, |elements|)
    ensures 0 <= elementIndex <= |elements| ==> offset == |Join(Values(elements[..elementIndex])).units|
  {
    var bounded := if elementIndex < 0 then 0 else if elementIndex > |elements| then |elements| else elementIndex;
    offset := 0;
    for i := 0 to bounded
      invariant offset == Offset(elements, i)
    {
      offset := offset + Width(elements[i]);
    }
    OffsetCutsText(elements, bounded);
  }

  /** Index to offset to index is the identity when no value is empty. */
  lemma {:induction false} IndexRoundTrip(elements: seq<VisibleElement>, i: nat, index: nat)
    requires i <= |elements| && forall e | e in elements :: !IsEmpty(e.value)
    requires IsIndexFor(elements, Offset(elements, i), index)
    ensures index == i
  {
    if index < i { OffsetGrows(elements, index, i); }
  }

  lemma {:induction false} OffsetGrows(elements: seq<VisibleElement>, i: nat, j: nat)
    requires i < j <= |elements| && forall e | e in elements :: !IsEmpty(e.value)
    ensures Offset(elements, i) < Offset(elements, j)
    decreases j
  {
    assert elements[j - 1] in elements;
    if i < j - 1 { OffsetGrows(elements, i, j - 1); }
  }

  // ----- capture

  /** The `n` nearest elements before position `i`, nearest first, then ROOT. */
  function Trail(elements: seq<VisibleElement>, i: nat, n: nat): seq<Id>
    requires i <= |elements|
  {
    if i == 0 || n == 0 then [ROOT_ID] else [elements[i - 1].id] + Trail(elements, i - 1, n - 1)
  }

  /** As many of the nearest predecessors as there are, but no more than `n`, nearest first,
      and ROOT behind them. */
  ghost predicate IsTrail(elements: seq<VisibleElement>, i: nat, n: nat, trail: seq<Id>) {
    && i <= |elements| && |trail| == (if i < n then i else n) + 1
    && (forall k | 0 <= k < |trail| - 1 :: trail[k] == elements[i - 1 - k].id)
    && trail[|trail| - 1].units == [82, 79, 79, 84]
  }

  lemma {:induction false} TrailExactly(elements: seq<VisibleElement>, i: nat, n: nat)
    requires i <= |elements|
    ensures IsTrail(elements, i, n, Trail(elements, i, n))
    decreases n
  {
    if i > 0 && n > 0 { TrailExactly(elements, i - 1, n - 1); }
  }

  method TrailFrom(elements: seq<VisibleElement>, elementIndex: nat) returns (trail: seq<Id>)
    requires elementIndex <= |elements|
    ensures trail == Trail(elements, elementIndex, MAX_FALLBACK_TRAIL)
    ensures IsTrail(elements, elementIndex, 32, trail)
  {
    trail := [];
    var index := elementIndex;
    while index > 0 && |trail| < MAX_FALLBACK_TRAIL
      invariant 0 <= index <= elementIndex && |trail| <= MAX_FALLBACK_TRAIL
      invariant trail + Trail(elements, index, MAX_FALLBACK_TRAIL - |trail|)
             == Trail(elements, elementIndex, MAX_FALLBACK_TRAIL)
    {
      index := index - 1;
      trail := trail + [elements[index].id];
    }
    trail := trail + [ROOT_ID];
    TrailExactly(elements, elementIndex, MAX_FALLBACK_TRAIL);
  }

  /** The element before the caret, or ROOT at the start. */
  function ElementBefore(elements: seq<VisibleElement>, i: nat): Id
    requires i <= |elements|
  {
    if i == 0 then ROOT_ID else elements[i - 1].id
  }

  method CaptureSelectionAnchor(elements: seq<VisibleElement>, selectionStart: int, selectionEnd: int,
          direction: Direction)
    returns (anchor: SelectionAnchor, ghost startIndex: nat, ghost endIndex: nat)
    ensures IsIndexFor(elements, selectionStart, startIndex) && IsIndexFor(elements, selectionEnd, endIndex)
    ensures anchor.startFallbackTrail == Trail(elements, startIndex, MAX_FALLBACK_TRAIL)
    ensures anchor.endFallbackTrail == Trail(elements, endIndex, MAX_FALLBACK_TRAIL)
    ensures anchor.startAfterId == ElementBefore(elements, startIndex)
    ensures anchor.endAfterId == ElementBefore(elements, endIndex)
    ensures anchor.direction == direction
  {
    var s := OffsetToElementIndex(elements, selectionStart);
    var e := OffsetToElementIndex(elements, selectionEnd);
    var startTrail := TrailFrom(elements, s);
    var endTrail := TrailFrom(elements, e);
    return SelectionAnchor(startTrail[0], endTrail[0], startTrail, endTrail, direction), s, e;
  }

  // ----- resolution

  /** The last position of an identity, plus one. */
  function AfterElement(elements: seq<VisibleElement>, id: Id): Option<nat> {
    if elements == [] then None
    else if elements[|elements| - 1].id == id then Some(|elements|)
    else AfterElement(elements[..|elements| - 1], id)
  }

  /** The position after the first trail entry that is still there. */
  function PositionAfter(elements: seq<VisibleElement>, trail: seq<Id>): Option<nat> {
    if trail == [] then None
    else if trail[0] == ROOT_ID then Some(0)
    else if AfterElement(elements, trail[0]).Some? then AfterElement(elements, trail[0])
    else PositionAfter(elements, trail[1..])
  }

  lemma {:induction false} AfterElementMeaning(elements: seq<VisibleElement>, id: Id)
    ensures match AfterElement(elements, id)
      case None => forall l | 0 <= l < |elements| :: elements[l].id != id
      case Some(p) => 0 < p <= |elements| && elements[p - 1].id == id
    decreases |elements|
  {
    if elements != [] {
      var init := elements[..|elements| - 1];
      AfterElementMeaning(init, id);
      assert forall l | 0 <= l < |init| :: elements[l] == init[l];
    }
  }

  method ResolveTrailOffset(elements: seq<VisibleElement>, trail: seq<Id>) returns (offset: Option<nat>)
    ensures offset.Some? <==> PositionAfter(elements, trail).Some?
    ensures offset.Some? ==> PositionAfter(elements, trail).value <= |elements|
    ensures offset.Some? ==> offset.value == Offset(elements, PositionAfter(elements, trail).value)
  {
    var indexById: map<Id, nat> := map[];
    for i := 0 to |elements|
      invariant forall x :: x in indexById <==> AfterElement(elements[..i], x).Some?
      invariant forall x | x in indexById :: AfterElement(elements[..i], x) == Some(indexById[x] + 1)
    {
      assert elements[..i + 1][..i] == elements[..i];
      indexById := indexById[elements[i].id := i];
    }
    assert elements[..|elements|] == elements;
    for k := 0 to |trail|
      invariant PositionAfter(elements, trail) == PositionAfter(elements, trail[k..])
    {
      var candidate := trail[k];
      assert trail[k..][1..] == trail[k + 1..];
      AfterElementMeaning(elements, candidate);
      if candidate == ROOT_ID { return Some(0); }
      if candidate in indexById {
        var o := ElementIndexToOffset(elements, indexById[candidate] + 1);
        return Some(o);
      }
    }
    return None;
  }

  /** The two boundaries, the smaller offset first. */
  ghost predicate IsSelection(elements: seq<VisibleElement>, anchor: SelectionAnchor, r: SelectionOffsets) {
    var s, e := PositionAfter(elements, anchor.startFallbackTrail), PositionAfter(elements, anchor.endFallbackTrail);
    && s.Some? && e.Some? && s.value <= |elements| && e.value <= |elements|
    && {r.start, r.end} == {Offset(elements, s.value), Offset(elements, e.value)}
    && r.start <= r.end
  }

  method ResolveSelectionAnchor(elements: seq<VisibleElement>, anchor: SelectionAnchor)
    returns (r: Option<SelectionOffsets>)
    ensures r.Some? <==> (PositionAfter(elements, anchor.startFallbackTrail).Some?
                          && PositionAfter(elements, anchor.endFallbackTrail).Some?)
    ensures r.Some? ==> IsSelection(elements, anchor, r.value)
  {
    var start := ResolveTrailOffset(elements, anchor.startFallbackTrail);
    var end := ResolveTrailOffset(elements, anchor.endFallbackTrail);
    if start.None? || end.None? { return None; }
    var a, b := start.value, end.value;
    return Some(if a <= b then SelectionOffsets(a, b) else SelectionOffsets(b, a));
  }

  // ----- stability

  /** Position `p` among the new elements separates the surviving old elements
      exactly as position `i` did. */
  ghost predicate SplitsAlike(before: seq<VisibleElement>, i: nat, after: seq<VisibleElement>, p: nat) {
    forall k, l | 0 <= k < |before| && 0 <= l < |after| && before[k].id == after[l].id :: k < i <==> l < p
  }

  ghost predicate Survives(after: seq<VisibleElement>, id: Id) {
    exists l :: 0 <= l < |after| && after[l].id == id
  }

  lemma {:induction false} TrailResolves(before: seq<VisibleElement>, i: nat, n: nat, after: seq<VisibleElement>)
    returns (j: int)
    requires i <= |before| && forall e | e in before :: e.id != ROOT_ID
    ensures PositionAfter(after, Trail(before, i, n)).Some?
    ensures var p := PositionAfter(after, Trail(before, i, n)).value;
      && p <= |after| && j < i
      && (forall k | j < k < i && i - n <= k && 0 <= k :: !Survives(after, before[k].id))
      && (if j >= 0 then i - n <= j && p > 0 && after[p - 1].id == before[j].id else p == 0)
    decreases n
  {
    if i == 0 || n == 0 {
      j := -1;
    } else {
      var trail := Trail(before, i, n);
      assert before[i - 1] in before;
      assert trail[1..] == Trail(before, i - 1, n - 1);
      AfterElementMeaning(after, before[i - 1].id);
      if AfterElement(after, before[i - 1].id).Some? {
        j := i - 1;
      } else {
        j := TrailResolves(before, i - 1, n - 1, after);
      }
    }
  }

  /** Caret stability: the resolved caret separates the surviving old elements as
      at capture, exactly unless more than the trail's length of elements preceded
      it, none of the nearest survives, and one further back does. */
  lemma {:induction false} CaretStability(K: OpMap, K': OpMap, before: seq<VisibleElement>, after: seq<VisibleElement>,
          i: nat)
    requires WellKeyed(K) && Sub(K, K') && IsDocument(K, before) && IsDocument(K', after) && i <= |before|
    ensures PositionAfter(after, Trail(before, i, MAX_FALLBACK_TRAIL)).Some?
    ensures SplitsAlike(before, i, after, PositionAfter(after, Trail(before, i, MAX_FALLBACK_TRAIL)).value) <==>
      || (exists k :: 0 <= k < i && i - MAX_FALLBACK_TRAIL <= k && Survives(after, before[k].id))
      || (forall k | 0 <= k < i - MAX_FALLBACK_TRAIL :: !Survives(after, before[k].id))
  {
    RootNotKnown(K);
    var j := TrailResolves(before, i, MAX_FALLBACK_TRAIL, after);
    CaretSplits(K, K', before, after, i, MAX_FALLBACK_TRAIL, j,
                PositionAfter(after, Trail(before, i, MAX_FALLBACK_TRAIL)).value);
  }

  /** The caret stands after the survivor `j`, the nearest among the last `n`, or at the
      start. */
  lemma CaretSplits(K: OpMap, K': OpMap, before: seq<VisibleElement>, after: seq<VisibleElement>, i: nat, n: nat,
          j: int, p: nat)
    requires Sub(K, K') && IsDocument(K, before) && IsDocument(K', after) && i <= |before| && p <= |after| && j < i
    requires forall k | j < k < i && i - n <= k && 0 <= k :: !Survives(after, before[k].id)
    requires if j >= 0 then i - n <= j && p > 0 && after[p - 1].id == before[j].id else p == 0
    ensures SplitsAlike(before, i, after, p) <==>
      || (exists k :: 0 <= k < i && i - n <= k && Survives(after, before[k].id))
      || (forall k | 0 <= k < i - n :: !Survives(after, before[k].id))
  {
    if j >= 0 {
      SplitAfterSurvivor(K, K', before, after, i, j, p);
      assert Survives(after, before[j].id);
    } else {
      SplitAtStart(before, after, i, n);
    }
  }

  lemma SplitAfterSurvivor(K: OpMap, K': OpMap, before: seq<VisibleElement>, after: seq<VisibleElement>, i: nat, j: nat,
          p: nat)
    requires Sub(K, K') && IsDocument(K, before) && IsDocument(K', after)
    requires j < i <= |before| && 0 < p <= |after| && after[p - 1].id == before[j].id
    requires forall k | j < k < i :: !Survives(after, before[k].id)
    ensures SplitsAlike(before, i, after, p)
  {
    SharedOrder(K, K', before, after);
    forall k, l | 0 <= k < |before| && 0 <= l < |after| && before[k].id == after[l].id ensures k < i <==> l < p {
      assert OrderKept(before, after, j, k, p - 1, l);
      assert Survives(after, before[k].id);
    }
  }

  ghost predicate OrderKept(before: seq<VisibleElement>, after: seq<VisibleElement>, i: nat, j: nat, k: nat, l: nat) {
    && i < |before| && j < |before| && k < |after| && l < |after|
    && before[i].id == after[k].id && before[j].id == after[l].id ==>
      (i < j <==> k < l)
  }

  lemma SharedOrder(K: OpMap, K': OpMap, before: seq<VisibleElement>, after: seq<VisibleElement>)
    requires Sub(K, K') && IsDocument(K, before) && IsDocument(K', after)
    ensures forall i, j, k, l :: OrderKept(before, after, i, j, k, l)
  {
    forall i: nat, j: nat, k: nat, l: nat ensures OrderKept(before, after, i, j, k, l) {
      if i < |before| && j < |before| && k < |after| && l < |after|
         && before[i].id == after[k].id && before[j].id == after[l].id
      {
        SharedElementsKeepOrder(K, K', K', before, after, i, j, k, l);
      }
    }
  }

  /** With nothing left among the last `n` elements, the caret at the start is right
      exactly when nothing before them is left either. */
  lemma SplitAtStart(before: seq<VisibleElement>, after: seq<VisibleElement>, i: nat, n: nat)
    requires i <= |before| && forall k | 0 <= k < i && i - n <= k :: !Survives(after, before[k].id)
    ensures SplitsAlike(before, i, after, 0) <==> forall k | 0 <= k < i - n :: !Survives(after, before[k].id)
  {
    if forall k | 0 <= k < i - n :: !Survives(after, before[k].id) {
      forall k, l | 0 <= k < |before| && 0 <= l < |after| && before[k].id == after[l].id ensures !(k < i) {
        assert Survives(after, before[k].id);
      }
    }
  }

  // ----- nothing changed

  lemma {:induction false} AfterElementIs(elements: seq<VisibleElement>, id: Id, i: nat)
    requires i < |elements| && forall k | 0 <= k < |elements| :: elements[k].id == id <==> k == i
    ensures AfterElement(elements, id) == Some(i + 1)
    decreases |elements|
  {
    var n := |elements| - 1;
    if i < n { AfterElementIs(elements[..n], id, i); }
  }

  lemma {:induction false} TrailBegins(elements: seq<VisibleElement>, i: nat, n: nat)
    requires 0 < i <= |elements| && n > 0 && elements[i - 1].id != ROOT_ID
    requires AfterElement(elements, elements[i - 1].id) == Some(i)
    ensures PositionAfter(elements, Trail(elements, i, n)) == Some(i)
  {
    assert Trail(elements, i, n)[0] == elements[i - 1].id;
  }

  /** In an unchanged document a captured boundary resolves to itself. */
  lemma {:induction false} UnchangedBoundary(K: OpMap, doc: seq<VisibleElement>, i: nat)
    requires WellKeyed(K) && IsDocument(K, doc) && i <= |doc|
    ensures PositionAfter(doc, Trail(doc, i, MAX_FALLBACK_TRAIL)) == Some(i)
  {
    if i > 0 {
      var id := doc[i - 1].id;
      DistinctElements(K, doc, i - 1);
      AfterElementIs(doc, id, i - 1);
      TrailBegins(doc, i, MAX_FALLBACK_TRAIL);
    }
  }

  lemma DistinctElements(K: OpMap, doc: seq<VisibleElement>, i: nat)
    requires WellKeyed(K) && IsDocument(K, doc) && i < |doc|
    ensures doc[i].id != ROOT_ID && forall k | 0 <= k < |doc| :: doc[k].id == doc[i].id <==> k == i
  {
    RootNotKnown(K);
    assert doc[i] in doc;
    BeforeIrreflexive(K, doc[i].id);
  }

  lemma {:induction false} OffsetsInOrder(elements: seq<VisibleElement>, i: nat, j: nat)
    requires i <= j <= |elements|
    ensures Offset(elements, i) <= Offset(elements, j)
    decreases j
  {
    if i < j { OffsetsInOrder(elements, i, j - 1); }
  }

  /** A selection that is captured and resolved with nothing changed in between comes back
      as the element boundaries at or past its ends. */
  lemma {:induction false} UnchangedSelection(K: OpMap, doc: seq<VisibleElement>, anchor: SelectionAnchor, i: nat,
          j: nat, r: SelectionOffsets)
    requires WellKeyed(K) && IsDocument(K, doc) && i <= j <= |doc|
    requires anchor.startFallbackTrail == Trail(doc, i, MAX_FALLBACK_TRAIL)
    requires anchor.endFallbackTrail == Trail(doc, j, MAX_FALLBACK_TRAIL)
    requires IsSelection(doc, anchor, r)
    ensures r.start == |Join(Values(doc[..i])).units| && r.end == |Join(Values(doc[..j])).units|
  {
    UnchangedBoundary(K, doc, i);
    UnchangedBoundary(K, doc, j);
    OffsetsInOrder(doc, i, j);
    SamePair(r.start, r.end, Offset(doc, i), Offset(doc, j));
    OffsetCutsText(doc, i);
    OffsetCutsText(doc, j);
  }

  lemma SamePair(a: int, b: int, c: int, d: int)
    requires {a, b} == {c, d} && a <= b && c <= d
    ensures a == c && b == d
  {
    assert a in {c, d} && b in {c, d} && c in {a, b} && d in {a, b};
  }
}
