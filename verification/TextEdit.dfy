/** Turning a new text into one contiguous edit: the diff, the operations the
    store allocates for it, and the document that results. */
module TextEdit {
  import opened Wrappers
  import opened JsStrings
  import opened Operations
  import opened Documents
  import opened Texts

  datatype LocalTextEdit =
    LocalTextEdit(deleteTargetIds: seq<Id>, insertAfterId: Id, insertValues: seq<JsString>)

  function ElementIds(doc: seq<VisibleElement>): (ids: seq<Id>)
    ensures |ids| == |doc| && forall i | 0 <= i < |doc| :: ids[i] == doc[i].id
  {
    seq(|doc|, i requires 0 <= i < |doc| => doc[i].id)
  }

  // ----- the diff

  /** The number of leading values that agree, given that `k` do. */
  function PrefixFrom(a: seq<JsString>, b: seq<JsString>, k: nat): (n: nat)
    requires k <= |a| && k <= |b|
    ensures k <= n <= |a| && n <= |b|
    ensures forall i | k <= i < n :: a[i] == b[i]
    ensures n < |a| && n < |b| ==> a[n] != b[n]
    decreases |a| - k
  {
    if k < |a| && k < |b| && a[k] == b[k] then PrefixFrom(a, b, k + 1) else k
  }

  function FromEnd(a: seq<JsString>, i: nat): JsString
    requires i < |a|
  {
    a[|a| - 1 - i]
  }

  /** The number of trailing values beyond the prefix `p` that agree, given that
      `k` do. */
  function SuffixFrom(a: seq<JsString>, b: seq<JsString>, p: nat, k: nat): (n: nat)
    requires k <= |a| - p && k <= |b| - p
    ensures k <= n <= |a| - p && n <= |b| - p
    ensures forall i | k <= i < n :: FromEnd(a, i) == FromEnd(b, i)
    ensures n < |a| - p && n < |b| - p ==> FromEnd(a, n) != FromEnd(b, n)
    decreases |a| - k
  {
    if k < |a| - p && k < |b| - p && FromEnd(a, k) == FromEnd(b, k) then SuffixFrom(a, b, p, k + 1) else k
  }

  /** The edit that keeps `p` leading and `s` trailing values. */
  function EditWith(cur: seq<VisibleElement>, next: seq<JsString>, p: nat, s: nat): Option<LocalTextEdit>
    requires p + s <= |cur| && p + s <= |next|
  {
    var deleteTargetIds := ElementIds(cur[p..|cur| - s]);
    var insertValues := next[p..|next| - s];
    if |deleteTargetIds| == 0 && |insertValues| == 0 then None
    else Some(LocalTextEdit(deleteTargetIds, LastId(cur[..p]), insertValues))
  }

  /** The edit between the longest common prefix and the longest common suffix of
      what remains. */
  function EditBetween(cur: seq<VisibleElement>, next: seq<JsString>): Option<LocalTextEdit> {
    var p := PrefixFrom(Values(cur), next, 0);
    EditWith(cur, next, p, SuffixFrom(Values(cur), next, p, 0))
  }

  /** The last element of a list, or ROOT. */
  function LastId(doc: seq<VisibleElement>): Id {
    if doc == [] then ROOT_ID else doc[|doc| - 1].id
  }

  // ----- which edit it is

  ghost predicate AgreeFirst(a: seq<JsString>, b: seq<JsString>, n: nat) {
    n <= |a| && n <= |b| && forall i | 0 <= i < n :: a[i] == b[i]
  }

  ghost predicate AgreeLast(a: seq<JsString>, b: seq<JsString>, n: nat) {
    n <= |a| && n <= |b| && a[|a| - n..] == b[|b| - n..]
  }

  /** As many leading values as possible are kept, and of the rest as many trailing ones. */
  ghost predicate KeepsMost(a: seq<JsString>, b: seq<JsString>, p: nat, s: nat) {
    && AgreeFirst(a, b, p) && (forall q: nat | AgreeFirst(a, b, q) :: q <= p)
    && AgreeLast(a, b, s) && p + s <= |a| && p + s <= |b|
    && (forall t: nat | AgreeLast(a, b, t) && p + t <= |a| && p + t <= |b| :: t <= s)
  }

  /** Exactly the elements between the kept ones are deleted, and exactly the new values
      between them are inserted, after the last kept leading element. */
  ghost predicate ReplacesMiddle(cur: seq<VisibleElement>, next: seq<JsString>, edit: LocalTextEdit, p: nat, s: nat) {
    && p + s <= |cur| && p + s <= |next|
    && edit.insertAfterId == (if p == 0 then ROOT_ID else cur[p - 1].id)
    && |edit.deleteTargetIds| == |cur| - s - p
    && (forall i | 0 <= i < |cur| - s - p :: edit.deleteTargetIds[i] == cur[p + i].id)
    && edit.insertValues == next[p..|next| - s]
  }

  ghost predicate IsEdit(cur: seq<VisibleElement>, next: seq<JsString>, edit: Option<LocalTextEdit>) {
    if Values(cur) == next then edit.None?
    else edit.Some? && exists p, s :: KeepsMost(Values(cur), next, p, s) && ReplacesMiddle(cur, next, edit.value, p, s)
  }

  lemma LastOnesAgree(a: seq<JsString>, b: seq<JsString>, n: nat, i: nat)
    requires AgreeLast(a, b, n) && i < n
    ensures FromEnd(a, i) == FromEnd(b, i)
  {
    assert a[|a| - n..][n - 1 - i] == FromEnd(a, i) && b[|b| - n..][n - 1 - i] == FromEnd(b, i);
  }

  lemma PrefixIsLongest(a: seq<JsString>, b: seq<JsString>) returns (p: nat, s: nat)
    ensures p == PrefixFrom(a, b, 0) && s == SuffixFrom(a, b, p, 0)
    ensures KeepsMost(a, b, p, s)
  {
    p := PrefixFrom(a, b, 0);
    s := SuffixFrom(a, b, p, 0);
    forall t: nat | AgreeLast(a, b, t) && p + t <= |a| && p + t <= |b| ensures t <= s {
      if t > s { LastOnesAgree(a, b, t, s); }
    }
    SameSuffix(a, b, s);
  }

  lemma MiddleUnique(cur: seq<VisibleElement>, next: seq<JsString>, edit: LocalTextEdit, other: LocalTextEdit, p: nat,
          s: nat)
    requires ReplacesMiddle(cur, next, edit, p, s) && ReplacesMiddle(cur, next, other, p, s)
    ensures edit == other
  {
    assert edit.deleteTargetIds == other.deleteTargetIds;
  }

  lemma KeepsMostUnique(a: seq<JsString>, b: seq<JsString>, p: nat, s: nat, p': nat, s': nat)
    requires KeepsMost(a, b, p, s) && KeepsMost(a, b, p', s')
    ensures p == p' && s == s'
  {}

  lemma NoEditMeansSame(cur: seq<VisibleElement>, next: seq<JsString>)
    ensures Values(cur) == next <==> EditBetween(cur, next).None?
  {
    var p, e := EditReaches(cur, next);
    if Values(cur) == next { assert AgreeFirst(Values(cur), next, |next|); }
    var q, s := PrefixIsLongest(Values(cur), next);
  }

  lemma EditReplacesMiddle(cur: seq<VisibleElement>, next: seq<JsString>, p: nat, s: nat)
    requires p + s <= |cur| && p + s <= |next| && EditWith(cur, next, p, s).Some?
    ensures ReplacesMiddle(cur, next, EditWith(cur, next, p, s).value, p, s)
  {
    assert cur[..p] == [] || cur[..p][p - 1] == cur[p - 1];
  }

  lemma EditBetweenIsEdit(cur: seq<VisibleElement>, next: seq<JsString>)
    ensures IsEdit(cur, next, EditBetween(cur, next))
  {
    NoEditMeansSame(cur, next);
    var p, s := PrefixIsLongest(Values(cur), next);
    if Values(cur) != next { EditReplacesMiddle(cur, next, p, s); }
  }

  /** The diff is the one edit that keeps the longest common prefix and then the longest
      common suffix, and there is none exactly if the values agree. */
  lemma EditExactly(cur: seq<VisibleElement>, next: seq<JsString>, edit: Option<LocalTextEdit>)
    ensures edit == EditBetween(cur, next) <==> IsEdit(cur, next, edit)
  {
    EditBetweenIsEdit(cur, next);
    if IsEdit(cur, next, edit) && Values(cur) != next {
      var p, s :| KeepsMost(Values(cur), next, p, s) && ReplacesMiddle(cur, next, edit.value, p, s);
      var p', s' :| KeepsMost(Values(cur), next, p', s')
                    && ReplacesMiddle(cur, next, EditBetween(cur, next).value, p', s');
      KeepsMostUnique(Values(cur), next, p, s, p', s');
      MiddleUnique(cur, next, edit.value, EditBetween(cur, next).value, p, s);
    }
  }

  /** The two loops compute the maximal prefix and suffix. */
  method ComputeLocalTextEdit(cur: seq<VisibleElement>, next: seq<JsString>) returns (edit: Option<LocalTextEdit>)
    ensures edit == EditBetween(cur, next) && IsEdit(cur, next, edit)
  {
    var values := Values(cur);
    var prefixLength := 0;
    while prefixLength < |values| && prefixLength < |next| && values[prefixLength] == next[prefixLength]
      invariant prefixLength <= |values| && prefixLength <= |next|
      invariant PrefixFrom(values, next, prefixLength) == PrefixFrom(values, next, 0)
    {
      prefixLength := prefixLength + 1;
    }
    var suffixLength := 0;
    while suffixLength < |values| - prefixLength && suffixLength < |next| - prefixLength
          && FromEnd(values, suffixLength) == FromEnd(next, suffixLength)
      invariant suffixLength <= |values| - prefixLength && suffixLength <= |next| - prefixLength
      invariant SuffixFrom(values, next, prefixLength, suffixLength) == SuffixFrom(values, next, prefixLength, 0)
    {
      suffixLength := suffixLength + 1;
    }
    EditBetweenIsEdit(cur, next);
    return EditWith(cur, next, prefixLength, suffixLength);
  }

  /** `edit` replaces the elements in `p..e` by new values. */
  ghost predicate Replaces(cur: seq<VisibleElement>, edit: LocalTextEdit, p: nat, e: nat) {
    && p <= e <= |cur|
    && edit.deleteTargetIds == ElementIds(cur[p..e])
    && edit.insertAfterId == LastId(cur[..p])
  }

  /** Applying the edit to the values gives the new values. */
  ghost predicate Produces(cur: seq<VisibleElement>, next: seq<JsString>, edit: Option<LocalTextEdit>, p: nat, e: nat) {
    match edit
    case None => Values(cur) == next
    case Some(d) => Replaces(cur, d, p, e) && Values(cur)[..p] + d.insertValues + Values(cur)[e..] == next
  }

  /** No edit means the values already agree; an edit replaces one slice so that
      the values become exactly the new ones. */
  lemma EditReaches(cur: seq<VisibleElement>, next: seq<JsString>) returns (p: nat, e: nat)
    ensures Produces(cur, next, EditBetween(cur, next), p, e)
  {
    p := PrefixFrom(Values(cur), next, 0);
    var s := SuffixFrom(Values(cur), next, p, 0);
    e := |cur| - s;
    EditWithProduces(cur, next, p, s);
  }

  lemma EditWithProduces(cur: seq<VisibleElement>, next: seq<JsString>, p: nat, s: nat)
    requires p + s <= |cur| && p + s <= |next|
    requires forall i | 0 <= i < p :: Values(cur)[i] == next[i]
    requires forall i | 0 <= i < s :: FromEnd(Values(cur), i) == FromEnd(next, i)
    ensures Produces(cur, next, EditWith(cur, next, p, s), p, |cur| - s)
  {
    EditWithReaches(Values(cur), next, p, s);
  }

  lemma EditWithReaches(values: seq<JsString>, next: seq<JsString>, p: nat, s: nat)
    requires p + s <= |values| && p + s <= |next|
    requires forall i | 0 <= i < p :: values[i] == next[i]
    requires forall i | 0 <= i < s :: FromEnd(values, i) == FromEnd(next, i)
    ensures values[..p] + next[p..|next| - s] + values[|values| - s..] == next
    ensures p + s == |values| == |next| ==> values == next
  {
    SameSuffix(values, next, s);
    assert values[..p] == next[..p];
    SplitThree(next, p, |next| - s);
    SplitThree(values, p, |values| - s);
  }

  lemma SameSuffix(a: seq<JsString>, b: seq<JsString>, s: nat)
    requires s <= |a| && s <= |b|
    requires forall i | 0 <= i < s :: FromEnd(a, i) == FromEnd(b, i)
    ensures a[|a| - s..] == b[|b| - s..]
  {
    var at, bt := a[|a| - s..], b[|b| - s..];
    forall i | 0 <= i < s ensures at[i] == bt[i] {
      assert FromEnd(a, s - 1 - i) == FromEnd(b, s - 1 - i);
    }
  }

  lemma SplitThree(a: seq<JsString>, i: nat, j: nat)
    requires i <= j <= |a|
    ensures a == a[..i] + a[i..j] + a[j..]
  {}

  /** The kept leading and trailing elements of an edit. */
  lemma TheEdit(cur: seq<VisibleElement>, next: seq<JsString>, edit: LocalTextEdit) returns (p: nat, s: nat)
    requires EditBetween(cur, next) == Some(edit)
    ensures KeepsMost(Values(cur), next, p, s) && ReplacesMiddle(cur, next, edit, p, s)
  {
    EditBetweenIsEdit(cur, next);
    NoEditMeansSame(cur, next);
    p, s :| KeepsMost(Values(cur), next, p, s) && ReplacesMiddle(cur, next, edit, p, s);
  }

  /** In the text the edit replaces one stretch, from where the kept leading elements end
      to where the kept trailing ones begin, by the inserted values. */
  lemma {:induction false} EditReplacesText(cur: seq<VisibleElement>, next: seq<JsString>, edit: LocalTextEdit, p: nat,
          s: nat)
    requires AgreeFirst(Values(cur), next, p) && AgreeLast(Values(cur), next, s)
    requires ReplacesMiddle(cur, next, edit, p, s)
    ensures ReplacesStretch(Join(Values(cur)).units, Place(Values(cur), p), Place(Values(cur), |cur| - s),
                            Join(edit.insertValues).units, Join(next).units)
  {
    var values := Values(cur);
    MiddleReplaced(values, next, p, s);
    assert |values| == |cur| && next[p..|next| - s] == edit.insertValues;
  }

  lemma {:induction false} MiddleReplaced(a: seq<JsString>, b: seq<JsString>, p: nat, s: nat)
    requires AgreeFirst(a, b, p) && AgreeLast(a, b, s) && p + s <= |a| && p + s <= |b|
    ensures ReplacesStretch(Join(a).units, Place(a, p), Place(a, |a| - s), Join(b[p..|b| - s]).units, Join(b).units)
  {
    var x, gone, put, z := a[..p], a[p..|a| - s], b[p..|b| - s], a[|a| - s..];
    assert a == x + gone + z && a[..|a| - s] == x + gone;
    assert b == x + put + z;
    PlaceIsLength(a, p);
    PlaceIsLength(a, |a| - s);
    ReplacedStretch(x, gone, put, z);
  }

  /** No other single replacement of a slice deletes or inserts fewer elements. */
  lemma EditIsMinimal(cur: seq<VisibleElement>, next: seq<JsString>, edit: LocalTextEdit, p: nat, s: nat)
    requires EditBetween(cur, next) == Some(edit) && p + s <= |cur| && p + s <= |next|
    requires forall i | 0 <= i < p :: Values(cur)[i] == next[i]
    requires forall i | 0 <= i < s :: FromEnd(Values(cur), i) == FromEnd(next, i)
    ensures |edit.deleteTargetIds| <= |cur| - p - s && |edit.insertValues| <= |next| - p - s
  {
    var values := Values(cur);
    var prefix := PrefixFrom(values, next, 0);
    var suffix := SuffixFrom(values, next, prefix, 0);
    assert suffix < s ==> FromEnd(values, suffix) == FromEnd(next, suffix);
  }

  // ----- the operations allocated for an edit

  function EditSize(edit: LocalTextEdit): nat {
    |edit.deleteTargetIds| + |edit.insertValues|
  }

  /** The `i`-th operation of an edit: a delete for every target, then an insert for
      every value, each anchored on the one before it; counters and Lamport values
      count up. */
  function OpAt(clientId: JsString, counter: int, lamport: int, edit: LocalTextEdit, i: nat): Operation
    requires i < EditSize(edit)
  {
    var n := |edit.deleteTargetIds|;
    var id := MakeOperationId(clientId, counter + i);
    if i < n then Delete(id, clientId, counter + i, lamport + 1 + i, edit.deleteTargetIds[i])
    else
      var anchor := if i == n then edit.insertAfterId else MakeOperationId(clientId, counter + i - 1);
      Insert(id, clientId, counter + i, lamport + 1 + i, anchor, edit.insertValues[i - n])
  }

  ghost predicate AreEditOps(ops: seq<Operation>, clientId: JsString, counter: int, lamport: int, edit: LocalTextEdit) {
    |ops| == EditSize(edit) && forall i | 0 <= i < |ops| :: ops[i] == OpAt(clientId, counter, lamport, edit, i)
  }

  lemma EditOpsExist(clientId: JsString, counter: int, lamport: int, edit: LocalTextEdit)
    ensures exists ops :: AreEditOps(ops, clientId, counter, lamport, edit)
  {
    var ops := seq(EditSize(edit), i requires 0 <= i < EditSize(edit) => OpAt(clientId, counter, lamport, edit, i));
    assert AreEditOps(ops, clientId, counter, lamport, edit);
  }

  /** The operations allocated for an edit. */
  ghost function EditOps(clientId: JsString, counter: int, lamport: int, edit: LocalTextEdit): (ops: seq<Operation>)
    ensures AreEditOps(ops, clientId, counter, lamport, edit)
  {
    EditOpsExist(clientId, counter, lamport, edit);
    var ops :| AreEditOps(ops, clientId, counter, lamport, edit);
    ops
  }
}
