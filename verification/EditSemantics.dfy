/** What you typed is what you see: diffing, allocating and applying an edit turns
    the visible values into exactly the new ones. */
module EditSemantics {
  import opened Wrappers
  import opened JsStrings
  import opened Operations
  import opened AnchorGraph
  import opened Documents
  import opened Replays
  import opened ReplicaShape
  import opened TextEdit
  import opened Texts

  /** The clock is at least every known Lamport value. */
  ghost predicate ClockAhead(K: OpMap, lamport: int) {
    lamport >= 0 && forall x | x in K :: K[x].lamport <= lamport
  }

  /** A well-formed replica that shows `doc`, with its clock ahead. */
  ghost predicate Ready(K: OpMap, doc: seq<VisibleElement>, lamport: int) {
    WellFormed(K) && IsDocument(K, doc) && ClockAhead(K, lamport)
  }

  /** The operations have distinct identities that nothing known mentions. */
  ghost predicate FreshIds(K: OpMap, ops: seq<Operation>) {
    && (forall o | o in ops :: Unreferenced(K, o.opId))
    && (forall i, j | 0 <= i < j < |ops| :: ops[i].opId != ops[j].opId)
  }

  /** Deletes of the targets, then inserts of the values, each anchored on the one
      before it, with Lamport values that count up from the clock. */
  ghost predicate Implements(ops: seq<Operation>, targets: seq<Id>, anchor: Id, values: seq<JsString>, lamport: int) {
    |ops| == |targets| + |values| && forall i | 0 <= i < |ops| :: ImplementsAt(ops, targets, anchor, values, lamport, i)
  }

  ghost predicate ImplementsAt(ops: seq<Operation>, targets: seq<Id>, anchor: Id, values: seq<JsString>, lamport: int,
          i: nat)
    requires |ops| == |targets| + |values| && i < |ops|
  {
    var n := |targets|;
    && ops[i].lamport == lamport + 1 + i
    && if i < n then ops[i].Delete? && ops[i].targetId == targets[i]
       else
         && ops[i].Insert? && ops[i].value == values[i - n]
         && ops[i].afterId == if i == n then anchor else ops[i - 1].opId
  }

  lemma DeleteComesFirst(ops: seq<Operation>, targets: seq<Id>, anchor: Id, values: seq<JsString>, lamport: int)
    requires Implements(ops, targets, anchor, values, lamport) && targets != []
    ensures ops != [] && ops[0].Delete? && ops[0].targetId == targets[0] && ops[0].lamport == lamport + 1
    ensures Implements(ops[1..], targets[1..], anchor, values, lamport + 1)
  {
    assert ImplementsAt(ops, targets, anchor, values, lamport, 0);
    var rest, later, next := ops[1..], targets[1..], lamport + 1;
    forall i | 0 <= i < |rest| ensures ImplementsAt(rest, later, anchor, values, next, i) {
      assert ImplementsAt(ops, targets, anchor, values, lamport, i + 1);
    }
  }

  lemma InsertComesFirst(ops: seq<Operation>, anchor: Id, values: seq<JsString>, lamport: int)
    requires Implements(ops, [], anchor, values, lamport) && values != []
    ensures ops != [] && ops[0].Insert? && ops[0].afterId == anchor && ops[0].value == values[0]
    ensures ops[0].lamport == lamport + 1
    ensures Implements(ops[1..], [], ops[0].opId, values[1..], lamport + 1)
  {
    assert ImplementsAt(ops, [], anchor, values, lamport, 0);
    var rest, later, next, first := ops[1..], values[1..], lamport + 1, ops[0].opId;
    forall i | 0 <= i < |rest| ensures ImplementsAt(rest, [], first, later, next, i) {
      assert ImplementsAt(ops, [], anchor, values, lamport, i + 1);
    }
  }

  /** The operations are all new and lead to a replica that shows `doc`. */
  ghost predicate Reaching(K: OpMap, ops: seq<Operation>, doc: seq<VisibleElement>, lamport: int) {
    AllNew(K, ops) && Ready(Merge(K, ops), doc, lamport)
  }

  lemma ReachingFirst(K: OpMap, ops: seq<Operation>, doc: seq<VisibleElement>, lamport: int)
    requires ops != [] && ops[0].opId !in K
    requires Reaching(K[ops[0].opId := ops[0]], ops[1..], doc, lamport)
    ensures Reaching(K, ops, doc, lamport)
  {}

  // ----- one operation

  lemma DeleteApplies(K: OpMap, a: seq<VisibleElement>, m: VisibleElement, b: seq<VisibleElement>, op: Operation,
          lamport: int)
    requires Ready(K, a + [m] + b, lamport)
    requires op.Delete? && IsValidOperation(op) && Unreferenced(K, op.opId)
    requires op.targetId == m.id && op.lamport == lamport + 1
    ensures op.opId !in K && op.targetId in K
    ensures Ready(K[op.opId := op], a + b, lamport + 1)
  {
    var doc := a + [m] + b;
    SliceAround(a, m, b);
    DeleteStep(K, op, doc, |a|);
    AcyclicAddDelete(K, op);
    DeleteNoDeleteAnchors(K, op);
  }

  lemma InsertApplies(K: OpMap, a: seq<VisibleElement>, b: seq<VisibleElement>, op: Operation, lamport: int)
    requires Ready(K, a + b, lamport)
    requires op.Insert? && IsValidOperation(op) && Unreferenced(K, op.opId)
    requires op.afterId == LastId(a) && op.lamport == lamport + 1
    ensures op.opId !in K && (op.afterId == ROOT_ID || op.afterId in K)
    ensures Ready(K[op.opId := op], a + [VisibleElement(op.opId, op.value)] + b, lamport + 1)
  {
    InsertAnchored(K, a, b, op);
    InsertShows(K, a, b, op);
    InsertKeepsWellFormed(K, op);
  }

  lemma InsertAnchored(K: OpMap, a: seq<VisibleElement>, b: seq<VisibleElement>, op: Operation)
    requires IsDocument(K, a + b) && op.Insert? && op.afterId == LastId(a)
    ensures Anchored(K, op.afterId) && (op.afterId == ROOT_ID || op.afterId in K)
  {
    SliceAppend(a, b);
  }

  lemma InsertShows(K: OpMap, a: seq<VisibleElement>, b: seq<VisibleElement>, op: Operation)
    requires WellKeyed(K) && IsDocument(K, a + b) && Newest(K, op)
    requires op.Insert? && IsValidOperation(op) && Unreferenced(K, op.opId) && op.afterId == LastId(a)
    ensures IsDocument(K[op.opId := op], a + [VisibleElement(op.opId, op.value)] + b)
  {
    SliceAppend(a, b);
    ValidIdHasColon(op);
    InsertShowsAt(K, a + b, |a|, op);
  }

  lemma InsertShowsAt(K: OpMap, doc: seq<VisibleElement>, i: nat, op: Operation)
    requires WellKeyed(K) && IsDocument(K, doc) && Newest(K, op) && i <= |doc|
    requires op.Insert? && op.opId != ROOT_ID && Unreferenced(K, op.opId) && op.afterId == LastId(doc[..i])
    ensures IsDocument(K[op.opId := op], doc[..i] + [VisibleElement(op.opId, op.value)] + doc[i..])
  {
    InsertStep(K, op, doc, i);
  }

  lemma SliceAround(a: seq<VisibleElement>, m: VisibleElement, b: seq<VisibleElement>)
    ensures var doc := a + [m] + b;
      doc[|a|] == m && m in doc && doc[..|a|] + doc[|a| + 1..] == a + b
  {
    var doc := a + [m] + b;
    assert doc[|a|] == m;
  }

  lemma SliceAppend(a: seq<VisibleElement>, b: seq<VisibleElement>)
    ensures (a + b)[..|a|] == a && (a + b)[|a|..] == b
    ensures a != [] ==> (a + b)[|a| - 1] == a[|a| - 1] && a[|a| - 1] in a + b
  {
    assert a != [] ==> (a + b)[|a| - 1] == a[|a| - 1];
  }

  lemma StillFresh(K: OpMap, ops: seq<Operation>)
    requires ops != [] && FreshIds(K, ops) && AllValid(ops)
    requires DependencyOf(ops[0]) == ROOT_ID || DependencyOf(ops[0]) in K
    ensures IsValidOperation(ops[0]) && Unreferenced(K, ops[0].opId)
    ensures FreshIds(K[ops[0].opId := ops[0]], ops[1..]) && AllValid(ops[1..])
  {
    assert ops[0] in ops;
    var rest := ops[1..];
    forall o | o in rest ensures Unreferenced(K[ops[0].opId := ops[0]], o.opId) && IsValidOperation(o) {
      assert o in ops;
      var i :| 0 <= i < |rest| && rest[i] == o;
      assert ops[0].opId != ops[i + 1].opId;
      ValidIdHasColon(o);
    }
  }

  // ----- the whole edit

  /** Operations that implement the replacement of the slice `gone` are all new and
      well formed, and put the new values in its place. */
  lemma {:induction false} EditApplies(K: OpMap, a: seq<VisibleElement>, gone: seq<VisibleElement>,
          b: seq<VisibleElement>, values: seq<JsString>, ops: seq<Operation>, lamport: int, clock: int)
    returns (mid: seq<VisibleElement>)
    requires Ready(K, a + gone + b, lamport)
    requires Implements(ops, ElementIds(gone), LastId(a), values, lamport)
    requires FreshIds(K, ops) && AllValid(ops)
    requires clock == lamport + |ops|
    ensures Reaching(K, ops, a + mid + b, clock)
    ensures Values(mid) == values
    decreases |ops|
  {
    if gone != [] {
      var rest, K' := gone[1..], K[ops[0].opId := ops[0]];
      DeleteFirst(K, a, gone, b, values, ops, lamport);
      mid := EditApplies(K', a, rest, b, values, ops[1..], lamport + 1, clock);
      ReachingFirst(K, ops, a + mid + b, clock);
    } else {
      RegroupNone(a, gone, b);
      mid := InsertsApply(K, a, b, values, ops, lamport, clock);
    }
  }

  lemma DeleteFirst(K: OpMap, a: seq<VisibleElement>, gone: seq<VisibleElement>, b: seq<VisibleElement>,
          values: seq<JsString>, ops: seq<Operation>, lamport: int)
    requires Ready(K, a + gone + b, lamport) && gone != []
    requires Implements(ops, ElementIds(gone), LastId(a), values, lamport)
    requires FreshIds(K, ops) && AllValid(ops)
    ensures ops != [] && ops[0].opId !in K
    ensures Ready(K[ops[0].opId := ops[0]], a + gone[1..] + b, lamport + 1)
    ensures Implements(ops[1..], ElementIds(gone[1..]), LastId(a), values, lamport + 1)
    ensures FreshIds(K[ops[0].opId := ops[0]], ops[1..]) && AllValid(ops[1..])
  {
    RegroupGone(a, gone, b);
    DeleteComesFirst(ops, ElementIds(gone), LastId(a), values, lamport);
    FirstIsFresh(K, ops);
    DeleteApplies(K, a, gone[0], gone[1..] + b, ops[0], lamport);
    StillFresh(K, ops);
  }

  lemma RegroupGone(a: seq<VisibleElement>, gone: seq<VisibleElement>, b: seq<VisibleElement>)
    requires gone != []
    ensures a + gone + b == a + [gone[0]] + (gone[1..] + b)
    ensures a + (gone[1..] + b) == a + gone[1..] + b
    ensures ElementIds(gone) == [gone[0].id] + ElementIds(gone[1..])
    ensures ElementIds(gone)[1..] == ElementIds(gone[1..])
  {
    assert gone == [gone[0]] + gone[1..];
  }

  lemma RegroupNone(a: seq<VisibleElement>, gone: seq<VisibleElement>, b: seq<VisibleElement>)
    requires gone == []
    ensures a + gone + b == a + b && ElementIds(gone) == []
  {
  }

  lemma FirstIsFresh(K: OpMap, ops: seq<Operation>)
    requires ops != [] && FreshIds(K, ops) && AllValid(ops)
    ensures IsValidOperation(ops[0]) && Unreferenced(K, ops[0].opId)
  {
    assert ops[0] in ops;
  }

  lemma {:induction false} InsertsApply(K: OpMap, a: seq<VisibleElement>, b: seq<VisibleElement>, values: seq<JsString>,
          ops: seq<Operation>, lamport: int, clock: int)
    returns (mid: seq<VisibleElement>)
    requires Ready(K, a + b, lamport) && Implements(ops, [], LastId(a), values, lamport)
    requires FreshIds(K, ops) && AllValid(ops)
    requires clock == lamport + |ops|
    ensures Reaching(K, ops, a + mid + b, clock)
    ensures Values(mid) == values
    decreases |ops|
  {
    if values == [] {
      mid := [];
      ReachingNothing(K, a, b, lamport);
    } else {
      var op, e := ops[0], VisibleElement(ops[0].opId, values[0]);
      InsertFirst(K, a, b, values, ops, lamport);
      var more := InsertsApply(K[op.opId := op], a + [e], b, values[1..], ops[1..], lamport + 1, clock);
      mid := [e] + more;
      Regroup(a, e, more, b, values);
      ReachingFirst(K, ops, a + mid + b, clock);
    }
  }

  lemma ReachingNothing(K: OpMap, a: seq<VisibleElement>, b: seq<VisibleElement>, lamport: int)
    requires Ready(K, a + b, lamport)
    ensures Reaching(K, [], a + [] + b, lamport)
  {
    assert a + [] + b == a + b;
  }

  lemma InsertFirst(K: OpMap, a: seq<VisibleElement>, b: seq<VisibleElement>, values: seq<JsString>,
          ops: seq<Operation>, lamport: int)
    requires Ready(K, a + b, lamport) && Implements(ops, [], LastId(a), values, lamport) && values != []
    requires FreshIds(K, ops) && AllValid(ops)
    ensures ops != [] && ops[0].opId !in K
    ensures var e := VisibleElement(ops[0].opId, values[0]);
      && Ready(K[ops[0].opId := ops[0]], a + [e] + b, lamport + 1)
      && Implements(ops[1..], [], LastId(a + [e]), values[1..], lamport + 1)
    ensures FreshIds(K[ops[0].opId := ops[0]], ops[1..]) && AllValid(ops[1..])
  {
    InsertComesFirst(ops, LastId(a), values, lamport);
    FirstIsFresh(K, ops);
    InsertApplies(K, a, b, ops[0], lamport);
    StillFresh(K, ops);
  }

  lemma Regroup(a: seq<VisibleElement>, e: VisibleElement, more: seq<VisibleElement>, b: seq<VisibleElement>,
          values: seq<JsString>)
    requires values != [] && e.value == values[0] && Values(more) == values[1..]
    ensures a + [e] + more + b == a + ([e] + more) + b
    ensures Values([e] + more) == values
  {
    assert values == [values[0]] + values[1..];
    assert Values([e] + more) == [e.value] + Values(more);
  }

  // ----- allocated operations

  /** No identity that the client still has to allocate is known or referred to. */
  ghost predicate FreshFrom(K: OpMap, clientId: JsString, counter: int) {
    counter >= 1 && forall c | c >= counter :: Unreferenced(K, MakeOperationId(clientId, c))
  }

  /** The allocations stay within the safe integers. */
  predicate Room(clientId: JsString, counter: int, lamport: int, n: nat) {
    && !IsBlank(clientId) && counter >= 1 && lamport >= 0
    && counter + n - 1 <= MAX_SAFE_INTEGER && lamport + n <= MAX_SAFE_INTEGER
  }

  /** Everything the edit names was there before the counter was reached. */
  ghost predicate NamesKnown(clientId: JsString, counter: int, edit: LocalTextEdit) {
    && (forall c | c >= counter :: edit.insertAfterId != MakeOperationId(clientId, c))
    && (forall t, c | t in edit.deleteTargetIds && c >= counter :: t != MakeOperationId(clientId, c))
  }

  ghost predicate NamesOlder(clientId: JsString, counter: int, edit: LocalTextEdit) {
    (forall t | t in edit.deleteTargetIds :: t != ROOT_ID) && NamesKnown(clientId, counter, edit)
  }

  lemma AllocatedImplement(clientId: JsString, counter: int, lamport: int, edit: LocalTextEdit)
    ensures Implements(EditOps(clientId, counter, lamport, edit),
                       edit.deleteTargetIds, edit.insertAfterId, edit.insertValues, lamport)
  {
    var ops := EditOps(clientId, counter, lamport, edit);
    forall i | 0 <= i < |ops|
      ensures ImplementsAt(ops, edit.deleteTargetIds, edit.insertAfterId, edit.insertValues, lamport, i)
    {
      assert ops[i] == OpAt(clientId, counter, lamport, edit, i);
      if i > 0 { assert ops[i - 1] == OpAt(clientId, counter, lamport, edit, i - 1); }
    }
  }

  lemma AllocatedValid(clientId: JsString, counter: int, lamport: int, edit: LocalTextEdit)
    requires Room(clientId, counter, lamport, EditSize(edit))
    requires NamesOlder(clientId, counter, edit)
    requires forall v | v in edit.insertValues :: !IsEmpty(v)
    ensures AllValid(EditOps(clientId, counter, lamport, edit))
  {
    var ops := EditOps(clientId, counter, lamport, edit);
    forall o | o in ops ensures IsValidOperation(o) {
      var i :| 0 <= i < |ops| && ops[i] == o;
      ValidAt(clientId, counter, lamport, edit, i);
    }
  }

  lemma ValidAt(clientId: JsString, counter: int, lamport: int, edit: LocalTextEdit, i: nat)
    requires Room(clientId, counter, lamport, EditSize(edit)) && i < EditSize(edit)
    requires NamesOlder(clientId, counter, edit)
    requires forall v | v in edit.insertValues :: !IsEmpty(v)
    ensures IsValidOperation(OpAt(clientId, counter, lamport, edit, i))
  {
    var n := |edit.deleteTargetIds|;
    if i < n {
      assert edit.deleteTargetIds[i] in edit.deleteTargetIds;
    } else {
      assert edit.insertValues[i - n] in edit.insertValues;
      if i > n { LaterIdsDiffer(clientId, counter + i - 1, counter + i); }
    }
  }

  lemma LaterIdsDiffer(clientId: JsString, counter: int, c: int)
    requires 0 <= counter < c
    ensures MakeOperationId(clientId, counter) != MakeOperationId(clientId, c)
  {
    if MakeOperationId(clientId, counter) == MakeOperationId(clientId, c) {
      MadeIdInjective(clientId, counter, clientId, c);
    }
  }

  lemma AllocatedIds(clientId: JsString, counter: int, lamport: int, edit: LocalTextEdit)
    ensures var ops := EditOps(clientId, counter, lamport, edit);
      forall i | 0 <= i < |ops| :: ops[i].opId == MakeOperationId(clientId, counter + i)
  {
    var ops := EditOps(clientId, counter, lamport, edit);
    forall i | 0 <= i < |ops| ensures ops[i].opId == MakeOperationId(clientId, counter + i) {
      assert ops[i] == OpAt(clientId, counter, lamport, edit, i);
    }
  }

  lemma AllocatedFresh(K: OpMap, clientId: JsString, counter: int, lamport: int, edit: LocalTextEdit)
    requires FreshFrom(K, clientId, counter)
    ensures FreshIds(K, EditOps(clientId, counter, lamport, edit))
  {
    AllocatedIds(clientId, counter, lamport, edit);
    CountedFresh(K, clientId, counter, EditOps(clientId, counter, lamport, edit));
  }

  lemma CountedFresh(K: OpMap, clientId: JsString, counter: int, ops: seq<Operation>)
    requires FreshFrom(K, clientId, counter)
    requires forall i | 0 <= i < |ops| :: ops[i].opId == MakeOperationId(clientId, counter + i)
    ensures FreshIds(K, ops)
  {
    forall o | o in ops ensures Unreferenced(K, o.opId) {
      var i :| 0 <= i < |ops| && ops[i] == o;
      assert Unreferenced(K, MakeOperationId(clientId, counter + i));
    }
    forall i, j | 0 <= i < j < |ops| ensures ops[i].opId != ops[j].opId {
      LaterIdsDiffer(clientId, counter + i, counter + j);
    }
  }

  /** Nothing the operations are or name will be allocated from `from` on. */
  ghost predicate NotFuture(ops: seq<Operation>, clientId: JsString, from: int) {
    forall o, c | o in ops && c >= from :: !Mentions(o, MakeOperationId(clientId, c))
  }

  lemma AllocatedNotFuture(clientId: JsString, counter: int, lamport: int, edit: LocalTextEdit)
    requires counter >= 1 && NamesKnown(clientId, counter, edit)
    ensures NotFuture(EditOps(clientId, counter, lamport, edit), clientId, counter + EditSize(edit))
  {
    var ops := EditOps(clientId, counter, lamport, edit);
    forall o, c | o in ops && c >= counter + EditSize(edit) ensures !Mentions(o, MakeOperationId(clientId, c)) {
      var i :| 0 <= i < |ops| && ops[i] == o;
      NotFutureAt(clientId, counter, lamport, edit, i, c);
    }
  }

  lemma NotFutureAt(clientId: JsString, counter: int, lamport: int, edit: LocalTextEdit, i: nat, c: int)
    requires counter >= 1 && NamesKnown(clientId, counter, edit) && i < EditSize(edit) && c >= counter + EditSize(edit)
    ensures !Mentions(OpAt(clientId, counter, lamport, edit, i), MakeOperationId(clientId, c))
  {
    var n := |edit.deleteTargetIds|;
    LaterIdsDiffer(clientId, counter + i, c);
    if i < n {
      assert edit.deleteTargetIds[i] in edit.deleteTargetIds;
    } else if i > n {
      LaterIdsDiffer(clientId, counter + i - 1, c);
    }
  }

  /** After applying operations that name nothing of the future the counter is
      still fresh. */
  lemma {:induction false} StaysFresh(K: OpMap, ops: seq<Operation>, clientId: JsString, counter: int, from: int)
    requires FreshFrom(K, clientId, counter) && from >= counter && NotFuture(ops, clientId, from) && OnePayload(K, ops)
    ensures FreshFrom(Merge(K, ops), clientId, from)
  {
    var M := Merge(K, ops);
    MergeMeaning(K, ops);
    forall c | c >= from ensures Unreferenced(M, MakeOperationId(clientId, c)) {
      assert Unreferenced(K, MakeOperationId(clientId, c));
      forall y | y in M
        ensures y != MakeOperationId(clientId, c) && DependencyOf(M[y]) != MakeOperationId(clientId, c)
      {
        if y !in K { var o :| o in ops && o.opId == y; }
      }
    }
  }

  /** A clock that covers the old and the new operations is still ahead. */
  lemma {:induction false} StaysAhead(K: OpMap, ops: seq<Operation>, lamport: int, clock: int)
    requires ClockAhead(K, lamport) && OnePayload(K, ops)
    requires clock >= lamport && forall o | o in ops :: o.lamport <= clock
    ensures ClockAhead(Merge(K, ops), clock)
  {
    var M := Merge(K, ops);
    MergeMeaning(K, ops);
    forall y | y in M ensures M[y].lamport <= clock {
      if y !in K { var o :| o in ops && o.opId == y; }
    }
  }

  /** Valid allocations leave the counters within the safe integers. */
  lemma ValidMeansRoom(clientId: JsString, counter: int, lamport: int, edit: LocalTextEdit)
    requires counter >= 1 && lamport >= 0 && EditSize(edit) > 0
    requires AllValid(EditOps(clientId, counter, lamport, edit))
    ensures Room(clientId, counter, lamport, EditSize(edit))
  {
    var ops := EditOps(clientId, counter, lamport, edit);
    assert ops[|ops| - 1] in ops && ops[|ops| - 1] == OpAt(clientId, counter, lamport, edit, |ops| - 1);
  }

  /** What you typed: on a replica whose clock and counter are ahead of what it
      knows, the operations of an edit are all accepted and the visible values
      become exactly the new ones. */
  lemma {:induction false} WhatYouTyped(K: OpMap, cur: seq<VisibleElement>, next: seq<JsString>, edit: LocalTextEdit,
          clientId: JsString, counter: int, lamport: int)
    requires Ready(K, cur, lamport) && FreshFrom(K, clientId, counter)
    requires EditBetween(cur, next) == Some(edit) && forall v | v in next :: !IsEmpty(v)
    requires Room(clientId, counter, lamport, EditSize(edit))
    ensures AllValid(EditOps(clientId, counter, lamport, edit))
    ensures Replay(K, EditOps(clientId, counter, lamport, edit)).ok
    ensures WellKeyed(Replay(K, EditOps(clientId, counter, lamport, edit)).known)
    ensures Values(DocumentOf(Replay(K, EditOps(clientId, counter, lamport, edit)).known)) == next
  {
    var p, e := EditReaches(cur, next);
    EditValuesNonEmpty(cur, next, edit, p, e);
    EditNamesOlder(K, cur, edit, p, e, clientId, counter);
    AllocatedImplement(clientId, counter, lamport, edit);
    AllocatedValid(clientId, counter, lamport, edit);
    AllocatedFresh(K, clientId, counter, lamport, edit);
    SplitDocument(cur, p, e);
    TypedOps(K, cur[..p], cur[p..e], cur[e..], edit.insertValues, EditOps(clientId, counter, lamport, edit), lamport);
  }

  /** In the text, what was typed replaces one stretch and the rest stays as it is. */
  lemma TypedText(K: OpMap, cur: seq<VisibleElement>, next: seq<JsString>, edit: LocalTextEdit, clientId: JsString,
          counter: int, lamport: int)
    returns (p: nat, s: nat)
    requires Ready(K, cur, lamport) && FreshFrom(K, clientId, counter)
    requires EditBetween(cur, next) == Some(edit) && forall v | v in next :: !IsEmpty(v)
    requires Room(clientId, counter, lamport, EditSize(edit))
    ensures KeepsMost(Values(cur), next, p, s) && ReplacesMiddle(cur, next, edit, p, s)
    ensures WellKeyed(Replay(K, EditOps(clientId, counter, lamport, edit)).known)
    ensures ReplacesStretch(Join(Values(cur)).units, Place(Values(cur), p), Place(Values(cur), |cur| - s),
                            Join(edit.insertValues).units,
                            Join(Values(DocumentOf(Replay(K, EditOps(clientId, counter, lamport, edit)).known))).units)
  {
    WhatYouTyped(K, cur, next, edit, clientId, counter, lamport);
    p, s := TheEdit(cur, next, edit);
    EditReplacesText(cur, next, edit, p, s);
  }

  lemma {:induction false} TypedOps(K: OpMap, a: seq<VisibleElement>, gone: seq<VisibleElement>, b: seq<VisibleElement>,
          values: seq<JsString>, ops: seq<Operation>, lamport: int)
    requires Ready(K, a + gone + b, lamport)
    requires Implements(ops, ElementIds(gone), LastId(a), values, lamport)
    requires FreshIds(K, ops) && AllValid(ops)
    ensures Replay(K, ops).ok && WellKeyed(Replay(K, ops).known)
    ensures Values(DocumentOf(Replay(K, ops).known)) == Values(a) + values + Values(b)
  {
    var mid := EditApplies(K, a, gone, b, values, ops, lamport, lamport + |ops|);
    ReachedShows(K, ops, a + mid + b, lamport + |ops|);
    JoinedValues(a, mid, b);
  }

  lemma JoinedValues(a: seq<VisibleElement>, mid: seq<VisibleElement>, b: seq<VisibleElement>)
    ensures Values(a + mid + b) == Values(a) + Values(mid) + Values(b)
  {}

  lemma {:induction false} ReachedShows(K: OpMap, ops: seq<Operation>, doc: seq<VisibleElement>, lamport: int)
    requires Reaching(K, ops, doc, lamport)
    ensures Replay(K, ops).ok && WellKeyed(Replay(K, ops).known)
    ensures DocumentOf(Replay(K, ops).known) == doc
  {
    AllNewAccepted(K, ops);
    DocumentUnique(Merge(K, ops), doc, DocumentOf(Merge(K, ops)));
  }

  lemma SplitDocument(cur: seq<VisibleElement>, p: nat, e: nat)
    requires p <= e <= |cur|
    ensures cur == cur[..p] + cur[p..e] + cur[e..]
    ensures Values(cur[..p]) == Values(cur)[..p] && Values(cur[e..]) == Values(cur)[e..]
  {}

  lemma EditValuesNonEmpty(cur: seq<VisibleElement>, next: seq<JsString>, edit: LocalTextEdit, p: nat, e: nat)
    requires Produces(cur, next, Some(edit), p, e) && forall v | v in next :: !IsEmpty(v)
    ensures forall v | v in edit.insertValues :: !IsEmpty(v)
  {
    forall v | v in edit.insertValues ensures !IsEmpty(v) {
      assert v in Values(cur)[..p] + edit.insertValues + Values(cur)[e..];
    }
  }

  lemma EditNamesOlder(K: OpMap, cur: seq<VisibleElement>, edit: LocalTextEdit, p: nat, e: nat, clientId: JsString,
          counter: int)
    requires WellKeyed(K) && IsDocument(K, cur) && FreshFrom(K, clientId, counter) && Replaces(cur, edit, p, e)
    ensures NamesOlder(clientId, counter, edit)
  {
    RootNotKnown(K);
    forall t | t in edit.deleteTargetIds ensures t in K {
      var i :| 0 <= i < |edit.deleteTargetIds| && edit.deleteTargetIds[i] == t;
      assert cur[p + i] in cur;
    }
    assert p > 0 ==> cur[p - 1] in cur && LastId(cur[..p]) == cur[p - 1].id;
    KnownIsNotFuture(K, clientId, counter, edit);
  }

  lemma KnownIsNotFuture(K: OpMap, clientId: JsString, counter: int, edit: LocalTextEdit)
    requires WellKeyed(K) && FreshFrom(K, clientId, counter)
    requires edit.insertAfterId == ROOT_ID || edit.insertAfterId in K
    requires forall t | t in edit.deleteTargetIds :: t in K
    ensures NamesKnown(clientId, counter, edit)
  {
    forall c | c >= counter
      ensures edit.insertAfterId != MakeOperationId(clientId, c)
      ensures forall t | t in edit.deleteTargetIds :: t != MakeOperationId(clientId, c)
    {
      assert Unreferenced(K, MakeOperationId(clientId, c));
      IdIsNotRoot(clientId, c);
    }
  }

  lemma IdIsNotRoot(clientId: JsString, c: int)
    ensures MakeOperationId(clientId, c) != ROOT_ID
  {
    assert MakeOperationId(clientId, c).units[|clientId.units|] == COLON;
    assert COLON !in ROOT_ID.units;
  }
}
