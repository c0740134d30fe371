/** Replaying operations one at a time: which sequences a replica accepts, and
    why neither the order nor the multiplicity of delivery matters. */
module Replays {
  import opened Operations
  import opened AnchorGraph
  import opened Sorting

  datatype CrdtError =
    InvalidOperation | IdentityConflict | DependencyCycle | InvalidSnapshot | UnresolvedSnapshot

  /** The operation is applied, buffered or recognised as a duplicate. */
  ghost predicate Accepts(K: OpMap, op: Operation) {
    IsValidOperation(op) &&
    if op.opId in K then K[op.opId] == op else WellFormed(K[op.opId := op])
  }

  /** The error of a rejected operation. */
  ghost function ErrorOf(K: OpMap, op: Operation): CrdtError {
    if !IsValidOperation(op) then InvalidOperation
    else if op.opId in K then IdentityConflict
    else if op.Insert? && !(op.afterId in K && K[op.afterId].Delete?) then DependencyCycle
    else InvalidOperation
  }

  /** The three ways in which the walk along the anchor chain of a new insert
      can end decide whether the insert is acceptable. */
  lemma {:induction false} WalkFindsSelf(K: OpMap, op: Operation, n: nat)
    requires WellFormed(K) && op.Insert? && IsValidOperation(op) && op.opId !in K
    requires Chain(K, op.afterId, op.opId, n)
    ensures !WellFormed(K[op.opId := op]) && ErrorOf(K, op) == DependencyCycle
  {
    AcyclicExtend(K, op);
  }

  lemma {:induction false} WalkEndsOutside(K: OpMap, op: Operation, end: Id, n: nat)
    requires WellFormed(K) && op.Insert? && IsValidOperation(op) && op.opId !in K
    requires Chain(K, op.afterId, end, n) && end !in K && end != op.opId
    ensures WellFormed(K[op.opId := op])
  {
    AcyclicExtend(K, op);
    InsertNoDeleteAnchors(K, op);
    ChainEnds(K, op.afterId, end, op.opId, n);
  }

  lemma {:induction false} WalkMeetsDelete(K: OpMap, op: Operation, end: Id, n: nat)
    requires WellFormed(K) && op.Insert? && IsValidOperation(op) && op.opId !in K
    requires Chain(K, op.afterId, end, n) && end in K && K[end].Delete?
    ensures !WellFormed(K[op.opId := op]) && ErrorOf(K, op) == InvalidOperation
  {
    if n > 0 { ChainMeetsNoDelete(K, op.afterId, end, n); }
    InsertNoDeleteAnchors(K, op);
  }

  datatype Outcome = Outcome(known: OpMap, ok: bool)

  /** Applying in sequence, stopping at the first rejection. */
  ghost function Replay(K: OpMap, ops: seq<Operation>): Outcome
    decreases |ops|
  {
    if ops == [] then Outcome(K, true)
    else if !Accepts(K, ops[0]) then Outcome(K, false)
    else Replay(K[ops[0].opId := ops[0]], ops[1..])
  }

  /** One payload per identity, among the operations and against what is known. */
  ghost predicate OnePayload(K: OpMap, ops: seq<Operation>) {
    && (forall op | op in ops && op.opId in K :: K[op.opId] == op)
    && (forall a, b | a in ops && b in ops && a.opId == b.opId :: a == b)
  }

  function Merge(K: OpMap, ops: seq<Operation>): OpMap
    decreases |ops|
  {
    if ops == [] then K else Merge(K[ops[0].opId := ops[0]], ops[1..])
  }

  lemma {:induction false} MergeMeaning(K: OpMap, ops: seq<Operation>)
    requires OnePayload(K, ops)
    ensures Sub(K, Merge(K, ops))
    ensures forall op | op in ops :: op.opId in Merge(K, ops) && Merge(K, ops)[op.opId] == op
    ensures forall x | x in Merge(K, ops) :: x in K || exists op :: op in ops && op.opId == x
    decreases |ops|
  {
    if ops != [] {
      OnePayloadTail(K, ops);
      MergeMeaning(K[ops[0].opId := ops[0]], ops[1..]);
    }
  }

  lemma OnePayloadTail(K: OpMap, ops: seq<Operation>)
    requires ops != []
    ensures OnePayload(K, ops) <==>
      (ops[0].opId in K ==> K[ops[0].opId] == ops[0]) && OnePayload(K[ops[0].opId := ops[0]], ops[1..])
  {
    assert ops[0] in ops;
    assert forall op :: op in ops <==> op == ops[0] || op in ops[1..];
  }

  /** What is well formed in the end was acceptable at the start. */
  lemma {:induction false} FirstAccepted(K: OpMap, ops: seq<Operation>)
    requires ops != [] && OnePayload(K, ops) && WellFormed(Merge(K, ops))
    ensures Accepts(K, ops[0])
  {
    var op := ops[0];
    var K' := K[op.opId := op];
    OnePayloadTail(K, ops);
    MergeMeaning(K', ops[1..]);
    WellFormedMonotone(K', Merge(K, ops));
    assert K'[op.opId] == op;
  }

  lemma AcceptedExtends(K: OpMap, op: Operation)
    requires WellFormed(K) && Accepts(K, op)
    ensures WellFormed(K[op.opId := op]) && Sub(K, K[op.opId := op])
    ensures op.opId in K ==> K[op.opId] == op
  {
    assert op.opId in K ==> K[op.opId := op] == K;
  }

  /** Acceptance is order-independent: a replay succeeds exactly when the
      operations carry one payload per identity and, together with what is
      known, are valid, acyclic and never anchored on a delete. */
  lemma {:induction false} ReplayAccepts(K: OpMap, ops: seq<Operation>)
    requires WellFormed(K)
    ensures Replay(K, ops).ok <==> OnePayload(K, ops) && WellFormed(Merge(K, ops))
    ensures Replay(K, ops).ok ==> Replay(K, ops).known == Merge(K, ops)
    ensures WellFormed(Replay(K, ops).known)
    ensures Sub(K, Replay(K, ops).known)
    decreases |ops|
  {
    if ops != [] {
      OnePayloadTail(K, ops);
      if Accepts(K, ops[0]) {
        AcceptedExtends(K, ops[0]);
        ReplayAccepts(K[ops[0].opId := ops[0]], ops[1..]);
      } else if OnePayload(K, ops) && WellFormed(Merge(K, ops)) {
        FirstAccepted(K, ops);
      }
    }
  }

  /** No two of the operations share an identity, and none is known. */
  ghost predicate AllNew(K: OpMap, ops: seq<Operation>)
    decreases |ops|
  {
    ops != [] ==> ops[0].opId !in K && AllNew(K[ops[0].opId := ops[0]], ops[1..])
  }

  /** New operations that stay well formed together are all accepted. */
  lemma {:induction false} AllNewAccepted(K: OpMap, ops: seq<Operation>)
    requires AllNew(K, ops) && WellFormed(Merge(K, ops))
    ensures Replay(K, ops) == Outcome(Merge(K, ops), true)
    ensures Sub(K, Merge(K, ops))
    decreases |ops|
  {
    if ops != [] {
      var K' := K[ops[0].opId := ops[0]];
      AllNewAccepted(K', ops[1..]);
      WellFormedMonotone(K', Merge(K, ops));
      assert K'[ops[0].opId] == ops[0];
    }
  }

  lemma {:induction false} MergeAppend(K: OpMap, a: seq<Operation>, b: seq<Operation>)
    ensures Merge(K, a + b) == Merge(Merge(K, a), b)
    ensures AllNew(K, a) && AllNew(Merge(K, a), b) ==> AllNew(K, a + b)
    decreases |a|
  {
    if a == [] {
      assert a + b == b;
    } else {
      assert (a + b)[1..] == a[1..] + b;
      MergeAppend(K[a[0].opId := a[0]], a[1..], b);
    }
  }

  lemma {:induction false} MergeSameElements(K: OpMap, ops: seq<Operation>, ops': seq<Operation>)
    requires SameElements(ops, ops') && OnePayload(K, ops)
    ensures OnePayload(K, ops') && Merge(K, ops) == Merge(K, ops')
  {
    MergeMeaning(K, ops);
    MergeMeaning(K, ops');
    var m, m' := Merge(K, ops), Merge(K, ops');
    forall x ensures x in m <==> x in m'
             ensures x in m && x in m' ==> m[x] == m'[x] {
    }
  }

  /** Two deliveries of the same operations, in any order and with any
      duplication, are both rejected or end with the same known operations. */
  lemma {:induction false} DeliveryOrderIrrelevant(K: OpMap, ops: seq<Operation>, ops': seq<Operation>)
    requires WellFormed(K) && SameElements(ops, ops')
    ensures Replay(K, ops).ok <==> Replay(K, ops').ok
    ensures Replay(K, ops).ok ==> Replay(K, ops).known == Replay(K, ops').known
  {
    ReplayAccepts(K, ops);
    ReplayAccepts(K, ops');
    if OnePayload(K, ops) { MergeSameElements(K, ops, ops'); }
    if OnePayload(K, ops') { MergeSameElements(K, ops', ops); }
  }

  lemma {:induction false} ReplayAppend(K: OpMap, a: seq<Operation>, b: seq<Operation>)
    ensures Replay(K, a + b) ==
      if Replay(K, a).ok then Replay(Replay(K, a).known, b) else Replay(K, a)
    decreases |a|
  {
    if a == [] {
      assert a + b == b;
    } else {
      assert (a + b)[1..] == a[1..] + b;
      ReplayAppend(K[a[0].opId := a[0]], a[1..], b);
    }
  }

  /** Operations of one well-formed universe are never rejected. */
  lemma {:induction false} ReplayWithin(K: OpMap, U: OpMap, ops: seq<Operation>)
    requires WellFormed(U) && Sub(K, U)
    requires forall op | op in ops :: op.opId in U && U[op.opId] == op
    ensures WellFormed(K) && Replay(K, ops).ok
    ensures Replay(K, ops).known == Merge(K, ops)
    ensures OnePayload(K, ops) && Sub(Merge(K, ops), U)
  {
    WellFormedMonotone(K, U);
    MergeMeaning(K, ops);
    WellFormedMonotone(Merge(K, ops), U);
    ReplayAccepts(K, ops);
  }
}
