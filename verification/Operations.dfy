/** Insert and delete operations, their identities and their validation. */
module Operations {
  import opened JsStrings

  type Id = JsString
  const ROOT_ID: Id := Utf16([82, 79, 79, 84])
  const MAX_SAFE_INTEGER := 0x1F_FFFF_FFFF_FFFF

  datatype Operation =
    | Insert(opId: Id, clientId: JsString, counter: int, lamport: int, afterId: Id, value: JsString)
    | Delete(opId: Id, clientId: JsString, counter: int, lamport: int, targetId: Id)

  type DeleteOperation = op: Operation | op.Delete? witness Delete(ROOT_ID, ROOT_ID, 0, 0, ROOT_ID)

  /** Operations by identity: what a replica, a log or a table knows. */
  type OpMap = map<Id, Operation>

  /** The operation that `op` needs: the anchor of an insert, the target of a delete. */
  function DependencyOf(op: Operation): Id {
    if op.Insert? then op.afterId else op.targetId
  }

  /** `op` carries the identity `id` or refers to it. */
  predicate Mentions(op: Operation, id: Id) {
    op.opId == id || DependencyOf(op) == id
  }

  function MakeOperationId(clientId: JsString, counter: int): Id {
    Utf16(clientId.units + [COLON] + NumberToString(counter))
  }

  predicate IsPositiveSafe(n: int) {
    1 <= n <= MAX_SAFE_INTEGER
  }

  /** `validateOperation` returns without throwing. */
  predicate IsValidOperation(op: Operation) {
    && !IsBlank(op.clientId)
    && IsPositiveSafe(op.counter)
    && IsPositiveSafe(op.lamport)
    && op.opId == MakeOperationId(op.clientId, op.counter)
    && (match op
        case Insert(_, _, _, _, afterId, value) => !IsEmpty(value) && afterId != op.opId
        case Delete(_, _, _, _, targetId) => targetId != ROOT_ID)
  }

  ghost predicate AllValid(ops: seq<Operation>) {
    forall o | o in ops :: IsValidOperation(o)
  }

  lemma ValidIdHasColon(op: Operation)
    requires IsValidOperation(op)
    ensures COLON in op.opId.units && op.opId != ROOT_ID
  {
    assert op.opId.units[|op.clientId.units|] == COLON;
    assert COLON !in ROOT_ID.units;
  }

  /** Identities determine their author and counter, even when client ids
      contain colons, and no valid identity is the ROOT sentinel. */
  lemma OperationIdInjective(a: Operation, b: Operation)
    requires IsValidOperation(a) && IsValidOperation(b)
    ensures a.opId == b.opId <==> a.clientId == b.clientId && a.counter == b.counter
    ensures a.opId != ROOT_ID
  {
    ValidIdHasColon(a);
    if a.opId == b.opId {
      LastColonSplit(a.clientId.units, b.clientId.units, Digits(a.counter), Digits(b.counter));
      DigitsInjective(a.counter, b.counter);
    }
  }

  /** The same fact about freshly made identities. */
  lemma MadeIdInjective(c: JsString, m: nat, d: JsString, n: nat)
    requires MakeOperationId(c, m) == MakeOperationId(d, n)
    ensures c == d && m == n
  {
    LastColonSplit(c.units, d.units, Digits(m), Digits(n));
    DigitsInjective(m, n);
  }

  /** The identity is the client id, a colon and the counter in decimal. */
  ghost predicate IsIdentityOf(id: Id, clientId: JsString, counter: int) {
    exists k :: NamesAt(id.units, clientId.units, counter, k)
  }

  ghost predicate NamesAt(id: Units, clientId: Units, counter: int, k: nat) {
    k < |id| && id[..k] == clientId && id[k] == 58 && IsNumeral(id[k + 1..], counter)
  }

  /** Exactly the made identity reads as its client id and counter. */
  lemma IdentityExactly(id: Id, clientId: JsString, counter: nat)
    ensures id == MakeOperationId(clientId, counter) <==> IsIdentityOf(id, clientId, counter)
  {
    var made, n := MakeOperationId(clientId, counter), |clientId.units|;
    DigitsAreNumeral(counter);
    assert made.units[..n] == clientId.units && made.units[n + 1..] == Digits(counter);
    assert NamesAt(made.units, clientId.units, counter, n);
    if k: nat :| NamesAt(id.units, clientId.units, counter, k) {
      DigitsExactly(id.units[k + 1..], counter);
      assert id.units == id.units[..k] + [id.units[k]] + id.units[k + 1..];
    }
  }

  /** No other split at a colon reads as an identity: whatever the client id contains, the
      identity names one client and one counter. */
  lemma IdentityReadsOneWay(id: Id, c: JsString, m: int, d: JsString, n: int)
    requires IsIdentityOf(id, c, m) && IsIdentityOf(id, d, n)
    ensures c == d && m == n
  {
    var i: nat :| NamesAt(id.units, c.units, m, i);
    var j: nat :| NamesAt(id.units, d.units, n, j);
    NamesSplit(id.units, c.units, m, i);
    NamesSplit(id.units, d.units, n, j);
    LastColonSplit(c.units, d.units, id.units[i + 1..], id.units[j + 1..]);
  }

  lemma NamesSplit(id: Units, clientId: Units, counter: int, k: nat)
    requires NamesAt(id, clientId, counter, k)
    ensures id == clientId + [COLON] + id[k + 1..] && COLON !in id[k + 1..]
  {
    assert id == id[..k] + [id[k]] + id[k + 1..];
  }

  /** An operation as it should be: a client id that is more than white space, counter and
      Lamport value among the positive safe integers, the identity that they make, a value
      and an anchor other than itself for an insert, and a target other than ROOT for a
      delete. */
  ghost predicate WellMade(op: Operation) {
    && Trim(op.clientId.units) != []
    && 1 <= op.counter <= 9007199254740991 && 1 <= op.lamport <= 9007199254740991
    && IsIdentityOf(op.opId, op.clientId, op.counter)
    && (op.Insert? ==> |op.value.units| > 0 && op.afterId.units != op.opId.units)
    && (op.Delete? ==> op.targetId.units != [82, 79, 79, 84])
  }

  lemma ValidExactly(op: Operation)
    ensures IsValidOperation(op) <==> WellMade(op)
  {
    BlankExactly(op.clientId.units);
    if op.counter >= 0 { IdentityExactly(op.opId, op.clientId, op.counter); }
  }

  /** The position key that orders siblings. */
  datatype Key = Key(lamport: int, clientId: JsString, counter: int)

  function KeyOf(op: Operation): Key {
    Key(op.lamport, op.clientId, op.counter)
  }

  /** `compareNodes(a, b) < 0`: newer Lamport first, then client id, then counter. */
  predicate KeyLess(a: Key, b: Key) {
    if a.lamport != b.lamport then a.lamport > b.lamport
    else if a.clientId != b.clientId then StringLess(a.clientId, b.clientId)
    else a.counter < b.counter
  }

  lemma KeyLessIrreflexive(a: Key)
    ensures !KeyLess(a, a)
  {}

  lemma KeyLessTransitive(a: Key, b: Key, c: Key)
    requires KeyLess(a, b) && KeyLess(b, c)
    ensures KeyLess(a, c)
  {
    if a.lamport == b.lamport == c.lamport {
      if a.clientId != b.clientId && b.clientId != c.clientId {
        StringLessTransitive(a.clientId, b.clientId, c.clientId);
        StringLessIrreflexive(a.clientId);
      }
    }
  }

  lemma KeyLessTotal(a: Key, b: Key)
    ensures a == b || KeyLess(a, b) || KeyLess(b, a)
  {
    StringLessTotal(a.clientId, b.clientId);
  }

  /** The sibling that stands first: the one with the larger Lamport value; with equal ones
      the one whose client id has the smaller code unit where the two first differ, or ends
      there; of one client the one with the smaller counter. */
  ghost predicate StandsFirst(a: Operation, b: Operation) {
    || a.lamport > b.lamport
    || (a.lamport == b.lamport && exists k :: SmallerAt(a.clientId.units, b.clientId.units, k))
    || (a.lamport == b.lamport && a.clientId == b.clientId && a.counter < b.counter)
  }

  lemma KeyLessExactly(a: Operation, b: Operation)
    ensures KeyLess(KeyOf(a), KeyOf(b)) <==> StandsFirst(a, b)
  {
    StringLessExactly(a.clientId, b.clientId);
    StringLessIrreflexive(a.clientId);
  }
}
