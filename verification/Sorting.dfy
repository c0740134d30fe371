/** Strictly sorted sequences over an arbitrary strict total order. */
module Sorting {
  ghost predicate StrictlySorted<T(!new)>(less: (T, T) -> bool, s: seq<T>) {
    forall i, j | 0 <= i < j < |s| :: less(s[i], s[j])
  }

  /** `less` is a strict total order on the members of `dom`. */
  ghost predicate StrictTotalOrderOn<T(!new)>(less: (T, T) -> bool, dom: set<T>) {
    && (forall x | x in dom :: !less(x, x))
    && (forall x, y, z | x in dom && y in dom && z in dom && less(x, y) && less(y, z) :: less(x, z))
    && (forall x, y | x in dom && y in dom :: x == y || less(x, y) || less(y, x))
  }

  ghost predicate SameElements<T(!new)>(s: seq<T>, t: seq<T>) {
    forall x :: x in s <==> x in t
  }

  /** A strictly sorted listing of a set is unique. */
  lemma {:induction false} SortedUnique<T(!new)>(less: (T, T) -> bool, s: seq<T>, t: seq<T>)
    requires StrictlySorted(less, s) && StrictlySorted(less, t)
    requires SameElements(s, t)
    requires forall x, y | x in s && y in s && less(x, y) :: !less(y, x)
    ensures s == t
  {
    assert t != [] ==> t[0] in s;
    if s != [] {
      assert s[0] in t;
      SortedHeadsAgree(less, s, t);
      forall x ensures x in s[1..] <==> x in t[1..] {
        if x in s[1..] {
          var i :| 1 <= i < |s| && s[i] == x;
          assert less(s[0], x) && x in t;
          var j :| 0 <= j < |t| && t[j] == x;
          assert j != 0;
          assert t[1..][j - 1] == x;
        }
        if x in t[1..] {
          var i :| 1 <= i < |t| && t[i] == x;
          assert less(t[0], x) && x in s;
          var j :| 0 <= j < |s| && s[j] == x;
          assert j != 0;
          assert s[1..][j - 1] == x;
        }
      }
      SortedUnique(less, s[1..], t[1..]);
      assert s == [s[0]] + s[1..] && t == [t[0]] + t[1..];
    }
  }

  lemma SortedHeadsAgree<T(!new)>(less: (T, T) -> bool, s: seq<T>, t: seq<T>)
    requires s != [] && t != []
    requires StrictlySorted(less, s) && StrictlySorted(less, t)
    requires SameElements(s, t)
    requires forall x, y | x in s && y in s && less(x, y) :: !less(y, x)
    ensures s[0] == t[0]
  {
    assert s[0] in t && t[0] in s;
    var i :| 0 <= i < |t| && t[i] == s[0];
    var j :| 0 <= j < |s| && s[j] == t[0];
    assert 0 < i ==> less(t[0], s[0]);
    assert 0 < j ==> less(s[0], t[0]);
  }

  /** Inserting at the position that splits the smaller from the greater keeps
      a listing strictly sorted. */
  lemma InsertKeepsSorted<T(!new)>(less: (T, T) -> bool, s: seq<T>, i: nat, x: T)
    requires StrictlySorted(less, s) && i <= |s|
    requires forall k | 0 <= k < i :: less(s[k], x)
    requires forall k | i <= k < |s| :: less(x, s[k])
    ensures StrictlySorted(less, s[..i] + [x] + s[i..])
    ensures forall y :: y in s[..i] + [x] + s[i..] <==> y in s || y == x
  {
    var t := s[..i] + [x] + s[i..];
    assert forall k | 0 <= k < |t| :: t[k] == if k < i then s[k] else if k == i then x else s[k - 1];
    forall j, k | 0 <= j < k < |t| ensures less(t[j], t[k]) {
      var j', k' := if j < i then j else j - 1, if k < i then k else k - 1;
      assert j != i && k != i ==> t[j] == s[j'] && t[k] == s[k'];
    }
    assert forall y :: y in t <==> y in s[..i] || y == x || y in s[i..];
    assert s == s[..i] + s[i..];
  }

  /** Removing one position keeps a listing strictly sorted and drops exactly
      the element that stood there. */
  lemma RemoveKeepsSorted<T(!new)>(less: (T, T) -> bool, s: seq<T>, i: nat)
    requires StrictlySorted(less, s) && i < |s|
    requires !less(s[i], s[i])
    ensures StrictlySorted(less, s[..i] + s[i + 1..])
    ensures forall y :: y in s[..i] + s[i + 1..] <==> y in s && y != s[i]
  {
    var t := s[..i] + s[i + 1..];
    assert forall k | 0 <= k < |t| :: t[k] == if k < i then s[k] else s[k + 1];
    assert forall k | 0 <= k < |s| && k != i :: s[k] != s[i];
    forall y ensures y in t <==> y in s && y != s[i] {
      RemovedElement(s, t, i, y);
    }
  }

  lemma RemovedElement<T>(s: seq<T>, t: seq<T>, i: nat, y: T)
    requires i < |s| && t == s[..i] + s[i + 1..]
    requires forall k | 0 <= k < |s| && k != i :: s[k] != s[i]
    ensures y in t <==> y in s && y != s[i]
  {
    assert s == s[..i] + [s[i]] + s[i + 1..];
  }

  /** Every finite set has a strictly sorted listing. */
  lemma {:induction false} SortedListing<T(!new)>(less: (T, T) -> bool, dom: set<T>) returns (s: seq<T>)
    requires StrictTotalOrderOn(less, dom)
    ensures StrictlySorted(less, s)
    ensures forall x :: x in s <==> x in dom
    decreases dom
  {
    if dom == {} {
      s := [];
    } else {
      var x :| x in dom;
      var t := SortedListing(less, dom - {x});
      var i := SplitPosition(less, t, x);
      InsertKeepsSorted(less, t, i, x);
      s := t[..i] + [x] + t[i..];
    }
  }

  lemma {:induction false} SplitPosition<T(!new)>(less: (T, T) -> bool, t: seq<T>, x: T) returns (i: nat)
    requires StrictlySorted(less, t)
    requires forall y | y in t :: less(x, y) || less(y, x)
    requires forall y, z | y in t && z in t && less(x, y) && less(y, z) :: less(x, z)
    ensures i <= |t|
    ensures forall k | 0 <= k < i :: less(t[k], x)
    ensures forall k | i <= k < |t| :: less(x, t[k])
  {
    i := 0;
    while i < |t| && less(t[i], x)
      invariant i <= |t|
      invariant forall k | 0 <= k < i :: less(t[k], x)
    {
      i := i + 1;
    }
    assert i < |t| ==> t[i] in t && less(x, t[i]);
  }

  /** Sorting with a comparator; the order of enumeration is left open. */
  method Sort<T(==,!new)>(less: (T, T) -> bool, xs: set<T>) returns (s: seq<T>)
    requires StrictTotalOrderOn(less, xs)
    ensures StrictlySorted(less, s)
    ensures forall x :: x in s <==> x in xs
  {
    s := [];
    var left := xs;
    while left != {}
      invariant left <= xs
      invariant StrictlySorted(less, s)
      invariant forall x :: x in s <==> x in xs - left
    {
      var x :| x in left;
      var i := 0;
      while i < |s| && less(s[i], x)
        invariant i <= |s|
        invariant forall k | 0 <= k < i :: less(s[k], x)
      {
        i := i + 1;
      }
      forall k | i <= k < |s| ensures less(x, s[k]) {
        assert s[i] in s && s[k] in s && less(x, s[i]);
      }
      InsertKeepsSorted(less, s, i, x);
      s := s[..i] + [x] + s[i..];
      left := left - {x};
    }
  }
}
