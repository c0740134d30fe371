/** JavaScript strings as sequences of UTF-16 code units, with the comparison,
    trimming and number formatting that operation identities rely on. */
module JsStrings {
  type CodeUnit = u: int | 0 <= u < 0x1_0000
  type Units = seq<CodeUnit>
  datatype JsString = Utf16(units: Units)

  const COLON: CodeUnit := 58
  const MINUS: CodeUnit := 45
  const ZERO: CodeUnit := 48

  /** The characters that `String.prototype.trim` removes. */
  predicate IsWhiteSpace(u: CodeUnit) {
    || 0x9 <= u <= 0xD || u == 0x20 || u == 0xA0 || u == 0x1680 || 0x2000 <= u <= 0x200A
    || u == 0x2028 || u == 0x2029 || u == 0x202F || u == 0x205F || u == 0x3000 || u == 0xFEFF
  }

  /** `s.trim().length === 0` */
  predicate IsBlank(s: JsString) {
    forall u | u in s.units :: IsWhiteSpace(u)
  }

  /** `s.length === 0` */
  predicate IsEmpty(s: JsString) {
    s.units == []
  }

  /** `s.trim()` */
  function Trim(s: Units): Units
    decreases |s|
  {
    if s == [] then []
    else if IsWhiteSpace(s[0]) then Trim(s[1..])
    else if IsWhiteSpace(s[|s| - 1]) then Trim(s[..|s| - 1])
    else s
  }

  lemma {:induction false} BlankExactly(s: Units)
    ensures IsBlank(Utf16(s)) <==> |Trim(s)| == 0
    decreases |s|
  {
    if s != [] {
      assert s[0] in s && s[|s| - 1] in s;
      BlankExactly(s[1..]);
      BlankExactly(s[..|s| - 1]);
      assert s == [s[0]] + s[1..] && s == s[..|s| - 1] + [s[|s| - 1]];
    }
  }

  function Concat(a: JsString, b: JsString): JsString {
    Utf16(a.units + b.units)
  }

  /** Lexicographic by code unit, a proper prefix first. */
  predicate UnitsLess(a: Units, b: Units) {
    if b == [] then false
    else if a == [] then true
    else a[0] < b[0] || (a[0] == b[0] && UnitsLess(a[1..], b[1..]))
  }

  lemma {:induction false} UnitsLessIrreflexive(a: Units)
    ensures !UnitsLess(a, a)
  {
    if a != [] { UnitsLessIrreflexive(a[1..]); }
  }

  lemma {:induction false} UnitsLessTransitive(a: Units, b: Units, c: Units)
    requires UnitsLess(a, b) && UnitsLess(b, c)
    ensures UnitsLess(a, c)
  {
    if a != [] && a[0] == b[0] == c[0] { UnitsLessTransitive(a[1..], b[1..], c[1..]); }
  }

  lemma {:induction false} UnitsLessTotal(a: Units, b: Units)
    ensures a == b || UnitsLess(a, b) || UnitsLess(b, a)
  {
    if a != [] && b != [] && a[0] == b[0] {
      UnitsLessTotal(a[1..], b[1..]);
      assert a == [a[0]] + a[1..] && b == [b[0]] + b[1..];
    }
  }

  /** `a < b` on strings. */
  predicate StringLess(a: JsString, b: JsString) {
    UnitsLess(a.units, b.units)
  }

  /** Where the two first differ, `a` has ended or has the smaller code unit. */
  ghost predicate SmallerAt(a: Units, b: Units, k: nat) {
    k <= |a| && k < |b| && a[..k] == b[..k] && (k == |a| || a[k] < b[k])
  }

  /** The first difference decides. */
  lemma StringLessExactly(a: JsString, b: JsString)
    ensures StringLess(a, b) <==> exists k :: SmallerAt(a.units, b.units, k)
  {
    if StringLess(a, b) { var k := FirstDifference(a.units, b.units); }
    if k :| SmallerAt(a.units, b.units, k) { DifferenceDecides(a.units, b.units, k); }
  }

  lemma {:induction false} FirstDifference(a: Units, b: Units) returns (k: nat)
    requires UnitsLess(a, b)
    ensures SmallerAt(a, b, k)
  {
    if a == [] || a[0] != b[0] { return 0; }
    var j := FirstDifference(a[1..], b[1..]);
    assert a[..j + 1] == [a[0]] + a[1..][..j] && b[..j + 1] == [b[0]] + b[1..][..j];
    k := j + 1;
  }

  lemma {:induction false} DifferenceDecides(a: Units, b: Units, k: nat)
    requires SmallerAt(a, b, k)
    ensures UnitsLess(a, b)
    decreases k
  {
    if k > 0 {
      assert a[..k][0] == a[0] && b[..k][0] == b[0];
      assert a[1..][..k - 1] == a[..k][1..] && b[1..][..k - 1] == b[..k][1..];
      DifferenceDecides(a[1..], b[1..], k - 1);
    }
  }

  lemma StringLessIrreflexive(a: JsString)
    ensures !StringLess(a, a)
  {
    UnitsLessIrreflexive(a.units);
  }

  lemma StringLessTransitive(a: JsString, b: JsString, c: JsString)
    requires StringLess(a, b) && StringLess(b, c)
    ensures StringLess(a, c)
  {
    UnitsLessTransitive(a.units, b.units, c.units);
  }

  lemma StringLessTotal(a: JsString, b: JsString)
    ensures a == b || StringLess(a, b) || StringLess(b, a)
  {
    UnitsLessTotal(a.units, b.units);
  }

  /** Decimal digits of a natural number, without leading zeros. */
  function Digits(n: nat): (s: Units)
    ensures s != [] && forall u | u in s :: ZERO <= u < ZERO + 10
  {
    if n < 10 then [ZERO + n] else Digits(n / 10) + [ZERO + n % 10]
  }

  /** A safe integer inside a template literal. */
  function NumberToString(n: int): Units {
    if n < 0 then [MINUS] + Digits(-n) else Digits(n)
  }

  lemma {:induction false} DigitsInjective(m: nat, n: nat)
    requires Digits(m) == Digits(n)
    ensures m == n
  {
    var dm, dn := Digits(m), Digits(n);
    assert m >= 10 ==> |Digits(m / 10)| >= 1 && |dm| >= 2;
    assert n >= 10 ==> |Digits(n / 10)| >= 1 && |dn| >= 2;
    if m >= 10 {
      assert dm[..|dm| - 1] == Digits(m / 10) && dn[..|dn| - 1] == Digits(n / 10);
      assert dm[|dm| - 1] == ZERO + m % 10 && dn[|dn| - 1] == ZERO + n % 10;
      DigitsInjective(m / 10, n / 10);
    }
  }

  // ----- reading numbers back

  /** What a reader from left to right makes of further decimal digits. */
  function ReadOn(value: int, s: Units): int
    decreases |s|
  {
    if s == [] then value else ReadOn(value * 10 + DigitOf(s[0]), s[1..])
  }

  function DigitOf(u: CodeUnit): int {
    u as int - 48
  }

  /** A decimal numeral of `n`: the characters 0 to 9 only, and no leading zero. */
  ghost predicate IsNumeral(s: Units, n: int) {
    s != [] && (forall u | u in s :: 48 <= u <= 57) && (s[0] == 48 ==> |s| == 1) && ReadOn(0, s) == n
  }

  lemma {:induction false} ReadOnAppend(value: int, s: Units, t: Units)
    ensures ReadOn(value, s + t) == ReadOn(ReadOn(value, s), t)
    decreases |s|
  {
    if s == [] {
      assert s + t == t;
    } else {
      assert (s + t)[1..] == s[1..] + t;
      ReadOnAppend(value * 10 + DigitOf(s[0]), s[1..], t);
    }
  }

  lemma {:induction false} ReadLast(s: Units)
    requires s != []
    ensures ReadOn(0, s) == ReadOn(0, s[..|s| - 1]) * 10 + DigitOf(s[|s| - 1])
  {
    assert s == s[..|s| - 1] + [s[|s| - 1]];
    ReadOnAppend(0, s[..|s| - 1], [s[|s| - 1]]);
  }

  lemma {:induction false} DigitsAreNumeral(n: nat)
    ensures IsNumeral(Digits(n), n) && (n > 0 ==> Digits(n)[0] != 48)
  {
    if n >= 10 {
      DigitsAreNumeral(n / 10);
      ReadLast(Digits(n));
      assert Digits(n)[..|Digits(n)| - 1] == Digits(n / 10) && Digits(n)[0] == Digits(n / 10)[0];
    }
  }

  lemma {:induction false} NumeralNotNegative(s: Units)
    requires forall u | u in s :: 48 <= u <= 57
    ensures ReadOn(0, s) >= 0 && (s != [] && s[0] != 48 ==> ReadOn(0, s) > 0)
    decreases |s|
  {
    if s != [] {
      var init := s[..|s| - 1];
      assert s[|s| - 1] in s && (init != [] ==> init[0] == s[0]);
      assert forall u | u in init :: u in s;
      NumeralNotNegative(init);
      ReadLast(s);
    }
  }

  /** A numeral of at least 10 is that of its tenth and its last digit. */
  lemma NumeralSplits(s: Units, n: nat)
    requires IsNumeral(s, n)
    ensures |s| == 1 ==> n < 10 && DigitOf(s[0]) == n
    ensures |s| > 1 ==> n >= 10 && IsNumeral(s[..|s| - 1], n / 10) && DigitOf(s[|s| - 1]) == n % 10
  {
    var init, last := s[..|s| - 1], s[|s| - 1];
    assert last in s && forall u | u in init :: u in s;
    ReadLast(s);
    if |s| > 1 {
      NumeralNotNegative(init);
      assert init[0] == s[0];
    }
  }

  /** `Digits` gives the only decimal numeral of a number. */
  lemma {:induction false} DigitsExactly(s: Units, n: nat)
    ensures IsNumeral(s, n) <==> s == Digits(n)
    decreases n
  {
    DigitsAreNumeral(n);
    if IsNumeral(s, n) {
      NumeralSplits(s, n);
      if |s| > 1 {
        DigitsExactly(s[..|s| - 1], n / 10);
        assert s == s[..|s| - 1] + [s[|s| - 1]];
      }
    }
  }

  /** A safe integer inside a template literal: its numeral, behind a hyphen if it is
      negative. */
  lemma NumberReadsBack(n: int)
    ensures var s := NumberToString(n);
      if n >= 0 then IsNumeral(s, n) else s[0] == 45 && IsNumeral(s[1..], -n)
  {
    DigitsAreNumeral(if n < 0 then -n else n);
    assert n < 0 ==> NumberToString(n)[1..] == Digits(-n);
  }

  /** Splitting at the last colon is unambiguous when the tails hold no colon. */
  lemma LastColonSplit(a: Units, b: Units, s: Units, t: Units)
    requires a + [COLON] + s == b + [COLON] + t
    requires COLON !in s && COLON !in t
    ensures a == b && s == t
  {
    var l, r := a + [COLON] + s, b + [COLON] + t;
    assert forall k | |a| < k < |l| :: l[k] == s[k - |a| - 1];
    assert forall k | |b| < k < |r| :: r[k] == t[k - |b| - 1];
    assert l[|a|] == COLON && r[|b|] == COLON;
    assert a == l[..|a|] && b == r[..|b|];
    assert s == l[|a| + 1..] && t == r[|b| + 1..];
  }
}
