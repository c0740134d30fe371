/** The text of a document, in code units. */
module Texts {
  import opened JsStrings
  import opened Documents

  /** The lengths of the first `i` values together. */
  function Place(values: seq<JsString>, i: nat): nat
    requires i <= |values|
  {
    if i == 0 then 0 else Place(values, i - 1) + |values[i - 1].units|
  }

  ghost predicate StandsAt(text: Units, v: Units, k: nat) {
    k + |v| <= |text| && text[k..k + |v|] == v
  }

  /** The text is as long as the values together, and each of them stands where the ones
      before it end. */
  ghost predicate Spells(text: JsString, values: seq<JsString>) {
    && |text.units| == Place(values, |values|)
    && forall i | 0 <= i < |values| :: StandsAt(text.units, values[i].units, Place(values, i))
  }

  lemma {:induction false} JoinAppend(a: seq<JsString>, b: seq<JsString>)
    ensures Join(a + b).units == Join(a).units + Join(b).units
    decreases |a|
  {
    if a == [] {
      assert a + b == b;
    } else {
      assert (a + b)[1..] == a[1..] + b;
      JoinAppend(a[1..], b);
    }
  }

  lemma JoinOne(v: JsString)
    ensures Join([v]) == v
  {
    assert [v][1..] == [] && v.units + [] == v.units;
  }

  lemma JoinInit(values: seq<JsString>, n: nat)
    requires n < |values|
    ensures Join(values[..n + 1]).units == Join(values[..n]).units + values[n].units
  {
    assert values[..n + 1] == values[..n] + [values[n]];
    JoinAppend(values[..n], [values[n]]);
    JoinOne(values[n]);
  }

  lemma {:induction false} PlaceIsLength(values: seq<JsString>, n: nat)
    requires n <= |values|
    ensures Place(values, n) == |Join(values[..n]).units|
    decreases n
  {
    if n > 0 {
      PlaceIsLength(values, n - 1);
      JoinInit(values, n - 1);
    }
  }

  lemma MiddleStands(a: Units, v: Units, b: Units)
    ensures StandsAt(a + v + b, v, |a|)
  {}

  lemma {:induction false} JoinSpells(values: seq<JsString>)
    ensures Spells(Join(values), values)
  {
    PlaceIsLength(values, |values|);
    assert values[..|values|] == values;
    forall i | 0 <= i < |values| ensures StandsAt(Join(values).units, values[i].units, Place(values, i)) {
      PlaceIsLength(values, i);
      JoinInit(values, i);
      assert values == values[..i + 1] + values[i + 1..];
      JoinAppend(values[..i + 1], values[i + 1..]);
      MiddleStands(Join(values[..i]).units, values[i].units, Join(values[i + 1..]).units);
    }
  }

  ghost predicate BeginsWith(text: Units, part: Units, k: nat) {
    k <= |text| && text[..k] == part
  }

  lemma BeginsWithMore(text: Units, part: Units, k: nat, v: Units)
    requires BeginsWith(text, part, k) && StandsAt(text, v, k)
    ensures BeginsWith(text, part + v, k + |v|)
  {}

  /** What stands before the end of the `n`-th value. */
  lemma {:induction false} SpelledPart(text: JsString, values: seq<JsString>, n: nat)
    requires Spells(text, values) && n <= |values|
    ensures BeginsWith(text.units, Join(values[..n]).units, Place(values, n))
    decreases n
  {
    if n == 0 {
      assert values[..0] == [] && text.units[..0] == [];
    } else {
      SpelledPart(text, values, n - 1);
      SpelledNext(text, values, n - 1);
    }
  }

  lemma SpelledNext(text: JsString, values: seq<JsString>, n: nat)
    requires Spells(text, values) && n < |values|
    requires BeginsWith(text.units, Join(values[..n]).units, Place(values, n))
    ensures BeginsWith(text.units, Join(values[..n + 1]).units, Place(values, n + 1))
  {
    JoinInit(values, n);
    assert StandsAt(text.units, values[n].units, Place(values, n));
    BeginsWithMore(text.units, Join(values[..n]).units, Place(values, n), values[n].units);
  }

  /** Joining values gives the one text that they spell. */
  lemma {:induction false} JoinExactly(text: JsString, values: seq<JsString>)
    ensures text == Join(values) <==> Spells(text, values)
  {
    JoinSpells(values);
    if Spells(text, values) {
      SpelledPart(text, values, |values|);
      assert values[..|values|] == values && text.units[..|text.units|] == text.units;
    }
  }

  /** The text with the stretch between the two places replaced. */
  ghost predicate ReplacesStretch(text: Units, from: nat, to: nat, put: Units, result: Units) {
    from <= to <= |text| && result == text[..from] + put + text[to..]
  }

  /** Cutting the text where the first `i` values end cuts the values there. */
  lemma {:induction false} JoinCut(values: seq<JsString>, i: nat)
    requires i <= |values|
    ensures Place(values, i) == |Join(values[..i]).units| <= |Join(values).units|
    ensures Join(values).units[..Place(values, i)] == Join(values[..i]).units
    ensures Join(values).units[Place(values, i)..] == Join(values[i..]).units
  {
    var a, b := values[..i], values[i..];
    assert values == a + b;
    JoinAppend(a, b);
    PlaceIsLength(values, i);
  }

  /** Replacing values replaces the stretch of the text that they make up. */
  lemma {:induction false} ReplacedStretch(x: seq<JsString>, gone: seq<JsString>, put: seq<JsString>, z: seq<JsString>)
    ensures ReplacesStretch(Join(x + gone + z).units, |Join(x).units|, |Join(x + gone).units|, Join(put).units,
                            Join(x + put + z).units)
  {
    JoinAppend(x + gone, z);
    JoinAppend(x, gone);
    JoinAppend(x + put, z);
    JoinAppend(x, put);
  }
}
