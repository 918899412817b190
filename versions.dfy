/**
 * `compareVersion` (src/utils/utils.js:89-110): orders two dot-separated
 * version identifiers component by component, comparing components as
 * integers parsed by `parseInt(_, 10)`.
 */
module Versions {
  import opened Wrappers
  import opened JsValues

  /** `s.split('.')`: never empty, and "" splits into [""]. */
  function Split(s: string): (parts: seq<string>)
    ensures |parts| >= 1
    ensures forall i :: 0 <= i < |parts| ==> '.' !in parts[i]
  {
    if s == [] then [""]
    else
      var rest := Split(s[1..]);
      if s[0] == '.' then [""] + rest else [[s[0]] + rest[0]] + rest[1..]
  }

  /** Splitting and joining again with "." gives back the identifier. */
  lemma {:induction false} SplitJoin(s: string)
    ensures Join(Split(s), ".") == s
  {
    if s != [] {
      var rest := Split(s[1..]);
      SplitJoin(s[1..]);
      if s[0] == '.' {
        assert Split(s) == [""] + rest;
      } else {
        var parts := Split(s);
        assert parts[1..] == rest[1..];
        if |rest| > 1 {
          assert Join(rest, ".") == rest[0] + "." + Join(rest[1..], ".");
        }
      }
    }
  }

  /**
   * `parseInt(v, 10)`. How the digits are read is left to `parse`;
   * `None` is NaN.
   */
  function ParseInt(parse: string -> Option<int>, v: Value): (r: Value)
    ensures r.Num? || r.NaN?
    ensures AsComponent(r) == parse(ToString(v))
  {
    match parse(ToString(v))
    case Some(n) => Num(n)
    case None => NaN
  }

  /** `x > y` on two parsed components; false as soon as one is NaN. */
  predicate Above(x: Option<int>, y: Option<int>) {
    x.Some? && y.Some? && x.value > y.value
  }

  /** `x < y` on two parsed components; false as soon as one is NaN. */
  predicate Below(x: Option<int>, y: Option<int>) {
    x.Some? && y.Some? && x.value < y.value
  }

  /** The component a value left by ParseInt stands for. */
  function AsComponent(v: Value): Option<int> {
    if v.Num? then Some(v.n) else None
  }

  /** The parsed components of an identifier. */
  function Components(parse: string -> Option<int>, s: string): (cs: seq<Option<int>>)
    ensures |cs| == |Split(s)|
  {
    var parts := Split(s);
    seq(|parts|, i requires 0 <= i < |parts| => parse(parts[i]))
  }

  /** -1, 0 or 1 by component count: the shorter identifier is smaller. */
  function LengthOrder(m: nat, n: nat): int {
    if m == n then 0 else if m < n then -1 else 1
  }

  /** The order from component `i` on: the first strictly ordered pair decides, else the lengths. */
  function OrderFrom(xs: seq<Option<int>>, ys: seq<Option<int>>, i: nat): (r: int)
    ensures r == -1 || r == 0 || r == 1
    decreases |xs| - i
  {
    if i >= |xs| || i >= |ys| then LengthOrder(|xs|, |ys|)
    else if Above(xs[i], ys[i]) then 1
    else if Below(xs[i], ys[i]) then -1
    else OrderFrom(xs, ys, i + 1)
  }

  /** The order of two string identifiers. */
  function VersionOrder(parse: string -> Option<int>, v1: string, v2: string): int {
    OrderFrom(Components(parse, v1), Components(parse, v2), 0)
  }

  /**
   * The comparator: `false` unless both arguments are strings; otherwise
   * -1, 0 or 1 as VersionOrder says. Each split array has its first
   * `min` elements overwritten in place by their parsed values.
   */
  method CompareVersion(parse: string -> Option<int>, v1: Value, v2: Value) returns (r: Value)
    ensures !(v1.Str? && v2.Str?) <==> r == Bool(false)
    ensures v1.Str? && v2.Str? ==> r == Num(VersionOrder(parse, v1.s, v2.s))
  {
    if !v1.Str? {
      return Bool(false);
    }
    if !v2.Str? {
      return Bool(false);
    }
    var p1, p2 := Split(v1.s), Split(v2.s);
    ghost var xs, ys := Components(parse, v1.s), Components(parse, v2.s);
    var a1 := new Value[|p1|](j requires 0 <= j < |p1| => Str(p1[j]));
    var a2 := new Value[|p2|](j requires 0 <= j < |p2| => Str(p2[j]));
    var k := if a1.Length < a2.Length then a1.Length else a2.Length;
    var i := 0;
    while i < k
      invariant 0 <= i <= k
      invariant forall j :: i <= j < a1.Length ==> a1[j] == Str(p1[j])
      invariant forall j :: i <= j < a2.Length ==> a2[j] == Str(p2[j])
      invariant OrderFrom(xs, ys, i) == OrderFrom(xs, ys, 0)
    {
      a1[i] := ParseInt(parse, a1[i]);
      a2[i] := ParseInt(parse, a2[i]);
      assert AsComponent(a1[i]) == xs[i] && AsComponent(a2[i]) == ys[i];
      if a1[i].Num? && a2[i].Num? && a1[i].n > a2[i].n {
        return Num(1);
      }
      if a1[i].Num? && a2[i].Num? && a1[i].n < a2[i].n {
        return Num(-1);
      }
      i := i + 1;
    }
    return Num(LengthOrder(a1.Length, a2.Length));
  }

  // ----- Ordering laws -----

  /** Every identifier is equal to itself. */
  lemma {:induction false} OrderReflexive(xs: seq<Option<int>>, i: nat)
    ensures OrderFrom(xs, xs, i) == 0
    decreases |xs| - i
  {
    if i < |xs| {
      OrderReflexive(xs, i + 1);
    }
  }

  /** Swapping the arguments negates the result. */
  lemma {:induction false} OrderAntisymmetric(xs: seq<Option<int>>, ys: seq<Option<int>>, i: nat)
    ensures OrderFrom(xs, ys, i) == -OrderFrom(ys, xs, i)
    decreases |xs| - i
  {
    if i < |xs| && i < |ys| && !Above(xs[i], ys[i]) && !Below(xs[i], ys[i]) {
      OrderAntisymmetric(xs, ys, i + 1);
    }
  }

  /** A pair of components that decides the comparison. */
  predicate Decides(x: Option<int>, y: Option<int>) {
    Above(x, y) || Below(x, y)
  }

  /** The leftmost deciding pair of components decides the result. */
  lemma {:induction false} FirstDifferenceDecides(xs: seq<Option<int>>, ys: seq<Option<int>>, i: nat, d: nat)
    requires i <= d < |xs| && d < |ys|
    requires forall j :: i <= j < d ==> !Decides(xs[j], ys[j])
    requires Decides(xs[d], ys[d])
    ensures OrderFrom(xs, ys, i) == if Above(xs[d], ys[d]) then 1 else -1
    decreases d - i
  {
    if i < d {
      FirstDifferenceDecides(xs, ys, i + 1, d);
    }
  }

  /** With no deciding pair among the shared components, the component counts decide. */
  lemma {:induction false} NoDifferenceLengthDecides(xs: seq<Option<int>>, ys: seq<Option<int>>, i: nat)
    requires forall j :: i <= j < |xs| && j < |ys| ==> !Decides(xs[j], ys[j])
    ensures OrderFrom(xs, ys, i) == LengthOrder(|xs|, |ys|)
    decreases |xs| - i
  {
    if i < |xs| && i < |ys| {
      NoDifferenceLengthDecides(xs, ys, i + 1);
    }
  }

  /** All components parsed to numbers (no NaN). */
  predicate AllNumeric(xs: seq<Option<int>>) {
    forall j :: 0 <= j < |xs| ==> xs[j].Some?
  }

  /** Without NaN components, 0 means the component sequences are equal. */
  lemma {:induction false} OrderZeroIffEqual(xs: seq<Option<int>>, ys: seq<Option<int>>, i: nat)
    requires AllNumeric(xs) && AllNumeric(ys)
    requires i <= |xs| && i <= |ys| && xs[..i] == ys[..i]
    ensures OrderFrom(xs, ys, i) == 0 <==> xs == ys
    decreases |xs| - i
  {
    if i < |xs| && i < |ys| {
      if xs[i] == ys[i] {
        assert xs[..i + 1] == xs[..i] + [xs[i]] && ys[..i + 1] == ys[..i] + [ys[i]];
        OrderZeroIffEqual(xs, ys, i + 1);
      } else {
        assert xs != ys by { assert xs[i] != ys[i]; }
      }
    } else if |xs| != |ys| {
      assert xs != ys;
    } else {
      assert xs == xs[..i] && ys == ys[..i];
    }
  }

  /** Without NaN components the order is transitive. */
  lemma {:induction false} OrderTransitive(xs: seq<Option<int>>, ys: seq<Option<int>>, zs: seq<Option<int>>, i: nat)
    requires AllNumeric(xs) && AllNumeric(ys) && AllNumeric(zs)
    requires OrderFrom(xs, ys, i) <= 0 && OrderFrom(ys, zs, i) <= 0
    ensures OrderFrom(xs, zs, i) <= 0
    decreases |xs| - i
  {
    if i < |xs| && i < |ys| && i < |zs| && xs[i] == ys[i] == zs[i] {
      OrderTransitive(xs, ys, zs, i + 1);
    }
  }

  /** With NaN components the induced equality is not transitive: 2 ~ NaN ~ 1 yet 2 > 1. */
  lemma NaNBreaksTransitivity()
    ensures OrderFrom([Some(2)], [None], 0) == 0
    ensures OrderFrom([None], [Some(1)], 0) == 0
    ensures OrderFrom([Some(2)], [Some(1)], 0) == 1
  {
  }

  /** compareVersion(v, v) is 0 for every string v. */
  lemma VersionOrderReflexive(parse: string -> Option<int>, v: string)
    ensures VersionOrder(parse, v, v) == 0
  {
    OrderReflexive(Components(parse, v), 0);
  }

  /** compareVersion(a, b) == -compareVersion(b, a) for all strings a and b. */
  lemma VersionOrderAntisymmetric(parse: string -> Option<int>, a: string, b: string)
    ensures VersionOrder(parse, a, b) == -VersionOrder(parse, b, a)
  {
    OrderAntisymmetric(Components(parse, a), Components(parse, b), 0);
  }

  /** compareVersion("1.9", "1.10") == -1 under decimal parsing. */
  lemma MinorComparedAsInteger(parse: string -> Option<int>)
    requires parse("1") == Some(1) && parse("9") == Some(9) && parse("10") == Some(10)
    ensures VersionOrder(parse, "1.9", "1.10") == -1
  {
    JoinSplit("1.9", ["1", "9"]);
    JoinSplit("1.10", ["1", "10"]);
    assert Components(parse, "1.9") == [Some(1), Some(9)];
    assert Components(parse, "1.10") == [Some(1), Some(10)];
    FirstDifferenceDecides([Some(1), Some(9)], [Some(1), Some(10)], 0, 1);
  }

  /** compareVersion("1.2", "1.2.0") == -1: the shorter identifier is smaller. */
  lemma ShorterIsSmaller(parse: string -> Option<int>)
    requires parse("0") == Some(0) && parse("1") == Some(1) && parse("2") == Some(2)
    ensures VersionOrder(parse, "1.2", "1.2.0") == -1
  {
    JoinSplit("1.2", ["1", "2"]);
    JoinSplit("1.2.0", ["1", "2", "0"]);
    assert Components(parse, "1.2") == [Some(1), Some(2)];
    assert Components(parse, "1.2.0") == [Some(1), Some(2), Some(0)];
    NoDifferenceLengthDecides([Some(1), Some(2)], [Some(1), Some(2), Some(0)], 0);
  }

  /** Joining dot-free components with "." and splitting again gives back the components. */
  lemma {:induction false} JoinSplit(s: string, parts: seq<string>)
    requires |parts| >= 1
    requires forall i :: 0 <= i < |parts| ==> '.' !in parts[i]
    requires s == Join(parts, ".")
    ensures Split(s) == parts
    decreases |s|, |parts[0]|
  {
    if parts[0] == [] {
      if |parts| > 1 {
        assert s == "." + Join(parts[1..], ".");
        assert s[1..] == Join(parts[1..], ".");
        JoinSplit(s[1..], parts[1..]);
      }
    } else {
      var c := parts[0][0];
      var tail := [parts[0][1..]] + parts[1..];
      assert c != '.' by { assert parts[0][0] in parts[0]; }
      assert s == [c] + Join(tail, ".") by {
        if |parts| > 1 {
          assert s == parts[0] + "." + Join(parts[1..], ".");
          assert Join(tail, ".") == parts[0][1..] + "." + Join(tail[1..], ".");
          assert tail[1..] == parts[1..];
        }
      }
      assert s[1..] == Join(tail, ".");
      forall i | 0 <= i < |tail| ensures '.' !in tail[i] {
        if i == 0 {
          assert forall ch :: ch in parts[0][1..] ==> ch in parts[0];
        } else {
          assert tail[i] == parts[i];
        }
      }
      JoinSplit(s[1..], tail);
      assert s[0] == c;
      assert [c] + tail[0] == parts[0];
      assert [[c] + tail[0]] + tail[1..] == parts;
    }
  }
}
