/** The grouping key of the route handlers (the risk assessment and the
    k-anonymity transform): `quasiIdentifiers.map(qi => row[qi]).join("|")`.
    `Array.join` writes null and undefined as "" and every other value as
    `String(v)`, so unlike the risk library's key a 0 stays apart from a
    missing value (an empty text still joins like a missing one). */
module JoinKeys {
  import opened Records
  import opened Grouping
  import RiskUtils

  /** One part of a joined key. */
  function JoinPart(v: Value): (r: string)
    ensures v == Null ==> r == ""
    ensures v != Null ==> r == Text(v)
  {
    if v.Null? then "" else Text(v)
  }

  /** The key of one row. */
  function RouteKey(row: Row, qis: seq<string>): string {
    Join(seq(|qis|, i requires 0 <= i < |qis| => JoinPart(Get(row, qis[i]))), "|")
  }

  /** The key of every row, in order. */
  function RouteKeys(data: seq<Row>, qis: seq<string>): (r: seq<string>)
    ensures |r| == |data|
    ensures forall i :: 0 <= i < |data| ==> r[i] == RouteKey(data[i], qis)
  {
    seq(|data|, i requires 0 <= i < |data| => RouteKey(data[i], qis))
  }

  /** The `Map` of classes the routes build. */
  function RouteClasses(data: seq<Row>, qis: seq<string>): seq<Group> {
    GroupBy(RouteKeys(data, qis), data)
  }

  /** Rows that agree on every quasi-identifier share their key. */
  lemma SameCellsSameRouteKey(a: Row, b: Row, qis: seq<string>)
    requires forall q :: q in qis ==> Get(a, q) == Get(b, q)
    ensures RouteKey(a, qis) == RouteKey(b, qis)
  {
    var pa := seq(|qis|, i requires 0 <= i < |qis| => JoinPart(Get(a, qis[i])));
    var pb := seq(|qis|, i requires 0 <= i < |qis| => JoinPart(Get(b, qis[i])));
    assert forall i :: 0 <= i < |qis| ==> pa[i] == pb[i] by {
      forall i | 0 <= i < |qis| ensures pa[i] == pb[i] {
        assert qis[i] in qis;
      }
    }
    assert pa == pb;
  }

  /** The two keys disagree: a 0 and a missing value share a class in the
      risk library but not in the routes. */
  lemma ZeroAndMissingKeys(q: string)
    ensures RiskUtils.ClassKey(map[q := Num(0.0)], [q]) == RiskUtils.ClassKey(map[], [q])
    ensures RouteKey(map[q := Num(0.0)], [q]) != RouteKey(map[], [q])
  {
    var zero: Row := map[q := Num(0.0)];
    var none: Row := map[];
    assert RouteKey(zero, [q]) == Join(["0"], "|") == "0";
    assert RouteKey(none, [q]) == Join([""], "|") == "";
  }

  /** The separator can occur inside a value, so rows that differ on their
      quasi-identifiers can share a key and land in one class: "x|y", "z"
      and "x", "y|z" both join to "x|y|z". */
  lemma SeparatorCollision(a: string, b: string)
    requires a != b
    ensures var r1: Row := map[a := Str("x|y"), b := Str("z")];
      var r2: Row := map[a := Str("x"), b := Str("y|z")];
      Get(r1, a) != Get(r2, a) && RouteKey(r1, [a, b]) == RouteKey(r2, [a, b])
  {
    var r1: Row := map[a := Str("x|y"), b := Str("z")];
    var r2: Row := map[a := Str("x"), b := Str("y|z")];
    var p1 := seq(2, i requires 0 <= i < 2 => JoinPart(Get(r1, [a, b][i])));
    var p2 := seq(2, i requires 0 <= i < 2 => JoinPart(Get(r2, [a, b][i])));
    assert p1 == ["x|y", "z"] by {
      assert p1[0] == "x|y" && p1[1] == "z";
    }
    assert p2 == ["x", "y|z"] by {
      assert p2[0] == "x" && p2[1] == "y|z";
    }
    assert Join(p1, "|") == "x|y" + "|" + "z";
    assert Join(p2, "|") == "x" + "|" + "y|z";
  }
}
