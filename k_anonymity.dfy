/** `applyKAnonymity`: rows are grouped by the route key; classes of at
    least `k` rows pass through unchanged; the rows of smaller classes are
    counted as suppressed and dropped while the running count stays within
    `floor(n * suppressionLimit)`, and generalised (numbers to the multiple
    of ten below, anything else to "*") once it does not. */
module KAnonymity {
  import opened Records
  import opened Grouping
  import opened JoinKeys

  // ---------------------------------------------------------------------
  // Generalisation

  /** `typeof v === "number" ? Math.floor(v / 10) * 10 : "*"`: a number
      becomes the multiple of ten at or below it, anything else "*". */
  function Generalize(v: Value): (r: Value)
    ensures v.Num? ==> r.Num? && v.x - 10.0 < r.x <= v.x
    ensures v.Num? ==> r.x == (r.x / 10.0).Floor as real * 10.0
    ensures !v.Num? ==> r == Str("*")
  {
    if v.Num? then Num((v.x / 10.0).Floor as real * 10.0) else Str("*")
  }

  /** A generalised value is already general: generalising again changes
      nothing (a multiple of ten stays put). */
  lemma GeneralizeIdempotent(v: Value)
    ensures Generalize(Generalize(v)) == Generalize(v)
  {
    if v.Num? {
      var m := (v.x / 10.0).Floor;
      assert m as real * 10.0 / 10.0 == m as real;
    }
  }

  /** The generalised number is the one multiple of ten in (x-10, x]. */
  lemma GeneralizeIsDecade(x: real, m: int)
    requires x - 10.0 < m as real * 10.0 <= x
    ensures Generalize(Num(x)) == Num(m as real * 10.0)
  {
    var n := (x / 10.0).Floor;
    assert n as real <= x / 10.0 < n as real + 1.0;
    assert m as real <= x / 10.0 < m as real + 1.0;
  }

  /** Two numbers generalise alike exactly when they lie in the same decade. */
  lemma GeneralizeSameDecade(a: real, b: real)
    ensures Generalize(Num(a)) == Generalize(Num(b)) <==> (a / 10.0).Floor == (b / 10.0).Floor
  {
    var m, n := (a / 10.0).Floor, (b / 10.0).Floor;
    if Generalize(Num(a)) == Generalize(Num(b)) {
      assert m as real * 10.0 == n as real * 10.0;
    }
  }

  /** `generalized` after the `forEach` over the quasi-identifiers, taken in
      turn. */
  function GeneralizedRow(r: Row, qis: seq<string>): Row {
    if |qis| == 0 then r
    else
      var n := |qis| - 1;
      var g := GeneralizedRow(r, qis[..n]);
      g[qis[n] := Generalize(Get(g, qis[n]))]
  }

  /** Generalising a row changes exactly its quasi-identifier cells (adding
      those it lacks) and leaves every other column alone. */
  lemma {:induction false} GeneralizedRowCell(r: Row, qis: seq<string>, c: string)
    ensures Get(GeneralizedRow(r, qis), c) == if c in qis then Generalize(Get(r, c)) else Get(r, c)
    ensures GeneralizedRow(r, qis).Keys == r.Keys + set q | q in qis
  {
    if |qis| > 0 {
      var n := |qis| - 1;
      GeneralizedRowCell(r, qis[..n], c);
      GeneralizedRowCell(r, qis[..n], qis[n]);
      GeneralizeIdempotent(Get(r, qis[n]));
      assert forall q :: q in qis <==> q in qis[..n] || q == qis[n];
    }
  }

  /** `generalized`, built as the source builds it. */
  method GeneralizeRecord(r: Row, quasiIdentifiers: seq<string>) returns (generalized: Row)
    ensures generalized == GeneralizedRow(r, quasiIdentifiers)
  {
    generalized := r;
    var j := 0;
    while j < |quasiIdentifiers|
      invariant 0 <= j <= |quasiIdentifiers|
      invariant generalized == GeneralizedRow(r, quasiIdentifiers[..j])
    {
      var qi := quasiIdentifiers[j];
      assert quasiIdentifiers[..j + 1][..j] == quasiIdentifiers[..j];
      generalized := generalized[qi := Generalize(Get(generalized, qi))];
      j := j + 1;
    }
    assert quasiIdentifiers[..j] == quasiIdentifiers;
  }

  function GeneralizedRows(records: seq<Row>, qis: seq<string>): (out: seq<Row>)
    ensures |out| == |records|
    ensures forall i :: 0 <= i < |records| ==> out[i] == GeneralizedRow(records[i], qis)
  {
    seq(|records|, i requires 0 <= i < |records| => GeneralizedRow(records[i], qis))
  }

  /** `records.map(...)`: every record generalised. */
  method GeneralizeRecords(records: seq<Row>, quasiIdentifiers: seq<string>) returns (out: seq<Row>)
    ensures out == GeneralizedRows(records, quasiIdentifiers)
  {
    out := [];
    var i := 0;
    while i < |records|
      invariant 0 <= i <= |records|
      invariant |out| == i
      invariant forall t :: 0 <= t < i ==> out[t] == GeneralizedRow(records[t], quasiIdentifiers)
    {
      var g := GeneralizeRecord(records[i], quasiIdentifiers);
      out := out + [g];
      i := i + 1;
    }
  }

  // ---------------------------------------------------------------------
  // The pass over the classes

  /** What becomes of a class. */
  datatype Fate = Kept | Suppressed | Generalized

  /** The fate of class `j`: kept when it has `k` rows, otherwise suppressed
      if the count of rows in small classes up to and including it is within
      the budget, else generalised. */
  function ClassFate(gs: seq<Group>, j: nat, k: int, maxSuppressed: int): Fate
    requires j < |gs|
  {
    if gs[j].Size() >= k then Kept
    else if RecordsInClassesBelow(gs[..j + 1], k) <= maxSuppressed then Suppressed
    else Generalized
  }

  /** What class `g` contributes, given the suppressed count after it. */
  function ClassOutput(g: Group, counter: int, qis: seq<string>, k: int, maxSuppressed: int): seq<Row> {
    if g.Size() >= k then g.records
    else if counter <= maxSuppressed then []
    else GeneralizedRows(g.records, qis)
  }

  /** `processedData` after the classes `gs`. */
  function Anonymized(gs: seq<Group>, qis: seq<string>, k: int, maxSuppressed: int): seq<Row> {
    if |gs| == 0 then []
    else
      var n := |gs| - 1;
      Anonymized(gs[..n], qis, k, maxSuppressed)
        + ClassOutput(gs[n], RecordsInClassesBelow(gs, k), qis, k, maxSuppressed)
  }

  /** The rows dropped: those of the suppressed classes. */
  function Dropped(gs: seq<Group>, k: int, maxSuppressed: int): nat {
    if |gs| == 0 then 0
    else
      var n := |gs| - 1;
      Dropped(gs[..n], k, maxSuppressed)
        + (if gs[n].Size() < k && RecordsInClassesBelow(gs, k) <= maxSuppressed then gs[n].Size() else 0)
  }

  lemma {:induction false} AnonymizedStep(gs: seq<Group>, i: nat, qis: seq<string>, k: int, maxSuppressed: int)
    requires i < |gs|
    ensures Anonymized(gs[..i + 1], qis, k, maxSuppressed)
         == Anonymized(gs[..i], qis, k, maxSuppressed)
            + ClassOutput(gs[i], RecordsInClassesBelow(gs[..i + 1], k), qis, k, maxSuppressed)
  {
    assert gs[..i + 1][..i] == gs[..i];
  }

  /** `applyKAnonymity`. The information loss `suppressedCount / n` is
      `None` on an empty dataset, where the source computes `0 / 0`, which
      is not a number. */
  method ApplyKAnonymity(data: seq<Row>, quasiIdentifiers: seq<string>, kValue: int, suppressionLimit: real)
    returns (processedData: seq<Row>, suppressedCount: nat, informationLoss: Option<real>)
    ensures var gs := RouteClasses(data, quasiIdentifiers);
      var maxSuppressed := (|data| as real * suppressionLimit).Floor;
      && processedData == Anonymized(gs, quasiIdentifiers, kValue, maxSuppressed)
      && suppressedCount == RecordsInClassesBelow(gs, kValue)
    ensures informationLoss.None? <==> |data| == 0
    ensures informationLoss.Some? ==> informationLoss.value == suppressedCount as real / |data| as real
    ensures informationLoss.Some? ==> 0.0 <= informationLoss.value <= 1.0
  {
    var groups := BuildGroups(RouteKeys(data, quasiIdentifiers), data);
    processedData := [];
    suppressedCount := 0;
    var maxSuppressed := (|data| as real * suppressionLimit).Floor;
    var i := 0;
    while i < |groups|
      invariant 0 <= i <= |groups|
      invariant processedData == Anonymized(groups[..i], quasiIdentifiers, kValue, maxSuppressed)
      invariant suppressedCount == RecordsInClassesBelow(groups[..i], kValue)
    {
      var records := groups[i].records;
      AnonymizedStep(groups, i, quasiIdentifiers, kValue, maxSuppressed);
      RecordsBelowStep(groups, i, kValue);
      if |records| >= kValue {
        processedData := processedData + records;
      } else {
        suppressedCount := suppressedCount + |records|;
        if suppressedCount <= maxSuppressed {
        } else {
          var generalizedRecords := GeneralizeRecords(records, quasiIdentifiers);
          processedData := processedData + generalizedRecords;
        }
      }
      i := i + 1;
    }
    assert groups[..i] == groups;
    RouteClassesSuppressed(data, quasiIdentifiers, kValue);
    if |data| == 0 {
      informationLoss := None;
    } else {
      informationLoss := Some(suppressedCount as real / |data| as real);
      LossIsProportion(suppressedCount, |data|);
    }
  }

  lemma RouteClassesSuppressed(data: seq<Row>, qis: seq<string>, k: int)
    ensures RecordsInClassesBelow(RouteClasses(data, qis), k) <= |data|
  {
    GroupBySizesSum(RouteKeys(data, qis), data);
    RecordsBelowAtMostTotal(RouteClasses(data, qis), k);
  }

  lemma LossIsProportion(s: nat, n: nat)
    requires 0 < n && s <= n
    ensures 0.0 <= s as real / n as real <= 1.0
  {
    assert s as real / n as real * n as real == s as real;
  }

  // ---------------------------------------------------------------------
  // The suppression budget

  /** Never more rows are dropped than are counted as suppressed, and never
      more than the budget (nothing at all when the budget is negative). */
  lemma {:induction false} DroppedWithinBudget(gs: seq<Group>, k: int, maxSuppressed: int)
    ensures Dropped(gs, k, maxSuppressed) <= RecordsInClassesBelow(gs, k)
    ensures Dropped(gs, k, maxSuppressed) == 0 || Dropped(gs, k, maxSuppressed) <= maxSuppressed
  {
    if |gs| > 0 {
      DroppedWithinBudget(gs[..|gs| - 1], k, maxSuppressed);
    }
  }

  /** The output holds every row of the input except the dropped ones. */
  lemma {:induction false} AnonymizedLength(gs: seq<Group>, qis: seq<string>, k: int, maxSuppressed: int)
    ensures |Anonymized(gs, qis, k, maxSuppressed)| + Dropped(gs, k, maxSuppressed) == TotalSize(gs)
  {
    if |gs| > 0 {
      AnonymizedLength(gs[..|gs| - 1], qis, k, maxSuppressed);
      TotalSizeSplit(gs);
    }
  }

  lemma {:induction false} RecordsBelowPrefix(gs: seq<Group>, a: nat, b: nat, k: int)
    requires a <= b <= |gs|
    ensures RecordsInClassesBelow(gs[..a], k) <= RecordsInClassesBelow(gs[..b], k)
    decreases b - a
  {
    if a < b {
      RecordsBelowStep(gs, b - 1, k);
      RecordsBelowPrefix(gs, a, b - 1, k);
    }
  }

  /** The rows a class of the given fate contributes. */
  function FateRows(fate: Fate, g: Group, qis: seq<string>): seq<Row> {
    match fate
    case Kept => g.records
    case Suppressed => []
    case Generalized => GeneralizedRows(g.records, qis)
  }

  /** The output grows class by class, each class contributing the rows of
      its fate. */
  lemma AnonymizedByFate(gs: seq<Group>, j: nat, qis: seq<string>, k: int, maxSuppressed: int)
    requires j < |gs|
    ensures Anonymized(gs[..j + 1], qis, k, maxSuppressed)
         == Anonymized(gs[..j], qis, k, maxSuppressed) + FateRows(ClassFate(gs, j, k, maxSuppressed), gs[j], qis)
  {
    AnonymizedStep(gs, j, qis, k, maxSuppressed);
  }

  /** Once a small class is generalised, every later small class is
      generalised too, since the suppressed count only grows: the output
      then carries that class's generalised rows. */
  lemma GeneralizedStaysGeneralized(gs: seq<Group>, i: nat, j: nat, qis: seq<string>, k: int, maxSuppressed: int)
    requires i < j < |gs|
    requires ClassFate(gs, i, k, maxSuppressed) == Generalized && gs[j].Size() < k
    ensures ClassFate(gs, j, k, maxSuppressed) == Generalized
    ensures Anonymized(gs[..j + 1], qis, k, maxSuppressed)
         == Anonymized(gs[..j], qis, k, maxSuppressed) + GeneralizedRows(gs[j].records, qis)
  {
    RecordsBelowPrefix(gs, i + 1, j + 1, k);
    AnonymizedByFate(gs, j, qis, k, maxSuppressed);
  }

  /** With a budget of zero (`suppressionLimit` 0) nothing is dropped. */
  lemma {:induction false} NothingDroppedWithoutBudget(gs: seq<Group>, k: int)
    requires AllNonEmpty(gs)
    ensures Dropped(gs, k, 0) == 0
  {
    if |gs| > 0 {
      var n := |gs| - 1;
      assert forall j :: 0 <= j < n ==> gs[..n][j] == gs[j];
      NothingDroppedWithoutBudget(gs[..n], k);
    }
  }

  /** The rows of the classes with at least `k` rows, in class order. */
  function KeptRows(gs: seq<Group>, k: int): seq<Row> {
    if |gs| == 0 then []
    else
      var n := |gs| - 1;
      KeptRows(gs[..n], k) + (if gs[n].Size() >= k then gs[n].records else [])
  }

  /** With a budget covering every row (`suppressionLimit` 1 or more) every
      small class is dropped and only the large classes remain. */
  lemma {:induction false} EverythingDroppedWithFullBudget(gs: seq<Group>, qis: seq<string>, k: int, maxSuppressed: int)
    requires TotalSize(gs) <= maxSuppressed
    ensures Dropped(gs, k, maxSuppressed) == RecordsInClassesBelow(gs, k)
    ensures Anonymized(gs, qis, k, maxSuppressed) == KeptRows(gs, k)
  {
    if |gs| > 0 {
      var n := |gs| - 1;
      TotalSizeSplit(gs);
      assert forall j :: 0 <= j < n ==> gs[..n][j] == gs[j];
      EverythingDroppedWithFullBudget(gs[..n], qis, k, maxSuppressed);
      RecordsBelowAtMostTotal(gs, k);
    }
  }

  /** Already k-anonymous classes come out as they went in: nothing is
      suppressed and the output is the rows in class order. */
  lemma {:induction false} KAnonymousUnchanged(gs: seq<Group>, qis: seq<string>, k: int, maxSuppressed: int)
    requires forall j :: 0 <= j < |gs| ==> gs[j].Size() >= k
    ensures Anonymized(gs, qis, k, maxSuppressed) == KeptRows(gs, k)
    ensures RecordsInClassesBelow(gs, k) == 0
  {
    if |gs| > 0 {
      var n := |gs| - 1;
      assert forall j :: 0 <= j < n ==> gs[..n][j] == gs[j];
      KAnonymousUnchanged(gs[..n], qis, k, maxSuppressed);
    }
  }

  /** Every output row is a row of a class with at least `k` rows, or a
      generalised row of a smaller class. */
  lemma {:induction false} OutputRowsOrigin(gs: seq<Group>, qis: seq<string>, k: int, maxSuppressed: int)
    ensures forall r :: r in Anonymized(gs, qis, k, maxSuppressed) ==>
      r in KeptRows(gs, k) || exists x :: x in Flatten(gs) && r == GeneralizedRow(x, qis)
  {
    if |gs| > 0 {
      var n := |gs| - 1;
      var prev := Anonymized(gs[..n], qis, k, maxSuppressed);
      var last := ClassOutput(gs[n], RecordsInClassesBelow(gs, k), qis, k, maxSuppressed);
      OutputRowsOrigin(gs[..n], qis, k, maxSuppressed);
      FlattenSplit(gs);
      forall r | r in prev + last
        ensures r in KeptRows(gs, k) || exists x :: x in Flatten(gs) && r == GeneralizedRow(x, qis)
      {
        if r in prev {
          if r !in KeptRows(gs[..n], k) {
            var x :| x in Flatten(gs[..n]) && r == GeneralizedRow(x, qis);
            assert x in Flatten(gs);
          }
        } else if gs[n].Size() < k {
          var i :| 0 <= i < |last| && last[i] == r;
          assert gs[n].records[i] in Flatten(gs);
        }
      }
    }
  }

  lemma FlattenSplit(gs: seq<Group>)
    requires |gs| > 0
    ensures Flatten(gs) == Flatten(gs[..|gs| - 1]) + gs[|gs| - 1].records
  {
    var n := |gs| - 1;
    assert gs == gs[..n] + [gs[n]];
    FlattenAppend(gs[..n], gs[n]);
  }
}
