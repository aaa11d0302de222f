/** Data quality at upload and the auto-fix: completeness (cells that hold
    something), exact duplicate rows, spelling consistency of text columns,
    the weighted quality score, and the repairs the auto-fix applies
    (de-duplication, standardisation, default values). */
module DataQuality {
  import opened Records
  import opened Seqs
  import opened Standardize

  // ---------------------------------------------------------------------
  // Completeness

  /** The number of `cols` (counted with repetition) whose cell in `row`
      holds something. */
  function FilledInRow(row: Row, cols: seq<string>): nat {
    if |cols| == 0 then 0
    else
      var n := |cols| - 1;
      FilledInRow(row, cols[..n]) + if Present(Get(row, cols[n])) then 1 else 0
  }

  /** The filled cells of the whole dataset. */
  function FilledCells(data: seq<Row>, cols: seq<string>): nat {
    if |data| == 0 then 0
    else
      var n := |data| - 1;
      FilledCells(data[..n], cols) + FilledInRow(data[n], cols)
  }

  /** Every cell of `cols` in `row` holds something. */
  predicate RowComplete(row: Row, cols: seq<string>) {
    forall c :: c in cols ==> Present(Get(row, c))
  }

  /** A row fills at most one cell per column, and all of them exactly when
      it is complete. */
  lemma {:induction false} FilledInRowBound(row: Row, cols: seq<string>)
    ensures FilledInRow(row, cols) <= |cols|
    ensures FilledInRow(row, cols) == |cols| <==> RowComplete(row, cols)
  {
    if |cols| > 0 {
      var n := |cols| - 1;
      FilledInRowBound(row, cols[..n]);
      assert forall c :: c in cols <==> c in cols[..n] || c == cols[n];
    }
  }

  /** At most every cell is filled, and all are exactly when every row is
      complete. */
  lemma {:induction false} FilledCellsBound(data: seq<Row>, cols: seq<string>)
    ensures FilledCells(data, cols) <= |data| * |cols|
    ensures FilledCells(data, cols) == |data| * |cols| <==> forall i :: 0 <= i < |data| ==> RowComplete(data[i], cols)
  {
    if |data| > 0 {
      var n := |data| - 1;
      FilledCellsBound(data[..n], cols);
      FilledInRowBound(data[n], cols);
      assert |data| * |cols| == n * |cols| + |cols|;
      assert forall i :: 0 <= i < n ==> data[..n][i] == data[i];
    }
  }

  /** The inner loop of the completeness count, over the columns of one
      row. */
  method CountRowCells(row: Row, columns: seq<string>) returns (filled: nat)
    ensures filled == FilledInRow(row, columns)
  {
    filled := 0;
    var j := 0;
    while j < |columns|
      invariant 0 <= j <= |columns|
      invariant filled == FilledInRow(row, columns[..j])
    {
      assert columns[..j + 1][..j] == columns[..j];
      var v := Get(row, columns[j]);
      if v != Null && v != Str("") {
        filled := filled + 1;
      }
      j := j + 1;
    }
    assert columns[..j] == columns;
  }

  /** The completeness count: `totalCells` and `filledCells`. */
  method CountCells(data: seq<Row>, columns: seq<string>) returns (totalCells: nat, filledCells: nat)
    ensures totalCells == |data| * |columns|
    ensures filledCells == FilledCells(data, columns)
    ensures filledCells <= totalCells
  {
    totalCells, filledCells := 0, 0;
    var i := 0;
    while i < |data|
      invariant 0 <= i <= |data|
      invariant totalCells == i * |columns|
      invariant filledCells == FilledCells(data[..i], columns)
    {
      assert data[..i + 1][..i] == data[..i];
      var filled := CountRowCells(data[i], columns);
      totalCells := totalCells + |columns|;
      filledCells := filledCells + filled;
      i := i + 1;
    }
    assert data[..i] == data;
    FilledCellsBound(data, columns);
  }

  // ---------------------------------------------------------------------
  // Duplicates

  /** The duplicate count: a row whose signature was seen before counts
      once more; that is every row beyond the distinct ones. */
  method CountDuplicateRows(data: seq<Row>) returns (duplicateRows: nat)
    ensures duplicateRows == |data| - |Dedup(data)|
  {
    var rowSignatures: set<Row> := {};
    duplicateRows := 0;
    var i := 0;
    while i < |data|
      invariant 0 <= i <= |data|
      invariant forall r :: r in rowSignatures <==> r in data[..i]
      invariant duplicateRows == i - |Dedup(data[..i])|
    {
      var row := data[i];
      ghost var seen := data[..i];
      assert data[..i + 1] == seen + [row];
      DedupAppend(seen, row);
      DedupMembers(seen, row);
      if row in rowSignatures {
        duplicateRows := duplicateRows + 1;
      }
      rowSignatures := rowSignatures + {row};
      i := i + 1;
    }
    assert data[..i] == data;
  }

  /** No duplicate is counted exactly when no row repeats. */
  lemma NoDuplicateRows(data: seq<Row>)
    ensures |data| - |Dedup(data)| == 0 <==> NoDuplicates(data)
  {
    if NoDuplicates(data) {
      DedupOfDistinct(data);
    }
    if |Dedup(data)| == |data| {
      DistinctWhenNothingLost(data);
    }
  }

  // ---------------------------------------------------------------------
  // Consistency

  /** The text at `t` has a canonical variant that is non-empty and differs
      from it (`canonical && val !== canonical`). */
  predicate Inconsistent(vals: seq<string>, t: nat)
    requires t < |vals|
  {
    var canonical := Canon(vals, vals[t]);
    canonical != "" && vals[t] != canonical
  }

  /** The inconsistent texts among the first `n`. */
  function InconsistentBelow(vals: seq<string>, n: nat): nat
    requires n <= |vals|
  {
    if n == 0 then 0
    else InconsistentBelow(vals, n - 1) + if Inconsistent(vals, n - 1) then 1 else 0
  }

  /** The inconsistent records of one column. */
  function ColumnInconsistent(data: seq<Row>, col: string): nat {
    var vals := ColumnTexts(data, col);
    InconsistentBelow(vals, |vals|)
  }

  /** The per-column counts of `cols`, in order. */
  function ColumnCounts(data: seq<Row>, cols: seq<string>): (r: seq<nat>)
    ensures |r| == |cols|
    ensures forall j :: 0 <= j < |cols| ==> r[j] == ColumnInconsistent(data, cols[j])
  {
    seq(|cols|, j requires 0 <= j < |cols| => ColumnInconsistent(data, cols[j]))
  }

  /** The sum of a sequence of counts. */
  function Total(xs: seq<nat>): nat {
    if |xs| == 0 then 0 else Total(xs[..|xs| - 1]) + xs[|xs| - 1]
  }

  /** A sum of counts is zero exactly when every count is. */
  lemma {:induction false} TotalZero(xs: seq<nat>)
    ensures Total(xs) == 0 <==> forall j :: 0 <= j < |xs| ==> xs[j] == 0
  {
    if |xs| > 0 {
      var n := |xs| - 1;
      TotalZero(xs[..n]);
      assert forall j :: 0 <= j < n ==> xs[..n][j] == xs[j];
    }
  }

  /** The inconsistent records of the columns `cols`, summed column by
      column. */
  function InconsistentRecords(data: seq<Row>, cols: seq<string>): nat {
    Total(ColumnCounts(data, cols))
  }

  /** The empty guard on the canonical variant never matters: only an empty
      text has an empty canonical variant. */
  lemma InconsistentIsVariant(vals: seq<string>, t: nat)
    requires t < |vals|
    ensures Inconsistent(vals, t) <==> Canon(vals, vals[t]) != vals[t]
  {
    if Canon(vals, vals[t]) == "" {
      assert Normalize(vals[t]) == "";
    }
  }

  /** No text among the first `n` is inconsistent exactly when none
      differs from its canonical variant. */
  lemma {:induction false} NoneInconsistentBelow(vals: seq<string>, n: nat)
    requires n <= |vals|
    ensures InconsistentBelow(vals, n) == 0 <==> forall t :: 0 <= t < n ==> Canon(vals, vals[t]) == vals[t]
  {
    if n > 0 {
      NoneInconsistentBelow(vals, n - 1);
      InconsistentIsVariant(vals, n - 1);
    }
  }

  /** A column counts no inconsistent record exactly when its spellings do
      not vary. */
  lemma ConsistentIffSettled(vals: seq<string>)
    ensures InconsistentBelow(vals, |vals|) == 0 <==> !Varies(vals)
  {
    NoneInconsistentBelow(vals, |vals|);
  }

  /** The dataset counts no inconsistent record exactly when none of the
      columns varies. */
  lemma ConsistentColumns(data: seq<Row>, cols: seq<string>)
    ensures InconsistentRecords(data, cols) == 0 <==> forall c :: c in cols ==> !Varies(ColumnTexts(data, c))
  {
    var counts := ColumnCounts(data, cols);
    TotalZero(counts);
    forall c | c in cols ensures ColumnInconsistent(data, c) == 0 <==> !Varies(ColumnTexts(data, c)) {
      ConsistentIffSettled(ColumnTexts(data, c));
    }
    if forall c :: c in cols ==> !Varies(ColumnTexts(data, c)) {
      forall j | 0 <= j < |cols| ensures counts[j] == 0 {
        assert cols[j] in cols;
      }
    }
  }

  /** The canonical map holds every text of the column, and the text's
      canonical variant decides whether it counts. */
  lemma CanonicalAt(vals: seq<string>, i: nat)
    requires i < |vals|
    ensures vals[i] in CanonicalMap(vals)
    ensures var canonical := CanonicalMap(vals)[vals[i]];
      InconsistentBelow(vals, i + 1) == InconsistentBelow(vals, i) + if canonical != "" && vals[i] != canonical then 1 else 0
  {
  }

  /** Adding the next count to the sum of the counts before it. */
  lemma TotalStep(xs: seq<nat>, j: nat)
    requires j < |xs|
    ensures Total(xs[..j + 1]) == Total(xs[..j]) + xs[j]
  {
    assert xs[..j + 1][..j] == xs[..j];
  }

  /** The count of one column: the canonical map is built as for
      standardisation, then every text is checked against it. */
  method CountColumnInconsistent(vals: seq<string>) returns (count: nat)
    ensures count == InconsistentBelow(vals, |vals|)
  {
    var canonicalMap, _, _ := AnalyzeColumn(vals);
    count := CountAgainst(vals, canonicalMap);
  }

  /** Checks every text of a column against the column's canonical map. */
  method CountAgainst(vals: seq<string>, canonicalMap: map<string, string>) returns (count: nat)
    requires canonicalMap == CanonicalMap(vals)
    ensures count == InconsistentBelow(vals, |vals|)
  {
    count := 0;
    var i := 0;
    while i < |vals|
      invariant 0 <= i <= |vals|
      invariant count == InconsistentBelow(vals, i)
    {
      CanonicalAt(vals, i);
      var canonical := canonicalMap[vals[i]];
      if canonical != "" && vals[i] != canonical {
        count := count + 1;
      }
      i := i + 1;
    }
  }

  /** `inconsistentRecords`, summed over the string columns. */
  method CountInconsistent(data: seq<Row>, stringColumns: seq<string>) returns (inconsistentRecords: nat)
    ensures inconsistentRecords == InconsistentRecords(data, stringColumns)
  {
    inconsistentRecords := 0;
    ghost var counts := ColumnCounts(data, stringColumns);
    var j := 0;
    while j < |stringColumns|
      invariant 0 <= j <= |stringColumns|
      invariant inconsistentRecords == Total(counts[..j])
    {
      TotalStep(counts, j);
      var vals := ColumnTexts(data, stringColumns[j]);
      var count := CountColumnInconsistent(vals);
      assert count == counts[j];
      inconsistentRecords := inconsistentRecords + count;
      j := j + 1;
    }
    assert counts[..j] == counts;
  }

  /** Standardised data has no inconsistent record. */
  lemma StandardizedIsConsistent(data: seq<Row>, columns: seq<string>)
    ensures var out := Standardize.Standardize(data, columns).0;
      InconsistentRecords(out, StringColumns(out, columns)) == 0
  {
    var out := Standardize.Standardize(data, columns).0;
    StandardizedSettled(data, columns);
    ConsistentColumns(out, StringColumns(out, columns));
  }

  // ---------------------------------------------------------------------
  // Scores

  /** The four upload scores, each in [0, 1]. */
  datatype QualityScores = QualityScores(completeness: real, duplication: real, consistency: real, quality: real)

  /** `totalCells > 0 ? filledCells / totalCells : 0`. */
  function CompletenessScore(totalCells: nat, filledCells: nat): real {
    if totalCells > 0 then filledCells as real / totalCells as real else 0.0
  }

  /** `duplicateRows > 0 ? Math.max(0, 1 - duplicateRows / data.length) : 1`. */
  function DuplicationScore(duplicateRows: nat, records: nat): real
    requires duplicateRows <= records
  {
    if duplicateRows > 0 then RealMax(0.0, 1.0 - duplicateRows as real / records as real) else 1.0
  }

  /** `inconsistentRecords > 0 ? Math.max(0.1, 1 - inconsistentRecords /
      Math.max(1, data.length * 0.5)) : 1`. */
  function ConsistencyScore(inconsistentRecords: nat, records: nat): real {
    if inconsistentRecords > 0 then
      RealMax(0.1, 1.0 - inconsistentRecords as real / RealMax(1.0, records as real * 0.5))
    else 1.0
  }

  /** The weighted score `0.4 * completeness + 0.35 * duplication + 0.25 *
      consistency`, clamped to [0, 1]. */
  function WeightedQuality(completeness: real, duplication: real, consistency: real): real {
    RealMax(0.0, RealMin(1.0, completeness * 0.4 + duplication * 0.35 + consistency * 0.25))
  }

  /** The scores the upload computes for `data` with the declared
      `columns`. */
  function UploadScores(data: seq<Row>, columns: seq<string>): QualityScores {
    var completeness := CompletenessScore(|data| * |columns|, FilledCells(data, columns));
    var duplication := DuplicationScore(|data| - |Dedup(data)|, |data|);
    var consistency := ConsistencyScore(InconsistentRecords(data, StringColumns(data, columns)), |data|);
    QualityScores(completeness, duplication, consistency, WeightedQuality(completeness, duplication, consistency))
  }

  /** The quality scoring of an upload: the three counts, then the scores. */
  method ScoreUpload(data: seq<Row>, columns: seq<string>) returns (scores: QualityScores)
    ensures scores == UploadScores(data, columns)
  {
    var totalCells, filledCells := CountCells(data, columns);
    var duplicateRows := CountDuplicateRows(data);
    var inconsistentRecords := CountInconsistent(data, StringColumns(data, columns));
    var completenessScore := CompletenessScore(totalCells, filledCells);
    var duplicationScore := DuplicationScore(duplicateRows, |data|);
    var consistencyScore := ConsistencyScore(inconsistentRecords, |data|);
    scores := QualityScores(completenessScore, duplicationScore, consistencyScore,
                            WeightedQuality(completenessScore, duplicationScore, consistencyScore));
  }

  /** A count over a positive total gives a fraction in [0, 1], and 1 only
      for the whole. */
  lemma FractionBounds(part: nat, whole: nat)
    requires part <= whole && whole > 0
    ensures 0.0 <= part as real / whole as real <= 1.0
    ensures part as real / whole as real == 1.0 <==> part == whole
  {
    var p, w := part as real, whole as real;
    DivNonNeg(p, w);
    DivNonNeg(w - p, w);
    assert p / w + (w - p) / w == 1.0;
    if p / w == 1.0 {
      assert p == p / w * w;
    }
  }

  /** A non-negative number over a positive one. */
  lemma DivNonNeg(a: real, b: real)
    requires 0.0 <= a && 0.0 < b
    ensures 0.0 <= a / b
  {
  }

  /** Completeness is the filled fraction of the cells: in [0, 1], 1
      exactly when every cell is filled, 0 when there is no cell. */
  lemma CompletenessBounds(totalCells: nat, filledCells: nat)
    requires filledCells <= totalCells
    ensures 0.0 <= CompletenessScore(totalCells, filledCells) <= 1.0
    ensures CompletenessScore(totalCells, filledCells) == 1.0 <==> totalCells > 0 && filledCells == totalCells
  {
    if totalCells > 0 {
      FractionBounds(filledCells, totalCells);
    }
  }

  /** Duplication lies in [0, 1] and is 1 exactly when no row is a
      duplicate. */
  lemma DuplicationBounds(duplicateRows: nat, records: nat)
    requires duplicateRows <= records
    ensures 0.0 <= DuplicationScore(duplicateRows, records) <= 1.0
    ensures DuplicationScore(duplicateRows, records) == 1.0 <==> duplicateRows == 0
  {
    if duplicateRows > 0 {
      FractionBounds(duplicateRows, records);
    }
  }

  /** Consistency lies in [0.1, 1] and is 1 exactly when no record is
      inconsistent. */
  lemma ConsistencyBounds(inconsistentRecords: nat, records: nat)
    ensures 0.1 <= ConsistencyScore(inconsistentRecords, records) <= 1.0
    ensures ConsistencyScore(inconsistentRecords, records) == 1.0 <==> inconsistentRecords == 0
  {
    if inconsistentRecords > 0 {
      var d := RealMax(1.0, records as real * 0.5);
      var q := inconsistentRecords as real / d;
      assert q * d == inconsistentRecords as real;
      assert q > 0.0;
    }
  }

  /** The weighted score of three scores in [0, 1] lies in [0, 1] and is 1
      exactly when all three are. */
  lemma WeightedQualityOne(completeness: real, duplication: real, consistency: real)
    requires 0.0 <= completeness <= 1.0 && 0.0 <= duplication <= 1.0 && 0.0 <= consistency <= 1.0
    ensures 0.0 <= WeightedQuality(completeness, duplication, consistency) <= 1.0
    ensures WeightedQuality(completeness, duplication, consistency) == 1.0 <==>
      completeness == 1.0 && duplication == 1.0 && consistency == 1.0
  {
  }

  /** The completeness of an upload lies in [0, 1] and is 1 exactly when
      there is a cell and every declared cell is filled. */
  lemma CompletenessMeaning(data: seq<Row>, columns: seq<string>)
    ensures var c := CompletenessScore(|data| * |columns|, FilledCells(data, columns));
      0.0 <= c <= 1.0 &&
      (c == 1.0 <==> |data| * |columns| > 0 && forall i :: 0 <= i < |data| ==> RowComplete(data[i], columns))
  {
    FilledCellsBound(data, columns);
    CompletenessBounds(|data| * |columns|, FilledCells(data, columns));
  }

  /** The duplication of an upload lies in [0, 1] and is 1 exactly when no
      row repeats. */
  lemma DuplicationMeaning(data: seq<Row>)
    ensures var d := DuplicationScore(|data| - |Dedup(data)|, |data|);
      0.0 <= d <= 1.0 && (d == 1.0 <==> NoDuplicates(data))
  {
    NoDuplicateRows(data);
    DuplicationIff(|data| - |Dedup(data)|, |data|, NoDuplicates(data));
  }

  /** The duplication score lies in [0, 1] and is 1 exactly when a
      condition equivalent to "no duplicate row" holds. */
  lemma DuplicationIff(duplicateRows: nat, records: nat, distinct: bool)
    requires duplicateRows <= records
    requires duplicateRows == 0 <==> distinct
    ensures var d := DuplicationScore(duplicateRows, records);
      0.0 <= d <= 1.0 && (d == 1.0 <==> distinct)
  {
    DuplicationBounds(duplicateRows, records);
  }

  /** The consistency of an upload lies in [0.1, 1] and is 1 exactly when
      no string column has varying spellings. */
  lemma ConsistencyMeaning(data: seq<Row>, columns: seq<string>)
    ensures var k := ConsistencyScore(InconsistentRecords(data, StringColumns(data, columns)), |data|);
      0.1 <= k <= 1.0 &&
      (k == 1.0 <==> forall c :: c in StringColumns(data, columns) ==> !Varies(ColumnTexts(data, c)))
  {
    ConsistencyBounds(InconsistentRecords(data, StringColumns(data, columns)), |data|);
    ConsistentColumns(data, StringColumns(data, columns));
  }

  /** Every upload score lies in [0, 1] and consistency never drops below
      0.1. The weighted score is 1 exactly when every declared cell is
      filled (with at least one cell), no row repeats and no string column
      has varying spellings. */
  lemma UploadScoresMeaning(data: seq<Row>, columns: seq<string>)
    ensures var s := UploadScores(data, columns);
      0.0 <= s.completeness <= 1.0 && 0.0 <= s.duplication <= 1.0 &&
      0.1 <= s.consistency <= 1.0 && 0.0 <= s.quality <= 1.0
    ensures var s := UploadScores(data, columns);
      (s.completeness == 1.0 <==> |data| * |columns| > 0 && forall i :: 0 <= i < |data| ==> RowComplete(data[i], columns)) &&
      (s.duplication == 1.0 <==> NoDuplicates(data)) &&
      (s.consistency == 1.0 <==> forall c :: c in StringColumns(data, columns) ==> !Varies(ColumnTexts(data, c))) &&
      (s.quality == 1.0 <==> s.completeness == 1.0 && s.duplication == 1.0 && s.consistency == 1.0)
  {
    var s := UploadScores(data, columns);
    CompletenessMeaning(data, columns);
    DuplicationMeaning(data);
    ConsistencyMeaning(data, columns);
    ScoresCombine(s);
  }

  /** Scores in range combine into a weighted score in [0, 1] that is 1
      exactly when all three are. */
  lemma ScoresCombine(s: QualityScores)
    requires 0.0 <= s.completeness <= 1.0 && 0.0 <= s.duplication <= 1.0 && 0.1 <= s.consistency <= 1.0
    requires s.quality == WeightedQuality(s.completeness, s.duplication, s.consistency)
    ensures 0.0 <= s.quality <= 1.0
    ensures s.quality == 1.0 <==> s.completeness == 1.0 && s.duplication == 1.0 && s.consistency == 1.0
  {
    WeightedQualityOne(s.completeness, s.duplication, s.consistency);
  }
}
