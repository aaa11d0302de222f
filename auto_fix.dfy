/** The auto-fix of a stored dataset: exact duplicate rows are removed
    (the first occurrence stays), text spellings are standardised, missing
    cells of number columns get the column's upper median and missing cells
    of text columns get "Unknown", and the completeness score is computed
    again. */
module AutoFix {
  import opened Records
  import opened Seqs
  import opened Standardize
  import opened DataQuality

  /** The fix reported for the duplicates. */
  function RemovedMessage(removed: nat): string {
    "Removed " + NatText(removed) + " duplicate records"
  }

  /** The fix reported last whenever some other fix was reported. */
  const FilledMessage: string := "Filled missing values with appropriate defaults"

  // ---------------------------------------------------------------------
  // Fix 1: duplicates

  /** Every row of `s` after the first; de-duplication keeps the first row
      in front. */
  lemma {:induction false} DedupKeepsFirst<T>(s: seq<T>)
    requires |s| > 0
    ensures |Dedup(s)| > 0 && Dedup(s)[0] == s[0]
  {
    if |s| > 1 {
      var n := |s| - 1;
      DedupKeepsFirst(s[..n]);
    }
  }

  /** One more row of `s`: its de-duplication grows by that row exactly
      when the row is not among the rows kept so far. */
  lemma DedupStep<T>(s: seq<T>, i: nat)
    requires i < |s|
    ensures Dedup(s[..i + 1]) == if s[i] in Dedup(s[..i]) then Dedup(s[..i]) else Dedup(s[..i]) + [s[i]]
  {
    assert s[..i + 1] == s[..i] + [s[i]];
    DedupAppend(s[..i], s[i]);
  }

  /** When de-duplication loses nothing it changes nothing. */
  lemma NothingLost<T>(s: seq<T>)
    requires |Dedup(s)| == |s|
    ensures Dedup(s) == s
  {
    DistinctWhenNothingLost(s);
    DedupOfDistinct(s);
  }

  /** The `uniqueRows` map: each row signature keeps its first row, in the
      order the signatures were first seen. When nothing was removed the
      data stays as it was. */
  method RemoveDuplicates(data: seq<Row>) returns (unique: seq<Row>, duplicatesRemoved: nat)
    ensures unique == Dedup(data)
    ensures duplicatesRemoved == |data| - |Dedup(data)|
  {
    var signatures: set<Row> := {};
    var uniqueRows: seq<Row> := [];
    var i := 0;
    while i < |data|
      invariant 0 <= i <= |data|
      invariant uniqueRows == Dedup(data[..i])
      invariant forall r :: r in signatures <==> r in uniqueRows
    {
      var row := data[i];
      DedupStep(data, i);
      if row !in signatures {
        signatures := signatures + {row};
        uniqueRows := uniqueRows + [row];
      }
      i := i + 1;
    }
    assert data[..i] == data;
    duplicatesRemoved := |data| - |uniqueRows|;
    if duplicatesRemoved > 0 {
      unique := uniqueRows;
    } else {
      NothingLost(data);
      unique := data;
    }
  }

  // ---------------------------------------------------------------------
  // Fix 3: missing values

  /** `data.map(row => row[col]).filter(val => typeof val === "number")`. */
  function ColumnNumbers(data: seq<Row>, col: string): (r: seq<real>)
    ensures |r| <= |data|
  {
    if |data| == 0 then []
    else
      var n := |data| - 1;
      var v := Get(data[n], col);
      ColumnNumbers(data[..n], col) + if v.Num? then [v.x] else []
  }

  /** The numbers of a column are exactly its number cells. */
  lemma {:induction false} ColumnNumbersMembers(data: seq<Row>, col: string, x: real)
    ensures x in ColumnNumbers(data, col) <==> exists i :: 0 <= i < |data| && Get(data[i], col) == Num(x)
  {
    if |data| > 0 {
      var n := |data| - 1;
      ColumnNumbersMembers(data[..n], col, x);
      if exists i :: 0 <= i < |data| && Get(data[i], col) == Num(x) {
        var i :| 0 <= i < |data| && Get(data[i], col) == Num(x);
        if i < n {
          assert Get(data[..n][i], col) == Num(x);
        }
      }
      if exists i :: 0 <= i < n && Get(data[..n][i], col) == Num(x) {
        var i :| 0 <= i < n && Get(data[..n][i], col) == Num(x);
        assert Get(data[i], col) == Num(x);
      }
    }
  }

  /** `values.sort((a, b) => a - b)[Math.floor(values.length / 2)]`: the
      upper median, one of the values. */
  function Median(values: seq<real>): (m: real)
    requires |values| > 0
    ensures m in values
  {
    var sorted := SortAscending(values);
    assert sorted[|values| / 2] in multiset(sorted);
    sorted[|values| / 2]
  }

  /** Two ascending orders of the same numbers are the same sequence. */
  lemma {:induction false} SortedUnique(a: seq<real>, b: seq<real>)
    requires SortedReals(a) && SortedReals(b) && multiset(a) == multiset(b)
    ensures a == b
    decreases |a|
  {
    assert |a| == |multiset(a)| == |multiset(b)| == |b|;
    if |a| > 0 {
      SortedHeads(a, b);
      SortedTail(a);
      SortedTail(b);
      SortedUnique(a[1..], b[1..]);
      assert a == [a[0]] + a[1..] && b == [b[0]] + b[1..];
    }
  }

  /** Ascending orders of the same numbers start with the same number. */
  lemma SortedHeads(a: seq<real>, b: seq<real>)
    requires SortedReals(a) && SortedReals(b) && multiset(a) == multiset(b) && |a| > 0 && |b| > 0
    ensures a[0] == b[0]
  {
    assert a[0] in multiset(b) && b[0] in multiset(a);
    var j :| 0 <= j < |b| && b[j] == a[0];
    var i :| 0 <= i < |a| && a[i] == b[0];
    assert b[0] <= b[j] && a[0] <= a[i];
  }

  /** The rest of an ascending order is an ascending order of the other
      numbers. */
  lemma SortedTail(a: seq<real>)
    requires SortedReals(a) && |a| > 0
    ensures SortedReals(a[1..]) && multiset(a[1..]) == multiset(a) - multiset{a[0]}
  {
    assert a == [a[0]] + a[1..];
  }

  /** The median does not depend on how the values are sorted: it is the
      middle element (the upper one for an even count) of every ascending
      arrangement of the values. */
  lemma MedianIsMiddle(values: seq<real>, sorted: seq<real>)
    requires |values| > 0
    requires SortedReals(sorted) && multiset(sorted) == multiset(values)
    ensures |sorted| == |values|
    ensures Median(values) == sorted[|values| / 2]
    ensures forall i :: 0 <= i < |values| / 2 ==> sorted[i] <= Median(values)
    ensures forall i :: |values| / 2 <= i < |values| ==> Median(values) <= sorted[i]
  {
    SortedUnique(SortAscending(values), sorted);
  }

  /** `!row[col] ? { ...row, [col]: v } : row`: a falsy (or missing) cell
      takes `v`. */
  function FillCell(row: Row, col: string, v: Value): Row {
    if Truthy(Get(row, col)) then row else row[col := v]
  }

  /** The `data.map` that fills one column. */
  function FillColumn(data: seq<Row>, col: string, v: Value): (out: seq<Row>)
    ensures |out| == |data|
  {
    seq(|data|, i requires 0 <= i < |data| => FillCell(data[i], col, v))
  }

  /** Filling a column sets exactly its falsy cells to `v` and changes no
      other cell. */
  lemma FillColumnCell(data: seq<Row>, col: string, v: Value, i: nat, c: string)
    requires i < |data|
    ensures Get(FillColumn(data, col, v)[i], c) ==
      if c == col && !Truthy(Get(data[i], c)) then v else Get(data[i], c)
  {
  }

  /** A number column filled with its median (left alone when it holds no
      number). */
  function FillNumeric(data: seq<Row>, col: string): seq<Row> {
    var values := ColumnNumbers(data, col);
    if |values| > 0 then FillColumn(data, col, Num(Median(values))) else data
  }

  /** `numericColumns.forEach(col => data = ...)`. */
  function FillNumericColumns(data: seq<Row>, cols: seq<string>): seq<Row>
    decreases |cols|
  {
    if |cols| == 0 then data else FillNumericColumns(FillNumeric(data, cols[0]), cols[1..])
  }

  /** `stringColumns.forEach(col => data = ...)`. */
  function FillStringColumns(data: seq<Row>, cols: seq<string>): seq<Row>
    decreases |cols|
  {
    if |cols| == 0 then data else FillStringColumns(FillColumn(data, cols[0], Str("Unknown")), cols[1..])
  }

  /** The number columns, each filled with its median. */
  method FillNumbers(data: seq<Row>, numericColumns: seq<string>) returns (out: seq<Row>)
    ensures out == FillNumericColumns(data, numericColumns)
  {
    out := data;
    var j := 0;
    while j < |numericColumns|
      invariant 0 <= j <= |numericColumns|
      invariant FillNumericColumns(out, numericColumns[j..]) == FillNumericColumns(data, numericColumns)
    {
      assert numericColumns[j..][1..] == numericColumns[j + 1..];
      var col := numericColumns[j];
      var values := ColumnNumbers(out, col);
      if |values| > 0 {
        var sorted := SortAscending(values);
        var median := sorted[|values| / 2];
        out := FillColumn(out, col, Num(median));
      }
      j := j + 1;
    }
  }

  /** The text columns, each filled with "Unknown". */
  method FillTexts(data: seq<Row>, stringColumns: seq<string>) returns (out: seq<Row>)
    ensures out == FillStringColumns(data, stringColumns)
  {
    out := data;
    var j := 0;
    while j < |stringColumns|
      invariant 0 <= j <= |stringColumns|
      invariant FillStringColumns(out, stringColumns[j..]) == FillStringColumns(data, stringColumns)
    {
      assert stringColumns[j..][1..] == stringColumns[j + 1..];
      out := FillColumn(out, stringColumns[j], Str("Unknown"));
      j := j + 1;
    }
  }

  // ---------------------------------------------------------------------
  // The whole auto-fix

  /** The repaired data, the fixes reported, the duplicates removed and the
      recomputed scores. */
  datatype AutoFixResult = AutoFixResult(
    data: seq<Row>, fixes: seq<string>, duplicatesRemoved: nat, completeness: real, quality: real)

  /** The missing values of `data` filled: the number and text columns are
      those of `data`'s first row. */
  function FillMissing(data: seq<Row>, columns: seq<string>): seq<Row> {
    FillStringColumns(FillNumericColumns(data, NumericColumns(data, columns)), StringColumns(data, columns))
  }

  /** The fixes reported: the duplicates removed, the standardised
      columns, and the fill message whenever either of those was
      reported. */
  function Fixes(removed: nat, standardizationFixes: seq<string>): seq<string> {
    var fixes := (if removed > 0 then [RemovedMessage(removed)] else []) + standardizationFixes;
    if |fixes| > 0 then fixes + [FilledMessage] else []
  }

  /** The repaired data with its recomputed completeness and the reported
      quality `Math.min(0.99, completeness + 0.1)`. */
  function Rescored(filled: seq<Row>, columns: seq<string>, fixes: seq<string>, removed: nat): AutoFixResult {
    var completeness := CompletenessScore(|filled| * |columns|, FilledCells(filled, columns));
    AutoFixResult(filled, fixes, removed, completeness, RealMin(0.99, completeness + 0.1))
  }

  /** The auto-fix of `data` with the declared `columns`. */
  function AutoFixed(data: seq<Row>, columns: seq<string>): AutoFixResult {
    var unique := Dedup(data);
    var standardized := Standardize.Standardize(unique, columns);
    Rescored(FillMissing(standardized.0, columns), columns,
             Fixes(|data| - |unique|, standardized.1), |data| - |unique|)
  }

  /** Fix 3: the number and text columns (by the first row) filled. */
  method FillMissingValues(data: seq<Row>, columns: seq<string>) returns (out: seq<Row>)
    ensures out == FillMissing(data, columns)
  {
    var stringColumns := StringColumns(data, columns);
    var numericColumns := NumericColumns(data, columns);
    out := FillNumbers(data, numericColumns);
    out := FillTexts(out, stringColumns);
  }

  /** The three fixes in turn: the repaired rows and the fixes reported. */
  method RepairRows(data: seq<Row>, columns: seq<string>) returns (current: seq<Row>, fixes: seq<string>, duplicatesRemoved: nat)
    ensures duplicatesRemoved == |data| - |Dedup(data)|
    ensures var standardized := Standardize.Standardize(Dedup(data), columns);
      current == FillMissing(standardized.0, columns) && fixes == Fixes(duplicatesRemoved, standardized.1)
  {
    fixes := [];
    current, duplicatesRemoved := RemoveDuplicates(data);
    if duplicatesRemoved > 0 {
      fixes := fixes + [RemovedMessage(duplicatesRemoved)];
    }
    var standardized, standardizationFixes := StandardizeStringValues(current, columns);
    fixes := fixes + standardizationFixes;
    current := FillMissingValues(standardized, columns);
    if |fixes| > 0 {
      fixes := fixes + [FilledMessage];
    }
    FixesAre(duplicatesRemoved, standardizationFixes, fixes);
  }

  lemma FixesAre(removed: nat, standardizationFixes: seq<string>, fixes: seq<string>)
    requires var before := (if removed > 0 then [RemovedMessage(removed)] else []) + standardizationFixes;
      fixes == if |before| > 0 then before + [FilledMessage] else before
    ensures fixes == Fixes(removed, standardizationFixes)
  {
  }

  /** The auto-fix route's computation: the repairs, then the scores
      recomputed. */
  method AutoFixDataset(data: seq<Row>, columns: seq<string>) returns (result: AutoFixResult)
    ensures result == AutoFixed(data, columns)
  {
    var current, fixes, duplicatesRemoved := RepairRows(data, columns);
    var totalCells, filledCells := CountCells(current, columns);
    var completeness := CompletenessScore(totalCells, filledCells);
    result := AutoFixResult(current, fixes, duplicatesRemoved, completeness, RealMin(0.99, completeness + 0.1));
  }

  // ---------------------------------------------------------------------
  // What the auto-fix guarantees

  /** Every row holds something in column `c`. */
  predicate ColumnFilled(data: seq<Row>, c: string) {
    forall i :: 0 <= i < |data| ==> Present(Get(data[i], c))
  }

  /** Filling a column with a present value fills it and keeps every
      filled column filled. */
  lemma FillColumnFills(data: seq<Row>, col: string, v: Value)
    requires Present(v)
    ensures ColumnFilled(FillColumn(data, col, v), col)
    ensures forall c :: ColumnFilled(data, c) ==> ColumnFilled(FillColumn(data, col, v), c)
  {
    var out := FillColumn(data, col, v);
    forall i | 0 <= i < |data| ensures Present(Get(out[i], col)) {
      FillColumnCell(data, col, v, i, col);
      TruthyIsPresent(Get(data[i], col));
    }
    forall c | ColumnFilled(data, c) ensures ColumnFilled(out, c) {
      forall i | 0 <= i < |data| ensures Present(Get(out[i], c)) {
        FillColumnCell(data, col, v, i, c);
      }
    }
  }

  /** Filling number columns keeps the row count, fills every one of them
      whose first cell is a number, keeps filled columns filled and keeps
      the first row's numbers numbers. */
  lemma {:induction false} NumericFillsFill(data: seq<Row>, cols: seq<string>)
    requires |data| > 0 && forall c :: c in cols ==> Get(data[0], c).Num?
    ensures var out := FillNumericColumns(data, cols);
      && |out| == |data|
      && (forall c :: c in cols ==> ColumnFilled(out, c))
      && (forall c :: ColumnFilled(data, c) ==> ColumnFilled(out, c))
    decreases |cols|
  {
    if |cols| > 0 {
      var col := cols[0];
      var values := ColumnNumbers(data, col);
      ColumnNumbersMembers(data, col, Get(data[0], col).x);
      var m := Median(values);
      var next := FillColumn(data, col, Num(m));
      assert FillNumeric(data, col) == next;
      FillColumnFills(data, col, Num(m));
      forall c | c in cols[1..] ensures Get(next[0], c).Num? {
        FillColumnCell(data, col, Num(m), 0, c);
      }
      NumericFillsFill(next, cols[1..]);
      assert forall c :: c in cols ==> c == col || c in cols[1..];
    }
  }

  /** Filling text columns keeps the row count, fills every one of them
      and keeps filled columns filled. */
  lemma {:induction false} StringFillsFill(data: seq<Row>, cols: seq<string>)
    ensures var out := FillStringColumns(data, cols);
      && |out| == |data|
      && (forall c :: c in cols ==> ColumnFilled(out, c))
      && (forall c :: ColumnFilled(data, c) ==> ColumnFilled(out, c))
    decreases |cols|
  {
    if |cols| > 0 {
      var next := FillColumn(data, cols[0], Str("Unknown"));
      FillColumnFills(data, cols[0], Str("Unknown"));
      StringFillsFill(next, cols[1..]);
      assert forall c :: c in cols ==> c == cols[0] || c in cols[1..];
    }
  }

  /** Standardisation keeps what kind of value the first row holds in
      every column. */
  lemma StandardizeKeepsFirstRowKinds(data: seq<Row>, columns: seq<string>, c: string)
    requires |data| > 0
    ensures var out := Standardize.Standardize(data, columns).0;
      |out| > 0 && (Get(out[0], c).Num? <==> Get(data[0], c).Num?) && (Get(out[0], c).Str? <==> Get(data[0], c).Str?)
  {
    StandardizeCell(data, columns, 0, c);
    VariedColumnsMembers(data, StringColumns(data, columns));
  }

  /** The repaired data has one row per distinct input row, and the rows
      reported removed are the repeats: none exactly when no row repeats. */
  lemma AutoFixRows(data: seq<Row>, columns: seq<string>)
    ensures var r := AutoFixed(data, columns);
      && |r.data| == |Dedup(data)|
      && r.duplicatesRemoved == |data| - |Dedup(data)|
      && (r.duplicatesRemoved == 0 <==> NoDuplicates(data))
  {
    var unique := Dedup(data);
    var standardized := Standardize.Standardize(unique, columns).0;
    if |unique| > 0 {
      StandardizeCell(unique, columns, 0, "");
    }
    assert |standardized| == |unique|;
    NumericFillsLength(standardized, NumericColumns(standardized, columns));
    StringFillsFill(FillNumericColumns(standardized, NumericColumns(standardized, columns)), StringColumns(standardized, columns));
    if NoDuplicates(data) {
      DedupOfDistinct(data);
    }
    if |unique| == |data| {
      DistinctWhenNothingLost(data);
    }
  }

  /** No fix is reported exactly when no duplicate was removed and no
      spelling was standardised; otherwise the fill message comes last. */
  lemma FixesReported(removed: nat, standardizationFixes: seq<string>)
    ensures Fixes(removed, standardizationFixes) == [] <==> removed == 0 && standardizationFixes == []
    ensures var fixes := Fixes(removed, standardizationFixes);
      fixes != [] ==> fixes[|fixes| - 1] == FilledMessage
  {
  }

  /** Filling number columns keeps the row count. */
  lemma {:induction false} NumericFillsLength(data: seq<Row>, cols: seq<string>)
    ensures |FillNumericColumns(data, cols)| == |data|
    decreases |cols|
  {
    if |cols| > 0 {
      NumericFillsLength(FillNumeric(data, cols[0]), cols[1..]);
    }
  }

  /** When the first row holds a number or a text in every declared
      column, the auto-fix leaves no cell of a declared column empty:
      completeness becomes 1 and the reported quality 0.99. */
  lemma AutoFixCompletes(data: seq<Row>, columns: seq<string>)
    requires |data| > 0 && |columns| > 0
    requires forall c :: c in columns ==> Get(data[0], c).Num? || Get(data[0], c).Str?
    ensures AutoFixed(data, columns).completeness == 1.0
    ensures AutoFixed(data, columns).quality == 0.99
  {
    var unique := Dedup(data);
    DedupKeepsFirst(data);
    var standardized := Standardize.Standardize(unique, columns).0;
    var numeric := NumericColumns(standardized, columns);
    var text := StringColumns(standardized, columns);
    forall c | c in columns ensures Get(standardized[0], c).Num? || Get(standardized[0], c).Str? {
      StandardizeKeepsFirstRowKinds(unique, columns, c);
    }
    NumericFillsFill(standardized, numeric);
    var half := FillNumericColumns(standardized, numeric);
    StringFillsFill(half, text);
    var filled := FillStringColumns(half, text);
    assert filled == AutoFixed(data, columns).data;
    forall c | c in columns ensures ColumnFilled(filled, c) {
      assert c in numeric || c in text;
    }
    forall i | 0 <= i < |filled| ensures RowComplete(filled[i], columns) {
    }
    FilledCellsBound(filled, columns);
    CompletenessBounds(|filled| * |columns|, FilledCells(filled, columns));
  }

  /** The reported quality is the recomputed completeness plus 0.1, never
      above 0.99. */
  lemma AutoFixQualityBounds(data: seq<Row>, columns: seq<string>)
    ensures var r := AutoFixed(data, columns);
      0.0 <= r.completeness <= 1.0 && 0.1 <= r.quality <= 0.99 &&
      (r.completeness <= 0.89 ==> r.quality == r.completeness + 0.1)
  {
    var r := AutoFixed(data, columns);
    FilledCellsBound(r.data, columns);
    CompletenessBounds(|r.data| * |columns|, FilledCells(r.data, columns));
  }

  /** Filling never touches a truthy cell: the fills only change cells that
      were null, missing, empty or 0. */
  lemma {:induction false} StringFillsKeepTruthy(data: seq<Row>, cols: seq<string>, i: nat, c: string)
    requires i < |data| && Truthy(Get(data[i], c))
    ensures |FillStringColumns(data, cols)| == |data|
    ensures Get(FillStringColumns(data, cols)[i], c) == Get(data[i], c)
    decreases |cols|
  {
    if |cols| > 0 {
      var next := FillColumn(data, cols[0], Str("Unknown"));
      FillColumnCell(data, cols[0], Str("Unknown"), i, c);
      StringFillsKeepTruthy(next, cols[1..], i, c);
    }
  }

  /** The same for the number columns. */
  lemma {:induction false} NumericFillsKeepTruthy(data: seq<Row>, cols: seq<string>, i: nat, c: string)
    requires i < |data| && Truthy(Get(data[i], c))
    ensures |FillNumericColumns(data, cols)| == |data|
    ensures Get(FillNumericColumns(data, cols)[i], c) == Get(data[i], c)
    decreases |cols|
  {
    if |cols| > 0 {
      var col := cols[0];
      var values := ColumnNumbers(data, col);
      if |values| > 0 {
        FillColumnCell(data, col, Num(Median(values)), i, c);
      }
      NumericFillsKeepTruthy(FillNumeric(data, col), cols[1..], i, c);
    }
  }
}
