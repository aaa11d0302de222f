/** Spelling variants of one category: cells of a text column that differ
    only in letter case or in runs of whitespace are mapped to the variant
    seen first in that column. The upload quality check counts the cells
    that are not in that form; the auto-fix rewrites them. */
module Standardize {
  import opened Records
  import opened Seqs

  /** `String(row[col] || "").trim()`: the text of a cell, "" when falsy. */
  function CellText(v: Value): (r: string)
    ensures !Truthy(v) ==> r == ""
  {
    Trim(if Truthy(v) then Text(v) else "")
  }

  /** The cell texts of one column, row by row. */
  function ColumnTexts(data: seq<Row>, col: string): (r: seq<string>)
    ensures |r| == |data|
    ensures forall i :: 0 <= i < |data| ==> r[i] == CellText(Get(data[i], col))
  {
    seq(|data|, i requires 0 <= i < |data| => CellText(Get(data[i], col)))
  }

  /** The normalised form of every text. */
  function Forms(vals: seq<string>): (r: seq<string>)
    ensures |r| == |vals|
    ensures forall i :: 0 <= i < |vals| ==> r[i] == Normalize(vals[i])
  {
    seq(|vals|, i requires 0 <= i < |vals| => Normalize(vals[i]))
  }

  /** The first text of `vals` whose form (in the parallel `fs`) is `f`,
      or `fallback` if no text has that form. */
  function FirstOfForm(vals: seq<string>, fs: seq<string>, f: string, fallback: string): string
    requires |fs| == |vals|
  {
    if |vals| == 0 then fallback
    else if fs[0] == f then vals[0]
    else FirstOfForm(vals[1..], fs[1..], f, fallback)
  }

  lemma {:induction false} FirstOfFormIsFirst(vals: seq<string>, fs: seq<string>, f: string, fallback: string)
    requires |fs| == |vals|
    ensures var c := FirstOfForm(vals, fs, f, fallback);
      (f !in fs && c == fallback)
      || exists t :: 0 <= t < |vals| && fs[t] == f && c == vals[t] && forall t' :: 0 <= t' < t ==> fs[t'] != f
  {
    if |vals| > 0 && fs[0] != f {
      FirstOfFormIsFirst(vals[1..], fs[1..], f, fallback);
      var c := FirstOfForm(vals, fs, f, fallback);
      if f in fs {
        assert f in fs[1..];
        var t :| 0 <= t < |vals| - 1 && fs[1..][t] == f && c == vals[1..][t]
          && forall t' :: 0 <= t' < t ==> fs[1..][t'] != f;
        assert fs[t + 1] == f && c == vals[t + 1];
        forall t' | 0 <= t' < t + 1 ensures fs[t'] != f {
          if t' > 0 {
            assert fs[t'] == fs[1..][t' - 1];
          }
        }
      }
    }
  }

  /** Once the form occurs, the fallback plays no part. */
  lemma {:induction false} FirstOfFormFallback(vals: seq<string>, fs: seq<string>, f: string, a: string, b: string)
    requires |fs| == |vals| && f in fs
    ensures FirstOfForm(vals, fs, f, a) == FirstOfForm(vals, fs, f, b)
  {
    if fs[0] != f {
      FirstOfFormFallback(vals[1..], fs[1..], f, a, b);
    }
  }

  /** The canonical variant of `v`: the first text of `vals` with the same
      normalised form (`Array.from(variations)[0]`), or `v` itself if there
      is none. */
  function Canon(vals: seq<string>, v: string): (c: string)
    ensures Normalize(c) == Normalize(v)
  {
    var fs := Forms(vals);
    FirstOfFormIsFirst(vals, fs, Normalize(v), v);
    FirstOfForm(vals, fs, Normalize(v), v)
  }

  /** The first text of its form is its own canonical variant. */
  lemma CanonOfFirst(vals: seq<string>, i: nat)
    requires i < |vals|
    requires forall t :: 0 <= t < i ==> Normalize(vals[t]) != Normalize(vals[i])
    ensures Canon(vals, vals[i]) == vals[i]
  {
    var fs := Forms(vals);
    FirstOfFormIsFirst(vals, fs, fs[i], vals[i]);
  }

  /** Texts of the same form share their canonical variant once the form
      occurs in `vals`. */
  lemma CanonSameForm(vals: seq<string>, t: nat, a: string, b: string)
    requires t < |vals| && Normalize(vals[t]) == Normalize(a) == Normalize(b)
    ensures Canon(vals, a) == Canon(vals, b)
  {
    var fs := Forms(vals);
    assert fs[t] == Normalize(a);
    FirstOfFormFallback(vals, fs, Normalize(a), a, b);
  }

  /** The canonical variant of a text of `vals` is in `vals`, and it is the
      first text of that form: nothing earlier has the same form. */
  lemma CanonIsFirstSeen(vals: seq<string>, i: nat)
    requires i < |vals|
    ensures exists t :: 0 <= t <= i && vals[t] == Canon(vals, vals[i]) &&
              forall t' :: 0 <= t' < t ==> Normalize(vals[t']) != Normalize(vals[i])
  {
    var fs := Forms(vals);
    FirstOfFormIsFirst(vals, fs, fs[i], vals[i]);
    assert fs[i] in fs;
  }

  /** Canonicalising twice changes nothing more. */
  lemma CanonIdempotent(vals: seq<string>, i: nat)
    requires i < |vals|
    ensures Canon(vals, Canon(vals, vals[i])) == Canon(vals, vals[i])
  {
    CanonSameForm(vals, i, Canon(vals, vals[i]), vals[i]);
  }

  /** Whether some text of the column is not its canonical variant, i.e.
      some form occurs in more than one spelling. */
  predicate Varies(vals: seq<string>) {
    exists i {:trigger Canon(vals, vals[i])} :: 0 <= i < |vals| && Canon(vals, vals[i]) != vals[i]
  }

  /** A text that comes before any other text of its form is returned for
      that form. */
  lemma {:induction false} FirstOfFormAt(vals: seq<string>, fs: seq<string>, i: nat, fallback: string)
    requires |fs| == |vals| && i < |vals|
    requires forall t :: 0 <= t < i ==> fs[t] != fs[i]
    ensures FirstOfForm(vals, fs, fs[i], fallback) == vals[i]
  {
    FirstOfFormIsFirst(vals, fs, fs[i], fallback);
  }

  /** `valueMap`, built row by row: the first spelling of every form in
      `fs` (the set of variations of a form, in insertion order, starts with
      it), and the number of forms. */
  method CollectForms(vals: seq<string>, fs: seq<string>) returns (firstOf: map<string, string>, forms: nat)
    requires |fs| == |vals|
    ensures forall f :: f in firstOf <==> f in fs
    ensures forall t :: 0 <= t < |vals| ==> firstOf[fs[t]] == FirstOfForm(vals, fs, fs[t], vals[t])
    ensures forms == |firstOf|
  {
    firstOf := map[];
    var i := 0;
    while i < |vals|
      invariant 0 <= i <= |vals|
      invariant forall f :: f in firstOf ==> f in fs[..i]
      invariant forall t :: 0 <= t < i ==> fs[t] in firstOf
      invariant forall f :: f in firstOf ==> firstOf[f] == FirstOfForm(vals, fs, f, "")
    {
      if fs[i] !in firstOf {
        FirstOfFormAt(vals, fs, i, "");
        firstOf := firstOf[fs[i] := vals[i]];
      }
      assert fs[..i + 1] == fs[..i] + [fs[i]];
      i := i + 1;
    }
    assert fs[..i] == fs;
    forall t | 0 <= t < |vals| ensures firstOf[fs[t]] == FirstOfForm(vals, fs, fs[t], vals[t]) {
      FirstOfFormFallback(vals, fs, fs[t], "", vals[t]);
    }
    forms := |firstOf|;
  }

  /** The number of distinct elements of a sequence of texts. */
  function DistinctCount(s: seq<string>): nat {
    |set x | x in s|
  }

  /** `Canon` read through the forms of the column. */
  lemma CanonAt(vals: seq<string>, t: nat)
    requires t < |vals|
    ensures Canon(vals, vals[t]) == FirstOfForm(vals, Forms(vals), Forms(vals)[t], vals[t])
  {
  }

  /** Equal texts have equal forms. */
  predicate FormsAgree(vals: seq<string>, fs: seq<string>)
    requires |fs| == |vals|
  {
    forall i, j :: 0 <= i < |vals| && 0 <= j < |vals| && vals[i] == vals[j] ==> fs[i] == fs[j]
  }

  /** Some text among the first `n` is not the first of its form. */
  predicate VariesBefore(vals: seq<string>, fs: seq<string>, n: nat)
    requires |fs| == |vals| && n <= |vals|
  {
    exists t :: 0 <= t < n && FirstOfForm(vals, fs, fs[t], vals[t]) != vals[t]
  }

  lemma VariesBeforeStep(vals: seq<string>, fs: seq<string>, i: nat)
    requires |fs| == |vals| && i < |vals|
    ensures VariesBefore(vals, fs, i + 1) <==> VariesBefore(vals, fs, i) || FirstOfForm(vals, fs, fs[i], vals[i]) != vals[i]
  {
  }

  /** The second pass over `valueMap`: every variation is mapped to the
      first variation of its form, and `hasVariations` records whether any
      variation differs from it. */
  method MapVariations(vals: seq<string>, fs: seq<string>, firstOf: map<string, string>)
    returns (canonicalMap: map<string, string>, hasVariations: bool)
    requires |fs| == |vals| && FormsAgree(vals, fs)
    requires forall t :: 0 <= t < |vals| ==> fs[t] in firstOf && firstOf[fs[t]] == FirstOfForm(vals, fs, fs[t], vals[t])
    ensures forall v :: v in canonicalMap <==> v in vals
    ensures forall t :: 0 <= t < |vals| ==> canonicalMap[vals[t]] == FirstOfForm(vals, fs, fs[t], vals[t])
    ensures hasVariations <==> VariesBefore(vals, fs, |vals|)
  {
    canonicalMap := map[];
    hasVariations := false;
    var i := 0;
    while i < |vals|
      invariant 0 <= i <= |vals|
      invariant forall v :: v in canonicalMap <==> v in vals[..i]
      invariant forall t :: 0 <= t < i ==> canonicalMap[vals[t]] == FirstOfForm(vals, fs, fs[t], vals[t])
      invariant hasVariations <==> VariesBefore(vals, fs, i)
    {
      var canonical := firstOf[fs[i]];
      canonicalMap := canonicalMap[vals[i] := canonical];
      if vals[i] != canonical {
        hasVariations := true;
      }
      VariesBeforeStep(vals, fs, i);
      assert vals[..i + 1] == vals[..i] + [vals[i]];
      i := i + 1;
    }
    assert vals[..i] == vals;
  }

  /** The analysis of one text column: for every text, its canonical
      variant; the number of distinct normalised forms (`valueMap.size`);
      and whether any text differs from its canonical variant
      (`hasVariations`). */
  method AnalyzeColumn(vals: seq<string>) returns (canonicalMap: map<string, string>, forms: nat, hasVariations: bool)
    ensures canonicalMap == CanonicalMap(vals)
    ensures forms == DistinctCount(Forms(vals))
    ensures hasVariations <==> Varies(vals)
  {
    var fs := Forms(vals);
    var firstOf;
    firstOf, forms := CollectForms(vals, fs);
    assert firstOf.Keys == set x | x in fs;
    canonicalMap, hasVariations := MapVariations(vals, fs, firstOf);
    forall t | 0 <= t < |vals| ensures Canon(vals, vals[t]) == FirstOfForm(vals, fs, fs[t], vals[t]) {
      CanonAt(vals, t);
    }
  }

  // ---------------------------------------------------------------------
  // The whole dataset

  /** The fix reported for a column whose spellings vary. */
  function StandardizedMessage(col: string, forms: nat): string {
    "Standardized " + col + ": " + NatText(forms) + " unique values normalized to consistent casing"
  }

  /** The columns of `cols` whose texts vary, in order (a repeated column
      is repeated). */
  function VariedColumns(data: seq<Row>, cols: seq<string>): (r: seq<string>)
    ensures |r| <= |cols|
  {
    if |cols| == 0 then []
    else
      var n := |cols| - 1;
      var rest := VariedColumns(data, cols[..n]);
      if Varies(ColumnTexts(data, cols[n])) then rest + [cols[n]] else rest
  }

  /** The varied columns are exactly the columns whose texts vary. */
  lemma {:induction false} VariedColumnsMembers(data: seq<Row>, cols: seq<string>)
    ensures forall c :: c in VariedColumns(data, cols) <==> c in cols && Varies(ColumnTexts(data, c))
  {
    if |cols| > 0 {
      var n := |cols| - 1;
      VariedColumnsMembers(data, cols[..n]);
      assert forall c :: c in cols <==> c in cols[..n] || c == cols[n];
    }
  }

  /** One message per varied column, in order. */
  function Messages(data: seq<Row>, varied: seq<string>): (r: seq<string>)
    ensures |r| == |varied|
    ensures forall j :: 0 <= j < |varied| ==>
      r[j] == StandardizedMessage(varied[j], DistinctCount(Forms(ColumnTexts(data, varied[j]))))
  {
    seq(|varied|, j requires 0 <= j < |varied| =>
      StandardizedMessage(varied[j], DistinctCount(Forms(ColumnTexts(data, varied[j])))))
  }

  /** Every text of a column mapped to its canonical variant. */
  function CanonicalMap(vals: seq<string>): (m: map<string, string>)
    ensures forall v :: v in m <==> v in vals
  {
    map v | v in vals :: Canon(vals, v)
  }

  /** `canonicalMaps`: the canonical map of each of `cols`. */
  function CanonicalMaps(data: seq<Row>, cols: seq<string>): (ms: map<string, map<string, string>>)
    ensures forall c :: c in ms <==> c in cols
  {
    map c | c in cols :: CanonicalMap(ColumnTexts(data, c))
  }

  /** `canonicalMap.get(val) || val` with `val = String(v).trim()`: a
      missing or empty entry leaves the trimmed text. */
  function Lookup(canonicalMap: map<string, string>, v: Value): Value {
    var val := Trim(Text(v));
    Str(if val in canonicalMap && canonicalMap[val] != "" then canonicalMap[val] else val)
  }

  /** `canonicalMaps.forEach((canonicalMap, col) => ...)` on one row: the
      columns are taken in turn and each truthy cell of one is looked up. */
  function StandardRow(maps: map<string, map<string, string>>, cols: seq<string>, row: Row): (r: Row)
    requires forall c :: c in cols ==> c in maps
    ensures r.Keys == row.Keys
  {
    if |cols| == 0 then row
    else
      var n := |cols| - 1;
      var m := StandardRow(maps, cols[..n], row);
      var c := cols[n];
      if c in m && Truthy(m[c]) then m[c := Lookup(maps[c], m[c])] else m
  }

  /** The result of `standardizeStringValues`: when some string column (by
      `data[0]`) has varied spellings, every row standardised (the columns
      in the order they entered `canonicalMaps`) and one fix per varied
      column; otherwise the data unchanged and no fixes. */
  function Standardize(data: seq<Row>, columns: seq<string>): (seq<Row>, seq<string>) {
    var varied := VariedColumns(data, StringColumns(data, columns));
    var order := Dedup(varied);
    if |varied| == 0 then (data, [])
    else (StandardRows(CanonicalMaps(data, order), order, data), Messages(data, varied))
  }

  /** Every row standardised. */
  function StandardRows(maps: map<string, map<string, string>>, cols: seq<string>, data: seq<Row>): (out: seq<Row>)
    requires forall c :: c in cols ==> c in maps
    ensures |out| == |data|
    ensures forall i :: 0 <= i < |data| ==> out[i] == StandardRow(maps, cols, data[i])
  {
    seq(|data|, i requires 0 <= i < |data| => StandardRow(maps, cols, data[i]))
  }

  /** Standardising one more column of a row. */
  lemma StandardRowStep(maps: map<string, map<string, string>>, cols: seq<string>, j: nat, row: Row)
    requires j < |cols| && forall c :: c in cols ==> c in maps
    ensures var m := StandardRow(maps, cols[..j], row);
      var c := cols[j];
      StandardRow(maps, cols[..j + 1], row) == if c in m && Truthy(m[c]) then m[c := Lookup(maps[c], m[c])] else m
  {
    assert cols[..j + 1][..j] == cols[..j];
  }

  /** The row loop of `standardizeStringValues`: `{ ...row }` with the
      truthy cells of the varied columns replaced. */
  method RewriteRow(row: Row, cols: seq<string>, canonicalMaps: map<string, map<string, string>>)
    returns (newRow: Row)
    requires forall c :: c in cols ==> c in canonicalMaps
    ensures newRow == StandardRow(canonicalMaps, cols, row)
  {
    newRow := row;
    var j := 0;
    while j < |cols|
      invariant 0 <= j <= |cols|
      invariant newRow == StandardRow(canonicalMaps, cols[..j], row)
    {
      var col := cols[j];
      StandardRowStep(canonicalMaps, cols, j, row);
      if col in newRow && Truthy(newRow[col]) {
        newRow := newRow[col := Lookup(canonicalMaps[col], newRow[col])];
      }
      j := j + 1;
    }
    assert cols[..j] == cols;
  }

  /** Adding a column to `canonicalMaps`. */
  lemma CanonicalMapsAdd(data: seq<Row>, cols: seq<string>, col: string)
    ensures CanonicalMaps(data, cols)[col := CanonicalMap(ColumnTexts(data, col))] ==
              CanonicalMaps(data, if col in cols then cols else cols + [col])
  {
  }

  lemma VariedColumnsStep(data: seq<Row>, cols: seq<string>, j: nat, varies: bool)
    requires j < |cols| && varies == Varies(ColumnTexts(data, cols[j]))
    ensures varies ==> VariedColumns(data, cols[..j + 1]) == VariedColumns(data, cols[..j]) + [cols[j]]
    ensures !varies ==> VariedColumns(data, cols[..j + 1]) == VariedColumns(data, cols[..j])
  {
    assert cols[..j + 1][..j] == cols[..j];
  }

  /** A column without variations leaves the varied columns as they were. */
  lemma VariedColumnsSteady(data: seq<Row>, cols: seq<string>, j: nat)
    requires j < |cols| && !Varies(ColumnTexts(data, cols[j]))
    ensures VariedColumns(data, cols[..j + 1]) == VariedColumns(data, cols[..j])
  {
    VariedColumnsStep(data, cols, j, false);
  }

  lemma MessagesAppend(data: seq<Row>, varied: seq<string>, col: string)
    ensures Messages(data, varied + [col]) ==
      Messages(data, varied) + [StandardizedMessage(col, DistinctCount(Forms(ColumnTexts(data, col))))]
  {
  }

  /** A varied column adds its message, enters the column order unless it
      is already there, and brings its canonical map along. */
  lemma AnalyzeStepVaried(data: seq<Row>, sc: seq<string>, j: nat, fixes: seq<string>, order: seq<string>,
                          forms: nat, canonicalMap: map<string, string>)
    requires j < |sc| && Varies(ColumnTexts(data, sc[j]))
    requires fixes == Messages(data, VariedColumns(data, sc[..j]))
    requires order == Dedup(VariedColumns(data, sc[..j]))
    requires forms == DistinctCount(Forms(ColumnTexts(data, sc[j])))
    requires canonicalMap == CanonicalMap(ColumnTexts(data, sc[j]))
    ensures fixes + [StandardizedMessage(sc[j], forms)] == Messages(data, VariedColumns(data, sc[..j + 1]))
    ensures var order' := if sc[j] in order then order else order + [sc[j]];
      && order' == Dedup(VariedColumns(data, sc[..j + 1]))
      && CanonicalMaps(data, order)[sc[j] := canonicalMap] == CanonicalMaps(data, order')
  {
    var varied := VariedColumns(data, sc[..j]);
    VariedColumnsStep(data, sc, j, true);
    MessagesAppend(data, varied, sc[j]);
    DedupAppend(varied, sc[j]);
    CanonicalMapsAdd(data, order, sc[j]);
  }

  /** `fixes.push(...)` and `canonicalMaps.set(col, canonicalMap)` for a
      varied column. */
  method AddVariedColumn(data: seq<Row>, sc: seq<string>, j: nat, fixes: seq<string>, order: seq<string>,
                         canonicalMaps: map<string, map<string, string>>, forms: nat,
                         canonicalMap: map<string, string>)
    returns (fixes': seq<string>, order': seq<string>, canonicalMaps': map<string, map<string, string>>)
    requires j < |sc| && Varies(ColumnTexts(data, sc[j]))
    requires fixes == Messages(data, VariedColumns(data, sc[..j]))
    requires order == Dedup(VariedColumns(data, sc[..j]))
    requires canonicalMaps == CanonicalMaps(data, order)
    requires forms == DistinctCount(Forms(ColumnTexts(data, sc[j])))
    requires canonicalMap == CanonicalMap(ColumnTexts(data, sc[j]))
    ensures fixes' == Messages(data, VariedColumns(data, sc[..j + 1]))
    ensures order' == Dedup(VariedColumns(data, sc[..j + 1]))
    ensures canonicalMaps' == CanonicalMaps(data, order')
  {
    AnalyzeStepVaried(data, sc, j, fixes, order, forms, canonicalMap);
    fixes' := fixes + [StandardizedMessage(sc[j], forms)];
    canonicalMaps' := canonicalMaps[sc[j] := canonicalMap];
    order' := if sc[j] in order then order else order + [sc[j]];
  }

  /** One round of the column pass: column `sc[j]` is analysed and, when
      its spellings vary, recorded. */
  method AnalyzeNextColumn(data: seq<Row>, sc: seq<string>, j: nat, fixes: seq<string>, order: seq<string>,
                           canonicalMaps: map<string, map<string, string>>)
    returns (fixes': seq<string>, order': seq<string>, canonicalMaps': map<string, map<string, string>>)
    requires j < |sc|
    requires fixes == Messages(data, VariedColumns(data, sc[..j]))
    requires order == Dedup(VariedColumns(data, sc[..j]))
    requires canonicalMaps == CanonicalMaps(data, order)
    ensures fixes' == Messages(data, VariedColumns(data, sc[..j + 1]))
    ensures order' == Dedup(VariedColumns(data, sc[..j + 1]))
    ensures canonicalMaps' == CanonicalMaps(data, order')
  {
    var canonicalMap, forms, hasVariations := AnalyzeColumn(ColumnTexts(data, sc[j]));
    if hasVariations {
      fixes', order', canonicalMaps' := AddVariedColumn(data, sc, j, fixes, order, canonicalMaps, forms, canonicalMap);
    } else {
      VariedColumnsSteady(data, sc, j);
      fixes', order', canonicalMaps' := fixes, order, canonicalMaps;
    }
  }

  /** The column pass of `standardizeStringValues`: each string column is
      analysed, and a varied one yields a fix and enters `canonicalMaps`
      (once, in first-seen order). */
  method AnalyzeColumns(data: seq<Row>, stringColumns: seq<string>)
    returns (fixes: seq<string>, order: seq<string>, canonicalMaps: map<string, map<string, string>>)
    ensures fixes == Messages(data, VariedColumns(data, stringColumns))
    ensures order == Dedup(VariedColumns(data, stringColumns))
    ensures canonicalMaps == CanonicalMaps(data, order)
  {
    canonicalMaps := map[];
    order := [];
    fixes := [];
    var j := 0;
    while j < |stringColumns|
      invariant 0 <= j <= |stringColumns|
      invariant fixes == Messages(data, VariedColumns(data, stringColumns[..j]))
      invariant order == Dedup(VariedColumns(data, stringColumns[..j]))
      invariant canonicalMaps == CanonicalMaps(data, order)
    {
      fixes, order, canonicalMaps := AnalyzeNextColumn(data, stringColumns, j, fixes, order, canonicalMaps);
      j := j + 1;
    }
    assert stringColumns[..j] == stringColumns;
  }

  /** `data.map(row => ...)`: every row rewritten. */
  method RewriteRows(data: seq<Row>, order: seq<string>, canonicalMaps: map<string, map<string, string>>)
    returns (out: seq<Row>)
    requires forall c :: c in order ==> c in canonicalMaps
    ensures out == StandardRows(canonicalMaps, order, data)
  {
    out := [];
    var i := 0;
    while i < |data|
      invariant 0 <= i <= |data|
      invariant |out| == i
      invariant forall r :: 0 <= r < i ==> out[r] == StandardRow(canonicalMaps, order, data[r])
    {
      var newRow := RewriteRow(data[i], order, canonicalMaps);
      out := out + [newRow];
      i := i + 1;
    }
  }

  /** `standardizeStringValues(data, columns)`. */
  method StandardizeStringValues(data: seq<Row>, columns: seq<string>) returns (out: seq<Row>, fixes: seq<string>)
    ensures (out, fixes) == Standardize(data, columns)
  {
    var stringColumns := StringColumns(data, columns);
    var order, canonicalMaps;
    fixes, order, canonicalMaps := AnalyzeColumns(data, stringColumns);
    if |fixes| > 0 {
      out := RewriteRows(data, order, canonicalMaps);
    } else {
      out := data;
    }
  }

  // ---------------------------------------------------------------------
  // What standardisation does to each cell

  /** The standard value of a cell of column `col`: a truthy cell becomes
      the first-seen spelling of its form in that column; a falsy cell is
      left alone. */
  function StandardCell(data: seq<Row>, col: string, v: Value): Value {
    if Truthy(v) then Str(Canon(ColumnTexts(data, col), CellText(v))) else v
  }

  lemma CellTextTrimmed(v: Value)
    ensures Trim(CellText(v)) == CellText(v)
  {
    TrimIdempotent(if Truthy(v) then Text(v) else "");
  }

  /** A canonical variant is a trimmed text when the texts are. */
  lemma CanonTrimmed(data: seq<Row>, col: string, v: Value)
    ensures var c := Canon(ColumnTexts(data, col), CellText(v)); Trim(c) == c
  {
    var vals := ColumnTexts(data, col);
    var fs := Forms(vals);
    var f := Normalize(CellText(v));
    FirstOfFormIsFirst(vals, fs, f, CellText(v));
    if f in fs {
      var t :| 0 <= t < |vals| && fs[t] == f && Canon(vals, CellText(v)) == vals[t];
      CellTextTrimmed(Get(data[t], col));
    } else {
      CellTextTrimmed(v);
    }
  }

  /** A cell keeps its form: the standard value reads, trimmed, lower-cased
      and with whitespace collapsed, as the original did. */
  lemma StandardCellKeepsForm(data: seq<Row>, col: string, v: Value)
    ensures Normalize(CellText(StandardCell(data, col, v))) == Normalize(CellText(v))
  {
    if Truthy(v) {
      CanonTrimmed(data, col, v);
    }
  }

  /** Looking a truthy cell up in its column's canonical map gives its
      standard value (an empty canonical text can only stand for an empty
      text, so `|| val` changes nothing). */
  lemma LookupCell(data: seq<Row>, col: string, i: nat)
    requires i < |data| && Truthy(Get(data[i], col))
    ensures Lookup(CanonicalMap(ColumnTexts(data, col)), Get(data[i], col)) == StandardCell(data, col, Get(data[i], col))
  {
    var vals := ColumnTexts(data, col);
    assert vals[i] == Trim(Text(Get(data[i], col)));
  }

  /** Standardising the columns `cols` (each once) rewrites the truthy cells
      of those columns through their maps and nothing else. */
  lemma {:induction false} StandardRowCell(maps: map<string, map<string, string>>, cols: seq<string>, row: Row, c: string)
    requires NoDuplicates(cols) && forall c' :: c' in cols ==> c' in maps
    ensures Get(StandardRow(maps, cols, row), c)
      == if c in cols && Truthy(Get(row, c)) then Lookup(maps[c], Get(row, c)) else Get(row, c)
  {
    if |cols| > 0 {
      var n := |cols| - 1;
      assert forall x :: x in cols[..n] ==> x in cols;
      StandardRowCell(maps, cols[..n], row, c);
      assert cols[n] !in cols[..n];
      assert c in cols <==> c in cols[..n] || c == cols[n];
    }
  }

  /** `standardizeStringValues` keeps the rows and their columns, and
      changes a cell only if its column is a string column with varied
      spellings; there a truthy cell becomes its standard value. */
  lemma StandardizeCell(data: seq<Row>, columns: seq<string>, i: nat, c: string)
    requires i < |data|
    ensures var out := Standardize(data, columns).0;
      && |out| == |data|
      && out[i].Keys == data[i].Keys
      && Get(out[i], c) == if c in VariedColumns(data, StringColumns(data, columns))
                           then StandardCell(data, c, Get(data[i], c))
                           else Get(data[i], c)
  {
    var varied := VariedColumns(data, StringColumns(data, columns));
    if |varied| > 0 {
      var order := Dedup(varied);
      var maps := CanonicalMaps(data, order);
      assert c in order <==> c in varied;
      StandardRowCell(maps, order, data[i], c);
      if c in order && Truthy(Get(data[i], c)) {
        LookupCell(data, c, i);
      }
    }
  }

  // ---------------------------------------------------------------------
  // Standardising twice

  /** Every text of a column replaced by its canonical variant. */
  function CanonAll(vals: seq<string>): (w: seq<string>)
    ensures |w| == |vals|
    ensures forall i :: 0 <= i < |vals| ==> w[i] == Canon(vals, vals[i])
  {
    seq(|vals|, i requires 0 <= i < |vals| => Canon(vals, vals[i]))
  }

  /** A column of canonical variants has no variations left. */
  lemma CanonAllSettled(vals: seq<string>)
    ensures !Varies(CanonAll(vals))
  {
    var w := CanonAll(vals);
    var fs := Forms(vals);
    assert Forms(w) == fs;
    forall i | 0 <= i < |w| ensures Canon(w, w[i]) == w[i] {
      FirstOfFormIsFirst(vals, fs, fs[i], vals[i]);
      var t :| 0 <= t < |vals| && fs[t] == fs[i] && w[i] == vals[t] && forall t' :: 0 <= t' < t ==> fs[t'] != fs[i];
      CanonOfFirst(vals, t);
      FirstOfFormAt(w, fs, t, w[i]);
    }
  }

  /** The texts of a varied column after standardisation are its canonical
      variants. */
  lemma StandardColumnTexts(data: seq<Row>, columns: seq<string>, c: string)
    requires c in VariedColumns(data, StringColumns(data, columns))
    ensures ColumnTexts(Standardize(data, columns).0, c) == CanonAll(ColumnTexts(data, c))
  {
    var out := Standardize(data, columns).0;
    var vals := ColumnTexts(data, c);
    forall i | 0 <= i < |data| ensures ColumnTexts(out, c)[i] == CanonAll(vals)[i] {
      StandardTextAt(data, columns, c, i);
    }
  }

  lemma StandardTextAt(data: seq<Row>, columns: seq<string>, c: string, i: nat)
    requires c in VariedColumns(data, StringColumns(data, columns)) && i < |data|
    ensures CellText(Get(Standardize(data, columns).0[i], c)) == Canon(ColumnTexts(data, c), CellText(Get(data[i], c)))
  {
    StandardizeCell(data, columns, i, c);
    StandardCellText(data, c, Get(data[i], c));
  }

  /** The text of a standard cell is the canonical variant of the old
      text. */
  lemma StandardCellText(data: seq<Row>, c: string, v: Value)
    ensures CellText(StandardCell(data, c, v)) == Canon(ColumnTexts(data, c), CellText(v))
  {
    var canon := Canon(ColumnTexts(data, c), CellText(v));
    if Truthy(v) {
      CanonTrimmed(data, c, v);
    } else {
      assert Normalize(canon) == "";
    }
  }

  /** The texts of any other column are left alone. */
  lemma SteadyColumnTexts(data: seq<Row>, columns: seq<string>, c: string)
    requires c !in VariedColumns(data, StringColumns(data, columns))
    ensures ColumnTexts(Standardize(data, columns).0, c) == ColumnTexts(data, c)
  {
    var out := Standardize(data, columns).0;
    forall i | 0 <= i < |data| ensures ColumnTexts(out, c)[i] == ColumnTexts(data, c)[i] {
      StandardizeCell(data, columns, i, c);
    }
  }

  /** Two datasets whose first rows agree on which columns hold text have
      the same string columns. */
  lemma {:induction false} StringColumnsAgree(a: seq<Row>, b: seq<Row>, columns: seq<string>)
    requires |a| > 0 <==> |b| > 0
    requires forall c :: c in columns && |a| > 0 ==> (Get(a[0], c).Str? <==> Get(b[0], c).Str?)
    ensures StringColumns(a, columns) == StringColumns(b, columns)
  {
    if |columns| > 0 {
      assert forall c :: c in columns[1..] ==> c in columns;
      StringColumnsAgree(a, b, columns[1..]);
    }
  }

  /** Standardisation keeps the string columns: a text cell of the first
      row stays text. */
  lemma StandardStringColumns(data: seq<Row>, columns: seq<string>)
    ensures StringColumns(Standardize(data, columns).0, columns) == StringColumns(data, columns)
  {
    var out := Standardize(data, columns).0;
    var varied := VariedColumns(data, StringColumns(data, columns));
    VariedColumnsMembers(data, StringColumns(data, columns));
    forall c | c in columns && |data| > 0 ensures Get(data[0], c).Str? <==> Get(out[0], c).Str? {
      StandardizeCell(data, columns, 0, c);
    }
    StringColumnsAgree(data, out, columns);
  }

  /** Columns none of which varies yield no varied columns. */
  lemma NoVariedColumns(data: seq<Row>, cols: seq<string>)
    requires forall c :: c in cols ==> !Varies(ColumnTexts(data, c))
    ensures VariedColumns(data, cols) == []
  {
    VariedColumnsMembers(data, cols);
    if |VariedColumns(data, cols)| > 0 {
      assert VariedColumns(data, cols)[0] in VariedColumns(data, cols);
    }
  }

  /** After standardisation no string column has spellings that vary. */
  lemma StandardizedSettled(data: seq<Row>, columns: seq<string>)
    ensures var out := Standardize(data, columns).0;
      forall c :: c in StringColumns(out, columns) ==> !Varies(ColumnTexts(out, c))
  {
    var out := Standardize(data, columns).0;
    var sc := StringColumns(data, columns);
    var varied := VariedColumns(data, sc);
    StandardStringColumns(data, columns);
    VariedColumnsMembers(data, sc);
    forall c | c in sc ensures !Varies(ColumnTexts(out, c)) {
      if c in varied {
        StandardColumnTexts(data, columns, c);
        CanonAllSettled(ColumnTexts(data, c));
      } else {
        SteadyColumnTexts(data, columns, c);
      }
    }
  }

  /** Standardising standardised data changes nothing and reports no fix. */
  lemma StandardizeIdempotent(data: seq<Row>, columns: seq<string>)
    ensures var out := Standardize(data, columns).0;
      Standardize(out, columns) == (out, [])
  {
    var out := Standardize(data, columns).0;
    StandardizedSettled(data, columns);
    NoVariedColumns(out, StringColumns(out, columns));
  }
}
