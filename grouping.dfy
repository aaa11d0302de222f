/** Equivalence classes: rows grouped by a per-row key, classes in the order
    their key is first seen (the iteration order of a JavaScript Map). Both
    the risk library and the route handlers group this way; they differ only
    in how they compute the key, so the key of every row is an input here. */
module Grouping {
  import opened Records
  import opened Seqs

  datatype Group = Group(key: string, records: seq<Row>) {
    function Size(): nat { |records| }
  }

  /** The rows whose key is `k`, in input order. */
  function RowsWithKey(keys: seq<string>, rows: seq<Row>, k: string): (r: seq<Row>)
    requires |keys| == |rows|
    ensures |r| <= |rows|
    decreases |rows|
  {
    if |rows| == 0 then []
    else
      var n := |rows| - 1;
      RowsWithKey(keys[..n], rows[..n], k) + (if keys[n] == k then [rows[n]] else [])
  }

  /** The reference grouping: one class per distinct key, in first-seen
      order, holding the rows with that key in input order. */
  function GroupBy(keys: seq<string>, rows: seq<Row>): seq<Group>
    requires |keys| == |rows|
  {
    var ks := Dedup(keys);
    seq(|ks|, j requires 0 <= j < |ks| => Group(ks[j], RowsWithKey(keys, rows, ks[j])))
  }

  /** Concatenation of the records of all classes. */
  function Flatten(gs: seq<Group>): seq<Row> {
    if |gs| == 0 then [] else gs[0].records + Flatten(gs[1..])
  }

  /** Sum of class sizes: `classes.reduce((sum, ec) => sum + ec.size, 0)`. */
  function TotalSize(gs: seq<Group>): nat {
    if |gs| == 0 then 0 else gs[0].Size() + TotalSize(gs[1..])
  }

  predicate AllNonEmpty(gs: seq<Group>) {
    forall j :: 0 <= j < |gs| ==> gs[j].Size() > 0
  }

  /** Number of classes whose size lies in `lo..hi`:
      `classes.filter(ec => lo <= ec.size && ec.size <= hi).length`. */
  function CountSizesIn(gs: seq<Group>, lo: int, hi: int): (r: nat)
    ensures r <= |gs|
  {
    if |gs| == 0 then 0
    else
      var n := |gs| - 1;
      CountSizesIn(gs[..n], lo, hi) + (if lo <= gs[n].Size() <= hi then 1 else 0)
  }

  /** Number of classes larger than `t`. */
  function CountSizesAbove(gs: seq<Group>, t: int): (r: nat)
    ensures r <= |gs|
  {
    if |gs| == 0 then 0
    else
      var n := |gs| - 1;
      CountSizesAbove(gs[..n], t) + (if gs[n].Size() > t then 1 else 0)
  }

  /** Number of records in classes smaller than `k`. */
  function RecordsInClassesBelow(gs: seq<Group>, k: int): nat {
    if |gs| == 0 then 0
    else
      var n := |gs| - 1;
      RecordsInClassesBelow(gs[..n], k) + (if gs[n].Size() < k then gs[n].Size() else 0)
  }

  /** With no empty class there are at most as many classes as records. */
  lemma {:induction false} ClassesAtMostRecords(gs: seq<Group>)
    requires AllNonEmpty(gs)
    ensures |gs| <= TotalSize(gs)
    ensures |gs| > 0 <==> TotalSize(gs) > 0
  {
    if |gs| > 0 {
      assert gs[0].Size() > 0;
      ClassesAtMostRecords(gs[1..]);
    }
  }

  lemma {:induction false} TotalSizeSplit(gs: seq<Group>)
    requires |gs| > 0
    ensures TotalSize(gs) == TotalSize(gs[..|gs| - 1]) + gs[|gs| - 1].Size()
  {
    if |gs| > 1 {
      TotalSizeSplit(gs[1..]);
      assert gs[1..][..|gs| - 2] == gs[..|gs| - 1][1..];
    }
  }

  lemma {:induction false} RecordsBelowStep(gs: seq<Group>, i: nat, k: int)
    requires i < |gs|
    ensures RecordsInClassesBelow(gs[..i + 1], k)
         == RecordsInClassesBelow(gs[..i], k) + (if gs[i].Size() < k then gs[i].Size() else 0)
  {
    assert gs[..i + 1][..i] == gs[..i];
  }

  /** The records in classes below `k` are at most all records. */
  lemma {:induction false} RecordsBelowAtMostTotal(gs: seq<Group>, k: int)
    ensures RecordsInClassesBelow(gs, k) <= TotalSize(gs)
  {
    if |gs| > 0 {
      RecordsBelowAtMostTotal(gs[..|gs| - 1], k);
      TotalSizeSplit(gs);
    }
  }

  /** With no empty class, no record is in a class below `k` exactly when
      every class has at least `k` records. */
  lemma {:induction false} ViolationsBound(gs: seq<Group>, k: int)
    requires AllNonEmpty(gs)
    ensures RecordsInClassesBelow(gs, k) == 0 <==> forall j :: 0 <= j < |gs| ==> gs[j].Size() >= k
  {
    if |gs| > 0 {
      var n := |gs| - 1;
      ViolationsBound(gs[..n], k);
      assert forall j :: 0 <= j < n ==> gs[..n][j] == gs[j];
    }
  }

  // ---------------------------------------------------------------------
  // Building the classes in place

  lemma {:induction false} RowsWithKeyAbsent(keys: seq<string>, rows: seq<Row>, k: string)
    requires |keys| == |rows| && k !in keys
    ensures RowsWithKey(keys, rows, k) == []
    decreases |rows|
  {
    if |rows| > 0 {
      var n := |rows| - 1;
      assert keys[n] in keys;
      RowsWithKeyAbsent(keys[..n], rows[..n], k);
    }
  }

  lemma PrefixOfPrefix<T>(s: seq<T>, i: nat)
    requires i < |s|
    ensures s[..i + 1][..i] == s[..i]
  {
  }

  /** One more row extends the rows of its own key and no other. */
  lemma RowsWithKeyStep(keys: seq<string>, rows: seq<Row>, i: nat, k: string)
    requires |keys| == |rows| && i < |rows|
    ensures RowsWithKey(keys[..i + 1], rows[..i + 1], k)
              == RowsWithKey(keys[..i], rows[..i], k) + (if keys[i] == k then [rows[i]] else [])
  {
    PrefixOfPrefix(keys, i);
    PrefixOfPrefix(rows, i);
  }

  /** The class at position `m` keeps its key when one more row arrives and
      gains that row exactly when the row has its key. */
  lemma GroupByClassStep(keys: seq<string>, rows: seq<Row>, i: nat, m: nat)
    requires |keys| == |rows| && i < |rows|
    requires m < |Dedup(keys[..i])| && m < |Dedup(keys[..i + 1])|
    requires Dedup(keys[..i + 1])[m] == Dedup(keys[..i])[m]
    ensures var k := Dedup(keys[..i])[m];
      GroupBy(keys[..i + 1], rows[..i + 1])[m]
        == Group(k, GroupBy(keys[..i], rows[..i])[m].records + (if keys[i] == k then [rows[i]] else []))
  {
    RowsWithKeyStep(keys, rows, i, Dedup(keys[..i])[m]);
  }

  /** A row whose key was seen before joins that key's class. */
  lemma GroupByStepSeen(keys: seq<string>, rows: seq<Row>, i: nat, j: nat)
    requires |keys| == |rows| && i < |rows|
    requires j < |Dedup(keys[..i])| && Dedup(keys[..i])[j] == keys[i]
    ensures var prev := GroupBy(keys[..i], rows[..i]);
            GroupBy(keys[..i + 1], rows[..i + 1])
              == prev[j := Group(keys[i], prev[j].records + [rows[i]])]
  {
    PrefixOfPrefix(keys, i);
    var ks := Dedup(keys[..i]);
    assert keys[..i + 1][i] == keys[i];
    assert Dedup(keys[..i + 1]) == ks;
    var prev := GroupBy(keys[..i], rows[..i]);
    var next := GroupBy(keys[..i + 1], rows[..i + 1]);
    var expected := prev[j := Group(keys[i], prev[j].records + [rows[i]])];
    assert |next| == |expected|;
    forall m | 0 <= m < |next| ensures next[m] == expected[m] {
      GroupByClassStep(keys, rows, i, m);
      if m != j {
        assert ks[m] != keys[i];
      }
    }
  }

  /** A row with a new key opens a new class at the end. */
  lemma GroupByStepNew(keys: seq<string>, rows: seq<Row>, i: nat)
    requires |keys| == |rows| && i < |rows|
    requires keys[i] !in keys[..i]
    ensures GroupBy(keys[..i + 1], rows[..i + 1])
              == GroupBy(keys[..i], rows[..i]) + [Group(keys[i], [rows[i]])]
  {
    PrefixOfPrefix(keys, i);
    var ks := Dedup(keys[..i]);
    assert keys[..i + 1][i] == keys[i];
    assert keys[i] !in ks;
    assert Dedup(keys[..i + 1]) == ks + [keys[i]];
    var prev := GroupBy(keys[..i], rows[..i]);
    var next := GroupBy(keys[..i + 1], rows[..i + 1]);
    var expected := prev + [Group(keys[i], [rows[i]])];
    assert |next| == |expected|;
    forall m | 0 <= m < |ks| ensures next[m] == expected[m] {
      GroupByClassStep(keys, rows, i, m);
      assert ks[m] != keys[i];
    }
    RowsWithKeyStep(keys, rows, i, keys[i]);
    RowsWithKeyAbsent(keys[..i], rows[..i], keys[i]);
    assert next[|ks|] == expected[|ks|];
  }

  /** `index` maps the key of every class to the position of that class. */
  ghost predicate Indexes(index: map<string, nat>, gs: seq<Group>) {
    (forall k :: k in index ==> index[k] < |gs| && gs[index[k]].key == k) &&
    (forall j :: 0 <= j < |gs| ==> gs[j].key in index)
  }

  /** Replacing a class by one with the same key keeps the index. */
  lemma IndexesUpdate(index: map<string, nat>, gs: seq<Group>, j: nat, g: Group)
    requires Indexes(index, gs) && j < |gs| && g.key == gs[j].key
    ensures Indexes(index, gs[j := g])
  {
    assert forall m :: 0 <= m < |gs| ==> gs[j := g][m].key == gs[m].key;
  }

  /** A row whose key has a class joins it. */
  lemma BuildStepSeen(keys: seq<string>, rows: seq<Row>, i: nat, index: map<string, nat>, gs: seq<Group>)
    requires |keys| == |rows| && i < |rows|
    requires gs == GroupBy(keys[..i], rows[..i]) && Indexes(index, gs)
    requires keys[i] in index
    ensures var j := index[keys[i]];
      var next := gs[j := Group(keys[i], gs[j].records + [rows[i]])];
      next == GroupBy(keys[..i + 1], rows[..i + 1]) && Indexes(index, next)
  {
    var j := index[keys[i]];
    assert j < |gs| && gs[j].key == keys[i];
    GroupByStepSeen(keys, rows, i, j);
    IndexesUpdate(index, gs, j, Group(keys[i], gs[j].records + [rows[i]]));
  }

  /** Adding a class under a fresh key, indexed at its position, keeps the
      index. */
  lemma IndexesAppend(index: map<string, nat>, gs: seq<Group>, g: Group)
    requires Indexes(index, gs) && g.key !in index
    ensures Indexes(index[g.key := |gs|], gs + [g])
  {
    var next := gs + [g];
    forall k | k in index ensures next[index[k]] == gs[index[k]] { }
  }

  /** A key the index lacks occurs in no row grouped so far. */
  lemma UnindexedKeyIsNew(keys: seq<string>, rows: seq<Row>, index: map<string, nat>, k: string)
    requires |keys| == |rows| && Indexes(index, GroupBy(keys, rows)) && k !in index
    ensures k !in keys
  {
    var gs := GroupBy(keys, rows);
    var ks := Dedup(keys);
    forall j | 0 <= j < |ks| ensures ks[j] != k {
      assert gs[j].key == ks[j];
    }
  }

  /** A row whose key has no class yet opens one at the end. */
  lemma BuildStepNew(keys: seq<string>, rows: seq<Row>, i: nat, index: map<string, nat>, gs: seq<Group>)
    requires |keys| == |rows| && i < |rows|
    requires gs == GroupBy(keys[..i], rows[..i]) && Indexes(index, gs)
    requires keys[i] !in index
    ensures var next := gs + [Group(keys[i], [rows[i]])];
      next == GroupBy(keys[..i + 1], rows[..i + 1]) && Indexes(index[keys[i] := |gs|], next)
  {
    UnindexedKeyIsNew(keys[..i], rows[..i], index, keys[i]);
    GroupByStepNew(keys, rows, i);
    IndexesAppend(index, gs, Group(keys[i], [rows[i]]));
  }

  /** The classes of `rows` under `keys`, built as the source builds them:
      a map from key to class index, appending to an existing class or
      opening a new one. */
  method BuildGroups(keys: seq<string>, rows: seq<Row>) returns (gs: seq<Group>)
    requires |keys| == |rows|
    ensures gs == GroupBy(keys, rows)
  {
    gs := [];
    var index: map<string, nat> := map[];
    var i := 0;
    while i < |rows|
      invariant 0 <= i <= |rows|
      invariant gs == GroupBy(keys[..i], rows[..i])
      invariant Indexes(index, gs)
    {
      var key := keys[i];
      if key in index {
        BuildStepSeen(keys, rows, i, index, gs);
        var j := index[key];
        gs := gs[j := Group(key, gs[j].records + [rows[i]])];
      } else {
        BuildStepNew(keys, rows, i, index, gs);
        index := index[key := |gs|];
        gs := gs + [Group(key, [rows[i]])];
      }
      i := i + 1;
    }
    assert keys[..i] == keys && rows[..i] == rows;
  }

  // ---------------------------------------------------------------------
  // The classes partition the rows

  /** Appending a row to class `j` adds exactly that row to the records of
      all classes. */
  lemma {:induction false} FlattenExtend(gs: seq<Group>, j: nat, r: Row)
    requires j < |gs|
    ensures multiset(Flatten(gs[j := Group(gs[j].key, gs[j].records + [r])]))
              == multiset(Flatten(gs)) + multiset{r}
  {
    var t := gs[j := Group(gs[j].key, gs[j].records + [r])];
    assert Flatten(gs) == gs[0].records + Flatten(gs[1..]);
    if j == 0 {
      assert t[1..] == gs[1..];
      assert Flatten(t) == gs[0].records + [r] + Flatten(gs[1..]);
    } else {
      assert t[1..] == gs[1..][j - 1 := Group(gs[1..][j - 1].key, gs[1..][j - 1].records + [r])];
      FlattenExtend(gs[1..], j - 1, r);
      assert Flatten(t) == gs[0].records + Flatten(t[1..]);
    }
  }

  lemma {:induction false} FlattenAppend(gs: seq<Group>, g: Group)
    ensures Flatten(gs + [g]) == Flatten(gs) + g.records
  {
    if |gs| > 0 {
      assert (gs + [g])[1..] == gs[1..] + [g];
      FlattenAppend(gs[1..], g);
    }
  }

  lemma {:induction false} FlattenLength(gs: seq<Group>)
    ensures |Flatten(gs)| == TotalSize(gs)
  {
    if |gs| > 0 {
      FlattenLength(gs[1..]);
    }
  }

  /** Every row lands in exactly one class: the records of all classes are,
      as a multiset, exactly the input rows. */
  lemma {:induction false} GroupByCoversRows(keys: seq<string>, rows: seq<Row>)
    requires |keys| == |rows|
    ensures multiset(Flatten(GroupBy(keys, rows))) == multiset(rows)
    decreases |rows|
  {
    if |rows| > 0 {
      var i := |rows| - 1;
      assert keys[..i + 1] == keys && rows[..i + 1] == rows;
      GroupByCoversRows(keys[..i], rows[..i]);
      var prev := GroupBy(keys[..i], rows[..i]);
      assert rows == rows[..i] + [rows[i]];
      if keys[i] in keys[..i] {
        var d := Dedup(keys[..i]);
        var j :| 0 <= j < |d| && d[j] == keys[i];
        GroupByStepSeen(keys, rows, i, j);
        assert prev[j].key == keys[i];
        FlattenExtend(prev, j, rows[i]);
      } else {
        GroupByStepNew(keys, rows, i);
        FlattenAppend(prev, Group(keys[i], [rows[i]]));
      }
    }
  }

  lemma {:induction false} RowsWithKeyPresent(keys: seq<string>, rows: seq<Row>, i: nat)
    requires |keys| == |rows| && i < |rows|
    ensures rows[i] in RowsWithKey(keys, rows, keys[i])
    decreases |rows|
  {
    var n := |rows| - 1;
    if i < n {
      RowsWithKeyPresent(keys[..n], rows[..n], i);
    }
  }

  /** Class sizes sum to the number of rows. */
  lemma GroupBySizesSum(keys: seq<string>, rows: seq<Row>)
    requires |keys| == |rows|
    ensures TotalSize(GroupBy(keys, rows)) == |rows|
  {
    var gs := GroupBy(keys, rows);
    GroupByCoversRows(keys, rows);
    FlattenLength(gs);
    assert |multiset(Flatten(gs))| == |Flatten(gs)|;
    assert |multiset(rows)| == |rows|;
  }

  /** Every row sits in the class of its own key. */
  lemma GroupByPlacesEveryRow(keys: seq<string>, rows: seq<Row>)
    requires |keys| == |rows|
    ensures var gs := GroupBy(keys, rows);
      forall i :: 0 <= i < |rows| ==>
        exists j :: 0 <= j < |gs| && gs[j].key == keys[i] && rows[i] in gs[j].records
  {
    var gs := GroupBy(keys, rows);
    var ks := Dedup(keys);
    forall i | 0 <= i < |rows|
      ensures exists j :: 0 <= j < |gs| && gs[j].key == keys[i] && rows[i] in gs[j].records
    {
      assert keys[i] in ks;
      var j :| 0 <= j < |ks| && ks[j] == keys[i];
      RowsWithKeyPresent(keys, rows, i);
      assert gs[j].key == keys[i] && rows[i] in gs[j].records;
    }
  }

  /** No class is empty, no two classes share a key, and classes appear in
      the order their key is first seen. */
  lemma GroupByClassesDistinct(keys: seq<string>, rows: seq<Row>)
    requires |keys| == |rows|
    ensures var gs := GroupBy(keys, rows);
      && AllNonEmpty(gs)
      && (forall j1, j2 :: 0 <= j1 < j2 < |gs| ==> gs[j1].key != gs[j2].key)
      && (forall j1, j2 :: 0 <= j1 < j2 < |gs| ==>
            FirstIndex(keys, gs[j1].key) < FirstIndex(keys, gs[j2].key))
  {
    var gs := GroupBy(keys, rows);
    var ks := Dedup(keys);
    forall j | 0 <= j < |gs| ensures gs[j].Size() > 0 {
      var i := FirstIndex(keys, ks[j]);
      RowsWithKeyPresent(keys, rows, i);
    }
    DedupFirstSeenOrder(keys);
  }
}
