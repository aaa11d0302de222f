/** Generic sequence facts shared by the privacy engine: first-occurrence
    de-duplication (the order a JavaScript Map or Set iterates its keys in)
    and an ascending sort of numbers (`Array.prototype.sort` with `a - b`). */
module Seqs {

  /** No element occurs twice. */
  predicate NoDuplicates<T(==)>(s: seq<T>) {
    forall i, j :: 0 <= i < j < |s| ==> s[i] != s[j]
  }

  /** Index of the first occurrence of `x` in `s`. */
  function FirstIndex<T(==)>(s: seq<T>, x: T): (i: nat)
    requires x in s
    ensures i < |s| && s[i] == x
    ensures forall j :: 0 <= j < i ==> s[j] != x
  {
    if s[0] == x then 0 else 1 + FirstIndex(s[1..], x)
  }

  /** The distinct elements of `s`, each at the position of its first
      occurrence: what a JavaScript Map or Set yields when its keys are
      inserted in the order of `s`. */
  function Dedup<T(==)>(s: seq<T>): (r: seq<T>)
    ensures |r| <= |s|
    ensures forall i :: 0 <= i < |r| ==> r[i] in s
    ensures forall i :: 0 <= i < |s| ==> s[i] in r
    ensures NoDuplicates(r)
  {
    if |s| == 0 then []
    else
      var d := Dedup(s[..|s| - 1]);
      if s[|s| - 1] in d then d else d + [s[|s| - 1]]
  }

  /** Appending to a sequence appends to its de-duplication unless the
      element is already there. */
  lemma DedupAppend<T>(s: seq<T>, x: T)
    ensures Dedup(s + [x]) == if x in Dedup(s) then Dedup(s) else Dedup(s) + [x]
  {
    assert (s + [x])[..|s|] == s;
  }

  /** De-duplication keeps exactly the elements of the sequence. */
  lemma DedupMembers<T>(s: seq<T>, x: T)
    ensures x in Dedup(s) <==> x in s
  {
    if x in Dedup(s) {
      var i :| 0 <= i < |Dedup(s)| && Dedup(s)[i] == x;
    }
  }

  /** A sequence without duplicates is its own de-duplication. */
  lemma {:induction false} DedupOfDistinct<T>(s: seq<T>)
    requires NoDuplicates(s)
    ensures Dedup(s) == s
  {
    if |s| > 0 {
      var n := |s| - 1;
      var p := s[..n];
      assert NoDuplicates(p) by {
        assert forall i :: 0 <= i < n ==> p[i] == s[i];
      }
      DedupOfDistinct(p);
      assert s == p + [s[n]];
    }
  }

  /** Only a sequence without duplicates loses nothing to de-duplication. */
  lemma {:induction false} DistinctWhenNothingLost<T>(s: seq<T>)
    requires |Dedup(s)| == |s|
    ensures NoDuplicates(s)
  {
    if |s| > 0 {
      var n := |s| - 1;
      var p := s[..n];
      assert s == p + [s[n]];
      DedupAppend(p, s[n]);
      DistinctWhenNothingLost(p);
      DistinctAppend(p, s[n]);
    }
  }

  /** Appending a new element keeps a sequence free of duplicates. */
  lemma DistinctAppend<T>(p: seq<T>, x: T)
    requires NoDuplicates(p) && x !in p
    ensures NoDuplicates(p + [x])
  {
  }

  lemma {:induction false} FirstIndexOfPrefix<T>(s: seq<T>, n: nat, x: T)
    requires n <= |s| && x in s[..n]
    ensures FirstIndex(s[..n], x) == FirstIndex(s, x)
  {
    if s[0] != x {
      assert s[..n][1..] == s[1..][..n - 1];
      FirstIndexOfPrefix(s[1..], n - 1, x);
    }
  }

  /** Elements already in a prefix are first found inside it. */
  lemma FirstIndexInPrefix<T>(s: seq<T>, n: nat)
    requires n <= |s|
    ensures forall i :: 0 <= i < |Dedup(s[..n])| ==>
              FirstIndex(s, Dedup(s[..n])[i]) == FirstIndex(s[..n], Dedup(s[..n])[i]) < n
  {
    var d := Dedup(s[..n]);
    forall i | 0 <= i < |d| ensures FirstIndex(s, d[i]) == FirstIndex(s[..n], d[i]) < n {
      FirstIndexOfPrefix(s, n, d[i]);
    }
  }

  /** Dedup lists the distinct elements in the order of their first
      occurrence, which together with membership and no-duplicates fixes it
      uniquely. */
  lemma {:induction false} DedupFirstSeenOrder<T>(s: seq<T>)
    ensures forall i, j :: 0 <= i < j < |Dedup(s)| ==>
              FirstIndex(s, Dedup(s)[i]) < FirstIndex(s, Dedup(s)[j])
  {
    if |s| > 0 {
      var n := |s| - 1;
      DedupFirstSeenOrder(s[..n]);
      if s[n] in Dedup(s[..n]) {
        DedupOrderSeen(s);
      } else {
        DedupOrderNew(s);
      }
    }
  }

  /** The step of `DedupFirstSeenOrder` for a last element seen before. */
  lemma DedupOrderSeen<T>(s: seq<T>)
    requires |s| > 0 && s[|s| - 1] in Dedup(s[..|s| - 1])
    requires var p := s[..|s| - 1];
      forall i, j :: 0 <= i < j < |Dedup(p)| ==> FirstIndex(p, Dedup(p)[i]) < FirstIndex(p, Dedup(p)[j])
    ensures forall i, j :: 0 <= i < j < |Dedup(s)| ==>
              FirstIndex(s, Dedup(s)[i]) < FirstIndex(s, Dedup(s)[j])
  {
    var n := |s| - 1;
    FirstIndexInPrefix(s, n);
    assert Dedup(s) == Dedup(s[..n]);
  }

  /** The step of `DedupFirstSeenOrder` for a last element not seen
      before. */
  lemma DedupOrderNew<T>(s: seq<T>)
    requires |s| > 0 && s[|s| - 1] !in Dedup(s[..|s| - 1])
    requires var p := s[..|s| - 1];
      forall i, j :: 0 <= i < j < |Dedup(p)| ==> FirstIndex(p, Dedup(p)[i]) < FirstIndex(p, Dedup(p)[j])
    ensures forall i, j :: 0 <= i < j < |Dedup(s)| ==>
              FirstIndex(s, Dedup(s)[i]) < FirstIndex(s, Dedup(s)[j])
  {
    var n := |s| - 1;
    var p := s[..n];
    var d := Dedup(p);
    var r := Dedup(s);
    FirstIndexInPrefix(s, n);
    assert r == d + [s[n]];
    assert s[n] !in p;
    FirstIndexAfterPrefix(s, n, s[n]);
    forall i, j | 0 <= i < j < |r| ensures FirstIndex(s, r[i]) < FirstIndex(s, r[j]) {
      assert r[i] == d[i];
      if j < |d| {
        assert r[j] == d[j];
      }
    }
  }

  /** An element absent from the first `n` elements and found at `n` is
      first found there. */
  lemma {:induction false} FirstIndexAfterPrefix<T>(s: seq<T>, n: nat, x: T)
    requires n < |s| && s[n] == x && x !in s[..n]
    ensures FirstIndex(s, x) == n
  {
    if n > 0 {
      assert s[0] == s[..n][0];
      assert s[1..][..n - 1] == s[1..n];
      assert forall t :: 0 <= t < n - 1 ==> s[1..n][t] == s[..n][t + 1];
      FirstIndexAfterPrefix(s[1..], n - 1, x);
    }
  }

  /** Sorted in ascending order. */
  predicate SortedReals(s: seq<real>) {
    forall i, j :: 0 <= i < j < |s| ==> s[i] <= s[j]
  }

  function InsertSorted(x: real, s: seq<real>): (r: seq<real>)
    requires SortedReals(s)
    ensures |r| == |s| + 1
    ensures r[0] == if |s| == 0 || x <= s[0] then x else s[0]
    ensures SortedReals(r)
    ensures multiset(r) == multiset(s) + multiset{x}
  {
    if |s| == 0 then [x]
    else if x <= s[0] then [x] + s
    else
      var t := InsertSorted(x, s[1..]);
      assert s == [s[0]] + s[1..];
      [s[0]] + t
  }

  /** `values.sort((a, b) => a - b)`: an ascending permutation. */
  function SortAscending(s: seq<real>): (r: seq<real>)
    ensures SortedReals(r)
    ensures multiset(r) == multiset(s)
    ensures |r| == |s|
  {
    if |s| == 0 then []
    else
      assert s == [s[0]] + s[1..];
      InsertSorted(s[0], SortAscending(s[1..]))
  }
}
