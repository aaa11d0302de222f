/** The risk library: equivalence classes over the quasi-identifiers, the
    prosecutor, journalist and marketer re-identification risks computed
    from them, the Pitman estimate, recommendation messages and the
    three-band risk level. */
module RiskUtils {
  import opened Records
  import opened Seqs
  import opened Grouping

  /** A class with its prosecutor risk attached (`riskScore`). */
  datatype EquivalenceClass = EquivalenceClass(key: string, records: seq<Row>, size: nat, riskScore: real)

  datatype RiskMetrics = RiskMetrics(
    prosecutorRisk: real,
    journalistRisk: real,
    marketerRisk: real,
    equivalenceClasses: seq<EquivalenceClass>,
    uniqueRecords: nat,
    smallGroups: nat,
    recommendations: seq<Advice>)

  datatype ProsecutorMetrics = ProsecutorMetrics(overall: real, perClass: seq<real>, maxRisk: real, worstCaseRisk: real)
  datatype JournalistMetrics = JournalistMetrics(overall: real, perClass: seq<real>, sampleRecordsAtRisk: nat)
  datatype MarketerMetrics = MarketerMetrics(overall: real, perClass: seq<real>, successfulMatches: int)

  datatype RiskLevel = Low | Medium | High

  // ---------------------------------------------------------------------
  // Class keys: `quasiIdentifiers.map(qi => String(row[qi] || "")).join("|")`

  /** One key component: a falsy cell (null, missing, "", 0) becomes "". */
  function KeyPart(v: Value): (r: string)
    ensures !Truthy(v) ==> r == ""
    ensures Truthy(v) ==> r == Text(v)
  {
    if Truthy(v) then Text(v) else ""
  }

  function ClassKey(row: Row, qis: seq<string>): string {
    Join(seq(|qis|, i requires 0 <= i < |qis| => KeyPart(Get(row, qis[i]))), "|")
  }

  function ClassKeys(data: seq<Row>, qis: seq<string>): (r: seq<string>)
    ensures |r| == |data|
    ensures forall i :: 0 <= i < |data| ==> r[i] == ClassKey(data[i], qis)
  {
    seq(|data|, i requires 0 <= i < |data| => ClassKey(data[i], qis))
  }

  /** The reference classes of a dataset. */
  function Classes(data: seq<Row>, qis: seq<string>): seq<Group> {
    GroupBy(ClassKeys(data, qis), data)
  }

  /** Rows that agree on every quasi-identifier up to truthiness share a key;
      in particular 0, "" and a missing value are not told apart. */
  lemma SameCellsSameKey(a: Row, b: Row, qis: seq<string>)
    requires forall i :: 0 <= i < |qis| ==> KeyPart(Get(a, qis[i])) == KeyPart(Get(b, qis[i]))
    ensures ClassKey(a, qis) == ClassKey(b, qis)
  {
    var pa := seq(|qis|, i requires 0 <= i < |qis| => KeyPart(Get(a, qis[i])));
    var pb := seq(|qis|, i requires 0 <= i < |qis| => KeyPart(Get(b, qis[i])));
    assert pa == pb;
  }

  lemma {:induction false} DedupConstant(s: seq<string>, k: string)
    requires |s| > 0 && forall i :: 0 <= i < |s| ==> s[i] == k
    ensures Dedup(s) == [k]
  {
    if |s| > 1 {
      DedupConstant(s[..|s| - 1], k);
    }
  }

  lemma {:induction false} RowsWithKeyConstant(keys: seq<string>, rows: seq<Row>, k: string)
    requires |keys| == |rows| && forall i :: 0 <= i < |keys| ==> keys[i] == k
    ensures RowsWithKey(keys, rows, k) == rows
    decreases |rows|
  {
    if |rows| > 0 {
      var n := |rows| - 1;
      RowsWithKeyConstant(keys[..n], rows[..n], k);
      assert rows == rows[..n] + [rows[n]];
    }
  }

  /** With no quasi-identifiers every row has the key "" and the whole
      dataset is one class. */
  lemma NoQuasiIdentifiersOneClass(data: seq<Row>)
    requires |data| > 0
    ensures Classes(data, []) == [Group("", data)]
  {
    var keys := ClassKeys(data, []);
    DedupConstant(keys, "");
    RowsWithKeyConstant(keys, data, "");
  }

  // ---------------------------------------------------------------------
  // The attack models

  /** `min(factor * classes / records, 1)`, or 0 for no records: what
      `Σ risk·size / Σ size` comes to when every class contributes
      `factor / size` per record. */
  function ClassRatio(gs: seq<Group>, factor: real): real {
    var n := TotalSize(gs);
    if n > 0 then RealMin(factor * |gs| as real / n as real, 1.0) else 0.0
  }

  /** `1 / ec.size`: the chance of picking the target out of its class. */
  function ClassRisk(g: Group): (r: real)
    requires g.Size() > 0
    ensures 0.0 < r <= 1.0
    ensures r == 1.0 <==> g.Size() == 1
  {
    1.0 / g.Size() as real
  }

  lemma ReciprocalTimes(s: nat, c: real)
    requires s > 0
    ensures (c / s as real) * s as real == c
  {
  }

  lemma {:induction false} CountSizesInStep(gs: seq<Group>, i: nat, lo: int, hi: int)
    requires i < |gs|
    ensures CountSizesIn(gs[..i + 1], lo, hi)
         == CountSizesIn(gs[..i], lo, hi) + (if lo <= gs[i].Size() <= hi then 1 else 0)
  {
    assert gs[..i + 1][..i] == gs[..i];
  }

  /** The body of the `forEach` in `calculateProsecutorRisk`: the class
      risk and its records' share of the total (1 in all). */
  method ProsecutorOfClass(ec: Group) returns (risk: real, weighted: real)
    requires ec.Size() > 0
    ensures risk == ClassRisk(ec)
    ensures weighted == 1.0
  {
    risk := 1.0 / ec.Size() as real;
    ReciprocalTimes(ec.Size(), 1.0);
    weighted := risk * ec.Size() as real;
  }

  /** `calculateProsecutorRisk`. */
  method CalculateProsecutorRisk(classes: seq<Group>) returns (m: ProsecutorMetrics)
    requires AllNonEmpty(classes)
    ensures |m.perClass| == |classes|
    ensures forall j :: 0 <= j < |classes| ==> m.perClass[j] == ClassRisk(classes[j])
    ensures m.overall == ClassRatio(classes, 1.0)
    ensures m.worstCaseRisk == m.maxRisk
    ensures forall j :: 0 <= j < |classes| ==> m.perClass[j] <= m.maxRisk
    ensures |classes| == 0 ==> m.maxRisk == 0.0
    ensures |classes| > 0 ==> exists j :: 0 <= j < |classes| && m.maxRisk == m.perClass[j]
  {
    var perClass: seq<real> := [];
    var totalRisk := 0.0;
    var maxRisk := 0.0;
    var worstCaseRisk := 0.0;
    var i := 0;
    while i < |classes|
      invariant 0 <= i <= |classes|
      invariant |perClass| == i
      invariant forall j :: 0 <= j < i ==> perClass[j] == ClassRisk(classes[j])
      invariant totalRisk == i as real
      invariant worstCaseRisk == maxRisk
      invariant forall j :: 0 <= j < i ==> perClass[j] <= maxRisk
      invariant i == 0 ==> maxRisk == 0.0
      invariant i > 0 ==> exists j :: 0 <= j < i && maxRisk == perClass[j]
    {
      var risk, weighted := ProsecutorOfClass(classes[i]);
      perClass := perClass + [risk];
      totalRisk := totalRisk + weighted;
      maxRisk := RealMax(maxRisk, risk);
      worstCaseRisk := RealMax(worstCaseRisk, risk);
      i := i + 1;
    }
    var totalRecords := TotalSize(classes);
    var overallRisk := if totalRecords > 0 then totalRisk / totalRecords as real else 0.0;
    m := ProsecutorMetrics(RealMin(overallRisk, 1.0), perClass, maxRisk, worstCaseRisk);
  }

  /** `0.4 / s > 0.2` exactly for classes of one record. */
  lemma JournalistThreshold(s: nat)
    requires s > 0
    ensures (1.0 / s as real) * 0.4 > 0.2 <==> s == 1
  {
    if s >= 2 {
      assert 1.0 / s as real <= 0.5;
    }
  }

  /** The body of the `forEach` in `calculateJournalistRisk`: the class
      risk, its records' share of the total (0.4 in all), and the records
      counted at risk (those of a unique class). */
  method JournalistOfClass(ec: Group) returns (risk: real, weighted: real, recordsAtRisk: nat)
    requires ec.Size() > 0
    ensures risk == 0.4 * ClassRisk(ec)
    ensures weighted == 0.4
    ensures recordsAtRisk == if ec.Size() == 1 then 1 else 0
  {
    var prosecutorRisk := 1.0 / ec.Size() as real;
    risk := prosecutorRisk * 0.4;
    ReciprocalTimes(ec.Size(), 0.4);
    weighted := risk * ec.Size() as real;
    JournalistThreshold(ec.Size());
    recordsAtRisk := 0;
    if risk > 0.2 {
      recordsAtRisk := ec.Size();
    }
  }

  /** `calculateJournalistRisk`. The sample and population sizes are passed
      along but play no part in the result. */
  method CalculateJournalistRisk(classes: seq<Group>, sampleSize: nat, populationSize: int)
    returns (m: JournalistMetrics)
    requires AllNonEmpty(classes)
    ensures |m.perClass| == |classes|
    ensures forall j :: 0 <= j < |classes| ==> m.perClass[j] == 0.4 * ClassRisk(classes[j])
    ensures m.overall == ClassRatio(classes, 0.4)
    ensures m.sampleRecordsAtRisk == CountSizesIn(classes, 1, 1)
  {
    var perClass: seq<real> := [];
    var totalRisk := 0.0;
    var atRisk := 0;
    var i := 0;
    while i < |classes|
      invariant 0 <= i <= |classes|
      invariant |perClass| == i
      invariant forall j :: 0 <= j < i ==> perClass[j] == 0.4 * ClassRisk(classes[j])
      invariant totalRisk == 0.4 * i as real
      invariant atRisk == CountSizesIn(classes[..i], 1, 1)
    {
      var risk, weighted, recordsAtRisk := JournalistOfClass(classes[i]);
      perClass := perClass + [risk];
      totalRisk := totalRisk + weighted;
      CountSizesInStep(classes, i, 1, 1);
      atRisk := atRisk + recordsAtRisk;
      i := i + 1;
    }
    assert classes[..i] == classes;
    var totalRecords := TotalSize(classes);
    var overallRisk := if totalRecords > 0 then totalRisk / totalRecords as real else 0.0;
    m := JournalistMetrics(RealMin(overallRisk, 1.0), perClass, atRisk);
  }

  /** `1.3 / s > 0.3` exactly for classes of at most four records, and each
      such class adds `round(s * min(1, 1.3 / s)) = 1` match. */
  lemma MarketerThreshold(s: nat)
    requires s > 0
    ensures (1.0 / s as real) * 1.3 > 0.3 <==> s <= 4
    ensures s <= 4 ==> Round(s as real * RealMin(1.0, (1.0 / s as real) * 1.3)) == 1
  {
    if s >= 5 {
      assert 1.0 / s as real <= 0.2;
    }
    if s == 1 {
      assert RealMin(1.0, 1.3) == 1.0;
    } else if s <= 4 {
      assert (1.0 / s as real) * 1.3 < 1.0;
      ReciprocalTimes(s, 1.3);
    }
  }

  /** The body of the `forEach` in `calculateMarketerRisk`: the capped
      risk shown for the class, its records' share of the total (1.3 in
      all), and its successful matches (one for a class of at most four
      records). */
  method MarketerOfClass(ec: Group) returns (capped: real, weighted: real, matches: int)
    requires ec.Size() > 0
    ensures capped == RealMin(1.0, 1.3 * ClassRisk(ec))
    ensures weighted == 1.3
    ensures matches == if ec.Size() <= 4 then 1 else 0
  {
    var prosecutorRisk := 1.0 / ec.Size() as real;
    var risk := prosecutorRisk * 1.3;
    capped := RealMin(1.0, risk);
    ReciprocalTimes(ec.Size(), 1.3);
    weighted := risk * ec.Size() as real;
    MarketerThreshold(ec.Size());
    matches := 0;
    if risk > 0.3 {
      matches := Round(ec.Size() as real * RealMin(1.0, risk));
    }
  }

  /** `calculateMarketerRisk`: per-class risks are capped at 1 for display,
      the overall figure only after averaging. */
  method CalculateMarketerRisk(classes: seq<Group>, sampleSize: nat, populationSize: int)
    returns (m: MarketerMetrics)
    requires AllNonEmpty(classes)
    ensures |m.perClass| == |classes|
    ensures forall j :: 0 <= j < |classes| ==> m.perClass[j] == RealMin(1.0, 1.3 * ClassRisk(classes[j]))
    ensures m.overall == ClassRatio(classes, 1.3)
    ensures m.successfulMatches == CountSizesIn(classes, 1, 4)
  {
    var perClass: seq<real> := [];
    var totalRisk := 0.0;
    var matches := 0;
    var i := 0;
    while i < |classes|
      invariant 0 <= i <= |classes|
      invariant |perClass| == i
      invariant forall j :: 0 <= j < i ==> perClass[j] == RealMin(1.0, 1.3 * ClassRisk(classes[j]))
      invariant totalRisk == 1.3 * i as real
      invariant matches == CountSizesIn(classes[..i], 1, 4)
    {
      var capped, weighted, classMatches := MarketerOfClass(classes[i]);
      perClass := perClass + [capped];
      totalRisk := totalRisk + weighted;
      CountSizesInStep(classes, i, 1, 4);
      matches := matches + classMatches;
      i := i + 1;
    }
    assert classes[..i] == classes;
    var totalRecords := TotalSize(classes);
    var overallRisk := if totalRecords > 0 then totalRisk / totalRecords as real else 0.0;
    m := MarketerMetrics(RealMin(overallRisk, 1.0), perClass, matches);
  }

  /** The three overall risks are probabilities, journalist is 40% of
      prosecutor and marketer is never below prosecutor. */
  lemma RiskOrdering(gs: seq<Group>)
    requires AllNonEmpty(gs)
    ensures 0.0 <= ClassRatio(gs, 1.0) <= 1.0
    ensures ClassRatio(gs, 0.4) == 0.4 * ClassRatio(gs, 1.0)
    ensures ClassRatio(gs, 1.0) <= ClassRatio(gs, 1.3) <= 1.0
  {
    ClassesAtMostRecords(gs);
    var n := TotalSize(gs);
    if n > 0 {
      var c := |gs| as real;
      assert c / n as real <= 1.0;
      assert 0.4 * c / n as real == 0.4 * (c / n as real);
      assert 1.3 * c / n as real == 1.3 * (c / n as real);
    }
  }

  /** Classes all of size at least `k` hold at least `k` records each. */
  lemma {:induction false} SizesAtLeast(gs: seq<Group>, k: nat)
    requires forall j :: 0 <= j < |gs| ==> gs[j].Size() >= k
    ensures TotalSize(gs) >= k * |gs|
  {
    if |gs| > 0 {
      SizesAtLeast(gs[1..], k);
    }
  }

  /** Classes with as many classes as records are all singletons. */
  lemma {:induction false} AllUniqueWhenCountsMatch(gs: seq<Group>)
    requires AllNonEmpty(gs) && |gs| == TotalSize(gs)
    ensures forall j :: 0 <= j < |gs| ==> gs[j].Size() == 1
  {
    if |gs| > 0 {
      ClassesAtMostRecords(gs[1..]);
      AllUniqueWhenCountsMatch(gs[1..]);
      assert forall j :: 1 <= j < |gs| ==> gs[j] == gs[1..][j - 1];
    }
  }

  lemma {:induction false} AllUniqueTotal(gs: seq<Group>)
    requires forall j :: 0 <= j < |gs| ==> gs[j].Size() == 1
    ensures TotalSize(gs) == |gs|
  {
    if |gs| > 0 {
      AllUniqueTotal(gs[1..]);
    }
  }

  lemma RatioOne(c: real, n: real)
    requires 0.0 < c <= n && c / n >= 1.0
    ensures c == n
  {
    assert c / n * n == c;
  }

  /** The prosecutor risk is 1 exactly when every record is unique. */
  lemma FullRiskIffAllUnique(gs: seq<Group>)
    requires AllNonEmpty(gs) && |gs| > 0
    ensures ClassRatio(gs, 1.0) == 1.0 <==> forall j :: 0 <= j < |gs| ==> gs[j].Size() == 1
  {
    ClassesAtMostRecords(gs);
    var n := TotalSize(gs);
    var c := |gs|;
    if forall j :: 0 <= j < |gs| ==> gs[j].Size() == 1 {
      AllUniqueTotal(gs);
      assert n == c;
      var x := c as real;
      assert 1.0 * x == x && x / x == 1.0;
    }
    if ClassRatio(gs, 1.0) == 1.0 {
      RatioOne(c as real, n as real);
      AllUniqueWhenCountsMatch(gs);
    }
  }

  /** On k-anonymous data (every class of size at least k) the prosecutor
      risk is at most 1/k, overall and per class. */
  lemma KAnonymousBound(gs: seq<Group>, k: nat)
    requires k > 0 && |gs| > 0
    requires forall j :: 0 <= j < |gs| ==> gs[j].Size() >= k
    ensures ClassRatio(gs, 1.0) <= 1.0 / k as real
    ensures forall j :: 0 <= j < |gs| ==> ClassRisk(gs[j]) <= 1.0 / k as real
  {
    SizesAtLeast(gs, k);
    var n := TotalSize(gs);
    var c := |gs| as real;
    assert n as real >= k as real * c;
    RatioBound(c, n as real, k as real);
    forall j | 0 <= j < |gs| ensures ClassRisk(gs[j]) <= 1.0 / k as real {
      ReciprocalAntitone(k as real, gs[j].Size() as real);
    }
  }

  lemma ReciprocalAntitone(a: real, b: real)
    requires 0.0 < a <= b
    ensures 1.0 / b <= 1.0 / a
  {
    assert 1.0 / b * a <= 1.0 / b * b;
  }

  /** `c / n <= 1 / k` once `n >= k * c`. */
  lemma RatioBound(c: real, n: real, k: real)
    requires c > 0.0 && k > 0.0 && n >= k * c
    ensures c / n <= 1.0 / k
  {
    ReciprocalAntitone(k * c, n);
    assert c / n == c * (1.0 / n);
    assert c * (1.0 / (k * c)) == 1.0 / k;
  }

  // ---------------------------------------------------------------------
  // Population estimates

  /** `pitmanPopulationEstimate`: `round((u + 1) / (n + 2) * population)`. */
  function PitmanPopulationEstimate(sampleUniques: nat, sampleSize: nat, populationSize: nat): (r: int)
    ensures sampleSize == 0 ==> r == 0
    ensures sampleUniques <= sampleSize ==> 0 <= r <= populationSize
  {
    if sampleSize == 0 then 0
    else
      var alpha := sampleUniques as real + 1.0;
      var beta := sampleSize as real - sampleUniques as real + 1.0;
      var p := alpha / (alpha + beta);
      ProportionBounds(alpha, beta);
      Round(p * populationSize as real)
  }

  lemma ProportionBounds(a: real, b: real)
    requires a > 0.0
    ensures b > 0.0 ==> 0.0 < a / (a + b) < 1.0
  {
    if b > 0.0 {
      assert a / (a + b) * (a + b) == a;
    }
  }

  /** More sample uniques never give a smaller population estimate. */
  lemma PitmanMonotone(u1: nat, u2: nat, n: nat, pop: nat)
    requires u1 <= u2
    ensures PitmanPopulationEstimate(u1, n, pop) <= PitmanPopulationEstimate(u2, n, pop)
  {
    if n > 0 {
      var d := n as real + 2.0;
      assert (u1 as real + 1.0) + (n as real - u1 as real + 1.0) == d;
      assert (u2 as real + 1.0) + (n as real - u2 as real + 1.0) == d;
      assert (u1 as real + 1.0) / d <= (u2 as real + 1.0) / d;
      assert (u1 as real + 1.0) / d * pop as real <= (u2 as real + 1.0) / d * pop as real;
      RoundMonotone((u1 as real + 1.0) / d * pop as real, (u2 as real + 1.0) / d * pop as real);
    }
  }

  /** `Math.max(data.length * populationMultiplier, 100000)`. */
  function EstimatedPopulationSize(records: nat, multiplier: int): (r: int)
    ensures r >= 100000 && r >= records * multiplier
    ensures r == 100000 || r == records * multiplier
  {
    if records * multiplier >= 100000 then records * multiplier else 100000
  }

  // ---------------------------------------------------------------------
  // Recommendations

  /** One recommendation of the risk library; `Text` is the message shown. */
  datatype Advice =
    | CriticalProsecutor
    | IncreaseK
    | ModerateProsecutor
    | SuppressBelow(k: int)
    | JournalistElevated
    | MarketerSignificant
    | ApplyDiversity
    | UniqueRatio(unique: nat, total: nat)
    | ConsiderSynthetic
    | GroupsViolate(count: nat, k: int)
    | Acceptable
  {
    function Text(): string {
      match this
      case CriticalProsecutor => "CRITICAL: High prosecutor attack risk. Too many unique/small records."
      case IncreaseK => "Action: Increase k-threshold or apply aggressive suppression"
      case ModerateProsecutor => "WARNING: Moderate prosecutor attack risk detected."
      case SuppressBelow(k) => "Action: Consider suppressing records with k-anonymity < " + IntText(k)
      case JournalistElevated => "Journalist attack risk is elevated. Consider sampling restrictions."
      case MarketerSignificant => "Marketer bulk targeting risk is significant."
      case ApplyDiversity => "Action: Apply L-Diversity or T-Closeness to sensitive attributes"
      case UniqueRatio(u, t) => "High ratio of unique records (" + NatText(u) + "/" + NatText(t) + ")"
      case ConsiderSynthetic => "Consider L-Diversity or synthetic data generation"
      case GroupsViolate(n, k) => NatText(n) + " groups violate k-anonymity (k=" + IntText(k) + ")"
      case Acceptable => "Risk levels are acceptable. Data appears well-protected."
    }
  }

  /** Whether any recommendation other than the all-clear is due. */
  predicate AnyConcern(p: real, j: real, m: real, classes: seq<Group>, k: int) {
    p > 0.2 || j > 0.3 || m > 0.25
    || CountSizesIn(classes, 1, 1) as real > TotalSize(classes) as real * 0.1
    || CountSizesIn(classes, 0, k - 1) > 0
  }

  /** When a piece of advice is called for, given the three overall risks,
      the classes and the threshold `k`. */
  predicate Due(a: Advice, p: real, j: real, m: real, classes: seq<Group>, k: int) {
    var unique := CountSizesIn(classes, 1, 1);
    var total := TotalSize(classes);
    match a
    case CriticalProsecutor => p > 0.4
    case IncreaseK => p > 0.4
    case ModerateProsecutor => 0.2 < p <= 0.4
    case SuppressBelow(k') => 0.2 < p <= 0.4 && k' == k
    case JournalistElevated => j > 0.3
    case MarketerSignificant => m > 0.25
    case ApplyDiversity => m > 0.25
    case UniqueRatio(u, t) => u == unique && t == total && unique as real > total as real * 0.1
    case ConsiderSynthetic => unique as real > total as real * 0.1
    case GroupsViolate(n, k') => n == CountSizesIn(classes, 0, k - 1) && k' == k && n > 0
    case Acceptable => !AnyConcern(p, j, m, classes, k)
  }

  /** The advice of the five blocks of `generateRecommendations`, each
      block's pushes in the order the blocks run, before the all-clear is
      considered. */
  function AdviceBlocks(p: real, j: real, m: real, classes: seq<Group>, k: int): seq<Advice> {
    var unique := CountSizesIn(classes, 1, 1);
    var total := TotalSize(classes);
    var small := CountSizesIn(classes, 0, k - 1);
    []
    + (if p > 0.4 then [CriticalProsecutor, IncreaseK]
       else if p > 0.2 then [ModerateProsecutor, SuppressBelow(k)] else [])
    + (if j > 0.3 then [JournalistElevated] else [])
    + (if m > 0.25 then [MarketerSignificant, ApplyDiversity] else [])
    + (if unique as real > total as real * 0.1 then [UniqueRatio(unique, total), ConsiderSynthetic] else [])
    + (if small > 0 then [GroupsViolate(small, k)] else [])
  }

  /** The blocks give exactly the advice that is due, the all-clear aside,
      and give none exactly when there is no concern. */
  lemma AdviceBlocksDue(p: real, j: real, m: real, classes: seq<Group>, k: int)
    ensures forall a :: a in AdviceBlocks(p, j, m, classes, k) <==> a != Acceptable && Due(a, p, j, m, classes, k)
    ensures |AdviceBlocks(p, j, m, classes, k)| == 0 <==> !AnyConcern(p, j, m, classes, k)
  {
  }

  /** `generateRecommendations`: the advice given is exactly the advice
      that is due (so the two prosecutor bands exclude each other), the
      list is never empty, and the all-clear appears only when nothing else
      does, and then alone. */
  function GenerateRecommendations(p: real, j: real, m: real, classes: seq<Group>, k: int)
    : (recs: seq<Advice>)
    ensures |recs| > 0
    ensures forall a :: a in recs <==> Due(a, p, j, m, classes, k)
    ensures !AnyConcern(p, j, m, classes, k) ==> recs == [Acceptable]
  {
    var blocks := AdviceBlocks(p, j, m, classes, k);
    AdviceBlocksDue(p, j, m, classes, k);
    if |blocks| == 0 then [Acceptable] else blocks
  }

  // ---------------------------------------------------------------------
  // Risk levels

  /** `getRiskLevel`. */
  function GetRiskLevel(risk: real): (r: RiskLevel)
    ensures r == High <==> risk >= 0.4
    ensures r == Low <==> risk < 0.2
  {
    if risk >= 0.4 then High else if risk >= 0.2 then Medium else Low
  }

  function LevelRank(l: RiskLevel): nat {
    match l
    case Low => 0
    case Medium => 1
    case High => 2
  }

  /** A higher risk never gets a lower level. */
  lemma RiskLevelMonotone(a: real, b: real)
    requires a <= b
    ensures LevelRank(GetRiskLevel(a)) <= LevelRank(GetRiskLevel(b))
  {
  }

  // ---------------------------------------------------------------------
  // The whole assessment

  /** The classes of a dataset are non-empty and hold all its records. */
  lemma ClassesCoverData(data: seq<Row>, qis: seq<string>)
    ensures AllNonEmpty(Classes(data, qis))
    ensures TotalSize(Classes(data, qis)) == |data|
  {
    var keys := ClassKeys(data, qis);
    GroupBySizesSum(keys, data);
    GroupByClassesDistinct(keys, data);
  }

  lemma ScaleRatio(f: real, c: real, n: real)
    requires n != 0.0
    ensures f * c / n == f * (c / n)
  {
  }

  lemma RatioAtMostOne(c: real, n: real)
    requires 0.0 <= c <= n && n > 0.0
    ensures 0.0 <= c / n <= 1.0
  {
    assert c / n * n == c;
  }

  /** The overall risks of `n` records in non-empty classes reduce to the
      ratio of classes to records. */
  lemma RatiosOfRecords(gs: seq<Group>, n: nat)
    requires AllNonEmpty(gs) && TotalSize(gs) == n
    ensures ClassRatio(gs, 1.0) == (if n > 0 then |gs| as real / n as real else 0.0)
    ensures ClassRatio(gs, 0.4) == 0.4 * ClassRatio(gs, 1.0)
    ensures ClassRatio(gs, 1.3) == RealMin(1.3 * ClassRatio(gs, 1.0), 1.0)
    ensures 0.0 <= ClassRatio(gs, 1.0) <= ClassRatio(gs, 1.3) <= 1.0
  {
    RiskOrdering(gs);
    ClassesAtMostRecords(gs);
    if n > 0 {
      RatioAtMostOne(|gs| as real, n as real);
      assert 1.0 * |gs| as real / n as real == |gs| as real / n as real;
      ScaleRatio(1.3, |gs| as real, n as real);
    }
  }

  /** `equivalenceClasses.forEach((ec, idx) => ec.riskScore = perClass[idx])`. */
  method AttachRiskScores(groups: seq<Group>, perClass: seq<real>) returns (classes: seq<EquivalenceClass>)
    requires |perClass| == |groups|
    ensures |classes| == |groups|
    ensures forall j :: 0 <= j < |groups| ==>
      classes[j] == EquivalenceClass(groups[j].key, groups[j].records, groups[j].Size(), perClass[j])
  {
    classes := [];
    var i := 0;
    while i < |groups|
      invariant 0 <= i <= |groups|
      invariant |classes| == i
      invariant forall j :: 0 <= j < i ==>
        classes[j] == EquivalenceClass(groups[j].key, groups[j].records, groups[j].Size(), perClass[j])
    {
      classes := classes + [EquivalenceClass(groups[i].key, groups[i].records, groups[i].Size(), perClass[i])];
      i := i + 1;
    }
  }

  /** What the assessment reports for classes `gs` under threshold `k`:
      each class with its prosecutor risk, the three overall risks as
      ratios of classes to records, the counts of unique records and of
      small classes, and exactly the advice that is due. */
  ghost predicate MeasuresClasses(r: RiskMetrics, gs: seq<Group>, k: int) {
    && AllNonEmpty(gs)
    && |r.equivalenceClasses| == |gs|
    && (forall j :: 0 <= j < |gs| ==>
          r.equivalenceClasses[j] == EquivalenceClass(gs[j].key, gs[j].records, gs[j].Size(), ClassRisk(gs[j])))
    && r.prosecutorRisk == ClassRatio(gs, 1.0)
    && r.journalistRisk == ClassRatio(gs, 0.4)
    && r.marketerRisk == ClassRatio(gs, 1.3)
    && r.uniqueRecords == CountSizesIn(gs, 1, 1)
    && r.smallGroups == CountSizesIn(gs, 2, k - 1)
    && (forall a :: a in r.recommendations <==>
          Due(a, r.prosecutorRisk, r.journalistRisk, r.marketerRisk, gs, k))
  }

  /** The part of `calculateRiskMetrics` that follows the grouping. */
  method MeasureClasses(groups: seq<Group>, records: nat, kThreshold: int, populationMultiplier: int)
    returns (r: RiskMetrics)
    requires AllNonEmpty(groups) && TotalSize(groups) == records
    ensures MeasuresClasses(r, groups, kThreshold)
  {
    var prosecutor := CalculateProsecutorRisk(groups);
    var estimatedPopSize := EstimatedPopulationSize(records, populationMultiplier);
    var journalist := CalculateJournalistRisk(groups, records, estimatedPopSize);
    var marketer := CalculateMarketerRisk(groups, records, estimatedPopSize);
    var classes := AttachRiskScores(groups, prosecutor.perClass);

    var uniqueRecords := CountSizesIn(groups, 1, 1);
    var smallGroups := CountSizesIn(groups, 2, kThreshold - 1);
    var recommendations := GenerateRecommendations(prosecutor.overall, journalist.overall, marketer.overall,
                                                   groups, kThreshold);
    r := RiskMetrics(prosecutor.overall, journalist.overall, marketer.overall, classes,
                     uniqueRecords, smallGroups, recommendations);
  }

  /** `calculateRiskMetrics`. The sample size and the population estimate
      are passed along but do not influence any result. */
  method CalculateRiskMetrics(data: seq<Row>, quasiIdentifiers: seq<string>, kThreshold: int,
                              sampleSize: nat, populationMultiplier: int)
    returns (r: RiskMetrics)
    ensures MeasuresClasses(r, Classes(data, quasiIdentifiers), kThreshold)
    ensures r.prosecutorRisk == (if |data| > 0 then |Classes(data, quasiIdentifiers)| as real / |data| as real else 0.0)
    ensures r.journalistRisk == 0.4 * r.prosecutorRisk
    ensures r.marketerRisk == RealMin(1.3 * r.prosecutorRisk, 1.0)
    ensures 0.0 <= r.prosecutorRisk <= r.marketerRisk <= 1.0
  {
    var keys := ClassKeys(data, quasiIdentifiers);
    var groups := BuildGroups(keys, data);
    ClassesCoverData(data, quasiIdentifiers);
    RatiosOfRecords(groups, |data|);
    r := MeasureClasses(groups, |data|, kThreshold, populationMultiplier);
  }
}
