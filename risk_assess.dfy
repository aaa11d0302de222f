/** The risk assessment route: classes by the route key, the class tallies
    (violations, unique records, small groups), an attack-specific overall
    figure with its own thresholds, the class-size histogram and the
    attack-specific advice. This is a second risk model, independent of
    the risk library's. */
module RiskAssess {
  import opened Records
  import opened Grouping
  import opened JoinKeys
  import opened RiskUtils

  // ---------------------------------------------------------------------
  // Class tallies

  /** `classSizes`. */
  function Sizes(gs: seq<Group>): (r: seq<nat>)
    ensures |r| == |gs|
    ensures forall j :: 0 <= j < |gs| ==> r[j] == gs[j].Size()
  {
    seq(|gs|, j requires 0 <= j < |gs| => gs[j].Size())
  }

  /** The `forEach` over the classes: every class below `k` adds its records
      to `violations` and one to `smallGroupCount`, every singleton one to
      `uniqueRecords`. */
  method CountClasses(classes: seq<Group>, kThreshold: int)
    returns (violations: nat, uniqueRecords: nat, smallGroupCount: nat, classSizes: seq<nat>)
    ensures violations == RecordsInClassesBelow(classes, kThreshold)
    ensures uniqueRecords == CountSizesIn(classes, 1, 1)
    ensures smallGroupCount == CountSizesIn(classes, 0, kThreshold - 1)
    ensures classSizes == Sizes(classes)
  {
    violations, uniqueRecords, smallGroupCount, classSizes := 0, 0, 0, [];
    var i := 0;
    while i < |classes|
      invariant 0 <= i <= |classes|
      invariant violations == RecordsInClassesBelow(classes[..i], kThreshold)
      invariant uniqueRecords == CountSizesIn(classes[..i], 1, 1)
      invariant smallGroupCount == CountSizesIn(classes[..i], 0, kThreshold - 1)
      invariant classSizes == Sizes(classes[..i])
    {
      var size := classes[i].Size();
      RecordsBelowStep(classes, i, kThreshold);
      CountSizesInStep(classes, i, 1, 1);
      CountSizesInStep(classes, i, 0, kThreshold - 1);
      assert Sizes(classes[..i + 1]) == Sizes(classes[..i]) + [size];
      classSizes := classSizes + [size];
      if size < kThreshold {
        violations := violations + size;
        smallGroupCount := smallGroupCount + 1;
      }
      if size == 1 {
        uniqueRecords := uniqueRecords + 1;
      }
      i := i + 1;
    }
    assert classes[..i] == classes;
  }

  /** With `k` at least 2 every singleton is also a small group, so the
      vulnerable count `uniqueRecords + smallGroupCount` counts it twice. */
  lemma {:induction false} SmallGroupsIncludeUniques(gs: seq<Group>, k: int)
    requires k >= 2
    ensures CountSizesIn(gs, 1, 1) <= CountSizesIn(gs, 0, k - 1)
  {
    if |gs| > 0 {
      SmallGroupsIncludeUniques(gs[..|gs| - 1], k);
    }
  }

  // ---------------------------------------------------------------------
  // The histogram

  /** The four buckets `1`, `2-4`, `5-10`, `>10`. */
  function Histogram(gs: seq<Group>): seq<nat> {
    [CountSizesIn(gs, 1, 1), CountSizesIn(gs, 2, 4), CountSizesIn(gs, 5, 10), CountSizesAbove(gs, 10)]
  }

  /** Every non-empty class falls in exactly one bucket, so the bucket
      counts add up to the number of classes. */
  lemma {:induction false} HistogramPartition(gs: seq<Group>)
    requires AllNonEmpty(gs)
    ensures var h := Histogram(gs); h[0] + h[1] + h[2] + h[3] == |gs|
  {
    if |gs| > 0 {
      var n := |gs| - 1;
      assert forall j :: 0 <= j < n ==> gs[..n][j] == gs[j];
      HistogramPartition(gs[..n]);
    }
  }

  // ---------------------------------------------------------------------
  // Attack-specific figures

  function SampledSize(records: nat, sampleSize: real): int {
    (records as real * (sampleSize / 100.0)).Floor
  }

  predicate KnownAttack(a: string) {
    a == "prosecutor" || a == "journalist" || a == "marketer"
  }

  /** `(risk > high ? High : risk > medium ? Medium : Low)`. */
  function Ladder(risk: real, high: real, medium: real): RiskLevel {
    if risk > high then High else if risk > medium then Medium else Low
  }

  /** With the medium threshold below the high one, a larger figure never
      gets a lower level. */
  lemma LadderMonotone(a: real, b: real, high: real, medium: real)
    requires a <= b && medium <= high
    ensures LevelRank(Ladder(a, high, medium)) <= LevelRank(Ladder(b, high, medium))
  {
  }

  /** Each level of the ladder holds on its band: High strictly above the
      high threshold, Low at or below the medium one. */
  lemma LadderBands(risk: real, high: real, medium: real)
    requires medium <= high
    ensures Ladder(risk, high, medium) == High <==> risk > high
    ensures Ladder(risk, high, medium) == Medium <==> medium < risk <= high
    ensures Ladder(risk, high, medium) == Low <==> risk <= medium
  {
  }

  datatype AttackRisk = AttackRisk(overallRisk: real, riskLevel: RiskLevel)

  /** The figure and level of the first attack scenario, or of the default
      calculation when there is none. `vulnerable` is
      `uniqueRecords + smallGroupCount`. */
  function AssessAttack(attackScenarios: seq<string>, uniqueRecords: nat, vulnerable: nat, records: nat, sampled: int)
    : (r: AttackRisk)
    requires records > 0 || (|attackScenarios| > 0 && !KnownAttack(attackScenarios[0]))
    ensures |attackScenarios| > 0 && !KnownAttack(attackScenarios[0]) ==> r == AttackRisk(0.0, Low)
    ensures r.riskLevel == High ==> r.overallRisk > 0.25
    ensures r.riskLevel != Low ==> r.overallRisk > 0.1
  {
    if |attackScenarios| > 0 then
      var attackType := attackScenarios[0];
      if attackType == "prosecutor" then
        var risk := (vulnerable as real / records as real) * 0.85;
        AttackRisk(risk, Ladder(risk, 0.4, 0.2))
      else if attackType == "journalist" then
        var selecting := vulnerable as real / records as real;
        var sampling := sampled as real / records as real;
        var risk := selecting * sampling * 0.6;
        AttackRisk(risk, Ladder(risk, 0.25, 0.12))
      else if attackType == "marketer" then
        var rate := vulnerable as real / records as real;
        var efficiency := RealMin(1.0, sampled as real / 10.0);
        var risk := rate * efficiency * 0.75;
        AttackRisk(risk, Ladder(risk, 0.35, 0.15))
      else AttackRisk(0.0, Low)
    else
      var risk := uniqueRecords as real / records as real;
      AttackRisk(risk, Ladder(risk, 0.3, 0.1))
  }

  lemma RatioAtMost(a: real, n: real, b: real)
    requires n > 0.0 && 0.0 <= a <= b * n
    ensures 0.0 <= a / n <= b
  {
    assert a / n * n == a;
  }

  lemma ProductAtMost(x: real, y: real, xMax: real, yMax: real)
    requires 0.0 <= x <= xMax && 0.0 <= y <= yMax
    ensures 0.0 <= x * y <= xMax * yMax
  {
    assert x * y <= xMax * y;
  }

  /** The counts the figures are made of: no more singletons than records,
      and a vulnerable count of at most twice the records. */
  lemma {:induction false} VulnerableBound(gs: seq<Group>, k: int)
    requires AllNonEmpty(gs)
    ensures CountSizesIn(gs, 1, 1) <= TotalSize(gs)
    ensures CountSizesIn(gs, 1, 1) + CountSizesIn(gs, 0, k - 1) <= 2 * TotalSize(gs)
  {
    ClassesAtMostRecords(gs);
  }

  /** The prosecutor figure is not a probability: as the vulnerable count
      can count a class twice, it ranges up to 1.7. */
  lemma ProsecutorFigureBounds(u: nat, v: nat, n: nat, sampled: int)
    requires n > 0 && v <= 2 * n
    ensures 0.0 <= AssessAttack(["prosecutor"], u, v, n, sampled).overallRisk <= 1.7
  {
    RatioAtMost(v as real, n as real, 2.0);
    ProductAtMost(v as real / n as real, 0.85, 2.0, 0.85);
  }

  /** The journalist figure is at most 1.2 times the sampled share. */
  lemma JournalistFigureBounds(u: nat, v: nat, n: nat, sampled: nat)
    requires n > 0 && v <= 2 * n
    ensures 0.0 <= AssessAttack(["journalist"], u, v, n, sampled).overallRisk <= 1.2 * (sampled as real / n as real)
  {
    var share := sampled as real / n as real;
    RatioAtMost(v as real, n as real, 2.0);
    ProductAtMost(v as real / n as real, share, 2.0, share);
    ProductAtMost(v as real / n as real * share, 0.6, 2.0 * share, 0.6);
  }

  /** The marketer figure is at most 1.5. */
  lemma MarketerFigureBounds(u: nat, v: nat, n: nat, sampled: nat)
    requires n > 0 && v <= 2 * n
    ensures 0.0 <= AssessAttack(["marketer"], u, v, n, sampled).overallRisk <= 1.5
  {
    var efficiency := RealMin(1.0, sampled as real / 10.0);
    RatioAtMost(v as real, n as real, 2.0);
    ProductAtMost(v as real / n as real, efficiency, 2.0, 1.0);
    ProductAtMost(v as real / n as real * efficiency, 0.75, 2.0, 0.75);
  }

  /** Without an attack scenario the figure, `uniqueRecords / records`, is a
      proportion. */
  lemma DefaultFigureBounds(u: nat, v: nat, n: nat, sampled: int)
    requires n > 0 && u <= n
    ensures 0.0 <= AssessAttack([], u, v, n, sampled).overallRisk <= 1.0
  {
    RatioAtMost(u as real, n as real, 1.0);
  }

  lemma {:induction false} AllSingletonsCounts(gs: seq<Group>, k: int)
    requires k >= 2 && forall j :: 0 <= j < |gs| ==> gs[j].Size() == 1
    ensures CountSizesIn(gs, 1, 1) == |gs| && CountSizesIn(gs, 0, k - 1) == |gs|
  {
    if |gs| > 0 {
      AllSingletonsCounts(gs[..|gs| - 1], k);
    }
  }

  /** The bound is reached: when every record is unique and `k` is at least
      2, the prosecutor figure is 1.7, a "risk" above 1, rated High. */
  lemma ProsecutorFigureExceedsOne(gs: seq<Group>, k: int, sampled: int)
    requires k >= 2 && |gs| > 0 && forall j :: 0 <= j < |gs| ==> gs[j].Size() == 1
    ensures var u := CountSizesIn(gs, 1, 1);
      var r := AssessAttack(["prosecutor"], u, u + CountSizesIn(gs, 0, k - 1), TotalSize(gs), sampled);
      r.overallRisk == 1.7 && r.riskLevel == High
  {
    AllSingletonsCounts(gs, k);
    AllUniqueTotal(gs);
    var c := |gs| as real;
    assert (c + c) / c == 2.0;
  }

  // ---------------------------------------------------------------------
  // Advice

  /** `attackScenarios?.[0] || "prosecutor"`. */
  function AdviceAttack(attackScenarios: seq<string>): string {
    if |attackScenarios| > 0 && attackScenarios[0] != "" then attackScenarios[0] else "prosecutor"
  }

  /** One recommendation of the route; `Text` is the message shown. */
  datatype RouteAdvice =
    | FocusOnUniques
    | UrgentUniques
    | UseSuppression
    | ReduceVisibility
    | RestrictSampling
    | UniformGroups
    | DiversifyValues
    | DiversifySensitive
    | SyntheticRelease
  {
    function Text(): string {
      match this
      case FocusOnUniques => "This is high-confidence attack - Focus on eliminating unique records"
      case UrgentUniques => "URGENT: Too many unique records for prosecutor attack resistance"
      case UseSuppression => "Use suppression or high k-anonymity to protect individual records"
      case ReduceVisibility => "Random sampling attack - Reduce overall record visibility"
      case RestrictSampling => "Implement sampling restrictions or rate limiting"
      case UniformGroups => "Uniform distribution of quasi-identifier groups recommended"
      case DiversifyValues => "Pattern-based attack - Diversify attribute values"
      case DiversifySensitive => "Apply L-Diversity or T-Closeness to sensitive attributes"
      case SyntheticRelease => "Consider synthetic data generation for bulk data release"
    }
  }

  /** The attack-specific recommendations: three for a journalist or
      marketer attack, two or three for a prosecutor attack (the default
      when no scenario is named), none for an unknown attack. */
  function RouteRecommendations(attackScenarios: seq<string>, uniqueRecords: nat, records: nat): (recs: seq<RouteAdvice>)
    ensures |recs| > 0 <==> KnownAttack(AdviceAttack(attackScenarios))
    ensures UrgentUniques in recs <==> AdviceAttack(attackScenarios) == "prosecutor" && uniqueRecords as real > records as real * 0.3
    ensures |attackScenarios| == 0 ==> FocusOnUniques in recs
  {
    var attackType := AdviceAttack(attackScenarios);
    if attackType == "prosecutor" then
      [FocusOnUniques] + (if uniqueRecords as real > records as real * 0.3 then [UrgentUniques] else []) + [UseSuppression]
    else if attackType == "journalist" then [ReduceVisibility, RestrictSampling, UniformGroups]
    else if attackType == "marketer" then [DiversifyValues, DiversifySensitive, SyntheticRelease]
    else []
  }

  // ---------------------------------------------------------------------
  // The route

  datatype Assessment = Assessment(
    overallRisk: real,
    riskLevel: RiskLevel,
    violations: nat,
    uniqueRecords: nat,
    histogram: seq<nat>,
    totalClasses: nat,
    recommendations: seq<RouteAdvice>)

  /** What the route reports about classes `gs` of `records` rows. */
  ghost predicate Assesses(a: Assessment, gs: seq<Group>, records: nat, kThreshold: int, sampleSize: real,
                           attackScenarios: seq<string>)
    requires records > 0 || (|attackScenarios| > 0 && !KnownAttack(attackScenarios[0]))
  {
    && a.violations == RecordsInClassesBelow(gs, kThreshold)
    && a.uniqueRecords == CountSizesIn(gs, 1, 1)
    && a.totalClasses == |gs|
    && a.histogram == Histogram(gs)
    && AttackRisk(a.overallRisk, a.riskLevel)
       == AssessAttack(attackScenarios, a.uniqueRecords, a.uniqueRecords + CountSizesIn(gs, 0, kThreshold - 1),
                       records, SampledSize(records, sampleSize))
    && a.recommendations == RouteRecommendations(attackScenarios, a.uniqueRecords, records)
  }

  /** The route's work once the classes are built. */
  method AssessClasses(classes: seq<Group>, records: nat, kThreshold: int, sampleSize: real,
                       attackScenarios: seq<string>)
    returns (a: Assessment)
    requires records > 0 || (|attackScenarios| > 0 && !KnownAttack(attackScenarios[0]))
    ensures Assesses(a, classes, records, kThreshold, sampleSize, attackScenarios)
  {
    var sampledSize := SampledSize(records, sampleSize);
    var violations, uniqueRecords, smallGroupCount, classSizes := CountClasses(classes, kThreshold);
    var risk := AssessAttack(attackScenarios, uniqueRecords, uniqueRecords + smallGroupCount, records, sampledSize);
    var histogram := Histogram(classes);
    var recommendations := RouteRecommendations(attackScenarios, uniqueRecords, records);
    a := Assessment(risk.overallRisk, risk.riskLevel, violations, uniqueRecords, histogram, |classes|,
                    recommendations);
  }

  /** The computation of `POST /api/risk/assess` on a loaded dataset: the
      route's figures for its classes, with at most all records in
      violation and a histogram that accounts for every class. */
  method AssessRisk(data: seq<Row>, quasiIdentifiers: seq<string>, kThreshold: int, sampleSize: real,
                    attackScenarios: seq<string>)
    returns (a: Assessment)
    requires |data| > 0 || (|attackScenarios| > 0 && !KnownAttack(attackScenarios[0]))
    ensures Assesses(a, RouteClasses(data, quasiIdentifiers), |data|, kThreshold, sampleSize, attackScenarios)
    ensures a.violations <= |data|
    ensures var gs := RouteClasses(data, quasiIdentifiers);
      a.violations == 0 <==> forall j :: 0 <= j < |gs| ==> gs[j].Size() >= kThreshold
    ensures a.histogram[0] + a.histogram[1] + a.histogram[2] + a.histogram[3] == a.totalClasses
  {
    var classes := BuildGroups(RouteKeys(data, quasiIdentifiers), data);
    RouteClassesFacts(data, quasiIdentifiers, kThreshold);
    a := AssessClasses(classes, |data|, kThreshold, sampleSize, attackScenarios);
  }

  lemma RouteClassesFacts(data: seq<Row>, qis: seq<string>, k: int)
    ensures var gs := RouteClasses(data, qis);
      var h := Histogram(gs);
      && RecordsInClassesBelow(gs, k) <= |data|
      && (RecordsInClassesBelow(gs, k) == 0 <==> forall j :: 0 <= j < |gs| ==> gs[j].Size() >= k)
      && h[0] + h[1] + h[2] + h[3] == |gs|
  {
    var gs := RouteClasses(data, qis);
    GroupBySizesSum(RouteKeys(data, qis), data);
    GroupByClassesDistinct(RouteKeys(data, qis), data);
    RecordsBelowAtMostTotal(gs, k);
    ViolationsBound(gs, k);
    HistogramPartition(gs);
  }
}
