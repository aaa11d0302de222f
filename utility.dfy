/** The utility measurement: how well the column means of the number
    columns survive an anonymisation, combined with fixed correlation and
    distribution figures and the operation's information loss into an
    overall utility and its level. */
module Utility {
  import opened Records

  /** `rows.reduce((sum, row) => sum + (row[col] || 0), 0)`: falsy cells
      add 0. */
  function ColumnSum(data: seq<Row>, col: string): real {
    if |data| == 0 then 0.0
    else
      var n := |data| - 1;
      var v := Get(data[n], col);
      ColumnSum(data[..n], col) + if v.Num? then v.x else 0.0
  }

  /** The mean of a column over the rows. */
  function Mean(data: seq<Row>, col: string): real
    requires |data| > 0
  {
    ColumnSum(data, col) / |data| as real
  }

  /** `1 - |originalMean - processedMean| / |originalMean|`. */
  function Preservation(originalMean: real, processedMean: real): real
    requires originalMean != 0.0
  {
    var deviation := if originalMean >= processedMean then originalMean - processedMean else processedMean - originalMean;
    var scale := if originalMean >= 0.0 then originalMean else -originalMean;
    1.0 - deviation / scale
  }

  /** The starting `statisticalSimilarity`, also its ceiling. */
  const BaseSimilarity: real := 0.9
  const CorrelationPreservation: real := 0.85
  const DistributionSimilarity: real := 0.88
  /** `operation.informationLoss || 0.15`: the loss used when none (or 0)
      was recorded. */
  const DefaultLoss: real := 0.15

  /** Whether a column takes part: the original mean is not 0. */
  predicate Counts(original: seq<Row>, col: string)
    requires |original| > 0
  {
    Mean(original, col) != 0.0
  }

  /** The preservation of one taking-part column, floored at 0. */
  function ColumnScore(original: seq<Row>, processed: seq<Row>, col: string): real
    requires |original| > 0 && |processed| > 0 && Counts(original, col)
  {
    RealMax(0.0, Preservation(Mean(original, col), Mean(processed, col)))
  }

  /** `statisticalSimilarity` after the columns `cols`, taken in turn:
      `Math.min(statisticalSimilarity, Math.max(0, preservation))` for
      every column whose original mean is not 0. */
  function Similarity(original: seq<Row>, processed: seq<Row>, cols: seq<string>): real
    requires |original| > 0 && |processed| > 0
  {
    if |cols| == 0 then BaseSimilarity
    else
      var n := |cols| - 1;
      var before := Similarity(original, processed, cols[..n]);
      if Counts(original, cols[n]) then RealMin(before, ColumnScore(original, processed, cols[n])) else before
  }

  /** The mean-preservation loop over the number columns. */
  method StatisticalSimilarity(originalData: seq<Row>, processedData: seq<Row>, numericColumns: seq<string>)
    returns (statisticalSimilarity: real)
    requires |originalData| > 0 && |processedData| > 0
    ensures statisticalSimilarity == Similarity(originalData, processedData, numericColumns)
  {
    statisticalSimilarity := BaseSimilarity;
    var j := 0;
    while j < |numericColumns|
      invariant 0 <= j <= |numericColumns|
      invariant statisticalSimilarity == Similarity(originalData, processedData, numericColumns[..j])
    {
      assert numericColumns[..j + 1][..j] == numericColumns[..j];
      var col := numericColumns[j];
      var originalMean := ColumnSum(originalData, col) / |originalData| as real;
      var processedMean := ColumnSum(processedData, col) / |processedData| as real;
      if originalMean != 0.0 {
        var preservation := Preservation(originalMean, processedMean);
        statisticalSimilarity := RealMin(statisticalSimilarity, RealMax(0.0, preservation));
      }
      j := j + 1;
    }
    assert numericColumns[..j] == numericColumns;
  }

  /** The similarity is the smallest of 0.9 and the floored preservations
      of the taking-part columns: at most each of them, and equal to 0.9 or
      to one of them. Hence it lies in [0, 0.9]. */
  lemma {:induction false} SimilarityIsMinimum(original: seq<Row>, processed: seq<Row>, cols: seq<string>)
    requires |original| > 0 && |processed| > 0
    ensures var s := Similarity(original, processed, cols);
      && 0.0 <= s <= BaseSimilarity
      && (forall c :: c in cols && Counts(original, c) ==> s <= ColumnScore(original, processed, c))
      && (s == BaseSimilarity || exists c :: c in cols && Counts(original, c) && s == ColumnScore(original, processed, c))
  {
    if |cols| > 0 {
      var n := |cols| - 1;
      SimilarityIsMinimum(original, processed, cols[..n]);
      assert forall c :: c in cols <==> c in cols[..n] || c == cols[n];
    }
  }

  /** Columns whose original mean is 0 do not change the similarity. */
  lemma {:induction false} ZeroMeanIgnored(original: seq<Row>, processed: seq<Row>, cols: seq<string>, c: string)
    requires |original| > 0 && |processed| > 0 && !Counts(original, c)
    ensures Similarity(original, processed, cols + [c]) == Similarity(original, processed, cols)
    ensures Similarity(original, processed, [c] + cols) == Similarity(original, processed, cols)
  {
    assert (cols + [c])[..|cols|] == cols;
    if |cols| > 0 {
      var n := |cols| - 1;
      ZeroMeanIgnored(original, processed, cols[..n], c);
      assert ([c] + cols)[..n + 1] == [c] + cols[..n];
    }
  }

  /** A column whose mean is kept has preservation 1. */
  lemma SameMeanPreserved(original: seq<Row>, processed: seq<Row>, col: string)
    requires |original| > 0 && |processed| > 0 && Counts(original, col)
    requires Mean(processed, col) == Mean(original, col)
    ensures ColumnScore(original, processed, col) == 1.0
  {
  }

  /** Comparing a dataset with itself leaves the similarity at its ceiling
      of 0.9. */
  lemma {:induction false} SelfSimilarity(data: seq<Row>, cols: seq<string>)
    requires |data| > 0
    ensures Similarity(data, data, cols) == BaseSimilarity
  {
    if |cols| > 0 {
      SelfSimilarity(data, cols[..|cols| - 1]);
    }
  }

  /** The information loss used. */
  function EffectiveLoss(informationLoss: Option<real>): real {
    match informationLoss
    case None => DefaultLoss
    case Some(x) => if x == 0.0 then DefaultLoss else x
  }

  /** The mean of the four figures. */
  function OverallUtility(statisticalSimilarity: real, informationLoss: real): real {
    (statisticalSimilarity + CorrelationPreservation + DistributionSimilarity + (1.0 - informationLoss)) / 4.0
  }

  datatype UtilityLevel = Poor | Fair | Good | Excellent

  /** The level ladder: Excellent from 0.9, Good from 0.75, Fair from 0.5,
      Poor below. */
  function Level(overallUtility: real): UtilityLevel {
    if overallUtility >= 0.9 then Excellent
    else if overallUtility >= 0.75 then Good
    else if overallUtility >= 0.5 then Fair
    else Poor
  }

  /** The rank of a level, Poor lowest. */
  function Rank(l: UtilityLevel): nat {
    match l
    case Poor => 0
    case Fair => 1
    case Good => 2
    case Excellent => 3
  }

  /** Each level holds exactly on its band of the ladder. */
  lemma LevelBands(u: real)
    ensures Level(u) == Excellent <==> u >= 0.9
    ensures Level(u) == Good <==> 0.75 <= u < 0.9
    ensures Level(u) == Fair <==> 0.5 <= u < 0.75
    ensures Level(u) == Poor <==> u < 0.5
  {
  }

  /** A higher utility never gets a lower level. */
  lemma LevelMonotone(u: real, w: real)
    requires u <= w
    ensures Rank(Level(u)) <= Rank(Level(w))
  {
  }

  /** The figures of one measurement. */
  datatype Measurement = Measurement(
    statisticalSimilarity: real, correlationPreservation: real, distributionSimilarity: real,
    informationLoss: real, overallUtility: real, utilityLevel: UtilityLevel,
    columnMetrics: seq<(string, real)>)

  /** The number columns (by the first original row) with the similarity
      in percent, one entry per column. */
  function ColumnMetrics(numericColumns: seq<string>, statisticalSimilarity: real): (r: seq<(string, real)>)
    ensures |r| == |numericColumns|
    ensures forall j :: 0 <= j < |r| ==> r[j] == (numericColumns[j], statisticalSimilarity * 100.0)
  {
    seq(|numericColumns|, j requires 0 <= j < |numericColumns| => (numericColumns[j], statisticalSimilarity * 100.0))
  }

  /** The measurement of `processed` against `original`. The processed
      rows must be non-empty when some number column exists (the source
      divides by their count). */
  function Measure(original: seq<Row>, processed: seq<Row>, columns: seq<string>, informationLoss: Option<real>): Measurement
    requires |NumericColumns(original, columns)| > 0 ==> |processed| > 0
  {
    var numericColumns := NumericColumns(original, columns);
    var s := if |numericColumns| > 0
      then assert numericColumns[0] in numericColumns; Similarity(original, processed, numericColumns)
      else BaseSimilarity;
    var loss := EffectiveLoss(informationLoss);
    var overall := OverallUtility(s, loss);
    Measurement(s, CorrelationPreservation, DistributionSimilarity, loss, overall, Level(overall),
                ColumnMetrics(numericColumns, s))
  }

  /** The utility measurement route's computation. */
  method MeasureUtility(originalData: seq<Row>, processedData: seq<Row>, columns: seq<string>, informationLoss: Option<real>)
    returns (m: Measurement)
    requires |NumericColumns(originalData, columns)| > 0 ==> |processedData| > 0
    ensures m == Measure(originalData, processedData, columns, informationLoss)
  {
    var numericColumns := NumericColumns(originalData, columns);
    var statisticalSimilarity := BaseSimilarity;
    if |numericColumns| > 0 {
      assert numericColumns[0] in numericColumns;
      statisticalSimilarity := StatisticalSimilarity(originalData, processedData, numericColumns);
    }
    var loss := EffectiveLoss(informationLoss);
    var overallUtility := OverallUtility(statisticalSimilarity, loss);
    var utilityLevel := Poor;
    if overallUtility >= 0.9 {
      utilityLevel := Excellent;
    } else if overallUtility >= 0.75 {
      utilityLevel := Good;
    } else if overallUtility >= 0.5 {
      utilityLevel := Fair;
    }
    m := Measurement(statisticalSimilarity, CorrelationPreservation, DistributionSimilarity, loss,
                     overallUtility, utilityLevel, ColumnMetrics(numericColumns, statisticalSimilarity));
  }

  /** A missing or zero loss is read as 0.15; any other loss as given. */
  lemma DefaultLossUsed(informationLoss: Option<real>)
    ensures informationLoss == None || informationLoss == Some(0.0) <==> EffectiveLoss(informationLoss) == DefaultLoss && informationLoss != Some(DefaultLoss)
    ensures informationLoss.Some? && informationLoss.value != 0.0 ==> EffectiveLoss(informationLoss) == informationLoss.value
  {
  }

  /** With a loss in [0, 1] the overall utility lies in [0.4325, 0.9075];
      it rises with the similarity and falls with the loss. */
  lemma OverallBounds(s: real, loss: real, s': real, loss': real)
    requires 0.0 <= s <= BaseSimilarity && 0.0 <= loss <= 1.0
    requires s <= s' && loss' <= loss
    ensures 0.4325 <= OverallUtility(s, loss) <= 0.9075
    ensures OverallUtility(s, loss) <= OverallUtility(s', loss')
  {
  }

  /** Every measurement's similarity lies in [0, 0.9]. */
  lemma MeasureSimilarityBounds(original: seq<Row>, processed: seq<Row>, columns: seq<string>, informationLoss: Option<real>)
    requires |NumericColumns(original, columns)| > 0 ==> |processed| > 0
    ensures 0.0 <= Measure(original, processed, columns, informationLoss).statisticalSimilarity <= BaseSimilarity
  {
    var numericColumns := NumericColumns(original, columns);
    if |numericColumns| > 0 {
      assert numericColumns[0] in numericColumns;
      SimilarityIsMinimum(original, processed, numericColumns);
    }
  }

  /** Measuring a dataset against itself with no recorded loss gives the
      similarity 0.9 and the overall utility 0.87, hence the level Good,
      not Excellent. */
  lemma SelfMeasurement(data: seq<Row>, columns: seq<string>)
    requires |data| > 0
    ensures var m := Measure(data, data, columns, None);
      m.statisticalSimilarity == BaseSimilarity && m.overallUtility == 0.87 && m.utilityLevel == Good
  {
    SelfSimilarity(data, NumericColumns(data, columns));
  }
}
