# Privacy risk and anonymisation engine: a Dafny model

This project models the computational core of the statathon privacy
engine. It has two parts:

- The risk library `server/risk-utils.ts`:
  - the equivalence classes of a dataset under a set of quasi-identifiers;
  - the prosecutor, journalist and marketer re-identification risks;
  - the Pitman population estimate;
  - the recommendation list and the risk level.
- The data-handling parts of the HTTP routes in `server/routes.ts`:
  - the upload quality scores (completeness, duplication, consistency and their weighted mix);
  - the standardisation of text spellings;
  - the auto-fix (remove duplicates, standardise, fill missing cells, rescore);
  - the attack-specific risk assessment;
  - the k-anonymity transform (suppression and generalisation);
  - the utility measurement.

A dataset is a sequence of rows. A row is a map from column names to
values: `Null`, a text, or a number (other cell kinds are listed under
"Left out"). A column a row lacks reads as
`Null`, because `undefined` and `null` behave the same in every use here.
Numbers are exact reals. Text is `seq<char>`.

Where the source builds something step by step, the model does too:

- The class `Map`s, the `forEach` tallies, the fill passes and the
  mean-preservation loop are methods with loops.
- Each such method is proved equal to a specification function, for
  example `BuildGroups == GroupBy`, `AutoFixDataset == AutoFixed` and
  `ScoreUpload == UploadScores`.
- The lemmas state what those functions guarantee.

Both grouping codes share one specification, `Grouping.GroupBy`. Its
classes appear in the order their key is first seen, which is the order a
JavaScript `Map` iterates. The two files build their keys differently:

- The risk library writes a falsy cell as `""`, so 0 and a missing value
  share a class.
- The routes' `Array.join` writes only `null` and `undefined` as `""`.

`JoinKeys.ZeroAndMissingKeys` proves the two keys differ on that point.

Where the code departs from its own comments or design, the model follows
the code:

- The key separator `"|"` is not collision-free. Rows with different
  quasi-identifier values can land in one class
  (`JoinKeys.SeparatorCollision`).
- An empty quasi-identifier list does not give zero risk. Every row falls
  into one class with key `""`, so the prosecutor risk is `1/n`
  (`RiskUtils.NoQuasiIdentifiersOneClass`).
- The journalist factor is fixed at 0.4 and the marketer factor at 1.3.
  The sample size and the population estimate are passed to both
  calculations but change no result. `pitmanPopulationEstimate` is never
  called.
- The route's prosecutor figure is not a probability: `uniqueRecords +
  smallGroupCount` counts a singleton twice when `k >= 2`, so the figure
  reaches 1.7 (`RiskAssess.ProsecutorFigureExceedsOne`).
- Measuring a dataset against itself gives the overall utility 0.87 and
  the level Good, not 1.0 and Excellent (`Utility.SelfMeasurement`). The
  similarity starts at 0.9 and the correlation and distribution figures
  are fixed at 0.85 and 0.88.
- On an empty dataset the routes divide 0 by 0. `KAnonymity.ApplyKAnonymity`
  models the resulting information loss as `None`. The utility route reads
  that `NaN`, like a missing loss, as 0.15 (`Utility.EffectiveLoss`).

## Model

| member | source | states |
|---|---|---|
| Records.StringColumns | server/routes.ts:22-24 | a column is a text column exactly when it is declared and the first row holds a text in it; there are none for empty data |
| Records.NumericColumns | server/routes.ts:329-331 | a column is a number column exactly when it is declared and the first row holds a number in it |
| Records.TrimIdempotent | server/routes.ts:32 | trimming a trimmed text changes nothing |
| Records.Normalize | server/routes.ts:33 | the normalised form (lower case, white-space runs collapsed) is empty exactly when the text is |
| Seqs.Dedup | server/routes.ts:305-311 | one copy of every element, every element of the input kept, no repeats |
| Seqs.DedupFirstSeenOrder | server/routes.ts:305-311 | kept elements appear in the order of their first occurrence, as a `Map` keeps insertion order |
| Seqs.SortAscending | server/routes.ts:340 | the result is ascending and a permutation of the input |
| JoinKeys.JoinPart | server/routes.ts:437 | `null`/missing joins as the empty text, any other value as its `String` text |
| JoinKeys.RouteKeys | server/routes.ts:437 | one key per row: the row's quasi-identifier cells joined with the vertical bar |
| JoinKeys.SameCellsSameRouteKey | server/routes.ts:437 | rows that agree on every quasi-identifier get the same key |
| JoinKeys.ZeroAndMissingKeys | server/risk-utils.ts:262 | the risk library's key merges 0 with a missing value; the routes' key keeps them apart |
| JoinKeys.SeparatorCollision | server/routes.ts:437 | two rows that differ on a quasi-identifier can get the same key, because the vertical-bar separator may occur inside a value |
| Grouping.BuildGroups | server/risk-utils.ts:259-271 | the `Map`-of-classes loop builds exactly `GroupBy`: one class per distinct key in first-seen order, each holding its rows in input order |
| Grouping.GroupByCoversRows | server/risk-utils.ts:261-269 | the classes together hold exactly the input rows: a permutation of them |
| Grouping.GroupBySizesSum | server/risk-utils.ts:49 | the class sizes add up to the number of rows |
| Grouping.GroupByPlacesEveryRow | server/risk-utils.ts:263-267 | every row sits in the class of its own key |
| Grouping.GroupByClassesDistinct | server/risk-utils.ts:259-271 | no class is empty, no two classes share a key, classes come in first-seen key order |
| Grouping.ClassesAtMostRecords | server/risk-utils.ts:49-50 | non-empty classes are at most as many as their records, and there are records exactly when there are classes |
| Grouping.RecordsBelowAtMostTotal | server/routes.ts:452-454 | the records in classes below k are at most all records |
| Grouping.ViolationsBound | server/routes.ts:450-459 | no record is in violation exactly when every class has at least k records |
| RiskUtils.KeyPart | server/risk-utils.ts:262 | a falsy cell (null, missing, 0, empty text) gives the empty text, any other its `String` text |
| RiskUtils.ClassKeys | server/risk-utils.ts:262 | one key per row, the row's key |
| RiskUtils.SameCellsSameKey | server/risk-utils.ts:262 | rows whose quasi-identifier cells give the same key parts share a key |
| RiskUtils.NoQuasiIdentifiersOneClass | server/risk-utils.ts:259-271 | with no quasi-identifier every row of a non-empty dataset falls into one class with key "" |
| RiskUtils.ClassRisk | server/risk-utils.ts:42 | the per-class prosecutor risk 1/size lies in (0, 1] and is 1 exactly for a singleton |
| RiskUtils.ProsecutorOfClass | server/risk-utils.ts:42-44 | the class's risk is 1/size and its size-weighted share is 1 |
| RiskUtils.CalculateProsecutorRisk | server/risk-utils.ts:29-58 | per-class risks 1/size in class order; the overall risk is the capped weighted mean; the maximum bounds every class risk, is one of them (0 with no class) and equals the worst case |
| RiskUtils.JournalistThreshold | server/risk-utils.ts:117 | `0.4/size > 0.2` holds exactly for singletons |
| RiskUtils.JournalistOfClass | server/risk-utils.ts:109-119 | the class risk is 0.4 times the prosecutor risk; only a singleton adds a record at risk |
| RiskUtils.CalculateJournalistRisk | server/risk-utils.ts:91-130 | per-class risks 0.4/size; the overall risk is the capped weighted mean; the records at risk are the singletons |
| RiskUtils.MarketerThreshold | server/risk-utils.ts:165-166 | `1.3/size > 0.3` holds exactly for classes of at most 4, and each such class adds one match |
| RiskUtils.MarketerOfClass | server/risk-utils.ts:157-167 | the displayed class risk is `min(1, 1.3/size)`; a class of at most 4 adds one match |
| RiskUtils.CalculateMarketerRisk | server/risk-utils.ts:139-178 | per-class risks `min(1, 1.3/size)`; the overall risk is the capped weighted mean of the uncapped risks; the matches are the classes of size 1 to 4 |
| RiskUtils.RiskOrdering | server/risk-utils.ts:29-178 | all three overall risks lie in [0, 1]; journalist is 0.4 times prosecutor; prosecutor is at most marketer |
| RiskUtils.FullRiskIffAllUnique | server/risk-utils.ts:25-27 | the overall prosecutor risk is 1 exactly when every class is a singleton |
| RiskUtils.KAnonymousBound | server/risk-utils.ts:25-27 | when every class has at least k records, the overall and every per-class prosecutor risk is at most 1/k |
| RiskUtils.PitmanPopulationEstimate | server/risk-utils.ts:66-82 | 0 for an empty sample; otherwise, with no more uniques than the sample size, between 0 and the population size |
| RiskUtils.PitmanMonotone | server/risk-utils.ts:66-82 | more sample uniques never give a smaller estimate |
| RiskUtils.EstimatedPopulationSize | server/risk-utils.ts:275-278 | the larger of 100000 and records times the multiplier |
| RiskUtils.AdviceBlocksDue | server/risk-utils.ts:201-239 | the five blocks give exactly the advice that is due (all-clear aside), and none exactly when nothing is of concern |
| RiskUtils.GenerateRecommendations | server/risk-utils.ts:183-246 | the list is never empty and holds exactly the advice that is due; with no concern it is the all-clear alone |
| RiskUtils.GetRiskLevel | server/risk-utils.ts:324-328 | High exactly from 0.4, Low exactly below 0.2 |
| RiskUtils.RiskLevelMonotone | server/risk-utils.ts:324-328 | a higher risk never gets a lower level |
| RiskUtils.ClassesCoverData | server/risk-utils.ts:259-271 | the classes are non-empty and hold all records |
| RiskUtils.RatiosOfRecords | server/risk-utils.ts:49-53 | the overall risks reduce to classes/records (0 when empty), 0.4 times that, and `min(1.3` times that`, 1)` |
| RiskUtils.AttachRiskScores | server/risk-utils.ts:290-293 | class j gets per-class risk j, all else kept |
| RiskUtils.MeasureClasses | server/risk-utils.ts:273-318 | the result reports each class with its risk, the three overall risks, the unique and small-group counts, and exactly the advice due |
| RiskUtils.CalculateRiskMetrics | server/risk-utils.ts:251-319 | the metrics of the classes of `data`: prosecutor = classes/records (0 when empty), journalist = 0.4 times that, marketer = `min(1.3` times that`, 1)`, with `0 <= prosecutor <= marketer <= 1` |
| RiskAssess.Sizes | server/routes.ts:451 | one size per class, in class order |
| RiskAssess.CountClasses | server/routes.ts:444-459 | violations = records in classes below k, unique = singleton classes, small = classes below k, sizes in order |
| RiskAssess.SmallGroupsIncludeUniques | server/routes.ts:471 | with k at least 2 every singleton class is also a small group |
| RiskAssess.HistogramPartition | server/routes.ts:501-507 | the four buckets count every class exactly once |
| RiskAssess.LadderMonotone | server/routes.ts:473-498 | with the medium threshold below the high one, a larger figure never gets a lower level |
| RiskAssess.LadderBands | server/routes.ts:473-498 | each attack ladder gives High exactly strictly above its high threshold, Medium strictly above the medium one up to the high one, Low otherwise |
| RiskAssess.AssessAttack | server/routes.ts:461-499 | an unknown attack gives 0 and Low; High implies a figure above 0.25 and any level above Low a figure above 0.1 |
| RiskAssess.VulnerableBound | server/routes.ts:471 | the singletons are at most the records; the vulnerable count is at most twice the records |
| RiskAssess.ProsecutorFigureBounds | server/routes.ts:468-474 | the prosecutor figure lies in [0, 1.7] |
| RiskAssess.JournalistFigureBounds | server/routes.ts:476-483 | the journalist figure lies between 0 and 1.2 times the sampled share |
| RiskAssess.MarketerFigureBounds | server/routes.ts:485-492 | the marketer figure lies in [0, 1.5] |
| RiskAssess.DefaultFigureBounds | server/routes.ts:494-498 | without a scenario the figure is a proportion in [0, 1] |
| RiskAssess.ProsecutorFigureExceedsOne | server/routes.ts:468-474 | when all records are unique and k is at least 2, the figure is exactly 1.7 and High |
| RiskAssess.RouteRecommendations | server/routes.ts:509-527 | advice is given exactly for a known attack (prosecutor by default); the urgent advice appears exactly for prosecutor with more than 30% unique records |
| RiskAssess.AssessClasses | server/routes.ts:444-527 | the assessment holds the class tallies, histogram, attack figure and level, and advice of the classes |
| RiskAssess.AssessRisk | server/routes.ts:431-527 | as above for the route's classes of `data`; violations at most the records and 0 exactly when all classes reach k; histogram sums to the class count |
| RiskAssess.RouteClassesFacts | server/routes.ts:435-459 | for the route's classes: violations at most the records, 0 exactly when every class reaches k, histogram partition |
| KAnonymity.Generalize | server/routes.ts:596-600 | a number becomes a multiple of ten in (x-10, x]; anything else becomes "*" |
| KAnonymity.GeneralizeIsDecade | server/routes.ts:596-597 | the generalised number is the one multiple of ten in (x-10, x], that is floor(x/10)*10 |
| KAnonymity.GeneralizeSameDecade | server/routes.ts:596-597 | two numbers generalise alike exactly when they lie in the same decade |
| KAnonymity.GeneralizeIdempotent | server/routes.ts:596-600 | generalising twice is generalising once |
| KAnonymity.GeneralizedRowCell | server/routes.ts:594-601 | generalising a row changes exactly its quasi-identifier cells and adds those it lacks |
| KAnonymity.GeneralizeRecord | server/routes.ts:594-602 | the `forEach` over the quasi-identifiers builds the generalised row |
| KAnonymity.GeneralizedRows | server/routes.ts:593-603 | one generalised row per record, in order |
| KAnonymity.GeneralizeRecords | server/routes.ts:593-603 | the `map` builds the generalised rows |
| KAnonymity.ApplyKAnonymity | server/routes.ts:569-610 | output = large classes kept, small ones dropped within budget `floor(n * limit)` and generalised beyond it; suppressed = records in small classes; loss = suppressed/n in [0, 1], none for an empty dataset |
| KAnonymity.DroppedWithinBudget | server/routes.ts:584-591 | rows dropped are at most the suppressed count and at most the budget |
| KAnonymity.AnonymizedLength | server/routes.ts:584-607 | output rows plus dropped rows make all input rows |
| KAnonymity.AnonymizedByFate | server/routes.ts:584-607 | the transform's output grows class by class: a large class's rows as they are, a suppressed class's rows not at all, a generalised class's rows generalised |
| KAnonymity.GeneralizedStaysGeneralized | server/routes.ts:587-605 | once a small class is generalised, every later small class is generalised too, and the transform's output carries its generalised rows |
| KAnonymity.NothingDroppedWithoutBudget | server/routes.ts:582-591 | with a zero budget nothing is dropped |
| KAnonymity.EverythingDroppedWithFullBudget | server/routes.ts:582-591 | with a budget covering all rows every small class is dropped and the output is the large classes |
| KAnonymity.KAnonymousUnchanged | server/routes.ts:584-586 | already k-anonymous classes pass through unchanged, nothing suppressed |
| KAnonymity.OutputRowsOrigin | server/routes.ts:584-607 | every output row is a row of a large class or a generalised input row |
| Standardize.CellText | server/routes.ts:32 | a falsy cell gives the empty text |
| Standardize.ColumnTexts | server/routes.ts:31-32 | one trimmed text per row |
| Standardize.Forms | server/routes.ts:33 | one normalised form per text |
| Standardize.Canon | server/routes.ts:44-47 | a value's canonical spelling has the same normalised form |
| Standardize.CanonOfFirst | server/routes.ts:44-45 | the first spelling seen of a form is its own canonical spelling |
| Standardize.CanonSameForm | server/routes.ts:44-47 | spellings of the same form share their canonical spelling |
| Standardize.CanonIsFirstSeen | server/routes.ts:44-45 | the canonical spelling is a value seen no later, with the same form |
| Standardize.CanonIdempotent | server/routes.ts:44-47 | the canonical spelling is its own canonical spelling |
| Standardize.CollectForms | server/routes.ts:29-39 | the loop gives every form its first spelling and counts the distinct forms |
| Standardize.MapVariations | server/routes.ts:41-50 | every value is mapped to its canonical spelling; variations are flagged exactly when some value differs from it |
| Standardize.AnalyzeColumn | server/routes.ts:28-50 | one column's canonical map, form count, and whether it varies |
| Standardize.VariedColumnsMembers | server/routes.ts:52-55 | a column is rewritten exactly when it is a text column whose spellings vary |
| Standardize.Messages | server/routes.ts:53 | one message per varied column, naming it and its form count |
| Standardize.CanonicalMap | server/routes.ts:41-50 | the map's keys are exactly the column's texts |
| Standardize.CanonicalMaps | server/routes.ts:54 | a map exists exactly for the given columns |
| Standardize.StandardRow | server/routes.ts:60-66 | a rewritten row keeps its columns |
| Standardize.StandardRows | server/routes.ts:59-68 | one rewritten row per row, in order |
| Standardize.RewriteRow | server/routes.ts:60-66 | the loop rewrites a row as specified |
| Standardize.AnalyzeColumns | server/routes.ts:28-56 | the loop yields the messages, the varied columns and their maps |
| Standardize.RewriteRows | server/routes.ts:58-70 | the `map` rewrites every row |
| Standardize.StandardizeStringValues | server/routes.ts:20-74 | the result is the specified standardisation: rows and messages |
| Standardize.StandardCellKeepsForm | server/routes.ts:62-64 | a standardised cell keeps its normalised form |
| Standardize.StandardizeCell | server/routes.ts:58-73 | rows and their columns are kept; only cells of varied text columns change, to their canonical spelling |
| Standardize.CanonAllSettled | server/routes.ts:44-50 | a column of canonical spellings has no variation left |
| Standardize.StandardStringColumns | server/routes.ts:22-24 | standardising keeps the set of text columns |
| Standardize.StandardizedSettled | server/routes.ts:20-74 | after standardising, no text column varies |
| Standardize.StandardizeIdempotent | server/routes.ts:20-74 | standardising standardised data changes nothing and reports no fix |
| DataQuality.FilledInRowBound | server/routes.ts:161-168 | a row fills at most every declared column, and all exactly when it is complete |
| DataQuality.FilledCellsBound | server/routes.ts:161-168 | filled cells are at most rows times columns, and equal exactly when every row is complete |
| DataQuality.CountRowCells | server/routes.ts:162-167 | the loop counts a row's filled cells |
| DataQuality.CountCells | server/routes.ts:156-168 | total = rows times columns; filled = the filled cells, at most the total |
| DataQuality.CountDuplicateRows | server/routes.ts:170-178 | the repeats: rows minus distinct rows |
| DataQuality.NoDuplicateRows | server/routes.ts:170-178 | no repeat exactly when all rows differ |
| DataQuality.InconsistentIsVariant | server/routes.ts:217-224 | a record is inconsistent exactly when its text is not its canonical spelling |
| DataQuality.NoneInconsistentBelow | server/routes.ts:217-224 | no inconsistent record exactly when every text is canonical |
| DataQuality.ConsistentIffSettled | server/routes.ts:180-224 | a column has no inconsistent record exactly when its spellings do not vary |
| DataQuality.ConsistentColumns | server/routes.ts:180-224 | no inconsistent record in any column exactly when no column varies |
| DataQuality.CountColumnInconsistent | server/routes.ts:188-224 | a column's analysis followed by its count gives the column's inconsistent records |
| DataQuality.CountAgainst | server/routes.ts:218-224 | the loop over a column's texts, checked against its canonical map, counts the inconsistent records |
| DataQuality.CountInconsistent | server/routes.ts:185-225 | the loop counts the inconsistent records over the text columns |
| DataQuality.StandardizedIsConsistent | server/routes.ts:180-224 | standardised data has no inconsistent record |
| DataQuality.ScoreUpload | server/routes.ts:156-233 | the three counts and four scores of an upload |
| DataQuality.CompletenessBounds | server/routes.ts:228 | completeness lies in [0, 1] and is 1 exactly when there are cells and all are filled |
| DataQuality.DuplicationBounds | server/routes.ts:229 | duplication lies in [0, 1] and is 1 exactly when nothing repeats |
| DataQuality.ConsistencyBounds | server/routes.ts:230 | consistency lies in [0.1, 1] and is 1 exactly when nothing is inconsistent |
| DataQuality.WeightedQualityOne | server/routes.ts:233 | the weighted quality of scores in [0, 1] lies in [0, 1] and is 1 exactly when all three are |
| DataQuality.CompletenessMeaning | server/routes.ts:156-168 | the completeness of an upload lies in [0, 1] and is 1 exactly when there is a cell and every row is complete |
| DataQuality.DuplicationMeaning | server/routes.ts:170-178 | the duplication of an upload lies in [0, 1] and is 1 exactly when no row repeats |
| DataQuality.ConsistencyMeaning | server/routes.ts:180-230 | the consistency of an upload lies in [0.1, 1] and is 1 exactly when no text column varies |
| DataQuality.ScoresCombine | server/routes.ts:233 | scores in range give a weighted quality in [0, 1] that is 1 exactly when all three are 1 |
| DataQuality.UploadScoresMeaning | server/routes.ts:156-233 | every score is in range; quality is 1 exactly when the cells are complete, no row repeats and no text column varies |
| AutoFix.DedupKeepsFirst | server/routes.ts:305-311 | de-duplication keeps the first row in front |
| AutoFix.RemoveDuplicates | server/routes.ts:304-317 | the first occurrence of every row, in first-seen order, and the count removed |
| AutoFix.ColumnNumbersMembers | server/routes.ts:335-337 | the collected values are exactly the column's number cells |
| AutoFix.Median | server/routes.ts:340-341 | the median is one of the values |
| AutoFix.MedianIsMiddle | server/routes.ts:340-341 | the median is the (upper) middle of every ascending arrangement of the values: no larger than the upper half, no smaller than the lower half |
| AutoFix.FillColumnCell | server/routes.ts:343-348 | filling a column sets exactly its falsy cells and changes nothing else |
| AutoFix.FillNumbers | server/routes.ts:333-350 | the loop fills every number column with its median |
| AutoFix.FillTexts | server/routes.ts:352-360 | the loop fills every text column with "Unknown" |
| AutoFix.FillMissingValues | server/routes.ts:324-360 | number and text columns by the first row, filled in turn |
| AutoFix.RepairRows | server/routes.ts:304-364 | dedup, standardise, fill, with the fixes reported |
| AutoFix.AutoFixDataset | server/routes.ts:304-384 | the repaired data with its recomputed completeness and quality |
| AutoFix.FillColumnFills | server/routes.ts:343-348 | filling with a present value fills the column and keeps filled columns filled |
| AutoFix.NumericFillsFill | server/routes.ts:333-350 | number columns whose first cell is a number end up filled; filled columns stay filled |
| AutoFix.StringFillsFill | server/routes.ts:352-360 | text columns end up filled; filled columns stay filled |
| AutoFix.StandardizeKeepsFirstRowKinds | server/routes.ts:319-331 | standardising keeps which columns of the first row are numbers or texts |
| AutoFix.AutoFixRows | server/routes.ts:304-322 | one row per distinct input row; duplicates removed = repeats, 0 exactly when nothing repeats |
| AutoFix.FixesReported | server/routes.ts:313-364 | no fix exactly when nothing was removed or standardised; otherwise the fill message comes last |
| AutoFix.AutoFixCompletes | server/routes.ts:324-384 | when the first row types every declared column, completeness becomes 1 and quality 0.99 |
| AutoFix.AutoFixQualityBounds | server/routes.ts:379-384 | completeness in [0, 1]; quality in [0.1, 0.99], completeness plus 0.1 up to the cap |
| AutoFix.StringFillsKeepTruthy | server/routes.ts:353-359 | a truthy cell survives the text fills |
| AutoFix.NumericFillsKeepTruthy | server/routes.ts:343-348 | a truthy cell survives the number fills |
| Utility.StatisticalSimilarity | server/routes.ts:850-863 | the loop computes the similarity over the number columns |
| Utility.SimilarityIsMinimum | server/routes.ts:855-862 | the similarity lies in [0, 0.9], is at most every counted column's floored preservation, and is 0.9 or one of them |
| Utility.ZeroMeanIgnored | server/routes.ts:859 | a column with original mean 0 does not change the similarity |
| Utility.SameMeanPreserved | server/routes.ts:860 | a column whose mean is kept has preservation 1 |
| Utility.SelfSimilarity | server/routes.ts:855-862 | a dataset compared with itself has similarity 0.9 |
| Utility.DefaultLossUsed | server/routes.ts:865 | a missing or zero loss is read as 0.15, any other loss as given |
| Utility.OverallBounds | server/routes.ts:866 | with a loss in [0, 1] the overall utility lies in [0.4325, 0.9075], rising with the similarity and falling with the loss |
| Utility.LevelBands | server/routes.ts:868-871 | each level holds exactly on its band |
| Utility.LevelMonotone | server/routes.ts:868-871 | a higher utility never gets a lower level |
| Utility.ColumnMetrics | server/routes.ts:873-876 | one entry per number column with the similarity in percent |
| Utility.MeasureUtility | server/routes.ts:846-876 | the route computes the specified measurement |
| Utility.MeasureSimilarityBounds | server/routes.ts:850-863 | every measured similarity lies in [0, 0.9] |
| Utility.SelfMeasurement | server/routes.ts:846-871 | self-comparison with no loss gives similarity 0.9, overall 0.87, level Good |

## Left out

- Cells other than null, text and number: a cell is modelled as null, a text or a number only. Booleans, dates and nested objects or arrays, which `JSON.parse` and `XLSX.utils.sheet_to_json` can produce at upload (server/routes.ts:134-148), are not modelled. So the model does not capture that `false` counts as filled for completeness yet is falsy for the fills, that `true` joins as "true" in both keys, or that a boolean column is neither a text column nor a number column.
- `addLaplaceNoise` and the synthetic-data generator: they draw random numbers and use floating-point logarithms.
- The l-diversity and t-closeness endpoints: they copy rows and attach constant losses, with no algorithm to verify.
- The CSV download, the report rendering and the client pages: string templating, charts and I/O.
- The Express routing, authentication, storage, activity logging, upload and file parsing: I/O and foreign libraries. The model takes the parsed rows as input.
- Row signatures: rows are compared by equality instead of by their `JSON.stringify` text. The two agree for the rows modelled here, except that key order inside a row does not matter.
- `toLowerCase` is modelled on ASCII letters only. `\s` is modelled as the common white-space characters. No other Unicode case mapping is modelled.
- Numbers are exact reals, not IEEE doubles, so rounding error is not modelled. `String(x)` writes integers in decimal and fractions with at most 20 digits, with no exponent form.
- The equivalence classes and their `riskScore` are values, not shared objects. Nothing else holds a reference to them.
- RiskAssess.AssessRisk: requires a non-empty dataset unless the scenario is an unknown attack. On an empty dataset the source divides 0 by 0 and reports `NaN` with level Low, which the reals cannot express.
- Utility.MeasureUtility: requires non-empty processed data when a number column exists. With empty processed data the source's processed mean is 0/0. The similarity becomes `NaN` only when some number column has a non-zero original mean. When every original mean is 0, the `originalMean !== 0` guard skips each column and the source gives 0.9. The requires rules out that well-defined case too.
- Utility.ColumnSum: adds 0 for a non-empty text cell. The source's `sum + (row[col] || 0)` would concatenate a text instead, which makes the mean a string or `NaN`.
- RiskUtils.CalculateJournalistRisk and RiskUtils.CalculateMarketerRisk: take the sample size and the population size but ignore them, as the source does.
- `calculateRiskMetrics`'s default arguments (sample size 100, multiplier 50) are ordinary parameters here.
