# RFM scoring and segmentation of importers

This project models the two batch scripts that score importers by Recency, Frequency and Monetary value (RFM) and sort them into twelve named segments.

- **rfm.py** loads the transaction file and coerces `ls_date` to dates. It strips thousands separators from `NILAI (USD)` and coerces that column to numbers. It drops rows that lack a date, a value or an importer. It takes the snapshot date as one day after the latest transaction. It then groups the rows by `importer_name` and computes:
  - `Recency_days`: days from the importer's latest date to the snapshot.
  - `Frequency`: non-missing `ls_number` cells, or `ls_date` cells when there is no `ls_number` column.
  - `Monetary`: the sum of the values.
- **Scoring.** Recency is cut into quartiles labelled 4, 3, 2, 1. Frequency and Monetary are ranked with ties broken by order of appearance, and their ranks are cut into quartiles labelled 1 to 4. `rfm_segment_detail` then names a segment for every importer.
- **prepare_data.py** runs the same grouping and scoring with its own copy of the classifier, but does not drop incomplete rows. It also saves the transactions as two halves.

Modules:

- `Wrappers` (wrappers.dfy): the `Option` type, whose `None` stands for a NaN or NaT cell.
- `Segments` (segments.dfy): the score cells, the twelve segments and both copies of the classifier. They are proved equal to each other and to an arithmetic reading of the rule table.
- `Transactions` (transactions.dfy): raw and coerced rows, comma stripping, and the transaction frame. The frame is a class whose rows are coerced on loading and filtered in place. This module also holds the half split.
- `Sequences` (sequences.dfy): the elements of a sequence, and the count of a sequence without repetitions.
- `Names` (names.dfy): the code-point order on importer names, and the sorted group keys the grouping yields.
- `Aggregation` (aggregation.dfy): the snapshot, and the per-importer latest date, count and sum. The grouping is a loop that fills a map, and the model proves facts about the grouped table.
- `Quantiles` (quantiles.dfy): quartile cutting with linearly interpolated edges, and ranking with ties broken by order of appearance. It proves exactly how ranks 1..n fall into quartiles.
- `Pipeline` (pipeline.dfy): both scripts end to end, as specification functions and as the methods that run them step by step, plus the properties of their output.

Modelling choices:

- Dates are whole day numbers and values are integers.
- Parsing a date or a number is done by a library the model does not see. Both parsers are parameters that return `None` where the library yields NaT or NaN.
- Whether the file has an `ls_number` column is the parameter `onLsNumber`.
- A quartile edge is kept as four times its value, which is always a whole number for whole-number data.

The model follows the code where a plain reading of the scripts might expect something else:

- Every triple of defined scores gets a named segment. For example, (3,2,1) is "Need Attention", because rf = "32" is in the second rf group. "Others" is written only for a missing score (`OthersOnlyWhenUndefined`).
- A missing score can occur only in prepare_data.py, for an importer none of whose dates parsed. rfm.py never writes "Others" (`RfmNeverOthers`, `PrepareOthersExactly`).
- `qcut(..., duplicates='drop')` with a fixed list of four labels does not fall back to fewer bins when two quartile edges coincide. It raises, because the number of labels no longer matches the number of bins. rfm.py then stops without output; prepare_data.py stops with the exception.
  - Both outcomes are modelled as a `Failed` outcome that names the column.
  - Only the Recency cut can fail this way. The rank cuts succeed whenever there are two or more importers, and a successful Recency cut needs at least two (`OnlyRecencyCutFails`).
- Frequency counts non-missing cells, so with an `ls_number` column it can be 0 for an importer whose `ls_number` cells are all empty.
- Ties in Frequency and Monetary are broken by the order of the grouped table, which is ascending by importer name, not by file order.

## Model

| member | source | states |
|---|---|---|
| Segments.Text | rfm.py:59-61 | `str()` of a score cell is "nan" exactly for a missing score, and otherwise the single digit of its label |
| Segments.Classify | rfm.py:54-57 | a missing R, F or M score gives "Others" |
| Segments.ClassifyText | prepare_data.py:40-42 | a score whose text is "nan" in any position gives "Others" |
| Segments.ClassifyMatchesReference | rfm.py:63-86 | on all 64 defined triples the ordered rule table equals its arithmetic reading: r,f ≥ 3 split by m; r ≥ 3, f ≤ 2 split by m ≥ 3; r = 2 and r = 1 split by f |
| Segments.OthersOnlyWhenUndefined | rfm.py:54-86 | totality: the result is "Others" if and only if some score is missing |
| Segments.RecentAndFrequent | rfm.py:66-70 | for rf in {44,43,34,33}: m = 4, 3, 2, 1 give Champions, Loyal Customers, Potential Loyalist and Promising, each an if-and-only-if |
| Segments.RecentButInfrequent | rfm.py:72-74 | for rf in {42,41,32,31}: m in {4,3} if and only if New Customers, and m in {2,1} if and only if Need Attention |
| Segments.FadingRecency | rfm.py:76-79 | r = 2: f in {4,3} if and only if At Risk, f = 2 if and only if About to Sleep, f = 1 if and only if Hibernating, for every m |
| Segments.LowestRecency | rfm.py:81-84 | r = 1: f in {4,3} if and only if Can't Lose Them, f = 2 if and only if Hibernating, f = 1 if and only if Lost, for every m |
| Segments.CopiesAgree | prepare_data.py:40-60 | the prepare_data.py copy applied to the texts of the cells gives the same segment as the rfm.py copy, for every input |
| Segments.WorkedTriples | prepare_data.py:44-59 | (3,2,1) is Need Attention, (4,4,4) is Champions and (1,1,1) is Lost, in both copies |
| Segments.NameInjective | rfm.py:66-86 | distinct segments are written as distinct names |
| Names.GroupKeys | rfm.py:41-45 | the group keys are strictly ascending and are exactly the names of the column |
| Names.AscendingUnique | rfm.py:41-45 | two ascending key sequences with the same names are equal, so the row order of the grouped table is determined |
| Transactions.StripCommas | rfm.py:27 | defines `.str.replace(',', '')`: the value text with every comma removed; its properties are stated by the three rows that follow |
| Transactions.StripCommasSpec | rfm.py:26-27 | no comma is left, every other character is kept as often as it occurred, and the length drops by the number of commas |
| Transactions.StripCommasAppend | rfm.py:27 | stripping works piece by piece, so the remaining characters keep their order |
| Transactions.StripCommasNoComma | rfm.py:26-28 | text without commas is unchanged, so a column that is already numeric is not altered |
| Transactions.Coerce | rfm.py:22-28 | defines one coerced line: the importer and ls_number are kept, the date goes through the date parser, and the value goes through the number parser after its commas are stripped; None stands for NaT or NaN |
| Transactions.CompleteRows | rfm.py:31 | a row is kept if and only if it was there and has a date, a value and an importer |
| Transactions.CompleteRowsAppend | rfm.py:31 | dropping works piece by piece, so the kept rows keep their order |
| Transactions.CompleteRowsAllComplete | rfm.py:31 | dropping changes nothing when every row is complete |
| Transactions.TransactionFrame.Read | rfm.py:16-28 | the loaded frame has one row per line, each line's date and comma-stripped value coerced |
| Transactions.TransactionFrame.DropIncomplete | rfm.py:31 | in place, the frame's rows become the complete rows of the old rows |
| Transactions.Halves | prepare_data.py:70-72 | part1 + part2 is the table, part1 has len // 2 rows and part2 has as many or one more |
| Aggregation.MaxDate | rfm.py:36 | the latest date is missing exactly when no row has a date; otherwise it is some row's date and no date exceeds it |
| Aggregation.Snapshot | rfm.py:36 | the snapshot is later than every date in the table |
| Aggregation.LatestOf | rfm.py:42 | an importer's latest date is missing exactly when none of its dates is present, and otherwise it is one of its dates and no later one exists |
| Aggregation.ImporterColumn | rfm.py:41 | the grouping column holds exactly the importers of the rows |
| Aggregation.CountOf | rfm.py:43 | defines Frequency: the number of the importer's rows whose ls_number cell is present, or whose date is present when there is no ls_number column; bounded by `CountBounds` and split over parts by `CountOfAppend` |
| Aggregation.TotalOf | rfm.py:44 | defines Monetary: the sum of the importer's present values, NaN skipped; split over parts by `TotalOfAppend` |
| Aggregation.GroupOf | rfm.py:41-45 | defines one group: the importer's latest date, count and sum; the map `Aggregate` builds holds exactly these |
| Aggregation.CustomerOf | rfm.py:41-45 | defines one row of the grouped table: the name, Recency as snapshot minus the latest date (missing when there is no date), the count and the sum; `CustomerMetrics` states its facts |
| Aggregation.Customers | rfm.py:41-45 | defines the grouped table: one row per group key, in key order; `OneRowPerImporter` and `CustomerMetrics` state its shape and contents |
| Aggregation.AbsentGroup | rfm.py:41-45 | a name that does not occur has no date, count 0 and sum 0 |
| Aggregation.OccurrencesPositive | rfm.py:41 | a name has a row if and only if it is one of the importers |
| Aggregation.GroupOfSnoc | rfm.py:41-45 | one more row changes only its own importer's group, by the later date, one more count when its counted cell is present, and its value |
| Aggregation.Aggregate | rfm.py:41-45 | the map built row by row has one key per importer, and each entry is the importer's group over all rows |
| Aggregation.LatestOfAppend | rfm.py:42 | the latest date over two parts is the later of the parts' latest dates |
| Aggregation.CountOfAppend | rfm.py:43 | the count over two parts is the sum of the parts' counts |
| Aggregation.TotalOfAppend | rfm.py:44 | the sum over two parts is the sum of the parts' sums |
| Aggregation.CountBounds | rfm.py:43 | Frequency never exceeds the importer's number of rows, and equals it when every one of those rows has its counted cell |
| Aggregation.ImporterKeys | rfm.py:41-45 | the group keys are ascending, hold exactly the importers, and number as many as there are importers |
| Aggregation.OneRowPerImporter | rfm.py:41-45 | the grouped table has exactly one row per importer, in strictly ascending name order |
| Aggregation.CustomerMetrics | rfm.py:36-45 | each row carries its importer's count and sum; Recency is missing exactly when the importer has no date, is at least 1, and is exactly 1 when the importer's latest date is the overall latest date |
| Aggregation.CompleteCustomer | rfm.py:31-43 | after cleaning, every importer has a latest date, and counted on ls_date its Frequency is its number of rows, at least one |
| Aggregation.CompleteTableRow | rfm.py:31-43 | after cleaning, every row of the grouped table has a Recency of at least 1 and, counted on ls_date, a Frequency of at least 1 |
| Aggregation.SnapshotUnused | prepare_data.py:26-32 | when no row has a date, the snapshot does not matter: any two snapshot dates give the same grouped table |
| Quantiles.InsertSortedSpec | rfm.py:49 | inserting into a sorted sequence keeps it sorted and adds exactly the one value |
| Quantiles.SortSpec | rfm.py:49 | sorting yields an ascending permutation of the values |
| Quantiles.Present | rfm.py:49 | the values the quantiles are taken over are the non-missing cells: a value is among them exactly when some cell holds it, and there are no more of them than cells |
| Quantiles.PresentAppend | rfm.py:49 | dropping missing cells keeps the column's order: the values of two stacked columns are the values of each, stacked |
| Quantiles.PresentCount | rfm.py:49 | dropping missing cells keeps multiplicity: every value occurs among them exactly as often as a cell holds it |
| Quantiles.Position | rfm.py:49 | the interpolation position of every quartile lies within the sorted values |
| Quantiles.Edge4 | rfm.py:49 | defines four times the quantile b/4 of the sorted values, with linear interpolation between the two neighbouring values at position b(n - 1)/4 |
| Quantiles.Edges | rfm.py:49 | the five bin edges of a non-empty column, quantiles 0, 1/4, 1/2, 3/4 and 1, all scaled by four; `OuterEdges`, `RankEdges` and `RankEdgesDistinct` state their values |
| Quantiles.OuterEdges | rfm.py:49 | the outer edges are the smallest and the largest value |
| Quantiles.Bin | rfm.py:49 | every value falls in one of the four bins |
| Quantiles.BinInterval | rfm.py:49 | a value between the outer edges lies in its bin's interval, which is open below, except that the lowest value goes to the first bin |
| Quantiles.BinMonotone | rfm.py:49 | a larger value never lands in a lower bin |
| Quantiles.Labelled | rfm.py:49-51 | one score per cell: NaN for a missing value, otherwise the label of the bin the value falls in |
| Quantiles.QCut | rfm.py:49-51 | the cut fails exactly when no value is present or two edges coincide; otherwise every cell gets a label, and it is NaN exactly when the value is missing |
| Quantiles.QCutLabel | rfm.py:49-51 | a successful cut labels a present value with the label of the bin whose edge interval holds it |
| Quantiles.QCutMonotone | rfm.py:49-51 | with labels 1..4 a larger value never gets a smaller label; with labels 4..1 it never gets a larger one |
| Quantiles.QCutNeedsTwo | rfm.py:49 | a successful cut needs at least two present values |
| Quantiles.Rank | rfm.py:50-51 | defines `rank(method='first')` of row i: one more than the number of rows with a smaller value, or with an equal value earlier in the column |
| Quantiles.FirstRanks | rfm.py:50-51 | the rank of every row, one per row; `FirstRankOrder`, `RanksArePermutation` and `SortedRanks` state what they are |
| Quantiles.FirstRankOrder | rfm.py:50-51 | first-come ranks lie in 1..n, a smaller value gets a smaller rank, equal values get increasing ranks in row order, and no two rows share a rank |
| Quantiles.RanksArePermutation | rfm.py:50-51 | the ranks of n rows are exactly 1..n |
| Quantiles.SortedRanks | rfm.py:50-51 | sorted, the ranks are 1, 2, ..., n |
| Quantiles.RankEdges | rfm.py:50-51 | the quartile edges of the ranks, scaled by four, are 4, n + 3, 2n + 2, 3n + 1 and 4n |
| Quantiles.RankEdgesDistinct | rfm.py:50-51 | those edges are distinct if and only if there are at least two rows |
| Quantiles.RankQuartile | rfm.py:50-51 | defines the quartile of rank k among n ranks: the first b in 1..4 with 4(k - 1) ≤ b(n - 1); `RankBin` shows the cut puts each rank there, and `RankQuartileSizes` gives each quarter's exact extent |
| Quantiles.RankBin | rfm.py:50-51 | against those edges, a rank falls in the bin of its quartile |
| Quantiles.RankCutSucceeds | rfm.py:50-51 | cutting the ranks succeeds if and only if there are at least two rows |
| Quantiles.RankCutLabel | rfm.py:50-51 | a successful cut of the ranks gives each row the label of its rank's quartile |
| Quantiles.RankQuartileSizes | rfm.py:50-51 | the ranks in the first b quarters are exactly 1 .. 1 + b(n - 1)/4, which never passes n |
| Pipeline.ScoredTable | rfm.py:41-88 | defines grouping, cutting and segmenting with a given classifier: the failure of the first cut that raised, or the grouped table with its scores and segments |
| Pipeline.RfmFromRows | rfm.py:36-91 | defines rfm.py after cleaning: `NoDate` when no row is left, because the snapshot is NaT and `strftime` raises; otherwise the scored table stamped with the snapshot |
| Pipeline.RfmScript | rfm.py:16-91 | defines rfm.py from the lines of the file: coerce, drop incomplete rows, then as above; `RunRfm` computes it step by step |
| Pipeline.RfmAt | rfm.py:41-91 | defines rfm.py once the snapshot date is known: the failure of the first cut that raised, or the table scored with the rfm.py classifier and stamped with that date; `RfmScoreAt` computes it step by step |
| Pipeline.PrepareSnapshot | prepare_data.py:26 | defines the snapshot of prepare_data.py: one day after the latest date, and 0 where the source has NaT because no date parsed; `SnapshotUnused` shows that 0 is never read |
| Pipeline.PrepareScript | prepare_data.py:16-72 | defines prepare_data.py from the lines of the file: coerce without dropping, score with the text classifier, then save the two halves; `RunPrepare` computes it step by step |
| Pipeline.CoerceAll | rfm.py:21-28 | every line is coerced, one row per line |
| Pipeline.ScoreColumns | rfm.py:49-51 | the three score columns, when the cuts succeed, have one cell per importer |
| Pipeline.ScoreCells | rfm.py:49-51 | R_Score is NaN exactly when Recency is missing; F_Score and M_Score are always labels |
| Pipeline.Apply | rfm.py:88 | the scored table keeps every row of the grouped table, in order |
| Pipeline.GroupTable | rfm.py:41-45 | the loop over the sorted keys builds the grouped table |
| Pipeline.ApplySegments | rfm.py:88 | applying the classifier row by row gives the scored table |
| Pipeline.ScoreRows | rfm.py:41-88 | grouping, cutting and segmenting give the scored table, or the failure of the first cut that raised |
| Pipeline.RfmScoreAt | rfm.py:41-91 | after the snapshot: the scored table stamped with the snapshot date, or the failure |
| Pipeline.RfmOf | rfm.py:36-91 | with no row left the snapshot is NaT and formatting it fails; otherwise the scored table |
| Pipeline.RunRfm | rfm.py:16-91 | loading, cleaning in place, grouping, scoring and segmenting give what rfm.py writes |
| Pipeline.RunPrepare | prepare_data.py:16-72 | loading, grouping, scoring, segmenting and splitting give what prepare_data.py writes |
| Pipeline.OnlyRecencyCutFails | rfm.py:49-51 | scoring fails if and only if the Recency cut fails, and then the failure names Recency |
| Pipeline.RecencyScoreOrder | rfm.py:49 | an importer with fewer Recency_days never gets a lower R_Score |
| Pipeline.RankScoreOrder | rfm.py:50-51 | a larger Frequency or Monetary never gets a lower score, and of two equal values the one earlier in the table never gets the higher score |
| Pipeline.RankColumnOrder | rfm.py:50 | the same order fact for one ranked column |
| Pipeline.RankColumnQuartile | rfm.py:50 | the cut of a ranked column labels each row with its rank's quartile |
| Pipeline.RankScoreQuartile | rfm.py:50-51 | F_Score and M_Score are the quartiles of the ranks: a score of at most b goes exactly to ranks 1 .. 1 + b(n - 1)/4 |
| Pipeline.TableRow | prepare_data.py:28-32 | every row of the grouped table belongs to an importer, and its Recency is missing exactly when that importer has no date |
| Pipeline.ApplyCopiesAgree | prepare_data.py:62 | applying either copy of the classifier gives the same scored table |
| Pipeline.PrepareSegment | prepare_data.py:41-42 | defines the classifier prepare_data.py applies: `str()` of the three score cells, then the text rule; `CopiesAgree` and `ApplyCopiesAgree` show it gives the rfm.py segment |
| Pipeline.RfmTableShape | rfm.py:31-45 | rfm.py writes one row per importer of the cleaned transactions, in ascending name order |
| Pipeline.RfmSnapshotAfterAll | rfm.py:36 | the Tanggal_Snapshot that rfm.py stamps is later than every date it kept |
| Pipeline.RfmParts | rfm.py:31-88 | a successful run has a snapshot and successful cuts, and writes the classified grouped table |
| Pipeline.CompleteRowScored | rfm.py:31-88 | a scored row of complete transactions has three scores, is not "Others", has Recency at least 1 and, counted on ls_date, Frequency at least 1 |
| Pipeline.RfmNeverOthers | rfm.py:31-88 | rfm.py never writes "Others"; every row has three scores, Recency at least 1 and, counted on ls_date, Frequency at least 1 |
| Pipeline.PrepareOthersExactly | prepare_data.py:19-62 | prepare_data.py writes "Others" for an importer if and only if none of its dates parsed |
| Pipeline.PrepareHalves | prepare_data.py:70-72 | the two saved halves together give back the whole coerced table, and the first has len // 2 rows |
| Pipeline.ScoredTablesAgree | prepare_data.py:28-62 | on the same rows and snapshot the two scripts' scoring succeeds together and gives the same table |
| Pipeline.NoDateNoRows | rfm.py:31-36 | after cleaning, the snapshot is NaT exactly when no row is left |
| Pipeline.EmptyTableFails | prepare_data.py:26-35 | with no rows there is no value to cut, so prepare_data.py fails |
| Pipeline.ScriptsAgree | prepare_data.py:19-62 | on a file whose rows are all complete, the two scripts succeed together and then write the same scored table |

## Left out

- CSV reading and writing, the `os.path.exists` checks, the printed messages and previews, and the output file names built with `strftime`. These are I/O. The failure of `strftime` on a NaT snapshot is kept, as the `NoDate` failure.
- The parsing inside `pd.to_datetime` and `pd.to_numeric` is a foreign library. Both are parameters that return `None` on failure.
- The `dtype == object` test before stripping commas is not modelled as a branch. A column pandas already read as numbers has no commas, and stripping leaves such text unchanged (`StripCommasNoComma`), so the parameter parser yields the number either way.
- Floating point: values are integers (for example, cents), and sums are exact.
- Time of day: dates are whole day numbers, so `Timedelta(days=1)` is +1 and `.days` is exact subtraction.
- A missing `ls_date`, `NILAI (USD)` or `importer_name` column is not modelled. The model assumes these columns exist. Whether `ls_number` exists is the parameter `onLsNumber`.
- Text other than "1" to "4" and "nan" in a score cell. Scores only ever come out of the cut, so the classifiers are compared on the texts of score cells.
- The exception message that rfm.py prints and the traceback of prepare_data.py. Both are reduced to a `Failed` outcome naming the step.
- app.py (the Streamlit dashboard, its password gate, charts and search) is not part of this model. It is presentation and I/O.
- Unused imports (`numpy`, `matplotlib`, `seaborn`).
