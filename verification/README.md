# Diversity scripts of kraken_pipeline, modelled in Dafny

This project models the two diversity calculators of the pipeline. Both read
kraken-family abundance reports: bracken output, kraken and kraken2 reports,
and krona text. They keep the lines that pass a filter and compute diversity
indices from the counts.

- `bin/beta_diversity.py` turns every input into a sample with two parts:
  - a total;
  - a table from category to count.

  It refuses inconsistent options and runs without data. It then fills the
  symmetric Bray-Curtis dissimilarity matrix of the samples. Its two
  user-defined layouts are:
  - `single`: one wide table holding every sample;
  - `simple`: one category/count file per sample, with its columns chosen
    by `--cols`.
- `bin/alpha_diversity.py` reads one report into a list of positive counts
  and treats its first line as a header. It computes:
  - `N`, the total count;
  - the shares `p_i`;
  - Simpson's `D`.

  It then reports Berger-Parker's index, Simpson's index or the inverse
  Simpson index.

The modules follow the scripts:

| module | what it holds |
|---|---|
| `Fields` (`fields.dfy`) | Python's string operations on report lines: strip, split at tabs, `isdigit`, `int()`, negative indexing. |
| `Taxonomy` (`taxonomy.dfy`) | The ranks and their one-letter codes. |
| `Abundance` (`abundance.dfy`) | Contributions `(category, count)`, the running table a reader builds from them (`Tally`), and a sample table. |
| `ReportReader` (`report_reader.dfy`) | The beta script's reading of one report file. The line filter and per-layout aggregation are a specification (`Entries`, `ReportTable`). Below it, the imperative reading loop `ReadReport` / `ReadLine` / `ReadKronaFields`. |
| `WideReader` (`wide_reader.dfy`) | The beta script's `single` layout. The header gives the samples. Every later row adds its positive counts to the totals and writes them over the category entries. |
| `BrayCurtis` (`bray_curtis.dfy`) | The dissimilarity of two samples and the matrix, filled in place in an `array2<real>`. |
| `BetaDiversity` (`beta_diversity.dfy`) | `--cols`, the rejections, the reading of all inputs and a whole run. |
| `AlphaDiversity` (`alpha_diversity.dfy`) | The alpha script's filter, `N`, `p`, `D`, the three indices and the metric dispatch. |

The scripts' loops are `method`s proved against functions that say what they
compute:
- `ReadReport` against `ReportTable`;
- `ReadWide` against `WideTables`;
- `SharedAbundance` against `SumValues(Common(..))`;
- `BrayCurtisMatrix` against `IsMatrix`;
- `ReadAbundances` against `Abundances`;
- `Proportions` against `Shares` and `Dominance`.

The lemmas about those functions state what the scripts promise.

Where the script would crash while reading, the model has a precondition
instead:
- an `IndexError`;
- a `KeyError`;
- a `NameError`;
- a `ValueError` from `int()`;
- a `ZeroDivisionError`.

These are gathered in `ReportSafe`, `WideSafe`, `BetaDiversity.Safe` and
`AlphaDiversity.Safe`. The exits the scripts make on purpose are values:
`BetaDiversity.Failure` and `AlphaDiversity.Outcome`. `BetaDiversity.Failure`
holds one crash as well: `ColsNotPair` stands for the `ValueError` that
unpacking `--cols` raises when it holds two commas or more. That run stops
before any file is read, with or without a traceback.

## Model

| member | source | states |
|---|---|---|
| Fields.At | bin/beta_diversity.py:101 | A field index may be negative (`--cols 0,..` gives column -1) and then counts from the end; the field read is one of the row's fields. |
| Fields.StripMeaning | bin/beta_diversity.py:87 | `strip()` returns a slice of the line with only whitespace before and after it, and the result neither starts nor ends with whitespace. |
| Fields.StripUnpadded | bin/alpha_diversity.py:88 | A field with no surrounding whitespace is left unchanged by `strip()`. |
| Fields.SplitMeaning | bin/beta_diversity.py:124 | `split` gives pieces free of the separator that join back to the input, and more than one piece exactly when the separator occurs. |
| Fields.SplitPair | bin/beta_diversity.py:53 | `"a,b".split(',')` is `[a, b]` when neither part holds a comma. |
| Fields.ValueOfDecimal | bin/beta_diversity.py:60-61 | `int()` of a number's decimal digits gives the number back. |
| Fields.AllDigitsMeaning | bin/beta_diversity.py:54-57 | A string `isdigit` accepts holds digits only. |
| Fields.DigitsNoComma | bin/beta_diversity.py:53-57 | A string `isdigit` accepts holds no comma. |
| Taxonomy.LowerCode | bin/beta_diversity.py:139 | The krona prefix uses the lower-case letter of the level code. |
| Abundance.SumValuesAdd | bin/beta_diversity.py:143-146 | Adding `n` to one category raises the sum of all entries by `n`, exactly as the total grows. |
| Abundance.TallyMeaning | bin/beta_diversity.py:143-168 | The table built line by line has one key per category that received a contribution. Each value is the sum of that category's contributions, the values add up to the total, and all values are positive. |
| Abundance.TallySnoc | bin/beta_diversity.py:156-159 | One more contribution adds its count to its category's entry and to the total. |
| Abundance.TallySwap | bin/beta_diversity.py:123-168 | Swapping two neighbouring groups of contributions changes neither the table nor the total. |
| Abundance.SumAppend | bin/beta_diversity.py:143 | The total and the category set of two stretches of contributions are the sums and the union of theirs. |
| Abundance.SumForAppend | bin/beta_diversity.py:159 | The sum for one category over two stretches is the sum of both. |
| Abundance.SumValuesSet | bin/beta_diversity.py:105 | Overwriting an entry changes the sum by the new value minus the old one. |
| Abundance.SumValuesMonotone | bin/beta_diversity.py:200-202 | A table lying under another, with no more keys and no larger values, has no larger sum. |
| Abundance.SumValuesStrict | bin/beta_diversity.py:200-202 | A table that falls short of another at some key has a strictly smaller sum. |
| Abundance.CategoriesMeaning | bin/beta_diversity.py:144-145 | A category is in the table's key set exactly when some contribution names it. |
| Abundance.Ratio | bin/beta_diversity.py:204 | For `0 <= a` and `0 < t`: `a / t` is non-negative; it is positive iff `a` is; it is at most 1 iff `a <= t`; it equals 1 iff `a == t`. |
| ReportReader.LayoutOf | bin/beta_diversity.py:62-72 | The fixed columns of bracken (category 0, count 5, rank 2), kreport and kreport2 (4, 2, 3) and krona (1, 0). `single` and `simple` take the `--cols` columns. Every layout is one the reader can index. |
| ReportReader.Widest | bin/beta_diversity.py:127 | A line must have more fields than the largest of the count, category and rank columns. |
| ReportReader.ReadLine | bin/beta_diversity.py:124-168 | One line of the loop: skip short lines, non-digit counts, comments and zero counts; then add the count to the table and total as its layout says. The new table and total are those of the contributions so far plus this line's. |
| ReportReader.ReadKronaFields | bin/beta_diversity.py:138-146 | The krona inner loop adds the line's count once per field, from the count column on, that starts with the level's lower-case prefix, or once per field at `all`. |
| ReportReader.ReadKronaField | bin/beta_diversity.py:139-146 | One field of a krona line: the count goes to that field's entry and to the total exactly when the field matches the level. |
| ReportReader.KronaStep | bin/beta_diversity.py:138-140 | The fields that receive the count grow by one field at a time, in order. |
| ReportReader.ReadReport | bin/beta_diversity.py:116-176 | Reading a report file gives the table of its path, the sum of its kept counts and their tally. |
| ReportReader.ReportTableMeaning | bin/beta_diversity.py:143-168 | A report's table has exactly the categories of its kept lines, each with the sum of their counts, and a total equal to the sum of its entries. |
| ReportReader.LinePositive | bin/beta_diversity.py:132-134 | Unfolds the line's contributions: a line contributes only positive counts, as zero counts are skipped before anything is added. |
| ReportReader.EntriesPositive | bin/beta_diversity.py:132-134 | Every contribution of a whole report is positive. |
| ReportReader.EntriesAppend | bin/beta_diversity.py:123 | The contributions of a file are those of its first lines followed by those of the rest. |
| ReportReader.SkippedLineIgnored | bin/beta_diversity.py:127-134 | A line with too few fields, a non-digit count, a leading `#` or a zero count changes nothing, wherever it stands. |
| ReportReader.LineOrderIrrelevant | bin/beta_diversity.py:123-168 | Swapping two neighbouring lines of a report gives the same table. |
| ReportReader.NonKronaLine | bin/beta_diversity.py:147-168 | Unfolds the line's contributions for the other layouts: a non-krona line contributes its category and count once when it passes the checks and the rank filter, and nothing otherwise. |
| ReportReader.LineCategories | bin/beta_diversity.py:154-159 | A non-krona line contributes to category `k` iff it is kept and its category column reads `k`. |
| ReportReader.CategoriesFromKeptLines | bin/beta_diversity.py:154-168 | A category appears in a non-krona table exactly when some kept line names it. |
| ReportReader.CategoriesOfConcat | bin/beta_diversity.py:123-168 | A category appears in the contributions of a stretch of lines exactly when one of its lines contributes to it. |
| ReportReader.LineShare | bin/beta_diversity.py:154-159 | A line's contribution to category `k` is its count when it is kept and names `k`, and 0 otherwise. |
| ReportReader.KeptSumIsSumFor | bin/beta_diversity.py:159 | The sum for category `k` is the sum of the counts of the kept lines naming `k`. |
| ReportReader.CountsFromKeptLines | bin/beta_diversity.py:157-168 | In a non-krona table, category `k` holds the sum of the counts of the kept lines naming `k`, or is absent when that sum is 0. |
| ReportReader.RankFilter | bin/beta_diversity.py:151-153 | At a level other than `all`, a bracken or kreport line contributes iff it passes the checks and its rank field starts with the level's code. |
| ReportReader.KronaAllFields | bin/beta_diversity.py:140 | At `all` every krona field from the count column on receives the count, the count field itself included. |
| ReportReader.KronaLineWeight | bin/beta_diversity.py:143 | A krona line adds its count to the total once per matching field. |
| ReportReader.ConcatAppend | bin/beta_diversity.py:123 | Reading two stretches of lines one after the other gives the contributions of the first and then those of the second. |
| ReportReader.ConcatPair | bin/beta_diversity.py:123 | Two neighbouring lines contribute, in order, between the lines before and after them. |
| ReportReader.ConcatSwap | bin/beta_diversity.py:123-168 | Swapping two neighbouring lines leaves the tally and the sum unchanged. |
| WideReader.ParseRow | bin/beta_diversity.py:101-103 | A data row gives its category and one `int()` per field from the count column on, however many fields the header has. |
| WideReader.ReadField | bin/beta_diversity.py:103 | The count a row gives a sample is `int()` of that sample's field. |
| WideReader.ReadHeader | bin/beta_diversity.py:89-97 | The header gives one empty sample per field from the count column on, named by that field. |
| WideReader.ReadRow | bin/beta_diversity.py:99-107 | A data row moves every sample by the row's count for it: a positive count is added to the total and written over the category. Samples the row does not reach stay unchanged. Fields past the header's samples must hold no positive count, and they change nothing. |
| WideReader.ReadCell | bin/beta_diversity.py:103-106 | One count of a row changes its own sample only, as the row's step says. |
| WideReader.ColumnSnoc | bin/beta_diversity.py:103-105 | One more row adds its positive count to the sample's total and sets the category's entry to that count. A count of 0 or less changes nothing. |
| WideReader.ReadWide | bin/beta_diversity.py:82-108 | Reading a `single` file gives one sample per header field, with the totals and counts of all data rows. |
| WideReader.ColumnCovered | bin/beta_diversity.py:103-105 | Every entry of a wide sample is positive and their sum never exceeds its total. |
| WideReader.WrittenCategories | bin/beta_diversity.py:103-105 | A category is in a sample exactly when some row gives it a positive count there. |
| WideReader.LastWriteWins | bin/beta_diversity.py:105 | A category listed on several rows keeps the count of the last row giving it a positive count. |
| WideReader.DistinctColumnExact | bin/beta_diversity.py:104-105 | With no category listed twice, a sample's entries add up to its total. |
| WideReader.WideCovered | bin/beta_diversity.py:82-108 | Every sample of a `single` file has positive entries summing to at most its total. |
| WideReader.RepeatedCategory | bin/beta_diversity.py:104-105 | Two rows for `x` with counts 3 and 5 leave `x` at 5 while the total is 8. |
| BrayCurtis.SharedAbundance | bin/beta_diversity.py:200-202 | The loop over the first sample's categories sums, over the categories both samples hold, the smaller of the two counts. |
| BrayCurtis.PairDissimilarity | bin/beta_diversity.py:192-204 | One pair: 1 when either total is 0, else one minus twice the shared abundance over the sum of the totals. |
| BrayCurtis.BrayCurtisMatrix | bin/beta_diversity.py:190-207 | The matrix is `n` by `n`, with 0 on the diagonal and the pair's dissimilarity in both mirrored cells. |
| BrayCurtis.DissimilaritySymmetric | bin/beta_diversity.py:206-207 | The dissimilarity of two samples does not depend on their order, so the mirrored cell is correct. |
| BrayCurtis.SharedBelow | bin/beta_diversity.py:200-202 | The shared abundance is no more than either sample's sum of entries. |
| BrayCurtis.DissimilarityRange | bin/beta_diversity.py:204 | For samples whose totals cover their entries, the dissimilarity lies in [0, 1]. |
| BrayCurtis.NothingSharedIsOne | bin/beta_diversity.py:197-198 | Samples with no category in common, or one with total 0, are at dissimilarity 1. |
| BrayCurtis.CommonSelf | bin/beta_diversity.py:200-202 | A sample shares all of its counts with itself. |
| BrayCurtis.ZeroIffSameCounts | bin/beta_diversity.py:204 | Two samples with data, each with total equal to its entries' sum, are at 0 iff their counts are equal. |
| BrayCurtis.DifferingKey | bin/beta_diversity.py:200-202 | Where the common table differs from a positive table it lies under, some key has a smaller count or is missing. |
| BrayCurtis.Example | bin/beta_diversity.py:190-207 | Equal distributions are at 0 and disjoint ones at 1. |
| BetaDiversity.ParseCols | bin/beta_diversity.py:47-61 | `--cols` without a comma, and only then, is refused for that reason. A parsed pair is turned from 1-based to 0-based, so every column is at least -1. |
| BetaDiversity.ParseColsRoundTrip | bin/beta_diversity.py:53-61 | Writing two columns 1-based as `a,b` and parsing them gives them back 0-based. |
| BetaDiversity.ParseColsAccepts | bin/beta_diversity.py:53-61 | Any two runs of digits around one comma are accepted, leading zeros included, and name columns `a - 1` and `b - 1`. |
| BetaDiversity.ParseColsMeaning | bin/beta_diversity.py:47-61 | `--cols` is accepted exactly when it is two runs of digits around one comma, and it then names those columns, 0-based. |
| BetaDiversity.ParseColsManyCommas | bin/beta_diversity.py:53 | `--cols` stops with `ColsNotPair` exactly when it holds two commas or more. |
| BetaDiversity.ParseColsRejectsPart | bin/beta_diversity.py:54-59 | With one comma, the first part that `isdigit` refuses is reported, the category part first. |
| BetaDiversity.ReadEach | bin/beta_diversity.py:116 | One sample per input file. |
| BetaDiversity.ReadEachAt | bin/beta_diversity.py:116-118 | Sample `i` is the sample of file `i`, named by its path. |
| BetaDiversity.ReadEachSnoc | bin/beta_diversity.py:116-176 | Reading one more file appends its sample. |
| BetaDiversity.Verdict | bin/beta_diversity.py:178-185 | After reading, a run goes on iff there is a sample and some sample has a positive total. Otherwise it stops with `NoSamples` when there is no sample and `NoData` when there are samples. |
| BetaDiversity.ReadFile | bin/beta_diversity.py:116-176 | One report file gives the table of its path. |
| BetaDiversity.ReadReports | bin/beta_diversity.py:116-176 | The report files give their samples in order. |
| BetaDiversity.ReadSamples | bin/beta_diversity.py:82-176 | The inputs are read as their type says: the wide table for `single`, one report per file otherwise. |
| BetaDiversity.Run | bin/beta_diversity.py:35-207 | A run makes the rejections in the script's order, reads the samples and, when it goes on, fills the matrix of their dissimilarities. |
| BetaDiversity.SingleRejectsMoreFiles | bin/beta_diversity.py:35-37 | `--type single` with more than one file is refused, whatever the files hold: such a run is never unsafe, because it reads nothing. |
| BetaDiversity.ColsNeedComma | bin/beta_diversity.py:47-51 | A `single` run on one file, or a `simple` run, stops with the comma message exactly when `--cols` has no comma. |
| BetaDiversity.LoadedHasData | bin/beta_diversity.py:179-185 | A run that reaches the matrix has at least one sample and one sample with data. |
| BetaDiversity.ReportsHaveSamples | bin/beta_diversity.py:179-181 | Report inputs never hit the no-samples exit: each file is a sample. |
| BetaDiversity.SamplesCovered | bin/beta_diversity.py:82-176 | Every sample that reaches the matrix has positive entries within its total. |
| BetaDiversity.MatrixInRange | bin/beta_diversity.py:190-207 | Every dissimilarity of a run's samples lies in [0, 1]. |
| AlphaDiversity.LayoutOf | bin/alpha_diversity.py:63-78 | Fixed columns: bracken count 5, taxonomy 0, rank 2; kreport and kreport2 count 2, taxonomy 4, rank 3; krona count 0, taxonomy 1 and no rank column. |
| AlphaDiversity.Widest | bin/alpha_diversity.py:84 | A line must have more fields than each of its count, taxonomy and rank columns, a missing rank column counting as 0. |
| AlphaDiversity.LineCounts | bin/alpha_diversity.py:81-99 | A line adds at most one count, and that count is positive. |
| AlphaDiversity.ReadLine | bin/alpha_diversity.py:82-99 | One line of the loop: every `continue` adds nothing; a kept line appends its count. |
| AlphaDiversity.ReadAbundances | bin/alpha_diversity.py:58-108 | The loop after the header reads the counts of the kept lines, in order. |
| AlphaDiversity.CollectSnoc | bin/alpha_diversity.py:81 | Reading one more line appends what that line adds. |
| AlphaDiversity.CollectAppend | bin/alpha_diversity.py:81 | The counts of two stretches of lines are those of the first followed by those of the second. |
| AlphaDiversity.CollectOne | bin/alpha_diversity.py:84-99 | A kept line adds exactly its count; a line the filter drops adds nothing. |
| AlphaDiversity.CollectPositive | bin/alpha_diversity.py:98-99 | Every collected count is positive. |
| AlphaDiversity.AbundancesPositive | bin/alpha_diversity.py:98-99 | Every count of a report is positive. |
| AlphaDiversity.HeaderIgnored | bin/alpha_diversity.py:60 | The first line is never counted, whatever it holds. |
| AlphaDiversity.KeptMeaning | bin/alpha_diversity.py:84-98 | Unfolds the filter: a kept line is wide enough, is not a comment and has a positive count. At a level other than `all`, a non-krona line's rank field starts with the level's code. |
| AlphaDiversity.KronaIgnoresLevel | bin/alpha_diversity.py:94 | Unfolds the filter for krona: it has no rank column, so the level filters nothing. |
| AlphaDiversity.Proportions | bin/alpha_diversity.py:116-127 | The loop gives the share `n_i / N` of every non-zero count and `D = sum n_i (n_i - 1) / (N (N - 1))`, or 0 when `N <= 1`. |
| AlphaDiversity.ProportionsStep | bin/alpha_diversity.py:122-125 | One more count adds its share when it is non-zero, and its pairs. |
| AlphaDiversity.BergerParker | bin/alpha_diversity.py:13-16 | `max(p)` is one of the shares and no share exceeds it. |
| AlphaDiversity.SharesSum | bin/alpha_diversity.py:122-124 | The shares add up to the counts' total over `N`. |
| AlphaDiversity.SharesSumToOne | bin/alpha_diversity.py:116-124 | The shares `p_i` add up to 1. |
| AlphaDiversity.SharesOfPositive | bin/alpha_diversity.py:122-124 | With all counts positive there is one share per count, and share `i` is `n_i / N`. |
| AlphaDiversity.SharesInRange | bin/alpha_diversity.py:124 | Every share lies in (0, 1]. |
| AlphaDiversity.SharesNonEmpty | bin/alpha_diversity.py:122-124 | With `N > 0` there is at least one share, so `max(p)` is defined. |
| AlphaDiversity.RealSumAtMost | bin/alpha_diversity.py:16 | Values none above `m` sum to at most their number times `m`. |
| AlphaDiversity.MaxAtLeastMean | bin/alpha_diversity.py:16 | Values summing to 1, none above `m`, have `m >= 1 / count`. |
| AlphaDiversity.BergerParkerRange | bin/alpha_diversity.py:13-16 | Berger-Parker's index lies in (0, 1]. |
| AlphaDiversity.BergerParkerAtLeastMean | bin/alpha_diversity.py:13-16 | Berger-Parker's index is at least `1 / S`. |
| AlphaDiversity.PairSumBound | bin/alpha_diversity.py:125-127 | `sum n_i (n_i - 1) <= N (N - 1)`. |
| AlphaDiversity.PairsGrow | bin/alpha_diversity.py:125 | `a (a - 1) + b (b - 1) <= (a + b)(a + b - 1)`. |
| AlphaDiversity.PairsPositive | bin/alpha_diversity.py:125 | `x (x - 1) > 0` iff `x >= 2`. |
| AlphaDiversity.PairSumPositive | bin/alpha_diversity.py:125 | `sum n_i (n_i - 1) > 0` iff some count is at least 2. |
| AlphaDiversity.DominanceRange | bin/alpha_diversity.py:127 | `0 <= D <= 1`. |
| AlphaDiversity.DominancePositive | bin/alpha_diversity.py:127 | `D > 0` iff some species has at least two individuals. |
| AlphaDiversity.SimpsonRange | bin/alpha_diversity.py:18-22 | Simpson's index `1 - D` lies in [0, 1]. |
| AlphaDiversity.InverseSimpsonAtLeastOne | bin/alpha_diversity.py:24-27 | When `D != 0`, the reciprocal index `1 / D` is at least 1. |
| AlphaDiversity.EvenExample | bin/alpha_diversity.py:116-127 | Four species of ten individuals: `N = 40`, `S = 4`, `D = 360 / 1560`. |
| AlphaDiversity.EvenExampleBergerParker | bin/alpha_diversity.py:13-16 | For those counts every share is 0.25, and so is Berger-Parker's index. |
| AlphaDiversity.ParseMetric | bin/alpha_diversity.py:130-146 | Exactly `Sh`, `BP`, `Si`, `ISi` and `F` name a metric. |
| AlphaDiversity.Run | bin/alpha_diversity.py:58-146 | A run reads the counts and stops when there are none. Otherwise it computes `p` and `D` and gives the requested index. |
| AlphaDiversity.AlphaNoData | bin/alpha_diversity.py:111-113 | A run stops with "no valid abundance data" iff no line is kept. |
| AlphaDiversity.AlphaBergerParker | bin/alpha_diversity.py:132-133 | A `BP` run with data gives a value in (0, 1] and at least `1 / S`. |
| AlphaDiversity.AlphaSimpson | bin/alpha_diversity.py:134-135 | An `Si` run with data gives a value in [0, 1]. |
| AlphaDiversity.AlphaInverseSimpson | bin/alpha_diversity.py:136-137 | An `ISi` run with data, which needs `D != 0`, gives a value of at least 1. |
| AlphaDiversity.TotalOfPositive | bin/alpha_diversity.py:116-117 | With positive counts, `S <= N`. |
| AlphaDiversity.AbundancesTotal | bin/alpha_diversity.py:111-117 | A report's counts have `S <= N`, so `N > 0` once a line is kept and the divisions by `N` are safe. |

## Left out

- Shannon's index (`shannons_alpha`) and Fisher's alpha (`fishers_alpha`, `eqn_output`) need a logarithm and scipy's `fsolve`, which exact arithmetic cannot express. A run asking for them ends in `NotModelled`.
- Output, the matrix printing and the warnings on standard error are not modelled.
- Opening files and the `os.path.isfile` check are not modelled. The model is given each file's path and lines, with the line terminator already removed.
- Argument parsing by argparse is not modelled. The model takes the input type, the level and `--cols` or `--alpha` as values; argparse's `choices` are the datatypes `InputType`, `ReportType` and `Level`.
- `num_categories`, the per-sample `taxonomies` dictionary and `i2names`' printing: the beta script fills them but never uses them in its result.
- Floating point: counts, totals, shares, `D` and the dissimilarities are exact integers and reals. The alpha script's counts are `float(...)` of digit strings, modelled as their integer values. Rounding is not modelled.
- Unicode: `isdigit`, `isspace` and `int()` are modelled on ASCII. Python also accepts other Unicode digits and spaces.
- Crash paths are preconditions, not modelled outcomes:
  - an empty rank field in a kreport or bracken line (`IndexError`);
  - `--type simple` at a level other than `all` (`NameError`);
  - a `single` data row with a positive count in a field past the header's samples (`KeyError`);
  - a `single` count field that `int()` refuses (`ValueError`);
  - `--alpha ISi` with `D == 0` (`ZeroDivisionError`).
- BetaDiversity.ParseCols: `--cols` with two commas or more ends the script with an uncaught `ValueError`, which the model gives as the failure `ColsNotPair`.
- Fields.IsIntLiteral: underscores between digits, which `int()` accepts, are refused by the precondition.
- AlphaDiversity.BergerParker: Python's `max` returns the first largest share. The model returns a largest share; the value is the same.
