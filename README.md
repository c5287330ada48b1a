# UsefulGnom coverage core in Dafny

UsefulGnom builds sequencing-coverage tables for SARS-CoV-2 wastewater samples.
This project models the deterministic core of those tables and proves properties of the model:

- **Amplicon coverage of a batch.** A primer scheme in BED layout is tagged by three regular expressions, and `alt` primers are dropped. The rows are grouped by primer number into amplicons, each with a query window. A coverage value is the median depth over two bands of the window, which gives one table row per existing sample file, plus the same row divided by its sum.
- **Sample selection.** Timeline rows are kept when their date lies strictly between two dates, at one location, optionally for one protocol, and are projected to sample and date.
- **Mutation labels.** The leftmost `(\d+)([A-Z])` gives a position and a nucleotide, and the leftmost `\d+` gives a position alone.
- **Per-sample lookup.** In a total-depth file (one header row) or a base-count file (three header rows), each request takes the first row whose position matches.
- **Matrix assembly.** Each globbed file whose sample is selected gives one column, stored under that sample's date. The columns are sorted by date, and the rows are relabelled with the mutation labels.
- **Mutation statistics.** Total depths below 20 become missing. Frequencies are base count divided by depth. For the 2, 6, 12 and 24 weeks before the most recent date, the median, IQR, Q1 and Q3 of every mutation are laid out as a long table with 16 rows per mutation.

Files are given as decompressed, tab-split rows, with cells kept as text. Dates are day numbers. A missing value is `None`. A raised exception is `Err` of `Results.Error`.

Modules, one per file:

- `Results`: `Option`, `Result` and the error kinds.
- `Text`: the character classes, leftmost search, digit runs, `split` and `rstrip`.
- `Ordering`: order-preserving filters and sort-unique.
- `Statistics`: sum, sort, median and the linear-interpolation quantile.
- `PrimerTable`, `Amplicons` and `AmpliconCoverage`: the amplicon script.
- `SampleSelection`.
- `MutationLabels`.
- `CoverageLookup`.
- `MatrixAssembly`.
- `FrequencyStats`.

Several source files are copies of one another, and one definition serves all of them:

- **Selection.** `SampleSelection.ExtractSampleIds` is the package selector. `SampleSelection.ZurichSampleIds` is the copy with the fixed window and location found in `src/usefulgnom/analyze/total_coverage.py`, `usefulgnom/analyze/basecnt_coverage.py`, `scripts/basecnt_cov_dep.py` and `scripts/total_cov_dep.py`.
- **Lookups.** `CoverageLookup.LoadConvert` is every `load_convert*`, parameterised by the column layout and the number of header rows.
- **Label parsing.** `MutationLabels.ExtractMutationPositionAndNt` is the loop that raises `ValueError`, in `src/usefulgnom/analyze/basecnt_coverage.py`. `MutationLabels.ParseAllLegacy` is the comprehension copies, where a failed search raises `AttributeError`.
- **Pipelines.** `MatrixAssembly.BasecntMatrix` is the package pipeline. `MatrixAssembly.LegacyBasecntMatrix` is the older package and the base-count script. `MatrixAssembly.TotalDepthMatrix` is the total-depth package function and its script.

## Model

| member | source | states |
|---|---|---|
| AmpliconCoverage.GetSamplesPaths | scripts/amplicon_covs_click.py:44-59 | one path per line, in line order, `base/field0/field1/alignments/coverage.tsv.gz`; a line with fewer than two tab fields raises `IndexError` |
| AmpliconCoverage.PathLabelRoundTrip | scripts/amplicon_covs_click.py:305 | the fourth-from-last `/` component of a sample's path is the sample name whenever sample and batch contain no `/` |
| PrimerTable.ParseSense | scripts/amplicon_covs_click.py:73 | `None` exactly when neither `LEFT` nor `RIGHT` occurs; otherwise the word at the leftmost occurrence of either |
| PrimerTable.PrimerNumDigits | scripts/amplicon_covs_click.py:74-76 | `None` exactly when no `_digits_` occurs; otherwise the non-empty digit string of the leftmost one |
| PrimerTable.ParsePool | scripts/amplicon_covs_click.py:77-82 | the pool is present exactly when the field ends in 1 or 2 (before at most one final newline), and is that digit |
| PrimerTable.LoadBedfileIsStableFilter | scripts/amplicon_covs_click.py:68-87 | the loaded table is the tagged rows at increasing positions, a row kept exactly when its name lacks `alt` |
| Amplicons.AmpliconForOk | scripts/amplicon_covs_click.py:95-107 | one number's amplicon is built exactly when the number has a LEFT row and a RIGHT row |
| Amplicons.AmpliconTableFields | scripts/amplicon_covs_click.py:95-108 | primer and sequence start come from the first LEFT row, sequence and primer end from the first RIGHT row, the pool from the second row of that number |
| Amplicons.AmpliconTableNumbers | scripts/amplicon_covs_click.py:93 | exactly one amplicon per distinct primer number, in strictly ascending order |
| Amplicons.AmpliconTableSucceeds | scripts/amplicon_covs_click.py:93-120 | the table is built exactly when there are rows, all numbered, and every number is complete; otherwise the error is `IndexError` |
| Amplicons.AmpliconTableEmpty | scripts/amplicon_covs_click.py:110-120 | an empty primer table fails with a shape error, and nothing else does |
| Amplicons.AmpliconsForOk | scripts/amplicon_covs_click.py:93-108 | the loop over numbers succeeds exactly when every number does, with one amplicon per number in order |
| Amplicons.AmpliconLoop | scripts/amplicon_covs_click.py:92-108 | the loop appending amplicons computes `AmpliconsFor` |
| Amplicons.BuildAmplicons | scripts/amplicon_covs_click.py:90-120 | the amplicon table as the loop over `np.unique` builds it |
| Amplicons.QueryWindows | scripts/amplicon_covs_click.py:122-136 | one window per amplicon, in order: the first starts at its primer start, the last ends at its seq end, and inner bounds sit 5 bases clear of the neighbours' primers |
| Amplicons.MakeAmplicons | scripts/amplicon_covs_click.py:90-137 | fails exactly as the amplicon table does; otherwise its amplicons, in order, with chained query windows |
| AmpliconCoverage.ILoc | scripts/amplicon_covs_click.py:142 | `iloc` reads one value per index, negative ones from the end, and raises `IndexError` for any index outside the column |
| AmpliconCoverage.GetAmpliconCov | scripts/amplicon_covs_click.py:140-143 | readable exactly when every band row lies within the column; errors are `IndexError` |
| AmpliconCoverage.AmpliconCovWithinBounds | scripts/amplicon_covs_click.py:143 | the amplicon coverage lies within any bounds that hold for every depth of the file |
| AmpliconCoverage.FirstBandEmpty | scripts/amplicon_covs_click.py:142 | as written, once `start` reaches 20 only the 20 rows before `stop` are read |
| AmpliconCoverage.FirstBandEmptyExample | scripts/amplicon_covs_click.py:142 | for the window 100..500 the rows read are 480..499, and row 100 is not one of them |
| AmpliconCoverage.IntendedBandRowsCoverEdges | scripts/amplicon_covs_click.py:142 | the intended bands read the first and last 20 rows of a window at least 40 long, all inside it, ascending and without repeats |
| AmpliconCoverage.IntendedCovReadable | scripts/amplicon_covs_click.py:140-143 | with the intended bands, a window of at least 40 rows inside the file never raises |
| AmpliconCoverage.GetCountReads | scripts/amplicon_covs_click.py:146-151 | one coverage per amplicon, in amplicon order; it fails exactly when some amplicon's bands leave the file |
| AmpliconCoverage.Normalise | scripts/amplicon_covs_click.py:313 | each cell is divided by the row's sum; a zero sum leaves every cell missing |
| AmpliconCoverage.NormalisedSumsToOne | scripts/amplicon_covs_click.py:313 | a normalised row with a non-zero raw sum has no missing cell and sums to one |
| AmpliconCoverage.Gather | scripts/amplicon_covs_click.py:296-310 | the loop appends a label and a row together, so there are as many labels as rows |
| AmpliconCoverage.GatherKeepsPresentFiles | scripts/amplicon_covs_click.py:298-310 | row `k` holds the coverages of the `k`-th existing file, in path order, under that file's label; missing files are skipped |
| AmpliconCoverage.VisitPresent | scripts/amplicon_covs_click.py:300-306 | a gathered entry comes from an existing file, with that file's coverages and its path label |
| AmpliconCoverage.RunBatch | scripts/amplicon_covs_click.py:296-324 | the read/skip/normalise loop of `main` computes `CoverageBatch` |
| AmpliconCoverage.CoverageBatchAligned | scripts/amplicon_covs_click.py:311-324 | both written tables carry one label per row, and a row with a non-zero sum normalises to sum one |
| SampleSelection.ExtractSampleIdsIsStableFilter | src/usefulgnom/serialize/coverage.py:42-52 | the result is the table's rows at increasing positions, duplicates kept, projected to sample and date; a row is kept exactly when its date is strictly inside the window, its location matches and, when a protocol is given, its protocol matches |
| SampleSelection.SelectedInWindow | src/usefulgnom/serialize/coverage.py:45-47 | every selected date is strictly between the bounds, and comes from a row with the requested location, that sample and that date |
| SampleSelection.ProtocolNarrows | src/usefulgnom/serialize/coverage.py:49-50 | the result with a protocol is contained in the result without one |
| SampleSelection.DefaultWindow | src/usefulgnom/serialize/coverage.py:10-12 | the default bounds are the day numbers of 2024-01-01 and 2024-07-03, a window of 183 days |
| SampleSelection.ZurichSampleIds | src/usefulgnom/analyze/total_coverage.py:29-53 | the fixed copy selects only dates strictly between 2024-01-01 and 2024-07-03, each entry coming from a "Zürich (ZH)" row with that sample and date |
| MutationLabels.MatchPosNt | src/usefulgnom/analyze/basecnt_coverage.py:40-45 | `None` exactly when no `(\d+)([A-Z])` match exists; otherwise a non-empty digit string and one upper-case letter, found at the leftmost match |
| MutationLabels.MatchIsWholeNumber | src/usefulgnom/analyze/basecnt_coverage.py:45 | the leftmost match never starts inside a number |
| MutationLabels.MatchOfPointMutation | src/usefulgnom/analyze/basecnt_coverage.py:40-48 | a label made of a reference base, a position and a new base, such as "C23039G", gives the position and the new base, and its first number is that position |
| MutationLabels.ParseAll | src/usefulgnom/analyze/basecnt_coverage.py:43-50 | succeeds exactly when every label matches, with one pair per label in order; otherwise the `ValueError` names the first label without a match |
| MutationLabels.ExtractMutationPositionAndNt | src/usefulgnom/analyze/basecnt_coverage.py:43-50 | the loop with its early raise computes `ParseAll` and never returns a partial list |
| MutationLabels.FirstFailure | src/usefulgnom/analyze/basecnt_coverage.py:45-47 | when label `i` is the first without a match, the error is the `ValueError` naming it |
| MutationLabels.ParseAllLegacy | usefulgnom/analyze/basecnt_coverage.py:28-31 | succeeds exactly when every label matches, with one pair per label in order; otherwise `.group()` on the failed search raises `AttributeError` |
| MutationLabels.FirstNumber | src/usefulgnom/analyze/total_coverage.py:23 | `None` exactly when the label has no digit; otherwise the whole leftmost digit run |
| MutationLabels.ExtractMutationPosition | src/usefulgnom/analyze/total_coverage.py:22-24 | succeeds exactly when every label has a digit, with its first number, in order; otherwise `AttributeError` |
| MutationLabels.PositionsAgree | src/usefulgnom/analyze/total_coverage.py:23 | where the first number is followed by an upper-case letter, both parsers give the same position |
| CoverageLookup.Lookup | src/usefulgnom/serialize/basecnt_coverage.py:43-45 | a column outside the layout raises `KeyError`; a position in no data row raises `IndexError`; otherwise the cell of the first data row with that position |
| CoverageLookup.LookupAllContents | src/usefulgnom/serialize/basecnt_coverage.py:41-47 | one value per request, in request order, exactly when every request succeeds; otherwise the error of the first failing request |
| CoverageLookup.FirstFailure | src/usefulgnom/serialize/basecnt_coverage.py:42-45 | the first failing request decides the error |
| CoverageLookup.LoadConvert | usefulgnom/serialize/basecnt_coverage.py:19-37 | the loop appending one value per request computes `LookupAll` |
| CoverageLookup.LoadConvertTotal | src/usefulgnom/serialize/total_coverage.py:18-43 | one coverage per requested position, in request order, from the first matching row below the header; a missing position raises `IndexError` |
| CoverageLookup.TotalNeverKeyError | src/usefulgnom/serialize/total_coverage.py:31-39 | total-depth lookups can only fail with `IndexError` |
| CoverageLookup.LoadConvertBnc | src/usefulgnom/serialize/basecnt_coverage.py:19-49 | one base count per (position, nucleotide) pair, in request order, from the first matching row below the three header rows |
| CoverageLookup.BasecntColumns | src/usefulgnom/serialize/basecnt_coverage.py:36-43 | a one-letter nucleotide raises `KeyError` exactly when it is not A, C, G or T |
| CoverageLookup.SameRequestSameValue | src/usefulgnom/serialize/basecnt_coverage.py:42-47 | equal requests give equal values |
| CoverageLookup.HeaderIgnored | src/usefulgnom/serialize/basecnt_coverage.py:33-35 | the content of the dropped header rows does not affect any lookup |
| CoverageLookup.LookupIgnoresHeader | src/usefulgnom/serialize/total_coverage.py:29 | one lookup does not depend on the header rows |
| MatrixAssembly.DatesOf | src/usefulgnom/analyze/basecnt_coverage.py:115 | a sample has dates exactly when it is among the selected entries |
| MatrixAssembly.DatesOfSelected | src/usefulgnom/analyze/basecnt_coverage.py:115 | every date found belongs to a selected entry of that sample |
| MatrixAssembly.VisitFile | src/usefulgnom/analyze/basecnt_coverage.py:108-116 | one pass of the file loop: skip, store the loaded column under the date, or raise; the key-length `ValueError` for several dates or for the column-less frame loaded from no requests |
| MatrixAssembly.AssembleMatrix | src/usefulgnom/analyze/basecnt_coverage.py:106-121 | the file loop with the sort and relabelling computes `Assemble` |
| MatrixAssembly.CollectKeys | src/usefulgnom/analyze/basecnt_coverage.py:116 | the column order holds exactly the stored dates |
| MatrixAssembly.CollectSucceeds | src/usefulgnom/analyze/basecnt_coverage.py:108-116 | the loop succeeds exactly when no file raises |
| MatrixAssembly.CollectContents | src/usefulgnom/analyze/basecnt_coverage.py:114-116 | a date has a column exactly when some file stored one for it, and the column is the last one stored |
| MatrixAssembly.CollectStaysFailed | src/usefulgnom/analyze/basecnt_coverage.py:108-116 | after the first exception, the rest of the loop does not run |
| MatrixAssembly.VisitStores | src/usefulgnom/analyze/basecnt_coverage.py:110-116 | a file that does not raise stores a column for `d` exactly when its sample is selected with the single date `d`, and it stores what its lookup returned |
| MatrixAssembly.CollectFails | src/usefulgnom/analyze/basecnt_coverage.py:108-116 | the loop fails exactly when some path is too short, or, for a selected file, its lookup fails, its sample has several dates, or nothing is requested |
| MatrixAssembly.AssembleContents | src/usefulgnom/analyze/basecnt_coverage.py:106-121 | rows are the labels verbatim; the dates ascend strictly, and are exactly the dates of contributing files; each column is the lookup of the last file for its date |
| MatrixAssembly.FilesAsOutcomes | src/usefulgnom/analyze/basecnt_coverage.py:108-116 | each file stores a column under `d` exactly when it contributes to `d` |
| MatrixAssembly.RepeatedSampleFails | src/usefulgnom/analyze/basecnt_coverage.py:115-116 | a file whose sample is selected on several dates makes assembly fail |
| MatrixAssembly.EmptyRequestsFail | src/usefulgnom/serialize/basecnt_coverage.py:41-47 | with no requests (a mutations file without rows), any selected file makes assembly fail, because `pd.DataFrame([])` has no column for `columns[date] =` |
| MatrixAssembly.NothingSelectedFails | src/usefulgnom/analyze/basecnt_coverage.py:119-121 | with labels but no contributing file, relabelling fails |
| MatrixAssembly.RunBasecntCoverage | src/usefulgnom/analyze/basecnt_coverage.py:93-121 | the package pipeline computes `BasecntMatrix` |
| MatrixAssembly.DefaultsMatchLegacy | usefulgnom/analyze/basecnt_coverage.py:104-135 | with default arguments and labels that parse, the package pipeline equals the older copy |
| MatrixAssembly.UnparsableLabelFails | src/usefulgnom/analyze/basecnt_coverage.py:45-47 | a label without a match makes the package pipeline raise a `ValueError` and the older copies `AttributeError` |
| MatrixAssembly.RunTotalCoverageDepth | src/usefulgnom/analyze/total_coverage.py:75-101 | the total-depth loop computes `TotalDepthMatrix` |
| MatrixAssembly.DigitlessLabelFails | src/usefulgnom/analyze/total_coverage.py:22-24 | a label without digits makes the total-depth pipeline raise `AttributeError` |
| MatrixAssembly.AssembledDatesSelected | src/usefulgnom/analyze/total_coverage.py:92-94 | every column of an assembled matrix carries the date of a selected sample |
| MatrixAssembly.TotalDepthDatesInWindow | src/usefulgnom/analyze/total_coverage.py:77-100 | the total-depth matrix is labelled by the mutations, and its dates ascend and lie strictly inside the fixed window |
| FrequencyStats.Masked | scripts/freq_mat_mut_stats.py:21 | a cell survives exactly when it is present and at least 20, and then is unchanged |
| FrequencyStats.MaskedIdempotent | scripts/freq_mat_mut_stats.py:21 | masking twice is masking once |
| FrequencyStats.MaskLowDepth | scripts/freq_mat_mut_stats.py:21 | in place, every cell below 20 becomes missing and every other cell is unchanged |
| FrequencyStats.Ratio | scripts/freq_mat_mut_stats.py:23 | a frequency is present exactly when both counts are and the depth is non-zero, and then times the depth gives the base count |
| FrequencyStats.SurvivingDenominator | scripts/freq_mat_mut_stats.py:21-23 | a frequency survives masking exactly when its depth was present and at least 20, and is then base count over depth |
| FrequencyStats.FrequencyDataMatrix | scripts/freq_mat_mut_stats.py:18-23 | the depths are masked in place, and a new matrix of the same shape holds each base count over its masked depth |
| FrequencyStats.MaxDate | scripts/freq_mat_mut_stats.py:106 | the most recent date is one of the dates and no date exceeds it |
| FrequencyStats.ValuesSinceMembers | scripts/freq_mat_mut_stats.py:110-113 | every present value on or after the cutoff is among the window's values |
| FrequencyStats.ValuesSinceSound | scripts/freq_mat_mut_stats.py:110-113 | every value of the window is present in some column dated on or after the cutoff, so with `ValuesSinceMembers` the window holds exactly those values |
| FrequencyStats.ValuesSinceNested | scripts/freq_mat_mut_stats.py:109-151 | an earlier cutoff keeps every value a later one keeps |
| FrequencyStats.MostRecentInEveryWindow | scripts/freq_mat_mut_stats.py:106-111 | the most recent column lies in every window; the bound is inclusive |
| FrequencyStats.WindowsNested | scripts/freq_mat_mut_stats.py:106-151 | a longer window keeps every column and every value of a shorter one, so 2 within 6 within 12 within 24 weeks |
| FrequencyStats.RecentValueFillsWindows | scripts/freq_mat_mut_stats.py:106-113 | a mutation with a value on the most recent date has a median in every window |
| FrequencyStats.Summarise | scripts/freq_mat_mut_stats.py:113-119 | all statistics are missing exactly for an empty window; otherwise IQR = Q3 - Q1, IQR is not negative, and Q1 <= median <= Q3 |
| FrequencyStats.RowQuartiles | scripts/freq_mat_mut_stats.py:113-116 | for every row and window with values, IQR = Q3 - Q1 >= 0 and the median lies between the quartiles |
| FrequencyStats.WindowResults | scripts/freq_mat_mut_stats.py:108-158 | four result tables, one per window, each with one summary per mutation |
| FrequencyStats.StatisticsTable | scripts/freq_mat_mut_stats.py:160-174 | fails with "No objects to concatenate" exactly when there is no mutation; otherwise 16 rows per mutation in row order; row `16 i + 4 w + k` is mutation `i`'s key, window `w` of 2weeks, 6weeks, 12weeks, 24weeks, statistic `k` of Median, IQR, Q1, Q3, and its value |
| FrequencyStats.TableQuartiles | scripts/freq_mat_mut_stats.py:113-119 | in the long table, wherever a median is present, the IQR row is the Q3 row minus the Q1 row and the median row lies between them |
| FrequencyStats.MutationStatistics | scripts/freq_mat_mut_stats.py:18-174 | the depths are masked in place; the frequencies are each base count over its masked depth; the long table fails exactly when there is no mutation and otherwise has the shape and contents above |
| Statistics.QuartilesOrdered | scripts/freq_mat_mut_stats.py:114-116 | Q1 <= median <= Q3, and Q3 - Q1 is not negative |
| Statistics.MedianIsQuantile | scripts/freq_mat_mut_stats.py:113-115 | the median is the 0.5 quantile |
| Statistics.MedianWithinBounds | scripts/amplicon_covs_click.py:143 | the median of values within bounds is within them |
| Ordering.SortedUnique | src/usefulgnom/analyze/basecnt_coverage.py:120 | the sorted columns ascend strictly and hold exactly the stored dates |
| Ordering.FilterIsStable | src/usefulgnom/serialize/coverage.py:42-48 | a boolean-mask selection keeps exactly the accepted rows, in their order |
| Text.Search | scripts/amplicon_covs_click.py:64 | the leftmost position where the pattern matches, or none |
| Text.RStrip | scripts/amplicon_covs_click.py:50 | the line without its trailing newlines |
| Text.FromEndConcat | scripts/amplicon_covs_click.py:305 | counting `k` from the end of `xs + ys` lands in `ys` (as `ys[-k]`) for `k <= len(ys)` and otherwise at `xs[-(k - len(ys))]` |
| Text.JoinSplit | scripts/amplicon_covs_click.py:50 | joining the parts of a split with the separator gives back the string |

## Left out

- Plots, the click and argparse layers, gzip decompression, `glob`, `pd.read_csv` tokenising and `to_csv`. Files enter the model as decompressed rows split on tabs, globbed paths as a list, and samples-list lines as strings. A missing coverage file is a path absent from the given map.
- The command-line bug at `scripts/basecnt_cov_dep.py:145` (an argument the parser never defines) is outside the model.
- Floating point: depths, frequencies and statistics are `real`, so NaN, infinities and the rounding of `round(..., 3)` are not modelled. A zero-sum row normalises to missing cells instead of NaN and infinity.
- `\d` is ASCII `0`-`9` here; Python also matches other Unicode digits.
- Date parsing (`strptime`, `pd.to_datetime`) and the comparison of timestamps with date strings: dates are day numbers.
- `MatrixAssembly.Visit`: pandas' `columns[date] = df` with a Series key is modelled as a map keyed by date. A key of several dates, or a frame without columns (loaded from an empty request list), fails with "Columns must be same length as key". An empty key, which cannot occur for a selected sample, is not modelled.
- `MatrixAssembly.Assemble`: index alignment when a column of a different length is stored is not modelled. Every column has one value per request.
- `Amplicons.AmpliconTable`: the float dtype that `np.array` gives the amplicon table, and NaN primer numbers, are not modelled. A row without a primer number makes the build fail with `IndexError`.
- `CoverageLookup.Cell`: requested columns beyond a file's width (a parser error in pandas) read as missing. Cells stay text, because the lookups compare the regex's digit string with the text of the position column.
- `FrequencyStats.FrequencyDataMatrix`: the two input frames must have the same shape and be distinct objects. Index alignment between differently shaped frames is not modelled.
- `FrequencyStats.StatisticsTable`: duplicate mutation labels, which make `.loc[mutation]` return several rows and overwrite a `dict_mut` key, are not modelled. Every label is taken to name one row.
- `FrequencyStats.WindowValues`: with no date columns at all, every window is empty and every statistic missing. pandas' `NaT` arithmetic is not modelled.
- `Statistics.Quantile`: only the quartiles used here (q/4 for q = 0..4) are defined.

## Findings

| source | as written | input that shows it | evidently intended | confidence | as-written member | corrected member |
|---|---|---|---|---|---|---|
| scripts/amplicon_covs_click.py:142 | `np.r_[start:length, (stop - length):stop]`: the first band runs from `start` to the constant 20, so it is empty once `start >= 20` | query window 100..500: the rows read are 480..499, none of the first 20 rows of the window | `np.r_[start:start + length, (stop - length):stop]`: the first and last 20 rows of the window | not executed | AmpliconCoverage.FirstBandEmptyExample | AmpliconCoverage.IntendedBandRowsCoverEdges |

The amplicon coverage functions (`GetAmpliconCov`, `GetCountReads`, `Gather`, `CoverageBatch`, `RunBatch`) take a `Bands` argument:

- `AsWritten` reproduces the script's output.
- `Intended` uses the corrected bands. `IntendedCovReadable` proves that, with them, every window of at least 40 rows inside the file is readable.
