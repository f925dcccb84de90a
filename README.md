# ctplot core in Dafny

ctplot is a web plotting tool for tables of physical measurements: a form describes one or more
plots (source table, x/y/z expressions, a cut expression, bins, rate averaging), the form is
validated, the data are read and filtered, binned into histograms, and summarised by statistics
boxes. This project models the numerical and textual core of that pipeline and proves what it
computes:

- `binning.dfy` (module `Binning`): `get_binning` (a bin count, a `(lo, hi, n)` triple or
  explicit edges; numpy's `linspace`), `get_cumulative` (forward and reverse running sums),
  `get_density` and `get_density2d` (normalisation to unit integral), `get_step_points`
  (the outline of a histogram, filled in place into two zeroed arrays) and the Poisson errors
  of a histogram with the floor for empty bins.
- `statistics.dfy` (module `Statistics`): `stats_fields1d` (entries, underflow, overflow, mean,
  mode, median) and `stats_fields2d` (entries, the two means, the covariance loop).
- `averager.dfy` (module `Averager`): the rate-averaging loop of `average_computed`, which
  slides a time window over a table and emits one averaged record per non-empty window.
- `plot_settings.dfy` (module `PlotSettings`): `compile_function` (whole-word rewriting of field
  names into `row["name"]`), the OR of the cuts per source, the source key `path:table:window:
  shift:weight` and its reading, the `bins` setting, `llabel`, `data` and `prefilter`.
- `validation.dfy` (module `Validation`): the validators `Int`, `Float`, `Range`, `IntRange`,
  `FloatRange`, `Gte`, `NotEmpty`, `OneOf` and the stateful `FormDataValidator` (`add`,
  `validate`, `is_valid`, `get_form_data`) as a Dafny class.
- `seqs.dfy` (module `Seqs`) and `outcomes.dfy` (module `Outcomes`) hold the shared sequence
  functions (sums, running sums, filtering, masking, `split`/`join`, `strip`) and the
  `Option`/`Result` types.

Numbers are Dafny `real`s: arrays of floats become `seq<real>`, 2-D arrays `seq<seq<real>>` with
the row (y bin) index first, as numpy stores them. Where numpy yields NaN or infinity the model
yields `None` or states the guard under which the value is finite. The errors of a histogram are
modelled by their squares (variances), since the model has no square root. Python 2 semantics are
followed where they matter: numbers order below strings, `int()` truncates toward zero, `'{}'.format(None)`
is `None`. Parsing a number from text (`int`, `float`, `eval` of a window) and the evaluation of a
compiled expression are parameters of the functions that need them.

## Model

| member | source | states |
|---|---|---|
| Binning.Linspace | ctplot/plot.py:74-76 | exactly `num` points, the first `lo`, the last `hi`, all consecutive steps equal to `(hi - lo) / (num - 1)` |
| Binning.SampleMin | ctplot/plot.py:74 | the minimum is an element of the sample and at most every element |
| Binning.SampleMax | ctplot/plot.py:74 | the maximum is an element of the sample and at least every element |
| Binning.FromEdges | ctplot/plot.py:80-83 | centers are the midpoints of consecutive edges and widths their differences; no edges fails the assertion of line 81 (its shape is stated by GetBinningShape) |
| Binning.GetBinning | ctplot/plot.py:72-83 | a scalar is a bin count over the sample's range, a triple a count over its own range, anything else the edges; its cases are stated by CountSpecSpansSample, TripleSpecSpansRange, ExplicitSpecVerbatim and GetBinningErrors |
| Binning.GetBinningShape | ctplot/plot.py:72-83 | every binning that succeeds has one center and one width per bin, each center mid-way between its edges, each width the distance between them |
| Binning.EdgesFromWidths | ctplot/plot.py:80-82 | every edge is the first edge plus the sum of the widths before it (the widths give the edges back) |
| Binning.CountSpecSpansSample | ctplot/plot.py:73-74 | a whole bin count N gives N + 1 edges from the sample minimum to the sample maximum, N equal widths, and every sample value lies within the edges |
| Binning.LinspaceBinning | ctplot/plot.py:74-82 | n + 1 equally spaced edges give n bins of equal width whose centers lie mid-way between their edges |
| Binning.TripleSpecSpansRange | ctplot/plot.py:75-76 | a triple (lo, hi, N) gives N equal bins from lo to hi whatever the sample |
| Binning.ExplicitSpecVerbatim | ctplot/plot.py:77-78 | any other non-empty sequence is used as the edges unchanged |
| Binning.GetBinningErrors | ctplot/plot.py:72-83 | the failure cases: a count over an empty sample, a count below -1, and a binning with no edges (the assertion of line 81) |
| Binning.LinspaceAscending | ctplot/plot.py:74-76 | equally spaced points over a non-empty range are strictly ascending |
| Binning.CumSumSteps | ctplot/plot.py:89 | a running sum starts at the first value, adds one value per step and ends at the total |
| Binning.GetCumulative | ctplot/plot.py:86-95 | one content and one squared error per bin, in each of the three directions (stated by CumulativeForward, CumulativeReverse and CumulativeUnchanged) |
| Binning.CumulativeForward | ctplot/plot.py:88-89 | a positive `cumulative` gives the running sum of content times width, ending at the total |
| Binning.CumulativeForwardVariances | ctplot/plot.py:90 | the squared errors accumulate the same way, each bin adding its squared error times its squared width |
| Binning.CumulativeReverse | ctplot/plot.py:91-93 | a negative `cumulative` gives the total minus the running sum: forward plus reverse is the total in every bin, and the reverse sum ends at zero, for contents and squared errors alike |
| Binning.CumulativeRoundTrip | ctplot/plot.py:89 | differencing the running sum gives back each bin's content times width |
| Binning.CumulativeUnchanged | ctplot/plot.py:87-95 | `cumulative == 0` returns the contents and errors unchanged |
| Binning.DensityCellTimesWidth | ctplot/plot.py:99-100 | a density content times its width is the content divided by the total |
| Binning.GetDensity | ctplot/plot.py:98-103 | one density content and one error per bin (their meaning is stated by DensityShares, DensityIntegratesToOne and DensityOfEmptyHistogram) |
| Binning.DensityShares | ctplot/plot.py:98-103 | every density content times its width is that bin's share of the total |
| Binning.DensityIntegratesToOne | ctplot/plot.py:98-103 | with a non-zero total and non-zero widths the density integrates to one |
| Binning.DensityOfEmptyHistogram | ctplot/plot.py:101-102 | with a zero total every density content is set to zero and every error is not finite |
| Binning.SharesSumToOne | ctplot/plot.py:98-103 | values that are each their share of a total sum to one |
| Binning.GetDensity2d | ctplot/plot.py:106-110 | a grid of the shape of the contents (each cell is stated by Density2dCell) |
| Binning.Density2dCell | ctplot/plot.py:106-110 | each 2-D density cell times its area `xwidth * ywidth` is that cell's share of the total |
| Binning.Density2dIntegratesToOne | ctplot/plot.py:106-110 | with a non-zero total and non-zero widths the 2-D density integrates to one over the cell areas |
| Binning.GetStepPoints | ctplot/plot.py:113-122 | both outputs have twice as many points as there are edges; each edge appears twice in x; each content appears twice in y, at the two edges of its bin; y starts and ends at zero |
| Binning.PoissonVariances | ctplot/plot.py:894-895 | a non-empty bin's squared error is its count, and no bin's squared error is below one |
| Statistics.MeanWithinValues | ctplot/plot.py:1088 | with non-negative weights that do not sum to zero, the weighted mean exists and lies between the smallest and the largest value |
| Statistics.MeanBalances | ctplot/plot.py:1088 | the weighted deviations from the mean cancel out |
| Statistics.DeviationSum | ctplot/plot.py:1088-1089 | the weighted deviations from any point sum to the weighted sum minus that point times the total weight |
| Statistics.FlowPartition | ctplot/plot.py:1086-1087 | underflow, overflow and the samples within the range add up to the sample size |
| Statistics.ArgMaxFirst | ctplot/plot.py:1090 | the index holds a largest entry and every earlier entry is strictly smaller (numpy's first maximum) |
| Statistics.ArgMaxFirstUnique | ctplot/plot.py:1090 | the first maximum is the only index with both of those properties |
| Statistics.FirstAbove | ctplot/plot.py:1093 | every entry before the index is at most the value and the entry at the index is above it |
| Statistics.FirstAboveIsSearchSorted | ctplot/plot.py:1093 | on an ascending sequence that index is the number of entries at most the value (`searchsorted(..., side='right')`) |
| Statistics.MedianCurveIsCumulative | ctplot/plot.py:1091-1092 | the curve the median is read from is `get_density` followed by a forward `get_cumulative` |
| Statistics.MedianIndexBounds | ctplot/plot.py:1093 | the median index is a valid bin, the curve is at most 1/2 before it, and above 1/2 at it unless the index was clamped to the last bin |
| Statistics.MedianIndexUnclamped | ctplot/plot.py:1091-1093 | with a non-zero total and non-zero widths the curve ends at one, so the clamp never applies |
| Statistics.MedianBetweenNeighbours | ctplot/plot.py:1094-1096 | on ascending centers the corrected median lies between the center of its bin and the center below |
| Statistics.MedianAgreesAwayFromFirstBin | ctplot/plot.py:1094-1096 | away from bin 0 the corrected median equals the median as written |
| Statistics.MedianAsWrittenLeavesItsBin | ctplot/plot.py:1093-1096 | the concrete histogram of the first finding: the median as written lies outside the bin that holds the median |
| Statistics.MedianAsWritten | ctplot/plot.py:1094-1096 | the median bin's center, averaged with `centers[median_i - 1]` for an even number of bins, which for bin 0 is Python's `centers[-1]` (its behaviour is stated by MedianAgreesAwayFromFirstBin and Stats1DMedian) |
| Statistics.Median | ctplot/plot.py:1094-1096 | the corrected median: as written, except that in bin 0 there is no center below to average with (stated by MedianBetweenNeighbours) |
| Statistics.GetStats1D | ctplot/plot.py:1080-1096 | the statistics as written, with the median as written; what they are is stated by Stats1DDefined, Stats1DMode, Stats1DMean and Stats1DMedian |
| Statistics.GetStats1DCorrected | ctplot/plot.py:1093-1096 | the statistics with the corrected median in place of the one written (stated by Stats1DMedianCorrected) |
| Statistics.CentersAscend | ctplot/plot.py:1081 | on ascending edges the bin centers ascend |
| Statistics.Stats1DDefined | ctplot/plot.py:1085-1087 | the statistics exist exactly when there are bins; N is the sum of the contents; underflow and overflow count the samples strictly outside the edges |
| Statistics.Stats1DMode | ctplot/plot.py:1090 | the mode is the center of the first fullest bin |
| Statistics.Stats1DMean | ctplot/plot.py:1088 | the mean is defined exactly when N is non-zero, and with ascending edges and non-negative contents it lies within the edges |
| Statistics.Stats1DMedian | ctplot/plot.py:1093-1096 | on ascending edges, when the median bin is not bin 0 or the number of bins is odd, the median lies between the center of its bin and the center below; when the median bin is bin 0 of an even number of bins, the median is the mean of the first and the last center |
| Statistics.Stats1DMedianCorrected | ctplot/plot.py:1093-1096 | the corrected statistics differ from those written only in the median, which always lies between the center of its bin and the center below |
| Statistics.ColumnSumsTotal | ctplot/plot.py:1115-1117 | the column sums (`sum(axis=0)`) add up to the same total as the row sums |
| Statistics.Means2DAreMarginalMeans | ctplot/plot.py:1116-1117 | the 2-D means are the weighted means of the x and y projections, and with non-negative contents they lie within the range of the centers |
| Statistics.Covariance | ctplot/plot.py:1120-1122 | the nested loop sums every term `contents[l][k] * (x[k] - mx) * (y[l] - my)`, column by column |
| Statistics.CovarianceIsCellTotal | ctplot/plot.py:1121-1122 | summed column by column or cell by cell, the covariance terms give the same total |
| Statistics.CovarianceSymmetric | ctplot/plot.py:1120-1123 | swapping the axes (transposed contents, centers and means exchanged) leaves the covariance unchanged |
| Statistics.GetStats2D | ctplot/plot.py:1113-1123 | N is the total of the contents; the means are the marginal means; means and covariance are defined exactly when N is non-zero, and the covariance is the total of the terms divided by N |
| Averager.IndexOf | ctplot/plot.py:423 | `colnames.index('time')`: the first position holding the name, and no position when the name is absent |
| Averager.MakeRecord | ctplot/plot.py:440-448 | the record of a non-empty buffer: column means, the window's middle as its time, the count, the mean weight and the rate (stated by MakeRecordTotals and MakeRecordColumn) |
| Averager.MakeRecordTotals | ctplot/plot.py:440-448 | a record's count is the number of buffered rows, the mean weight times the count is the total weight, the time is the middle of the window, and the rate times the window is the count |
| Averager.MakeRecordColumn | ctplot/plot.py:441-442 | every other column of a record is the column mean: times the count it is the column total |
| Averager.PositiveStep | ctplot/plot.py:453 | with `0 < shift <= 1` and a positive window the window moves forward by at most its width, by exactly its width when shift is 1 |
| Averager.Step | ctplot/plot.py:437-463 | one row of the loop as a function of the state (start, buffer, records): buffered before the right edge; otherwise record, move and prune (its cases are stated by Scan and MoveOn) |
| Averager.StepAppends | ctplot/plot.py:437-463 | one row leaves that row at the end of the buffer and appends at most one record, keeping the earlier ones |
| Averager.Sweep | ctplot/plot.py:436-463 | the state after the first n rows have gone through Step in table order |
| Averager.SweepAppends | ctplot/plot.py:436-463 | records are only appended, at most one per row, and the last row swept is buffered |
| Averager.SweepOneMore | ctplot/plot.py:436-463 | the outcome of one more pass of the loop body is Sweep over one more row |
| Averager.SweepHalfShift | ctplot/plot.py:436-463 | times 0 and 1, window 1, shift 0.5: the first row is recorded over [0, 1) and the window moves to [0.5, 1.5) holding the second row |
| Averager.SweepFullShift | ctplot/plot.py:436-463 | times 0 to 3, window 2, shift 1: rows 0 and 1 are recorded over [0, 2), and rows 2 and 3 are left buffered in [2, 4) |
| Averager.Average | ctplot/plot.py:422-463 | the errors (a shift outside (0, 1], no `time` column, an empty table); otherwise the records, the buffer left over and the last window start are those of Sweep over all rows from the first row's time, and every record is the average of a non-empty buffer over the window at its start, window starts are at least `shift * window` apart, with shift 1 every row is averaged exactly once, and on a time-ordered table each buffer is exactly the rows whose time lies in its window |
| Averager.Slide | ctplot/plot.py:436-463 | the loop over the rows computes Sweep over all rows, starting at the first row's time with nothing buffered, and keeps the scan invariant: records so far, the buffer ending with the last row, window spacing, rows counted once with shift 1, and buffers equal to their windows on ordered tables |
| Averager.ScanStart | ctplot/plot.py:424-426 | before the first row the invariant holds with the window at the first row's time and nothing buffered |
| Averager.Scan | ctplot/plot.py:437-463 | a row before the right edge is appended to the buffer and nothing else changes; any other row records a non-empty buffer at the old start, moves the start on by `step` (or to the row's time when the row lies beyond the moved window), and leaves the cleared (shift 1) or pruned buffer followed by the row; the scan invariant is kept |
| Averager.MoveOn | ctplot/plot.py:439-463 | a row at or beyond the right edge appends the record of the buffer at the old start when the buffer is not empty, moves the start on by `step` or to the row's time when the row lies beyond the moved window, leaves the cleared (shift 1) or pruned buffer followed by the row, and keeps the scan invariant |
| Averager.KeepStep | ctplot/plot.py:437-438 | a row before the right edge joins the buffer and keeps the invariant |
| Averager.MoveStep | ctplot/plot.py:439-463 | recording, moving the window (jumping to the row's time when it lies beyond the next window) and clearing or pruning the buffer keep the invariant |
| Averager.AppendKeepsWindow | ctplot/plot.py:437-438 | on an ordered table a row before the right edge extends the buffer to the rows of the window seen so far |
| Averager.EmitKeepsWindows | ctplot/plot.py:440-451 | on an ordered table the recorded buffer is exactly the rows of the whole table in its window |
| Averager.EmittedBufferIsWindow | ctplot/plot.py:440-451 | at a trigger row no later row can fall in the window, so the rows buffered so far are all of the window's rows |
| Averager.AdvanceKeepsWindow | ctplot/plot.py:453-463 | after the window moves, the cleared or pruned buffer plus the trigger row is the new window's rows seen so far |
| Averager.AdvancedBufferIsWindow | ctplot/plot.py:453-463 | pruning the buffer to the new window and appending the trigger row filters the rows seen so far by the new window |
| PlotSettings.CompileFunction | ctplot/plot.py:363-371 | the compiled text is `lambda row: (...)` around the expression after the rewriting of every field in the given iteration order |
| PlotSettings.SubFromCopies | ctplot/plot.py:369-370 | where no whole-word match starts, the rewriting copies the text |
| PlotSettings.SubToken | ctplot/plot.py:369-370 | `re.sub` of one field name as a whole word (stated by SubTokenUntouched, SubTokenWhole, SubTokenInsideIdentifier and NoTokenWhere) |
| PlotSettings.Rewrite | ctplot/plot.py:368-370 | the fields rewritten one after the other over the whole text (stated by RewriteQuoted, RewriteName and RowColumnCorruptsEarlierFields) |
| PlotSettings.SubTokenUntouched | ctplot/plot.py:369-370 | text in which the name never stands as a whole word is left as it is |
| PlotSettings.SubTokenWhole | ctplot/plot.py:369-370 | the name on its own is replaced |
| PlotSettings.SubTokenInsideIdentifier | ctplot/plot.py:369-370 | a name inside a longer or different identifier is left as it is |
| PlotSettings.NoTokenWhere | ctplot/plot.py:369 | the lookbehind and lookahead: a name cannot match where it would include a non-word character or touch a word character on either side |
| PlotSettings.QuotedUntouched | ctplot/plot.py:368-370 | rewriting `row["v"]` for any other field name that is not `row` leaves it unchanged |
| PlotSettings.RewriteQuoted | ctplot/plot.py:368-370 | once a field is rewritten, the remaining fields (neither it nor `row`) keep the rewritten text |
| PlotSettings.RewriteName | ctplot/plot.py:363-371 | an expression that is one field name compiles to that field of the row, in any iteration order, provided no column is named `row` |
| PlotSettings.RowColumnCorruptsEarlierFields | ctplot/plot.py:368-370 | the second finding: with a column named `row` iterated after field `x`, the expression `x` compiles to `row["row"]["x"]` |
| PlotSettings.MatchAny | ctplot/plot.py:368-370 | the field found at a position matches there as a whole word, and when none is found no field does |
| PlotSettings.SubAllName | ctplot/plot.py:368-370 | corrected rewriting: a field name on its own compiles to that field of the row whatever the column names |
| PlotSettings.SubAllSingle | ctplot/plot.py:369-370 | with a single field the corrected rewriting is the rewriting as written |
| PlotSettings.JoinedCuts | ctplot/plot.py:249-271 | a source has a joined cut exactly when one of its plots draws from it and the joined text does not contain `(None)`; the joined cut is the cuts of its plots, each in parentheses, joined by `or` in plot order |
| PlotSettings.JoinOr | ctplot/plot.py:264-268 | the cuts, each in parentheses, joined by ` or ` (stated by JoinOrSnoc and JoinOrHas) |
| PlotSettings.JoinOrSnoc | ctplot/plot.py:264-268 | one more cut extends the joined text by ` or (cut)`, or starts it as `(cut)` |
| PlotSettings.CutsOfHas | ctplot/plot.py:254-268 | every plot of a source contributes its cut to that source |
| PlotSettings.JoinOrHas | ctplot/plot.py:265-268 | every cut appears in the joined text in its own parentheses |
| PlotSettings.MissingCutDropsFilter | ctplot/plot.py:264-271 | a plot without a cut puts `(None)` into its source's joined text, so the filter of the whole source is dropped |
| PlotSettings.PathJoinSource | ctplot/plot.py:219 | joining the data directory to `file:table` joins it to the file part |
| PlotSettings.PathJoinNoColon | ctplot/plot.py:219 | joining colon-free paths gives a colon-free path |
| PlotSettings.SourceKey | ctplot/plot.py:219 | the key `path:table:window:shift:weight` of a given source, none otherwise (read back by SourceKeyRoundTrip) |
| PlotSettings.ParseKey | ctplot/plot.py:343-348 | the key stripped, split at colons and read field by field (stated by FromFields and SourceKeyRoundTrip) |
| PlotSettings.FromFields | ctplot/plot.py:343-348 | a key with fewer than five fields fails; otherwise file and table are the first two fields, `None` means no averaging window, a shift of 1 and no weight, and failure means the window or the shift does not parse |
| PlotSettings.KeySplits | ctplot/plot.py:343 | five colon-free fields joined with colons, with no surrounding whitespace, split back into the five fields |
| PlotSettings.SourceKeyRoundTrip | ctplot/plot.py:219 | the key written for a source splits back into path, table, window, shift and weight, so reading it reads the settings that made it |
| PlotSettings.ParseAll | ctplot/plot.py:681 | all parts parse exactly when each does, and then the values are in order |
| PlotSettings.ParseBins | ctplot/plot.py:674-685 | an absent setting or one with a part that does not parse gives 0; several numbers give that many edges |
| PlotSettings.BinsRoundTrip | ctplot/plot.py:674-685 | numbers written comma-separated are read back: one as a bin count, several as edges |
| PlotSettings.LabelTailJoins | ctplot/plot.py:692-695 | the loop builds the given expressions, each behind a colon |
| PlotSettings.Llabel | ctplot/plot.py:689-696 | the plot's name if given, otherwise the given expressions joined by `:` (stated by LlabelJoins and LlabelSplits) |
| PlotSettings.LlabelJoins | ctplot/plot.py:689-696 | the label is the plot's name if it has one, otherwise the given x, y, z and cut expressions joined by `:` |
| PlotSettings.LlabelSplits | ctplot/plot.py:689-696 | without a name and with colon-free expressions, splitting the label at `:` gives back the given expressions |
| PlotSettings.Data | ctplot/plot.py:644-658 | an adjusted column replaces the plain one; without a non-empty cut the columns are returned as they are; a column is present exactly when its plain or adjusted data is (what a cut keeps is stated by DataKeepsRowsPaired) |
| PlotSettings.DataKeepsRowsPaired | ctplot/plot.py:644-658 | under a cut x, y and z keep as many values as the cut has true entries, and the kept (x, y) pairs are the masked pairs of the adjusted columns |
| PlotSettings.Prefilter | ctplot/plot.py:482-486 | the rows for which the cut holds, in table order |
| Validation.NewOneOf | validation.py:202-206 | anything but a list or a tuple is refused; otherwise the validator holds the items |
| Validation.Apply | validation.py:44-213 | one validator's `validate` on a value: the converted or unchanged value, or the error (stated by CastableOutcome, RangeOutcome, SimpleOutcome and AcceptedValue) |
| Validation.AcceptedValue | validation.py:55-213 | a validator that does not convert returns an accepted value unchanged; `Int`, `Float`, `IntRange` and `FloatRange` return the converted value |
| Validation.CastableOutcome | validation.py:55-62 | with `allow_empty` the empty string passes unchanged; otherwise the value passes exactly when it converts, and the error names the field's title |
| Validation.RangeAccepts | validation.py:107-115 | the range test accepts a number in the closed interval without flags, the half-open interval with one flag, the open interval with both, and never a string |
| Validation.RangeThirdTestRedundant | validation.py:108-113 | whatever passes the first two tests passes the third |
| Validation.RangeOutcome | validation.py:101-140 | with `allow_empty` the empty string passes; otherwise the value is converted by the range's cast, if any, and the converted value is checked against the range |
| Validation.SimpleOutcome | validation.py:143-213 | `Gte`, `NotEmpty` and `OneOf` accept exactly the values not below the bound, not empty, or among the items, and return them unchanged |
| Validation.CastIdempotent | validation.py:59 | a converted value converts to itself |
| Validation.ApplyIdempotent | validation.py:44-213 | validating an accepted value again accepts it unchanged |
| Validation.Flatten | validation.py:291-299 | the validators of a nested list in order, up to the first item that is not a validator, and whether there was none (used by FormDataValidator.Add) |
| Validation.AddAll | validation.py:301-310 | the validators registered one by one (stated by AddAllEffect, AddAllOrdered and AddAllAppend) |
| Validation.AddAllAppend | validation.py:291-310 | adding validators in two calls is adding them in one |
| Validation.AddOneOrdered | validation.py:301-310 | adding one validator keeps every field once in the order |
| Validation.AddAllOrdered | validation.py:291-310 | adding validators keeps every field once in the order |
| Validation.AddAllShape | validation.py:301-310 | after adding, the field's entry is the computed one and a new field is appended to the order |
| Validation.AddAllEffect | validation.py:291-310 | adding keeps the dictionary ordered; no validators change nothing; otherwise the validators are appended to the field's list, a new field gets the title and stop flag given and goes last, and an existing field keeps its title and flag |
| Validation.Chain | validation.py:319-339 | one field's validators applied in turn to the stored value until one refuses (stated by ChainFrame and ChainOnMissingField) |
| Validation.Run | validation.py:312-341 | `validate` over the fields in order (stated by RunFrame, RunErrors, RunRaises and VerdictMatchesErrors) |
| Validation.ChainFrame | validation.py:319-339 | a field's validators add or remove no key and change no other field; a field the form lacks is not stored |
| Validation.ChainOnMissingField | validation.py:319-339 | a missing field is validated as the empty string: it passes exactly when every validator accepts `''`, and otherwise the error is the first refusing validator's |
| Validation.RunFrame | validation.py:312-341 | `validate` adds or removes no form field and leaves the fields without validators unchanged |
| Validation.RunErrors | validation.py:333-339 | the errors already recorded stay in front, at most one error is added per field, and a stopped run has added one |
| Validation.VerdictMatchesErrors | validation.py:337-344 | when `validate` returns, its result is true exactly when the error list is empty |
| Validation.RunRaises | validation.py:316-317 | only strict mode raises, for a field the form lacks and with that field's title; a strict run that completes saw every field in the form |
| Validation.FormDataValidator.constructor | validation.py:281-285 | no fields, no errors, the strict flag and the form data given |
| Validation.FormDataValidator.Add | validation.py:291-310 | the spec's validators are registered in order up to the first item that is not a validator, and the result says whether there was none; errors and form data are unchanged |
| Validation.FormDataValidator.AddEach | validation.py:292-295 | the items of a list are added in order, stopping at the first refused one |
| Validation.FormDataValidator.Check | validation.py:319-339 | one field's validators over the stored form data: the data and the error are those of the chain |
| Validation.FormDataValidator.Validate | validation.py:312-341 | the form data and errors afterwards and the result (or the strict-mode error) are those of a run over the fields in the order they were added |
| Validation.FormDataValidator.IsValid | validation.py:343-344 | true exactly when no error has been recorded |

## Left out

- HDF5 file access, the cache table and its lock file, `eval` of the averaging window and of compiled
  expressions, the logging and the progress counter: file and process I/O. The number parsers and the
  evaluation of a compiled cut are function parameters.
- Square roots: errors are modelled by their squares (variances); `std`, `skew`, `kurtos` and `excess`
  of `stats_fields1d` and the `std` of `stats_fields2d` are left out with them.
- Floating point: all arithmetic is on reals. NaN and infinity appear only as `None` (a mean of no
  entries, a density error with a zero total); `nanmin`/`nanmax` are modelled on NaN-free samples.
- Binning.GetBinning: numpy's `linspace` of a non-integral count truncates it, as the numpy of the source's
  era did; the model does the same, without modelling later numpy versions that reject it.
- PlotSettings.CompileFunction: Python iterates a `set`, so the order of the fields is the caller's
  `order` parameter; the model requires non-empty field names, which column names always are.
- PlotSettings.Data: numpy's boolean indexing with a mask of the wrong length raises; the model requires
  masks as long as the columns instead of modelling that error.
- PlotSettings.JoinedCuts: the `expr_data` bookkeeping of `_prepare_data` (lines 249-263) is left out;
  only the joined cuts are modelled.
- Averager.Average: a zero window (a division by zero in the source once a record is emitted) is
  excluded by its precondition; the weight column is given per row, because evaluating the weight
  expression is outside the model.
- Averager.MakeRecord: stores exact means. The cache table keeps the source table's column types
  (ctplot/plot.py:407-413, only boolean columns become floats), so an integer column, an integer
  `time` column included, stores its mean truncated; column types are not modelled.
- Validation: `Regexp` and the expression validators, and a `Castable` with any conversion other than
  `int` or `float`, are not part of this model; messages are kept as data (title, bounds) rather
  than formatted and translated text.
- Validation.Apply: the error message of `OneOf.validate` over non-string items (the `TypeError` of
  `', '.join` at validation.py:212) is not modelled; the message keeps the items.
- Validation.FormDataValidator.FormData: `get_form_data` and `get_errors` are plain getters; `FormData`
  has no contract of its own (the state it returns is stated by `Validate`).
- The `ValidatorTypeError` raised by `add` is modelled as a `false` result after the validators before
  the refused item have been registered, as in the source.

## Findings

| source | as written | input that shows it | evidently intended | confidence | as-written member | corrected member |
|---|---|---|---|---|---|---|
| ctplot/plot.py:1093-1096 | with an even number of bins the median is averaged with `centers[median_i - 1]`, which for `median_i == 0` is Python's `centers[-1]`, the last center | contents `[3, 0, 0, 1]`, edges `0, 1, 2, 3, 4`: the median bin is 0 (center 0.5), the median as written is `(0.5 + 3.5) / 2 = 2.0` | in bin 0 there is no center below, so the median is the center of bin 0 | not executed | Statistics.MedianAsWrittenLeavesItsBin | Statistics.Stats1DMedianCorrected |
| ctplot/plot.py:368-370 | each field name is rewritten in turn over the whole text, so a column named `row` also rewrites the `row` of every `row["..."]` produced before it | a table with a column `row`, the set iterated as `x`, then `row`, and the expression `x`: the result is `row["row"]["x"]` | every field name in the original expression is rewritten once, in one left-to-right pass | not executed | PlotSettings.RowColumnCorruptsEarlierFields | PlotSettings.SubAllName |

`Range` with both `exclude_min` and `exclude_max` set accepts the open interval: the first test
already rejects `rmin`, the second rejects `rmax`, and the third test never decides
(`Validation.RangeThirdTestRedundant`). The model follows the code here.
