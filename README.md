# Power-usage data reduction, modelled in Dafny

This project models the offline half of `powerusage-windows-arm64`. That half takes
the output of `powercfg` that has already been captured and turns it into numbers:

- battery reports (HTML from `powercfg /batteryreport`): a line scanner and a
  dictionary keyed by creation time;
- SRUM utility CSV dumps (`powercfg /srumutil`): row filtering, grouping by timestamp
  and element-wise summing, unit conversion, and ordering by value;
- the comparison arithmetic of `comparisons.py`:
  - consumption averages;
  - battery deltas;
  - truncation by time;
  - each index-finding block of `compare_data`, extracted on its own: the moving
    average, the first good sample, the boundary list, the final plateau, the
    guarded average power and percent lost;
- WPA command tables: finding the start and stop markers, and trimming a time/data
  series to that window.

Modules follow the source files: `Utils`, `BatteryUsageParser`, `PowerUsageParser`,
`Comparisons` and `WpaParser`. Two support modules sit beside them:

- `Common` holds `Option`, `Result` and `PyError`. A Python exception is modelled as
  `Err(e)`.
- `Text` holds the Python string operations the code relies on: `in`, `split`,
  `strip`, `lstrip`, `re.sub` of one character, and `int()`/`str()` on ASCII digits.

Loops of the source are Dafny methods. Each is proved equal to a specification
function, and lemmas beside each function state what it means.

Things the model takes as parameters:

- File contents are given as sequences of lines or rows.
- `strptime`/`mktime` is a parameter `epoch: string -> Option<int>`, because it
  depends on local time. The filter applies it to a timestamp field through
  `FieldTime(epoch)` (strip leading spaces, cut at the first `.`, then `epoch`);
  the filter lemmas are stated for any such field conversion `stamp`.
- The grouping lemmas are stated for any counter conversion `counter`;
  `open_srumutil_data` uses `Counter`, which is `int(x.lstrip(' '))` on the text.
- `float()` of a field is a parameter `toFloat: string -> Option<real>`.
- `comparisons.py` imports two converters that `utils.py` does not define. They are a
  `Converters` value holding two arbitrary functions. The telescoping lemmas use
  `PassThrough`, the identities.
- Python floats are Dafny `real`s.

## Model

| member | source | states |
|---|---|---|
| Utils.FirstContained | utils.py:8-11 | the index of the first matcher that occurs in the name; no earlier matcher occurs |
| Utils.PatternFind | utils.py:4-11 | `AnyName` (Python `True`) iff there are no matchers; otherwise the earliest matcher in list order that is a substring of the name, or `NoMatch` (`None`) iff none is |
| Utils.GetPathsFromDir | utils.py:14-20 | the nested append loop builds exactly `KeptPaths` of the walk |
| Utils.KeptFilesMembership | utils.py:17-19 | a path is kept iff it is `root` joined with a listed file whose `pattern_find` result is truthy |
| Utils.NoMatchersKeepsAll | utils.py:14-20 | with no matchers every file of a directory is kept: one path per file, entry `i` being the root joined with file `i` |
| Utils.EmptyFirstMatcherKeepsNothing | utils.py:9-19 | if the first matcher is `''`, it matches every name and is falsy, so no file is kept even when a later matcher matches |
| Utils.EmptyFirstMatcherKeepsNothingIn | utils.py:9-19 | the same for one directory |
| Utils.MillijoulesToJoules | utils.py:23-24 | the result times 1000 is the input |
| Utils.JoulesToMilliwatts | utils.py:27-28 | ZeroDivisionError iff the time is 0; otherwise result × time = energy |
| Utils.JoulesToMilliwatthours | utils.py:31-32 | the result times 3.6 is the input |
| Utils.MillijoulesToMilliwatthours | utils.py:23-32 | mJ → J → mWh is division by 3600 |
| BatteryUsageParser.LastPercentBelow | batteryusageparser.py:25 | the greedy `.*` of the percent pattern picks the last `"percent">` digit position |
| BatteryUsageParser.LastOccurrenceBelow | batteryusageparser.py:32 | the last occurrence of a tag below a bound, and no later one |
| BatteryUsageParser.DigitRun | batteryusageparser.py:25 | `(\d+)` takes the maximal run of digits at a position |
| BatteryUsageParser.PercentGroupMeaning | batteryusageparser.py:25 | the captured group is a digit run that follows the last percent tag and stops at a non-digit; no tag gives no match |
| BatteryUsageParser.CapacityGroupMeaning | batteryusageparser.py:32 | the capacity group is the text from the last `"mw">` before the last ` mWh`; no match iff no tag is followed by the unit |
| BatteryUsageParser.CreationTimeMeaning | batteryusageparser.py:10 | the creation time is `int()` of the text after the last `report` in the part of the name before its first `.`, which contains neither; for a digit run it is its decimal value |
| BatteryUsageParser.ParseBatteryReport | batteryusageparser.py:6-44 | the three-state loop over the lines computes `ParseReport` |
| BatteryUsageParser.CapturedAfterPercent | batteryusageparser.py:31-41 | once a percent has been seen, the scan captures iff a capacity-only line follows |
| BatteryUsageParser.CapturedAfterReport | batteryusageparser.py:24-41 | after the marker, the scan captures iff a percent line is followed by a capacity-only line |
| BatteryUsageParser.CapturedFromStart | batteryusageparser.py:17-41 | from the start, the scan captures iff marker, percent line and capacity line occur in order |
| BatteryUsageParser.CapturedIffInOrder | batteryusageparser.py:17-44 | a record is produced iff a "Report generated" line precedes a percent line that precedes a capacity line; the first marker line is used for nothing else, later marker lines are scanned like any other line, and a percent line is never the capacity line |
| BatteryUsageParser.CapturedPercentAfterPercent | batteryusageparser.py:24-34 | the captured percentage is the one carried in, or the last percent line before the capacity line |
| BatteryUsageParser.CapturedPercentAfterReport | batteryusageparser.py:24-34 | after the marker, the captured percentage is the last percent line before the capacity line |
| BatteryUsageParser.CapturedPercentFromStart | batteryusageparser.py:17-34 | the same from the start of the file |
| BatteryUsageParser.CapturedUsesLastPercent | batteryusageparser.py:25-29 | a later percent line overwrites an earlier one: the value used is the last one seen before the capacity line |
| BatteryUsageParser.ParseReportFields | batteryusageparser.py:10-41 | a bad file name raises ValueError; lines out of order give `None`; a record holds the creation time, a non-negative `battery` that is the value of the digit run, and `capacity` as `int()` of the text with every `,` removed |
| BatteryUsageParser.OpenBatteryReports | batteryusageparser.py:52-62 | the loop filling `currdata` computes `CollectReports` |
| BatteryUsageParser.CollectKeepsFirstError | batteryusageparser.py:56-59 | the first exception ends the loop: later files change nothing |
| BatteryUsageParser.CollectStep | batteryusageparser.py:58-59 | proof step for OpenBatteryReports: one iteration: an exception propagates; `None` raises TypeError at `data['creationtime']`; a record stores `(battery, capacity)` under `str(creationtime)` |
| BatteryUsageParser.CollectFailsIffSomeUnusable | batteryusageparser.py:58-59 | the loop fails, rather than skipping, iff some report raises or parses to `None` |
| BatteryUsageParser.CollectKeysFromRecords | batteryusageparser.py:59 | every key is `str(creationtime)` of some parsed record |
| BatteryUsageParser.CollectLastRecordWins | batteryusageparser.py:55-59 | every record's key is present, and holds the values of the last file with that creation time |
| BatteryUsageParser.CollectAllUsableStep | batteryusageparser.py:56-59 | proof step for CollectLastRecordWins: when every outcome is a record, the loop succeeds and the last file writes its entry over the dictionary of the files before it |
| BatteryUsageParser.CollectReportsMeaning | batteryusageparser.py:52-62 | `open_battery_reports` fails iff some file is unusable; otherwise every key comes from a usable file |
| PowerUsageParser.OpenSrumutilReport | powerusageparser.py:12-51 | the header/data split, reference time and filter loop compute `ReportOf` |
| PowerUsageParser.SplitRows | powerusageparser.py:16-18 | each line is cut at its first newline and split on `,` |
| PowerUsageParser.FilterData | powerusageparser.py:31-49 | the filter loop computes `FilterRows` |
| PowerUsageParser.FilterKeepsFirstError | powerusageparser.py:32-37 | the first row with an unreadable timestamp ends the loop |
| PowerUsageParser.ReportFinalTime | powerusageparser.py:20-28 | fewer than two lines, or a last row with fewer than 3 fields, raise IndexError; otherwise the reference time is the epoch of the last row's column 2, with leading spaces stripped and cut at the first `.` |
| PowerUsageParser.FilterRowsOkIff | powerusageparser.py:32-37 | the filter succeeds iff every row has a column 2 whose timestamp parses |
| PowerUsageParser.FilterRowsOkStep | powerusageparser.py:32-37 | proof step for FilterRowsOkIff: one more row leaves the filter succeeding iff it succeeded before and the row has a column 2 whose timestamp converts |
| PowerUsageParser.RowStepMeaning | powerusageparser.py:33-48 | proof step for FilterRowsSound and FilterRowsComplete: a row that gets through the conversion has a readable timestamp, and it adds its rewrite iff it passes the time and application tests, otherwise nothing |
| PowerUsageParser.FilterRowsLast | powerusageparser.py:32-48 | proof step for FilterRowsSound and FilterRowsComplete: a successful filter is the filter of all rows but the last, followed by what the last row adds |
| PowerUsageParser.FilterRowsMeaning | powerusageparser.py:39-48 | every output row has timestamp ≥ `finaltime`, comes from an input row that passes the time test and the two-way substring test on the application, is `row[:2] + [ts] + row[3:]` and has the input's length; every passing row is in the output |
| PowerUsageParser.FilterRowsSound | powerusageparser.py:39-48 | every output row has timestamp ≥ `finaltime` and is the rewrite of a passing input row of the same length |
| PowerUsageParser.FilterRowsComplete | powerusageparser.py:39-48 | the rewrite of every passing input row is in the output |
| PowerUsageParser.FilterRowsPrefix | powerusageparser.py:31-48 | the output for a prefix of the rows is a prefix of the output, so input order is kept |
| PowerUsageParser.ParseCounters | powerusageparser.py:106 | only ValueError can arise; a success has one integer per field |
| PowerUsageParser.ParseCountersMeaning | powerusageparser.py:106 | fails iff some field does not convert; otherwise entry `i` is field `i` converted (with `Counter`, the integer after `lstrip(' ')`) |
| PowerUsageParser.OpenSrumutilData | powerusageparser.py:96-115 | the grouping loop over all files, then the merge, compute `SrumData` |
| PowerUsageParser.AddFileRows | powerusageparser.py:103-106 | the inner loop over one file's rows computes `AddRows` |
| PowerUsageParser.AddRowsKeepsFirstError | powerusageparser.py:103-106 | the first bad counter ends the loop |
| PowerUsageParser.GroupKeepsFirstError | powerusageparser.py:100-106 | the first failing file ends the loop |
| PowerUsageParser.StampKeysMembership | powerusageparser.py:104-105 | a key is added iff it is `str` of some kept row's timestamp |
| PowerUsageParser.AddRowsOkIff | powerusageparser.py:103-106 | the loop succeeds iff every row's counters parse |
| PowerUsageParser.AddRowsOkParses | powerusageparser.py:103-106 | if the loop succeeds, every row's counters parse |
| PowerUsageParser.ParsesAddRowsOk | powerusageparser.py:103-106 | if every row's counters parse, the loop succeeds |
| PowerUsageParser.AddRowsOkStep | powerusageparser.py:103-106 | proof step for AddRowsOkIff: one more row leaves the loop succeeding iff it succeeded before and that row's counters parse |
| PowerUsageParser.AddRowsLast | powerusageparser.py:104-106 | proof step for AddRowsKeys and AddRowsGet: a successful step appends the last row's counters to the list under `str(row[2])`, creating it empty when the key is new |
| PowerUsageParser.AddRowsGroups | powerusageparser.py:103-106 | the new key set is the old one plus the rows' timestamp keys; each key's list is its old list followed by its rows' `row[12:]` in arrival order |
| PowerUsageParser.AddRowsKeys | powerusageparser.py:104-105 | the keys afterwards are the old keys and `str(row[2])` of every row |
| PowerUsageParser.AddRowsGet | powerusageparser.py:104-106 | the list under any key is its old list followed by the counters of that key's rows in arrival order |
| PowerUsageParser.AddRowsConcat | powerusageparser.py:100-106 | adding two batches of rows equals adding them one after the other |
| PowerUsageParser.GroupFilesMeaning | powerusageparser.py:99-111 | the groups are the rows of all files in file order; the header is that of the last file read; with no files there is no header |
| PowerUsageParser.AddRow | powerusageparser.py:60-63 | IndexError iff the row is longer than the accumulator; otherwise the result has the row's length and entry `i` is `acc[i] + row[i]` |
| PowerUsageParser.Accumulate | powerusageparser.py:59-63 | only IndexError can arise |
| PowerUsageParser.MergeGroup | powerusageparser.py:58-63 | only IndexError can arise |
| PowerUsageParser.MergeRows | powerusageparser.py:58-63 | the loop over one timestamp's rows computes `MergeGroup` |
| PowerUsageParser.MergeSrumRows | powerusageparser.py:54-64 | the loop over the dictionary computes `MergeAll` |
| PowerUsageParser.AccumulateKeepsFirstError | powerusageparser.py:59-63 | the first overlong row ends the loop |
| PowerUsageParser.AccumulateWidth | powerusageparser.py:60-63 | the accumulator takes the length of the last row |
| PowerUsageParser.AccumulateErrIff | powerusageparser.py:59-63 | fails iff some row is longer than the accumulator before it |
| PowerUsageParser.MergeGroupErrIff | powerusageparser.py:58-63 | fails iff the group is empty or some row is longer than the row before it; a success has the last row's width |
| PowerUsageParser.AccumulateEqualWidth | powerusageparser.py:59-63 | for equal-width rows, entry `i` is the start value plus the column sum |
| PowerUsageParser.MergeGroupColumnSums | powerusageparser.py:58-63 | for equal-width rows, `merged[t][i]` is the sum of column `i` |
| PowerUsageParser.ColumnSumPermutation | powerusageparser.py:59-63 | a column sum does not depend on the order of the rows |
| PowerUsageParser.MergeGroupOrderIndependent | powerusageparser.py:59-63 | for equal-width rows, the merged row does not depend on row order |
| PowerUsageParser.MergeAllKeys | powerusageparser.py:54-64 | the merge succeeds iff every group does; then the key set is kept and each width is that of the group's last row |
| PowerUsageParser.ConvertDataToMilliwatthours | powerusageparser.py:67-77 | same keys; each value is converted mJ → mWh, which is division by 3600 |
| PowerUsageParser.ConvertList | powerusageparser.py:70-76 | one converted value per input value, in order |
| PowerUsageParser.LexLtIrreflexive | powerusageparser.py:83 | Python list `<` is irreflexive |
| PowerUsageParser.LexLtTransitive | powerusageparser.py:83 | Python list `<` is transitive |
| PowerUsageParser.LexLtTotal | powerusageparser.py:83 | Python list `<` is total on integer lists |
| PowerUsageParser.BeforeTransitive | powerusageparser.py:83 | the stable-sort order (value, then position) is transitive |
| PowerUsageParser.BeforeTotal | powerusageparser.py:83 | the stable-sort order is total on distinct positions |
| PowerUsageParser.Insert | powerusageparser.py:83 | insertion adds exactly one index |
| PowerUsageParser.SortIndices | powerusageparser.py:83 | the sorted order holds `n` indices below `n` |
| PowerUsageParser.InsertOrdered | powerusageparser.py:83 | insertion keeps the order sorted |
| PowerUsageParser.SortIndicesPermutation | powerusageparser.py:83 | the sorted order is a permutation of `0..n-1` |
| PowerUsageParser.PickInsert | powerusageparser.py:83 | inserting a position adds exactly that entry to the entries picked |
| PowerUsageParser.SortIndicesPickPermutation | powerusageparser.py:83 | the entries at the sorted positions of the first `n` entries are those entries, each once |
| PowerUsageParser.SortIndicesOrdered | powerusageparser.py:83 | the sorted order is sorted by (value, position) |
| PowerUsageParser.GetOrderedDatalist | powerusageparser.py:80-88 | the loop computes `OrderedDatalist` |
| PowerUsageParser.OrderedDatalistMeaning | powerusageparser.py:80-88 | every entry appears exactly once (a permutation); ordered non-decreasing by value, not by key; stable on equal values |
| Comparisons.KeptValues | comparisons.py:19-21 | with a falsy `consumption_from` the row is kept whole; otherwise a non-empty row raises TypeError when `header` is `None` and IndexError when it is shorter than the row |
| Comparisons.Width | comparisons.py:24 | `zip(*rows)` has the length of the shortest row |
| Comparisons.GetAvgConsumptionRate | comparisons.py:16-27 | the loop and comprehension compute `ConsumptionRate` |
| Comparisons.ConsumptionKeepsFirstError | comparisons.py:18-21 | the first failing row ends the loop |
| Comparisons.ConsumptionRows | comparisons.py:17-21 | succeeds iff every row does; then one kept row per input row, in order |
| Comparisons.ConsumptionRateError | comparisons.py:17-21 | proof step for ConsumptionRateMeaning: an error while building `consumption` is what `get_avg_consumption_rate` raises |
| Comparisons.SelectColumnsFrom | comparisons.py:20 | a value is in the selection iff some selected column holds it (membership only; positions and order in SelectColumnsPositions) |
| Comparisons.SelectedPositionsMeaning | comparisons.py:20 | the selected positions are exactly the positions `i < len(row)` with `header[i] in consumption_from`, strictly increasing |
| Comparisons.SelectColumnsPositions | comparisons.py:20 | entry `k` of the kept row is `row[idx[k]]` for the `k`-th selected position `idx[k]`: every named column once, in column order, and nothing else |
| Comparisons.SelectColumnsAll | comparisons.py:20 | when every header is selected the row is unchanged |
| Comparisons.ConsumptionRateMeaning | comparisons.py:16-27 | one value per kept column; each value times the divisor (3600 for mWh, else `total_time`) is the column sum; ZeroDivisionError iff there is a column and `total_time` is 0 |
| Comparisons.AveragesMeaning | comparisons.py:24-26 | one value per tuple of `zip(*consumption)`; each value times the divisor is the tuple's sum; ZeroDivisionError iff there is a tuple and the divisor is 0 |
| Comparisons.GetBatteryDeltas | comparisons.py:30-39 | `max(0, n-1)` entries; entry `i` is the converters applied to `s[i] - s[i+1]` |
| Comparisons.DeltasPrefix | comparisons.py:32-38 | the deltas of a prefix are a prefix of the deltas |
| Comparisons.DeltasTelescope | comparisons.py:30-39 | with the identity converters, the deltas sum to `s[0] - s[-1]` |
| Comparisons.CeilDiv | comparisons.py:47-52 | the least `k` with `k * interval >= T` |
| Comparisons.CutCount | comparisons.py:47-52 | no more elements follow `start_ind` than are available |
| Comparisons.CutTimeOut | comparisons.py:42-54 | the loop computes `CutKept` |
| Comparisons.CutCountIsLeast | comparisons.py:47-52 | the number of elements appended is the least `k` at which `currtime = k * interval` reaches `T`, or all that are left |
| Comparisons.CutTimeOutMeaning | comparisons.py:42-54 | a falsy `T` returns `data`; otherwise a prefix of `data` that keeps all of `data[:start_ind]` plus at most `ceil(T/interval)` elements; a negative `T` keeps only `data[:start_ind]` |
| Comparisons.MovingAverage | comparisons.py:99-107 | the cumulative-sum loop (the same loop as lines 114-122) computes `MovingAverages`: `max(0, n-N+1)` means of `N` consecutive inputs |
| Comparisons.MovingAveragesStep | comparisons.py:99-107 | proof step for MovingAverage: one more input adds exactly the window that ends at it, once `N` inputs have been read |
| Comparisons.MovingAverageOfConstant | comparisons.py:99-107 | a constant input gives a constant output |
| Comparisons.MovingAverageWindowOne | comparisons.py:99-107 | a window of 1 gives back the input |
| Comparisons.FirstPositive | comparisons.py:127-134 | the first index with delta > 0; every earlier delta is ≤ 0; none iff all are ≤ 0 |
| Comparisons.FirstGoodBase | comparisons.py:125-134 | baseline first-good is the first positive delta, else 0 |
| Comparisons.FirstGoodTest | comparisons.py:202-211 | test first-good is the first positive delta minus 1, clamped to 0; else 0 |
| Comparisons.SeqMax | comparisons.py:167 | `max()`: an element that bounds all others |
| Comparisons.DecreaseBoundaries | comparisons.py:167-174 | the loop computes `Boundaries` |
| Comparisons.ChangesMembership | comparisons.py:169-174 | an index is appended iff its value differs from the one before it (from `max` for index 0) |
| Comparisons.ChangesIncreasing | comparisons.py:169-174 | appended indices are strictly increasing and in range |
| Comparisons.BoundariesMeaning | comparisons.py:167-174 | ValueError iff the series is empty; otherwise the list starts with 0, then holds exactly the change points, strictly increasing |
| Comparisons.ChangesRuns | comparisons.py:169-174 | between consecutive boundaries the series is constant |
| Comparisons.RunStart | comparisons.py:190-199 | where a run of equal values ending at `k` starts |
| Comparisons.TrailStart | comparisons.py:188-199 | the first index of the trailing run equal to the last element, preceded by a different value; none iff the series is constant |
| Comparisons.RunStartIs | comparisons.py:190-199 | the run start is unique |
| Comparisons.FinalPlateauBaseline | comparisons.py:188-199 | computes `Plateau`: IndexError for an empty series; the start of the trailing run; the earlier value for a constant series |
| Comparisons.FinalPlateauTestAsWritten | comparisons.py:221-232 | the test loop as written computes `PlateauTestAsWritten` |
| Comparisons.FinalPlateauTest | comparisons.py:221-232 | the corrected test loop computes the same plateau as the baseline, starting from 0 |
| Comparisons.PlateauTestAsWrittenIsLength | comparisons.py:231 | for a non-constant series, `final_decrease_test` as written is `len(ord_test)`, while the intended plateau is inside the series |
| Comparisons.PlateauTestCounterexample | comparisons.py:231 | on `[2.0, 1.0]` line 231 gives 2; the trailing run starts at 1 |
| Comparisons.BuildXRange | comparisons.py:93-95 | one entry per baseline sample, `x_range[i] = 60 * i` |
| Comparisons.AverageBatteryMw | comparisons.py:235-249 | never negative; IndexError when an index is outside `x_range`; exactly 0 when the elapsed time is ≤ 0; otherwise defined iff both samples exist |
| Comparisons.AverageBatteryMwOnSamples | comparisons.py:235-249 | on `x_range` the average is 0 unless `end` is after `start`, and then it is the converted drop over `60 * (end - start)` seconds |
| Comparisons.PlateauTestAsWrittenBreaksAverage | comparisons.py:243-249 | with line 231 as written, the test average raises IndexError for every non-constant series that still holds sample `first_good_test` (always, unless `time_to_analyze` is negative); with the intended plateau it is defined when `x_range` covers the series |
| Comparisons.DropSince | comparisons.py:251-252 | `s[first] - s[-1]` is defined iff `first` is in range, and raises IndexError otherwise |
| Comparisons.DropSinceIsSumOfDeltas | comparisons.py:251-252 | the mWh lost from `first` is the sum of the raw deltas from `first` on |
| Comparisons.PercentLost | comparisons.py:254-259 | IndexError iff `first` is not a sample of the series cut from `cutStart`; otherwise `pc[first]` minus the last kept value |
| Comparisons.PercentLostFrom | comparisons.py:254-259 | cut and read at the same sample (`pc_lost_base` at `first_good_base`, and the corrected `pc_lost_test` at `first_good_test`): fails iff that sample is missing or the time is negative; otherwise the sample's value minus the last kept value |
| Comparisons.PercentLostTestAsWritten | comparisons.py:254-259 | `pc_lost_test` as written fails iff `first_good_test` falls outside the series cut from `first_good_base`; it equals the corrected value when the two indices coincide |
| Comparisons.SameStartKeepsSample | comparisons.py:42-54 | cut from sample `f`, the series still holds sample `f` iff `f` is in range and the time is not negative |
| Comparisons.PercentLostFromFirstGood | comparisons.py:254-259 | cut and measured from the same sample, percent lost is `pc[first]` minus the last kept value, and `pc[first] - pc[-1]` when no time is given |
| Comparisons.PercentLostTestCounterexample | comparisons.py:256 | cutting the test series from `first_good_base` can leave `first_good_test` out of range |
| WpaParser.OpenWpaCsv | wpaparser.py:20-34 | row 0 is the header and the rest, in order, is the data; both are empty for an empty file |
| WpaParser.Borders | wpaparser.py:52-65 | both markers found: kept; start only: `end = start + testtime`; end only: `start = end - testtime`; no start and a falsy end: TypeError; `0.0` counts as missing |
| WpaParser.GetBorders | wpaparser.py:37-67 | the marker scan and fallbacks compute `BordersOf` |
| WpaParser.ScanPrefixStep | wpaparser.py:47-51 | proof step for GetBorders: one more row of the scan applies the marker step of that row to the markers so far |
| WpaParser.ScanKeepsFirstError | wpaparser.py:47-51 | the first unreadable marker time ends the scan |
| WpaParser.ScanErrIff | wpaparser.py:47-51 | ValueError iff some marker row's time does not parse as a float |
| WpaParser.ScanLastMarkerWins | wpaparser.py:47-51 | the start is the end time of the last `wpr.exe -start` row; the end is the start time of the last `wpr.exe … stop-` row that is not a start row; each is missing iff there is no such row |
| WpaParser.ScanLastStartWins | wpaparser.py:47-49 | the start is the end time of the last `wpr.exe -start` row, and missing iff there is none |
| WpaParser.ScanLastStopWins | wpaparser.py:47-51 | the end is the start time of the last stop row that is not a start row, and missing iff there is none |
| WpaParser.BordersFallbackWindow | wpaparser.py:56-65 | with exactly one marker found, the window is exactly `testtime` long |
| WpaParser.FirstAtLeast | wpaparser.py:101-106 | a found index is inside the series |
| WpaParser.DropIndex | wpaparser.py:99-106 | the cut position is inside the series |
| WpaParser.KeepCount | wpaparser.py:109-116 | the end trim keeps at least one and at most all times |
| WpaParser.FindFirstAtLeast | wpaparser.py:101-106 | the search loop finds `FirstAtLeast` or the default |
| WpaParser.TrimToWindow | wpaparser.py:99-118 | the two trims compute `TrimWindow` |
| WpaParser.TrimStart | wpaparser.py:99-108 | the start step cuts `times` and `data` at `DropIndex` |
| WpaParser.TrimEnd | wpaparser.py:109-118 | the end step keeps `KeepCount` times and, when the series overran `end`, as many data values |
| WpaParser.FirstAtLeastIs | wpaparser.py:101-106 | the first index at or above the bound is unique |
| WpaParser.FirstAtLeastMeaning | wpaparser.py:101-106 | the search finds a time at or above the bound with every earlier time below it; it finds nothing iff every time is below the bound |
| WpaParser.DropIndexMeaning | wpaparser.py:99-106 | if `times[0] < start` and some `t >= start`, the cut is at the first such `t`; otherwise nothing is dropped |
| WpaParser.KeepCountMeaning | wpaparser.py:109-116 | if `times[-1] > end`, the trim keeps up to and including the first `t >= end`; otherwise it keeps all |
| WpaParser.TrimWindowMeaning | wpaparser.py:99-118 | IndexError iff the series is empty; the result is a contiguous slice `times[lo:lo+h]`; data sliced alike keeps equal lengths; it starts at or after `start` when any sample does; if the series overran `end`, only its last kept sample is at or after `end` |
| WpaParser.TrimWindowTimes | wpaparser.py:99-118 | on a non-empty series the trim succeeds and keeps the non-empty slice `times[lo:lo+h]` |
| WpaParser.TrimWindowData | wpaparser.py:99-118 | when `data` is as long as `times`, it is cut to the same slice |
| WpaParser.TrimWindowStart | wpaparser.py:99-108 | when some time reaches `start`, the kept series starts at or after it |
| WpaParser.TrimWindowEnd | wpaparser.py:109-118 | when the series overran `end`, only the last kept time is at or after `end` |
| Text.SplitFirstPiece | batteryusageparser.py:10 | `s.split(sep)[0]` is the prefix before the first separator and holds none |
| Text.SplitLastPiece | batteryusageparser.py:10 | `s.split(sep)[-1]` is the suffix after the last separator and holds none |
| Text.LastPieceStart | batteryusageparser.py:10 | the last piece starts at 0 or just after an occurrence of the separator |
| Text.SplitLastPosition | batteryusageparser.py:10 | `s.split(sep)[-1]` is the suffix from `LastPieceStart` on |
| Text.JoinSplit | powerusageparser.py:18 | `','.join(row.split(','))` is the row: splitting loses nothing |
| Text.SplitPiecesAreFree | powerusageparser.py:18 | no field of a split line contains a comma |
| Text.LStripChar | powerusageparser.py:33 | `lstrip(' ')` drops exactly the leading spaces |
| Text.RemoveAll | batteryusageparser.py:35 | `re.sub(',', '', s)` leaves no comma, and returns a text without one unchanged |
| Text.RemoveAllSingle | batteryusageparser.py:35 | `re.sub(',', '', c)` drops a comma and keeps any other character |
| Text.RemoveAllConcat | batteryusageparser.py:35 | removal distributes over concatenation, so every other character stays, in order |
| Text.RemoveAllMultiset | batteryusageparser.py:35 | the result holds every character except `,` with its multiplicity, and no `,` |
| Text.ParseIntOfIntToString | batteryusageparser.py:59 | `int(str(n)) == n` |
| Text.IntToStringInjective | batteryusageparser.py:59 | distinct creation times give distinct keys |
| Text.ParseIntOfDigits | batteryusageparser.py:39 | `int()` of a digit run is its decimal value |

## Left out

- Reading files (`open`, `readlines`, `os.walk`, `csv.reader`) is not modelled. Contents are given as sequences of lines, rows or directory entries.
- Console output (`print`) is not modelled. It changes no value.
- `strptime`/`mktime` is the parameter `epoch`, because it depends on the local time zone. `float()` is the parameter `toFloat`.
- The two converters imported at comparisons.py:9-10 are not defined in utils.py, so they are the parameter `Converters`.
- Floating point is modelled as exact reals: rounding is not captured.
- The percent pattern's `\d+` (batteryusageparser.py:25) is modelled on ASCII digits only; Python 3 `\d` on a `str` also matches other Unicode decimal digits.
- Path joining is modelled as Windows `ntpath.join` (the tool targets Windows on Arm); on other systems `posixpath` joins with `/` and treats `C:` as an ordinary name.
- Python's `int()` is modelled on ASCII only. It does not accept `_` digit separators or non-ASCII digits. `strip()` whitespace is the Unicode set listed in `Text.IsSpace`.
- `get_batteryreport_files` and `get_srumutil_files` are selection glue over `get_paths_from_dir`, which is modelled. The same goes for selecting the command file (wpaparser.py:74-80) and the `KNOWN_TABLES` names.
- Part of `get_wpa_data` is not modelled: column extraction with `float(... .replace(',', ''))` (wpaparser.py:97-98) and the numpy `arange`/`interp` resampling (120-125). This is floating-point resampling; the trim between them is modelled.
- `np.asmatrix` of ragged rows is not modelled. `BordersOf` demands rows of at least 8 columns and raises IndexError otherwise.
- Plotting (comparisons.py:261-291, 328-374) is not modelled, and neither is the CSV string assembly (376-398).
- The `while` loop at comparisons.py:149-165 is not modelled. Its list is overwritten at line 168, and it raises for a constant series.
- The print loop at comparisons.py:176-182 is not modelled. It computes values that are never used.
- `compare_data` as a whole is not modelled. Each block is modelled on its own.
- The argument mismatch between the `open_srumutil_data` call (five arguments) and its definition (three) is not modelled. The definition is.
- The `teststarttime` parameter of `open_srumutil_data` is accepted and unused, as in the source.
- Dictionary iteration order is not modelled. `merge_srum_rows` and `convert_data_to_milliwatthours` are modelled on `map`s. Their results do not depend on the order.
- `get_ordered_datalist` needs insertion order for stability on ties. It is modelled on a list of distinct-key pairs in insertion order.
- `fmt_data` (powerusageparser.py:113) is computed and discarded. The model returns `merged_data`, as the source does.
- Comparisons.FinalPlateauBaseline: for a constant series the source keeps whatever `final_decrease_baseline` held before. That value was set by the loop at lines 149-165, which itself raises on a constant series, so the model takes it as the parameter `prior`.
- Comparisons.MovingAverage: requires a window of at least 1. The source only uses the constants 20 and 15.

## Findings

| source | as written | input that shows it | evidently intended | confidence | as-written member | corrected member |
|---|---|---|---|---|---|---|
| comparisons.py:231 | `final_decrease_test = len(ord_test) - final_decrease_test` subtracts the variable, which is still 0, so the test plateau is `len(ord_test)` for every non-constant series; when that series still holds sample `first_good_test` (always, unless `time_to_analyze` is negative), `x_range`/`ord_test` are then indexed out of range at 243-247 | `ord_test = [2.0, 1.0]`: as written 2, trailing run starts at 1 | `len(ord_test) - final_decrease`, as the baseline block at line 198 does | not executed | Comparisons.FinalPlateauTestAsWritten, Comparisons.PlateauTestCounterexample, Comparisons.PlateauTestAsWrittenBreaksAverage | Comparisons.FinalPlateauTest |
| comparisons.py:256 | the test percentage series is cut from `first_good_base`, but percent lost is then read at `first_good_test` (line 259) | `pc = [5,4,3,2,1]`, `first_good_base = 0`, `first_good_test = 2`, `time_to_analyze = 120`: the cut keeps `[5,4]` and `pc[2]` raises IndexError; cut from 2 it is `3 - 2 = 1` | `start_ind=first_good_test`, as `deltas_test` and `ord_test` are cut at lines 214-219 | not executed | Comparisons.PercentLostTestAsWritten, Comparisons.PercentLostTestCounterexample | Comparisons.PercentLostFrom |
