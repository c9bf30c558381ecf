# Sleep-tracker report pipeline, modelled in Dafny

The script loads Garmin sleep-session records from a
fixed list of JSON exports and derives sleep metrics per session. It keeps
the sessions whose confirmation type is not OFF_WRIST, dated from 2021-01-01 on, sorts them by date and
adds a 30-row rolling mean of total sleep. It then summarises total sleep by
weekday and by season and draws five charts. This project models the
record-processing part of that script and proves what each step promises.

The modules follow the script's stages:

- `Wrappers` (`wrappers.dfy`): the `Option` type.
- `SleepRecords` (`sleep_records.dfy`): a session record and the columns derived from it.
- `Stats` (`stats.dfy`): sum, mean and the trailing rolling mean.
- `Loader` (`loader.dfy`): the loop over the input files.
- `Cleaning` (`cleaning.dfy`): the row filter and the sort by date.
- `Summaries` (`summaries.dfy`): the season mapping and the per-label means.
- `Report` (`report.dfy`): the whole preprocessing stage, from the loaded records to the cleaned table.

Representation choices:

- Timestamps are whole seconds.
- `calendarDate` is a day number, counted in days since 1970-01-01. The cutoff 2021-01-01 is day 18628.
- The weekday and month of a record's date are fields of the record. The script computes them with pandas' calendar functions.
- Hours, percentages and means are `real` values, so they are exact and not floating point.
- The file list is a parameter. Each file comes with the outcome of opening and parsing it: its records, or a failure.
- A division whose denominator is zero gives `None`. Pandas gives inf or NaN there and does not raise.

Behaviour of the script that the model keeps:

- The loader keeps file order. Its result is the in-order concatenation of the records of the files that loaded.
- The rolling mean covers the last 30 rows, whatever dates they carry.
- A row whose time in bed is zero is not dropped. Its efficiency is undefined (`None`) and the row stays in the table.
- Failed files are always skipped. The run gets past line 55 only if at least one record loaded: otherwise the frame has no columns, the lookup at line 55 raises, and the run stops. `Report.Preprocess` returns `None` in that case, and `Report.NoRecordsIsFatal` states exactly when it happens.

## Model

| member | source | states |
|---|---|---|
| `Loader.LoadAll` | generate_sample_charts.py:44-50 | The loop's accumulator ends as the records of all loaded files, appended in file order. The error log holds the path of each failed file, in visiting order. |
| `Loader.LoadedRecordsAreLoadedFiles` | generate_sample_charts.py:44-50 | The accumulator is exactly the concatenation, in file order, of the record lists of the files that loaded. |
| `Loader.LoadedRecordsAppend` | generate_sample_charts.py:45-48 | Loading a list in two parts gives the first part's records followed by the second part's. |
| `Loader.FailedFileAddsNothing` | generate_sample_charts.py:46-50 | A failed file contributes nothing: the result equals that of the list without it, so every later file is still loaded. |
| `Loader.LoadedRecordMembership` | generate_sample_charts.py:44-50 | A record is in the accumulator if and only if some file that loaded contains it. |
| `Loader.FailedPathMembership` | generate_sample_charts.py:49-50 | A path appears in the error log if and only if some file with that path failed to load. |
| `Loader.NothingLoaded` | generate_sample_charts.py:44-50 | The accumulator is empty if and only if every file either failed or held no records. |
| `SleepRecords.Derive` | generate_sample_charts.py:59-65 | Deep, light and awake hours are the matching seconds divided by 3600. Total sleep is deep plus light hours, which equals (deep + light seconds)/3600. Time in bed is (end − start)/3600. Efficiency is defined exactly when end ≠ start, and then equals 100 × sleep seconds / bed seconds. The deep-sleep percentage is defined exactly when deep + light ≠ 0, and then equals 100 × deep / (deep + light). |
| `SleepRecords.DeriveAll` | generate_sample_charts.py:52-65 | The frame has one row per loaded record, in record order, and each row holds the derived columns of its record. |
| `SleepRecords.AwakeTimeExcluded` | generate_sample_charts.py:61-62 | Changing only the awake seconds changes the awake hours and nothing else: total sleep, efficiency and the deep-sleep percentage stay the same. |
| `SleepRecords.EfficiencyAtMostHundred` | generate_sample_charts.py:63-64 | When end > start, the efficiency is defined, and it is at most 100 if and only if deep + light seconds fit within end − start. |
| `Stats.WindowStart` | generate_sample_charts.py:74 | The window ending at row i starts at or before i and holds min(i + 1, 30) rows, so `min_periods=1` gives every row a value. |
| `Stats.TrailingSums` | generate_sample_charts.py:74 | Each running sum, updated one row at a time by adding the entering row and subtracting the leaving one, equals the plain sum of its trailing window. |
| `Stats.RollingMean` | generate_sample_charts.py:74 | There is one value per row. Row i holds the mean of rows max(0, i − w + 1) through i. |
| `Stats.RollingMeanFirstRow` | generate_sample_charts.py:74 | The first row's rolling mean is its own value. |
| `Stats.RollingMeanBounds` | generate_sample_charts.py:74 | Every rolling mean lies within any bounds that hold for all the values. |
| `Cleaning.FilterRows` | generate_sample_charts.py:68-71 | Each surviving row is not OFF_WRIST and is dated on or after 2021-01-01. Each row meeting both conditions survives with its full multiplicity. |
| `Cleaning.Retained` | generate_sample_charts.py:69-70 | The filter mask. A row passes if and only if its confirmation type is not OFF_WRIST and its day number is at least 18628 (2021-01-01). |
| `Cleaning.FilterKeepsExactly` | generate_sample_charts.py:68-71 | A row of the input survives the filter if and only if its confirmation type is not OFF_WRIST and its date is on or after the cutoff. |
| `Cleaning.SortByDate` | generate_sample_charts.py:73 | The result is in non-decreasing calendarDate order and is a permutation of its input. |
| `Summaries.GetSeason` | generate_sample_charts.py:136-144 | Total on all integers. Winter if and only if the month is 12, 1 or 2. Spring if and only if 3–5. Summer if and only if 6–8. Autumn for every other value. |
| `Summaries.SeasonsSplitYear` | generate_sample_charts.py:136-144 | The months 1..12 split into Winter {12,1,2}, Spring {3,4,5}, Summer {6,7,8} and Autumn {9,10,11}. |
| `Summaries.DayOrderListsEachWeekdayOnce` | generate_sample_charts.py:118 | The weekday order lists every weekday exactly once. |
| `Summaries.SeasonOrderListsEachSeasonOnce` | generate_sample_charts.py:149 | The season order lists every season exactly once. |
| `Summaries.GroupTotals` | generate_sample_charts.py:119 | The group of a label is empty if and only if no row carries that label. |
| `Summaries.GroupMeans` | generate_sample_charts.py:119 | There is one entry per label, in the given order. An entry is missing if and only if no row has its label. A present entry is the mean total sleep of that label's rows. |
| `Summaries.WeekdayMeans` | generate_sample_charts.py:117-119 | There are seven entries, Monday to Sunday. An entry is present if and only if some row falls on that weekday, and then it is the mean total sleep of that weekday's rows. |
| `Summaries.SeasonMeans` | generate_sample_charts.py:146-150 | There are four entries: Winter, Spring, Summer, Autumn. An entry is present if and only if some row's month maps to that season, and then it is the mean total sleep of that season's rows. |
| `Summaries.GroupsPartitionTotal` | generate_sample_charts.py:119 | When each row's label appears once in the order, the group sums add up to the total sleep of all rows. |
| `Summaries.WeekdayGroupsPartitionTotal` | generate_sample_charts.py:117-119 | The seven weekday groups together hold all the rows' total sleep. |
| `Summaries.SeasonGroupsPartitionTotal` | generate_sample_charts.py:146-150 | The four season groups together hold all the rows' total sleep. |
| `Report.Preprocess` | generate_sample_charts.py:52-74 | The result is undefined exactly when no record was loaded. Otherwise the cleaned rows are sorted by date and are exactly the retained derived rows, as a multiset. The rolling column has one value per row, each the mean of its 30-row trailing window. |
| `Report.CleanRowsComeFromRecords` | generate_sample_charts.py:59-73 | Every cleaned row is the derived row of a loaded record that passes both filter conditions. Its total sleep is (deep + light seconds)/3600. |
| `Report.NoRecordsIsFatal` | generate_sample_charts.py:44-55 | The run stops at the first column lookup if and only if no file contributed a record. |

## Left out

- Opening files and parsing JSON (lines 47-48) are I/O. Each file's outcome is given as a value, and the error message text is not modelled.
- String-to-datetime conversion and `day_name` / `dt.month` (lines 55-57, 117, 146) are calendar parsing in pandas. Day numbers, weekdays and months are given fields, and the model does not check that they agree with one another.
- Missing fields are not modelled: every record carries every field. In the script, a field missing from only some records does not end the run. That row gets NaN, or NaT for a date or timestamp. A NaN confirmation type passes the OFF_WRIST test, and a NaT date fails the date test. The rolling mean and the group means skip NaN values. The model therefore does not capture rows with NaN fields or means that skip them. A column missing from every record raises where it is first read: at lines 55-61, or at line 69 for the confirmation type. That is not modelled either.
- `.round(1)` on the two percentage columns (lines 64-65) is float rounding. The model keeps the unrounded value.
- IEEE floating point is not modelled. Hours and means are exact reals, and inf and NaN both become `None`.
- Cleaning.SortByDate: the pandas default sort is not stable. The model computes one stable order, and its contract states only what holds for any order pandas picks: sorted and a permutation. The rolling mean over rows that share a date follows the model's order.
- The standard deviations (line 150) and the correlation matrix (lines 166-167) are floating-point statistics computed by pandas.
- The column means for the pie chart (lines 97-99) and the mean of the weekday means (line 123) feed only the charts: the pie wedge sizes and labels, and the height of the reference line.
- All plotting, label formatting and image writing (lines 79-175) are left out, and so are style setup, warning suppression and progress printing (lines 13-19, 76-77, 177-182).
