# DataGrab core in Dafny

DataGrab downloads OHLCV bars (open, high, low, close, volume) for stocks,
A-shares, ETFs, funds and other assets from Yahoo Finance and Baostock. It
stores them as one Parquet file per asset type, symbol and interval, and
checks the stored files for quality problems. This project models the
program's core and proves what that core promises:

- **Configuration** (`config.dfy`, `config_validation.dfy`): the
  configuration records, filter merging, the recursive merge of parsed
  configuration documents, and the checks a document passes before it
  becomes an `AppConfig`.
- **Command line** (`cli_validation.dfy`, `cli.dfy`): the semantic checks on
  parsed arguments, the helpers that turn option values into symbol lists,
  asset types and filters, the wizard's interval check, and the exit codes
  of `doctor`, `validate` and `download`.
- **Time** (`calendar.dfy`, `timeutils.dfy`): the proleptic Gregorian
  calendar, Beijing time (fixed UTC+8), date parsing and the default date
  range.
- **Pacing** (`rate_limiter.dfy`): the request limiter, which is a class
  whose `Wait` advances the next free slot, and its exponential backoff.
- **Sources** (`router.dfy`, `baostock.dfy`, `yfinance.dfy`): routing by
  asset type, interval and adjustment mapping, yfinance's column
  de-duplication and normalisation, and each source's retry loop over the answers its
  provider gives.
- **Catalog** (`catalog.dfy`): code classification, alias normalisation,
  the catalog filters, de-duplication and `get_catalog`'s choice between
  the cache and a fresh download.
- **Download pipeline** (`downloader.dfy`, `writer.dfy`, `frames.dfy`,
  `schema.dfy`): tasks, the incremental plan, chunked fetching, the
  failure ledger, file naming, and merging into the Parquet store.
- **Storage checks** (`quality.dfy`, `validate.dfy`, `failures.dfy`,
  `export.dfy`): quality issues and reports, the per-file validation
  rules, the failure-ledger row validation, and the export column check.
- **File system** (`fsutils.dfy`): a file system class with atomic write,
  replace and listing, and the UTF-8 text helpers.
- **TUI** (`screens.dfy`): the catalog screen's limit box and its text and
  exchange filters.

`seqs.dfy`, `text.dfy`, `utf8.dfy` and `wrappers.dfy` hold generic helpers:
order-keeping filters, Python string operations, UTF-8 and Option/Result.

Operations that change state in place are methods of classes:
`RateLimiter`, `FileSystem`, `QualityReport`, `DownloadStats`,
`SourceRouter`, `BaostockSource` and the doctor's `Doctor`. Loops in the
source are methods whose contracts tie them to a specification function.
Providers, clocks, random draws and regular-expression engines are
parameters.

## Model

| member | source | states |
|---|---|---|
| Config.MergeFilters | src/datagrab/config.py:107-127 | with no extra filters the base is kept; otherwise each of the four regex/prefix lists is the base list followed by the extra list, and the boolean switches come from the extra filters |
| Config.MergeNoFilters | src/datagrab/config.py:107-127 | merging with an empty FilterConfig, on either side, gives back the other filter set |
| Config.MergeAssociative | src/datagrab/config.py:107-127 | merging three filter sets gives the same result whichever pair is merged first |
| Config.DeepMerge | src/datagrab/config.py:97-104 | the loop's result has the union of both key sets; keys only in the base keep their base value; an override value wins unless both values are tables, which are merged recursively; the result equals the recursive DeepMerged definition |
| Config.DeepMergeNothing | src/datagrab/config.py:97-104 | deep-merging an empty override leaves the base unchanged |
| Config.DeepMergeIntoNothing | src/datagrab/config.py:97-104 | deep-merging into an empty base gives the override |
| Config.DeepMergeSelf | src/datagrab/config.py:97-104 | deep-merging a table with itself gives the same table |
| RateLimiting.PowerAtLeastOne | src/datagrab/rate_limiter.py:38-40 | a base of at least 1 raised to any exponent is at least 1 |
| RateLimiting.PowerMonotone | src/datagrab/rate_limiter.py:38-40 | with a base of at least 1, a larger exponent gives a power at least as large |
| RateLimiting.Backoff | src/datagrab/rate_limiter.py:38-40 | the delay never exceeds backoff_max, and it is either backoff_max or backoff_base raised to max(1, attempt) |
| RateLimiting.BackoffFirstAttempt | src/datagrab/rate_limiter.py:38-40 | every attempt number up to 1, including 0 and negatives, waits min(backoff_base, backoff_max) |
| RateLimiting.BackoffMonotone | src/datagrab/rate_limiter.py:38-40 | with backoff_base >= 1, a later attempt never waits less than an earlier one |
| RateLimiting.BackoffNonNegative | src/datagrab/rate_limiter.py:38-40 | with backoff_base >= 1 and backoff_max >= 0, the delay is never negative |
| RateLimiting.MinInterval | src/datagrab/rate_limiter.py:25-27 | a positive rate gives the interval whose product with the rate is 1; a rate of 0 or less gives 0; the interval is never negative |
| RateLimiting.SleepFor | src/datagrab/rate_limiter.py:29-33 | the sleep is the time left until last + min_interval, clamped at 0, plus the jitter draw only when jitter_max > 0 |
| RateLimiting.SlotSpacing | src/datagrab/rate_limiter.py:29-34 | with a non-negative jitter draw, the sleep is non-negative and the next slot (now + sleep) is no earlier than now and no earlier than last + min_interval |
| RateLimiting.NoSleepWhenDue | src/datagrab/rate_limiter.py:29-33 | with no jitter, a caller that comes after last + min_interval does not sleep |
| RateLimiting.RateLimiter.constructor | src/datagrab/rate_limiter.py:19-22 | a new limiter keeps its config and starts with last timestamp 0 |
| RateLimiting.RateLimiter.Wait | src/datagrab/rate_limiter.py:24-36 | for a jitter draw within [jitter_min, jitter_max], the returned sleep is SleepFor(config, old last, now, jitter) and the new last timestamp is now + sleep |
| FsUtils.TmpPath | src/datagrab/fsutils.py:12-17 | the temporary path sits in the same directory, differs from the target and ends in ".tmp" |
| FsUtils.FileSystem.constructor | src/datagrab/fsutils.py:8-9 | the model file system starts with the given files, and its history holds that one state |
| FsUtils.FileSystem.Write | src/datagrab/fsutils.py:12-17 | writing a file sets that one path and appends the new state to the history |
| FsUtils.FileSystem.Unlink | src/datagrab/fsutils.py:12-17 | removing a file deletes that one path and appends the new state to the history |
| FsUtils.FileSystem.Replace | src/datagrab/fsutils.py:12-17 | os.replace moves the source's contents to the destination, removes the source and appends the new state to the history |
| FsUtils.FileSystem.ListDir | src/datagrab/fsutils.py:8-9 | the listing names each file of the directory exactly once |
| FsUtils.AtomicWrite | src/datagrab/fsutils.py:12-17 | after the write the target holds the data and the temporary file is gone; the only intermediate state visible is the old tree plus the temporary file |
| FsUtils.AtomicWriteBytes | src/datagrab/fsutils.py:12-17 | the target holds the bytes, no temporary file remains, every other path is unchanged, and at every intermediate step the target holds either its old contents or the new bytes, never a partial write |
| FsUtils.AtomicWriteText | src/datagrab/fsutils.py:20-21 | the target holds the UTF-8 encoding of the text, and reading it back with ReadTextIfExists gives the same text |
| FsUtils.ReadTextIfExists | src/datagrab/fsutils.py:24-27 | the result is "no file" exactly when the path is absent |
| FsUtils.SplitCsvLine | src/datagrab/fsutils.py:30-31 | there is one item per comma plus one, and item i is the i-th comma-separated piece with its whitespace stripped |
| FsUtils.SplitCsvLineStripped | src/datagrab/fsutils.py:30-31 | every item is already stripped and holds no comma |
| FsUtils.IterNonempty | src/datagrab/fsutils.py:34-35 | the result is the subsequence of the input that keeps exactly the non-empty values, in order |
| TimeUtils.AttachBeijing | src/datagrab/timeutils.py:14-18 | the result is always aware; an aware input is returned as is; a naive input keeps its wall clock and gains the +08:00 offset |
| TimeUtils.ToBeijing | src/datagrab/timeutils.py:21-24 | the result carries the Beijing offset and denotes the same instant, where a naive input is read as UTC |
| TimeUtils.BeijingDayMono | src/datagrab/timeutils.py:27-30 | a later instant never falls on an earlier Beijing calendar day |
| TimeUtils.BeijingMidnight | src/datagrab/timeutils.py:14-18 | midnight of a valid date in Beijing falls on that date's Beijing day |
| TimeUtils.BeijingDate | src/datagrab/timeutils.py:27-30 | an instant within years 1..9999 has a valid Beijing calendar date |
| TimeUtils.PathDate | src/datagrab/timeutils.py:27-30 | the path date is exactly eight digits |
| TimeUtils.FormatDateForPath | src/datagrab/timeutils.py:27-30 | an aware datetime is formatted from its instant in Beijing, and a naive one is read as UTC first |
| TimeUtils.BeijingDateOfMidnight | src/datagrab/timeutils.py:14-30 | formatting Beijing midnight of a date gives back that date |
| TimeUtils.DateOf | src/datagrab/timeutils.py:14-18 | a representable datetime has a valid calendar date equal to its wall-clock day |
| TimeUtils.BeijingMidnightOf | src/datagrab/timeutils.py:14-18 | the datetime built for a date is aware, representable, has that date and denotes Beijing midnight |
| TimeUtils.FromIsoFormat | src/datagrab/timeutils.py:14-18 | every accepted text gives a datetime within years 1..9999 |
| TimeUtils.ParseDate | src/datagrab/timeutils.py:14-18 | every accepted date is aware and representable |
| TimeUtils.ParseDateSpec | src/datagrab/timeutils.py:14-18 | parse_date fails exactly when fromisoformat fails; an aware result is kept as is; a bare YYYY-MM-DD text gives midnight of that date in Beijing |
| TimeUtils.ParseDateOfIso | src/datagrab/timeutils.py:14-18 | parsing the ISO text of any valid date succeeds and gives Beijing midnight of that date |
| TimeUtils.Less | src/datagrab/timeutils.py:36-37 | comparing two datetimes raises TypeError exactly when one is naive and the other aware |
| TimeUtils.Min | src/datagrab/timeutils.py:36-37 | min fails exactly when awareness differs; otherwise it returns one of its arguments, and that one is no later than either |
| TimeUtils.ClipEnd | src/datagrab/timeutils.py:36-37 | clipping fails exactly when the two ends differ in awareness; otherwise the start is kept and the end becomes the earlier of the two |
| TimeUtils.ClipEndIdempotent | src/datagrab/timeutils.py:36-37 | clipping twice to the same end gives the same range as clipping once |
| TimeUtils.DefaultDateRange | src/datagrab/timeutils.py:40-43 | the range ends at now and starts the given number of days earlier, with the same offset |
| Schema.NormalizeName | src/datagrab/storage/schema.py:21 | a normalised column name holds no space |
| Schema.RenameColumn | src/datagrab/storage/schema.py:23-27 | renaming changes every occurrence of the old name to the new one and nothing else |
| Schema.NormalizedNames | src/datagrab/storage/schema.py:19-22 | there is one normalised name per column, in order |
| Schema.RenameDistinct | src/datagrab/storage/schema.py:24-27 | renaming to a name that is not present keeps the column names distinct |
| Schema.NormalizeOhlcvColumns | src/datagrab/storage/schema.py:18-28 | it fails exactly when two columns normalise to the same name, as polars' rename does; on success there are as many columns, all distinct and none holding a space |
| Schema.RenameIfAbsent | src/datagrab/storage/schema.py:24-27 | a conditional rename keeps the number of columns, keeps them distinct, and introduces no space |
| Schema.RenameIfAbsentSpec | src/datagrab/storage/schema.py:24-27 | "date"-to-"datetime" style renames touch only the old column, and only when the new name is not already present |
| Schema.GetSchemaInfo | src/datagrab/storage/schema.py:31-36 | has_adjusted holds exactly when the frame has adjusted_close; the columns are the six base columns, followed by adjusted_close only in that case |
| Quality.SeverityValue | src/datagrab/storage/quality.py:12-16 | a severity's value is "WARN" or "ERROR", and parsing it gives the severity back |
| Quality.ParseSeverity | src/datagrab/storage/quality.py:12-16 | parsing succeeds exactly on "WARN" and "ERROR" |
| Quality.ToDict | src/datagrab/storage/quality.py:31-37 | the dictionary has the issue's fields, in declaration order |
| Quality.FromDict | src/datagrab/storage/quality.py:31-37 | a dictionary that reads back has the full field list and a severity value matching the issue |
| Quality.ToDictRoundTrip | src/datagrab/storage/quality.py:31-37 | reading back the dictionary of an issue gives the same issue |
| Quality.CountSeverity | src/datagrab/storage/quality.py:43-48 | a count is at most the number of issues |
| Quality.CountSeverityAppend | src/datagrab/storage/quality.py:43-51 | counts over a concatenation add up |
| Quality.CountsPartition | src/datagrab/storage/quality.py:43-48 | error count plus warn count is the number of issues |
| Quality.QualityReport.constructor | src/datagrab/storage/quality.py:39-41 | a new report holds no issues |
| Quality.QualityReport.ErrorCount | src/datagrab/storage/quality.py:43-45 | the error count plus the warn count is the number of issues held |
| Quality.QualityReport.WarnCount | src/datagrab/storage/quality.py:47-48 | the error count plus the warn count is the number of issues held |
| Quality.QualityReport.Extend | src/datagrab/storage/quality.py:50-51 | the new issues are appended after the old ones, and each count grows by the count of the added issues |
| Quality.JsonlObjects | src/datagrab/storage/quality.py:54-60 | there is one JSON object per issue, and each reads back to its issue |
| Quality.WriteIssuesJsonl | src/datagrab/storage/quality.py:54-60 | the file holds one JSON line per issue, in order, and nothing else in the tree changes |
| Quality.CsvRow | src/datagrab/storage/quality.py:63-82 | a CSV row has exactly the issue columns, each holding the issue's field value |
| Quality.CsvColumnsAreFields | src/datagrab/storage/quality.py:63-82 | the CSV header names the same nine fields as the issue, each once, in its own fixed order |
| Quality.IssueFieldsDistinct | src/datagrab/storage/quality.py:18-37 | the issue's field names are distinct |
| Quality.CsvRowCell | src/datagrab/storage/quality.py:63-82 | column k of an issue's CSV row holds the k-th value of its dictionary |
| Quality.WriteIssuesCsv | src/datagrab/storage/quality.py:63-82 | the file holds the header and one row per issue, in order, and nothing else in the tree changes |
| Calendar.DaysBeforeYearStep | src/datagrab/timeutils.py:27-30 | in the proleptic Gregorian calendar, each year begins its year length after the start of the year before |
| Calendar.DaysBeforeYearMono | src/datagrab/timeutils.py:27-30 | a later year never starts before an earlier one ends |
| Calendar.MaxDayIsEndOfYear9999 | src/datagrab/timeutils.py:27-30 | the day count of years 1..9999 is the bound every date number stays under |
| Calendar.DaysBeforeMonthStep | src/datagrab/timeutils.py:27-30 | each month begins its length after the start of the month before |
| Calendar.DaysBeforeMonthMono | src/datagrab/timeutils.py:27-30 | a later month never starts before an earlier one ends |
| Calendar.DayNumber | src/datagrab/timeutils.py:27-30 | every valid date (years 1..9999) has a day number within the supported range |
| Calendar.FindYear | src/datagrab/timeutils.py:27-30 | the year search finds the year whose days contain the given day number |
| Calendar.FindMonth | src/datagrab/timeutils.py:27-30 | the month search finds the month whose days contain the given day of the year |
| Calendar.FromDayNumber | src/datagrab/timeutils.py:27-30 | every day number in range is the number of exactly one valid date, which this returns |
| Calendar.YearUnique | src/datagrab/timeutils.py:27-30 | a day number falls within only one year |
| Calendar.MonthUnique | src/datagrab/timeutils.py:27-30 | a day of the year falls within only one month |
| Calendar.FromDayNumberOfDayNumber | src/datagrab/timeutils.py:27-30 | converting a valid date to its day number and back gives the same date |
| Calendar.DayNumberInjective | src/datagrab/timeutils.py:27-30 | two valid dates with the same day number are the same date |
| Calendar.DayNumberOrder | src/datagrab/timeutils.py:27-30 | day numbers order dates exactly as calendar order does |
| Calendar.Pad2 | src/datagrab/timeutils.py:27-30 | strftime's %m/%d padding gives two digits whose value is the number |
| Calendar.Pad4 | src/datagrab/timeutils.py:27-30 | strftime's %Y padding gives four digits whose value is the year |
| Calendar.FormatYmd | src/datagrab/timeutils.py:27-30 | "%Y%m%d" gives eight digits |
| Calendar.FormatIso | src/datagrab/timeutils.py:14-18 | the ISO date text is ten characters with '-' at positions 4 and 7 |
| Calendar.ParseYmd | src/datagrab/pipeline/writer.py:55-59 | strptime(..., "%Y%m%d") accepts only texts that denote a valid date |
| Calendar.ParseFormatYmd | src/datagrab/pipeline/writer.py:31-60 | parsing the "%Y%m%d" text of any valid date gives the date back, so file names written by build_path parse again |
| Calendar.ParseIso | src/datagrab/timeutils.py:14-18 | an accepted YYYY-MM-DD text denotes a valid date |
| Calendar.ParseFormatIso | src/datagrab/timeutils.py:14-18 | parsing the ISO text of any valid date gives the date back |
| Frames.KeysCons | src/datagrab/pipeline/writer.py:97 | the datetime keys of a frame with one more row are that row's key plus the others |
| Frames.KeysAppend | src/datagrab/pipeline/writer.py:94-97 | the keys of a concatenation are the union of the keys |
| Frames.LastWith | src/datagrab/pipeline/writer.py:97 | for a key that occurs, the last row with that key is a row of the frame carrying that key |
| Frames.LastWithAppend | src/datagrab/pipeline/writer.py:94-97 | after concatenating, the last row for a key comes from the second frame when that frame has the key, otherwise from the first |
| Frames.UniqueLast | src/datagrab/pipeline/writer.py:97 | unique(subset=["datetime"], keep="last") keeps every key once, and the row kept for a key is the last one with that key |
| Frames.Insert | src/datagrab/pipeline/writer.py:97 | inserting a row adds exactly that row to the multiset of rows |
| Frames.InsertSorted | src/datagrab/pipeline/writer.py:97 | inserting a row with a new key into a strictly sorted frame keeps it strictly sorted |
| Frames.SortByKey | src/datagrab/pipeline/writer.py:97 | sorting by datetime is a permutation of the rows |
| Frames.SortByKeySorted | src/datagrab/pipeline/writer.py:97 | sorting rows with distinct keys gives rows strictly increasing by datetime |
| Frames.UniqueSorted | src/datagrab/pipeline/writer.py:97 | deduplicating and sorting fails exactly when the frame has no "datetime" column, and keeps the columns otherwise |
| Frames.UniqueSortedSpec | src/datagrab/pipeline/writer.py:97 | the result is strictly sorted by datetime, has the same keys as the input, and each row is the last input row with its key |
| Frames.UnionColumns | src/datagrab/pipeline/writer.py:94 | the diagonal concatenation's columns are the union of both column lists, the first frame's columns first |
| Frames.ConcatDiagonal | src/datagrab/pipeline/writer.py:94 | a column of the diagonal concatenation is a column of one of the frames, and every such column is there |
| Frames.ConcatDiagonalRows | src/datagrab/pipeline/writer.py:94 | the rows of the diagonal concatenation are the rows of the frames, in order |
| Frames.SelectRow | src/datagrab/pipeline/writer.py:101 | a selected row keeps exactly the chosen columns it has, with their values |
| Frames.Select | src/datagrab/pipeline/writer.py:101 | select keeps the row count and takes the chosen columns from each row |
| Frames.SelectKeepsKey | src/datagrab/pipeline/writer.py:101 | selecting columns that include "datetime" keeps each row's key |
| Frames.SelectKeepsOrder | src/datagrab/pipeline/writer.py:97-101 | selecting columns after the sort keeps the keys, their order and strict sortedness |
| Writer.BuildPath | src/datagrab/pipeline/writer.py:28-34 | the path lies in data_root/asset_type/symbol, and its name starts with "<interval>_", ends with ".parquet" and is 26 characters longer than the interval |
| Writer.ParseRange | src/datagrab/pipeline/writer.py:50-60 | a parsed range keeps the file's path, and both ends are dates within years 1..9999 |
| Writer.ParseRangeIff | src/datagrab/pipeline/writer.py:50-60 | a name parses exactly when its stem splits on '_' into three parts, the first equal to the interval and the other two "%Y%m%d" dates; the ends are then Beijing midnight of those dates |
| Writer.SplitRangeFileName | src/datagrab/pipeline/writer.py:31-34 | the stem of a built file name splits into the interval and the two path dates |
| Writer.SplitStem | src/datagrab/pipeline/writer.py:51-52 | a stem made of three '_'-free parts splits back into those parts |
| Writer.ParseBuildPath | src/datagrab/pipeline/writer.py:31-60 | for an interval without '_', parsing the name that build_path produced gives that path with the Beijing dates of start and end, so a file this writer wrote is found again |
| Writer.LastLatest | src/datagrab/pipeline/writer.py:47-48 | the candidate picked after sorting by end is one of the candidates and ends no earlier than any other |
| Writer.CandidatesMembers | src/datagrab/pipeline/writer.py:40-44 | the candidates are exactly the parsed ranges of the listed names that match the "<interval>_*.parquet" glob and parse |
| Writer.CandidatesOfListing | src/datagrab/pipeline/writer.py:36-46 | when the listing names exactly the files of the directory, the candidates are exactly the parseable matching files |
| Writer.FindExisting | src/datagrab/pipeline/writer.py:36-48 | the result is none exactly when no matching file parses, and otherwise a parseable matching file whose end is no earlier than any other's |
| Writer.NewestOfListing | src/datagrab/pipeline/writer.py:36-48 | choosing the latest-ending candidate of a complete listing meets the NewestFile description |
| Writer.MaxKey | src/datagrab/pipeline/writer.py:67-70 | the maximum is a datetime that occurs and no row's datetime exceeds it; it is none only when every datetime is null |
| Writer.ReadRangeMax | src/datagrab/pipeline/writer.py:62-78 | a result comes only from an existing Parquet file with a "datetime" column, and it is the largest datetime in it; a missing or unreadable file gives none |
| Writer.IntervalDelta | src/datagrab/pipeline/writer.py:113-132 | the stripped, lower-cased interval splits into a count and a unit; the delta is count times the unit's length, and an unknown unit gives one day; a non-numeric count is an error |
| Writer.IntervalDeltaPositive | src/datagrab/pipeline/writer.py:113-132 | a count of at least 1 gives a positive delta |
| Writer.SuffixSplit | src/datagrab/pipeline/writer.py:113-125 | digits followed by a unit suffix split back into those digits and that unit |
| Writer.IntervalDeltaTable | src/datagrab/pipeline/writer.py:113-132 | "<n>wk", "<n>mo", "<n>y", "<n>d", "<n>h" and "<n>m" give 7n days, 30n days, 365n days, n days, n hours and n minutes |
| Writer.IntervalDeltaNoCount | src/datagrab/pipeline/writer.py:113-132 | a bare unit such as "wk" or "d" counts as 1 |
| Writer.IntervalDeltaOf | src/datagrab/pipeline/writer.py:113-132 | an interval whose normal form splits into a count and a known unit gives count times the unit |
| Writer.NextStart | src/datagrab/pipeline/writer.py:80-82 | the next start is the last datetime plus the interval's delta; it fails when the delta fails or when the sum leaves years 1..9999, as Python's OverflowError does |
| Writer.OutputColumns | src/datagrab/pipeline/writer.py:98-100 | the written columns are the base columns and adjusted_close that the frame has, in schema order, and include "datetime" when the frame has it |
| Writer.MergeFrame | src/datagrab/pipeline/writer.py:92-96 | the rows to merge are the existing rows followed by the new ones, and "datetime" is a column when either frame has it |
| Writer.MergedTable | src/datagrab/pipeline/writer.py:92-101 | the merge fails exactly when the concatenation has no "datetime" column; otherwise its columns are the output columns |
| Writer.MergedTableSpec | src/datagrab/pipeline/writer.py:92-101 | the merged table is strictly sorted by datetime, has every datetime of either input, and each row is the last input row with that datetime, cut to the output columns |
| Writer.MergedTableNewWins | src/datagrab/pipeline/writer.py:92-101 | for a datetime present in the new frame, the merged row comes from the new frame, not from the existing file |
| Writer.MergeEndState | src/datagrab/pipeline/writer.py:107-111 | after a merge the output holds the merged data, the temporary file is gone, the old file is gone when it was another path, and nothing else changes |
| Writer.MergeAndWrite | src/datagrab/pipeline/writer.py:84-111 | an unreadable existing file or a frame without "datetime" fails with nothing written; otherwise the temporary file is written first, the end state is MergeEndState, and every intermediate state keeps the merged data in the output or the temporary file |
| Writer.ReplaceWithMerged | src/datagrab/pipeline/writer.py:107-111 | the temporary file is written first; the rename fails only when the old file was the temporary file itself; on success the end state is MergeEndState and every intermediate state is recoverable |
| Writer.EndStateOfSteps | src/datagrab/pipeline/writer.py:107-111 | writing the temporary file, removing the old file and renaming the temporary file compose to MergeEndState |
| Downloader.FormatFailureReason | src/datagrab/pipeline/downloader.py:51-60 | an empty message gives the exception name; a message already starting with "<name>:" is kept; otherwise the reason is "<name>: " followed by the stripped message |
| Downloader.FormatFailureReasonStable | src/datagrab/pipeline/downloader.py:51-60 | a formatted reason starts with "<name>:", and formatting it again as the message of the same exception type leaves it unchanged, so the name is never doubled |
| Downloader.FormatOfPrefixed | src/datagrab/pipeline/downloader.py:57-59 | a stripped message that already starts with "<name>:" is returned as it is |
| Downloader.TasksFor | src/datagrab/pipeline/downloader.py:104-126 | one task per interval for a symbol, in interval order, all sharing range, asset type and adjust |
| Downloader.GridLength | src/datagrab/pipeline/downloader.py:104-126 | build_tasks makes one task per symbol and interval |
| Downloader.GridAt | src/datagrab/pipeline/downloader.py:104-126 | the task at position a·\|intervals\| + b is the one for symbol a and interval b, so tasks are grouped by symbol, intervals in order |
| Downloader.TasksForSnoc | src/datagrab/pipeline/downloader.py:104-126 | the tasks of one more interval are the earlier tasks followed by that interval's task |
| Downloader.GridSnoc | src/datagrab/pipeline/downloader.py:104-126 | the grid of one more symbol is the earlier grid followed by that symbol's tasks |
| Downloader.BuildTasks | src/datagrab/pipeline/downloader.py:104-126 | the nested loop produces exactly the symbol-major grid of tasks |
| Downloader.LastChunkStart | src/datagrab/pipeline/downloader.py:262-268 | the last chunk starts within the range and no more than one step before its end |
| Downloader.ChunkListOkIff | src/datagrab/pipeline/downloader.py:262-268 | splitting fails, with Overflow, exactly when the last chunk's start plus batch_days leaves years 1..9999, as `current + timedelta(days=batch_days)` raises OverflowError before the min |
| Downloader.ChunkListSpec | src/datagrab/pipeline/downloader.py:262-268 | the chunks are empty exactly when start >= end; otherwise they begin at start, end at end, are contiguous and non-empty, and each is at most batch_days long |
| Downloader.SplitRange | src/datagrab/pipeline/downloader.py:262-268 | the generator loop yields exactly ChunkList's chunks, or the overflow error |
| Downloader.ChunkListCovers | src/datagrab/pipeline/downloader.py:262-268 | every instant in [start, end) lies in exactly the chunks' union, and no other instant does |
| Downloader.ChunksCover | src/datagrab/pipeline/downloader.py:262-268 | contiguous non-empty chunks from start to end cover exactly [start, end) |
| Downloader.Collect | src/datagrab/pipeline/downloader.py:246-256 | only non-empty provider frames are collected |
| Downloader.Combine | src/datagrab/pipeline/downloader.py:257-258 | no frames give the empty frame |
| Downloader.CollectStep | src/datagrab/pipeline/downloader.py:246-256 | a provider error for a chunk is the result of the whole fetch; otherwise a non-empty answer is kept and the remaining chunks follow |
| Downloader.FetchResult | src/datagrab/pipeline/downloader.py:243-260 | a fetch succeeds only for a range inside years 1..9999 |
| Downloader.FetchResultSpec | src/datagrab/pipeline/downloader.py:243-260 | a fetched frame is strictly sorted by datetime, holds every datetime of the chunk answers, and keeps the last answer's row for each datetime |
| Downloader.FetchChunks | src/datagrab/pipeline/downloader.py:246-256 | the loop over chunks collects what Collect describes |
| Downloader.FetchRange | src/datagrab/pipeline/downloader.py:243-260 | the method computes FetchResult: the split, the per-chunk fetches, the concatenation, the deduplication and the sort |
| Downloader.PlanTask | src/datagrab/pipeline/downloader.py:218-239 | without a stored file the fetch starts at the task's start; a file starting no later than the task whose data reaches the task's end is skipped; one with data fetches from the next interval after its maximum; the stored range starts at the earlier start; PlanSkipIff, PlanFetchFrom and PlanIncrementalAfterMax prove these |
| Downloader.PlanSkipIff | src/datagrab/pipeline/downloader.py:218-227 | a task is skipped exactly when the newest file starts no later than the task and its latest datetime reaches the task's end |
| Downloader.PlanFetchFrom | src/datagrab/pipeline/downloader.py:218-239 | a fetch starts one interval after the stored maximum when the file starts no later than the task and has data, else at the task's start; the stored range starts at the earlier of the file's and the task's starts and replaces that file |
| Downloader.PlanIncrementalAfterMax | src/datagrab/pipeline/downloader.py:228-229 | an incremental fetch with a positive interval starts strictly after the latest stored datetime |
| Downloader.ParquetIsNotTmp | src/datagrab/pipeline/downloader.py:233-240 | a stored ".parquet" file is never the temporary file of an output |
| Downloader.RunTask | src/datagrab/pipeline/downloader.py:212-241 | the file found is the newest candidate, and the task ends as TaskOutcome says: plan error, skip, fetch error, empty, or the merged file written over the stored range, with the files unchanged in every case but the last |
| Downloader.OnlyWrittenChangesFiles | src/datagrab/pipeline/downloader.py:212-241 | any task outcome other than "ok" leaves the files unchanged |
| Downloader.LedgerRow | src/datagrab/pipeline/downloader.py:279-291 | a ledger row carries the task's symbol, interval, start, end, asset type and adjust under their column names |
| Downloader.LedgerRecords | src/datagrab/pipeline/downloader.py:279-291 | there is one ledger record per failure, in order |
| Downloader.WriteFailures | src/datagrab/pipeline/downloader.py:270-292 | the ledger file holds the header and one row per failure, written atomically, and nothing else in the tree changes |
| Downloader.YearBefore | src/datagrab/pipeline/downloader.py:303 | the default start is exactly 365 days before now, and it fails only when that is before year 1 |
| Downloader.DateCell | src/datagrab/pipeline/downloader.py:301-304 | a date cell parses, or falls back to its default when blank, to an aware datetime |
| Downloader.LoadedTask | src/datagrab/pipeline/downloader.py:300-314 | a row loads exactly when both date cells parse and symbol and interval are present; the task then takes those values, asset_type defaulting to "stock" and adjust to "auto" |
| Downloader.LoadAll | src/datagrab/pipeline/downloader.py:294-315 | loading keeps one task per row, in order, or fails at the first bad row |
| Downloader.LoadedTasks | src/datagrab/pipeline/downloader.py:294-315 | a missing ledger gives no tasks, and loaded tasks are valid |
| Downloader.LoadFailures | src/datagrab/pipeline/downloader.py:294-315 | the method computes LoadedTasks on the current files |
| Downloader.DateCellOfIso | src/datagrab/pipeline/downloader.py:301-304 | a cell holding the ISO text of a date loads as Beijing midnight of that date |
| Downloader.LoadedTaskOf | src/datagrab/pipeline/downloader.py:300-314 | a row with parsing date cells loads as the task built from its cells |
| Downloader.LedgerRecordReloads | src/datagrab/pipeline/downloader.py:270-315 | a failure written to the ledger loads back as a task with the same symbol, interval, asset type, adjust and the Beijing dates of its range |
| Downloader.LedgerRoundTrip | src/datagrab/pipeline/downloader.py:270-315 | loading the records of written failures always succeeds and gives back each failure's task, date-truncated |
| Downloader.LastN | src/datagrab/pipeline/downloader.py:186-187 | the kept failures are the last n of the list, all of them when there are fewer |
| Downloader.LastNAppend | src/datagrab/pipeline/downloader.py:184-187 | trimming after every append keeps the same list as trimming once at the end |
| Downloader.DownloadStats.constructor | src/datagrab/pipeline/downloader.py:38-45 | new statistics hold the total and zero for every counter |
| Downloader.DownloadStats.Finish | src/datagrab/pipeline/downloader.py:160-194 | a finished task adds one to completed, one to skipped only when it was skipped, appends the failure when it failed, and keeps failed equal to the number of failures and the recent list equal to their last 20 |
| Downloader.DownloadStats.AddFailure | src/datagrab/pipeline/downloader.py:180-187 | a failure adds one to failed and the recent list becomes the last 20 failures |
| Downloader.Failed | src/datagrab/pipeline/downloader.py:165-183 | a task contributes one failure record exactly when it raised, with the formatted reason |
| Downloader.Worker | src/datagrab/pipeline/downloader.py:146-194 | one worker run performs RunTask's step, appends its failure when it failed, and updates the counters consistently |
| Downloader.FailuresOf | src/datagrab/pipeline/downloader.py:128-210 | there are no more failures than tasks |
| Downloader.TasksOf | src/datagrab/pipeline/downloader.py:128-210 | the failures' tasks, in order |
| Downloader.CountSkipped | src/datagrab/pipeline/downloader.py:163-164 | no more tasks are skipped than run |
| Downloader.FailuresOfSnoc | src/datagrab/pipeline/downloader.py:128-210 | one more task adds its failure, if any, at the end, and its skip to the count |
| Downloader.FailuresOfSubseq | src/datagrab/pipeline/downloader.py:128-210 | the failed tasks are a subsequence of the tasks run, in order |
| Downloader.FailuresOfBound | src/datagrab/pipeline/downloader.py:128-210 | failures plus skips never exceed the number of tasks |
| Downloader.FailuresOfNone | src/datagrab/pipeline/downloader.py:208-210 | there are no failures exactly when every task ended without an exception |
| Downloader.RunStepsSnoc | src/datagrab/pipeline/downloader.py:201-206 | appending one task step that starts in the last state extends the run |
| Downloader.RunOne | src/datagrab/pipeline/downloader.py:146-194 | running one more task extends the run, its failures and its counters in step |
| Downloader.RunAll | src/datagrab/pipeline/downloader.py:196-206 | running the tasks in order performs one task step each, from the start state to the current files, with failures and counters matching the steps |
| Downloader.RunTasks | src/datagrab/pipeline/downloader.py:196-210 | after all tasks, completed equals the task count; with no failures the files are the run's final state, and with failures the ledger is written atomically on top of it |
| Downloader.Run | src/datagrab/pipeline/downloader.py:128-210 | with only_failures the ledger's tasks are run, and a bad ledger fails with nothing changed; otherwise the given tasks run; the result is the failure list, the counters match, and the ledger is written exactly when something failed |
| Downloader.FailuresValid | src/datagrab/pipeline/downloader.py:128-210 | failures of valid tasks are valid ledger entries |
| Validate.CountRows | src/datagrab/storage/validate.py:128-160 | a row count is at most the number of rows, and it is 0 exactly when no row satisfies the condition |
| Validate.NumericColumns | src/datagrab/storage/validate.py:125-126 | the numeric columns checked for negatives are exactly open, high, low, close and volume among the file's columns |
| Validate.DistinctKeys | src/datagrab/storage/validate.py:134 | there are at most as many distinct datetimes as rows, and as many exactly when no two rows share one |
| Validate.DuplicateCount | src/datagrab/storage/validate.py:181-193 | the duplicate count is 0 exactly when no two rows share a datetime |
| Validate.MinKey | src/datagrab/storage/validate.py:132 | the minimum is a datetime that occurs and no row's datetime is below it; it is none only when every datetime is null |
| Validate.Datetimes | src/datagrab/storage/validate.py:135 | the set of non-null datetimes of the rows |
| Validate.Below | src/datagrab/storage/validate.py:135 | the predecessor of a datetime is the largest datetime below it, when there is one |
| Validate.WidestStep | src/datagrab/storage/validate.py:135 | the widest step is at least every step from a datetime to its predecessor, and is one of them unless 0 |
| Validate.MaxGap | src/datagrab/storage/validate.py:135 | the largest gap between successive datetimes is never negative |
| Validate.MaxGapWitness | src/datagrab/storage/validate.py:195-208 | a largest gap above a threshold comes from two successive datetimes that far apart |
| Validate.MaxGapCovers | src/datagrab/storage/validate.py:195-208 | every step between successive datetimes is at most the largest gap |
| Validate.MaxGapExceeds | src/datagrab/storage/validate.py:195-208 | the largest gap exceeds a threshold exactly when some two successive datetimes are further apart than it |
| Validate.InferContext | src/datagrab/storage/validate.py:568-581 | the symbol is the parent directory, the asset type the one above, and the interval the file name's text before the first '_', present exactly when the name has a '_' |
| Validate.BeforeFirstPrefix | src/datagrab/storage/validate.py:578-580 | the text before the first occurrence of a character does not hold it, and the name starts with that text and the character |
| Validate.GapThreshold | src/datagrab/storage/validate.py:584-597 | a gap threshold, when there is one, is positive |
| Validate.GapThresholdOfKey | src/datagrab/storage/validate.py:584-597 | a normal interval key with a known unit gets that unit's threshold |
| Validate.GapThresholdOfInterval | src/datagrab/storage/validate.py:584-597 | "<n>m", "<n>h", "<n>d", "<n>wk", "<n>mo" and "<n>y" get their unit's threshold whatever the count |
| Validate.NewIssue | src/datagrab/storage/validate.py:77 | an issue carries its rule, severity, the file's path and the context inferred from the path |
| Validate.Absent | src/datagrab/storage/validate.py:97 | the missing columns are exactly the listed columns the file lacks |
| Validate.MissingIssues | src/datagrab/storage/validate.py:98-119 | one issue per missing column |
| Validate.MissingIssuesSnoc | src/datagrab/storage/validate.py:98-119 | checking one more column adds its issue exactly when the column is missing |
| Validate.MissingIssueInjective | src/datagrab/storage/validate.py:98-119 | two missing-column issues are equal only for the same column |
| Validate.MissingIssuesMember | src/datagrab/storage/validate.py:98-119 | a column's missing issue is reported exactly when the column is listed and absent |
| Validate.SchemaIssuesSpec | src/datagrab/storage/validate.py:96-119 | every base column gets a missing issue exactly when absent; the errors are exactly the missing datetime and close columns |
| Validate.AllSeverity | src/datagrab/storage/quality.py:43-48 | issues that all have one severity count fully for it and not at all for the other |
| Validate.DuplicateIssues | src/datagrab/storage/validate.py:181-193 | at most one WARN "datetime.duplicated", present exactly when two rows share a datetime |
| Validate.GapIssues | src/datagrab/storage/validate.py:194-208 | at most one WARN "datetime.gap_too_large", present exactly when the interval has a threshold and two successive datetimes are further apart |
| Validate.NullCloseIssues | src/datagrab/storage/validate.py:210-222 | at most one WARN "close.has_nulls", present exactly when some row's close is null |
| Validate.InvalidOhlcIssues | src/datagrab/storage/validate.py:224-237 | at most one WARN "ohlc.invalid_range", present exactly when some row has high < low, close < low or close > high |
| Validate.NegativeIssues | src/datagrab/storage/validate.py:239-252 | at most one WARN "values.negative", present exactly when some row has a negative price or volume |
| Validate.EmptySummary | src/datagrab/storage/validate.py:379-399 | an unread file's summary has zero rows, every base column missing, and no statistics |
| Validate.ReadError | src/datagrab/storage/validate.py:80-94 | reading fails exactly when the path holds no Parquet file |
| Validate.ReadFailedSpec | src/datagrab/storage/validate.py:80-94 | an unreadable file gives exactly one ERROR "parquet.read_failed" and the empty summary |
| Validate.DataIssuesWarn | src/datagrab/storage/validate.py:170-252 | the data checks raise no ERROR |
| Validate.AllWarnAppend | src/datagrab/storage/validate.py:170-252 | two lists of warnings joined are warnings |
| Validate.DatetimeIssuesWarn | src/datagrab/storage/validate.py:181-208 | the datetime checks raise only warnings |
| Validate.ValueIssuesWarn | src/datagrab/storage/validate.py:210-252 | the value checks raise only warnings |
| Validate.ErrorsAreMissingKeys | src/datagrab/storage/validate.py:68-278 | for a readable file, the ERROR count is the number of missing key columns among datetime and close |
| Validate.NoErrorsIff | src/datagrab/storage/validate.py:68-278 | a file has no ERROR exactly when it is readable and has both datetime and close |
| Validate.FallbackAgrees | src/datagrab/storage/validate.py:402-554 | when none of the fallback's queries fails, the fallback path gives the same summary and issues as the fused path |
| Validate.AppendMissing | src/datagrab/storage/validate.py:98-119 | the loop appends the missing-column issues in column order |
| Validate.CheckDatetime | src/datagrab/storage/validate.py:181-208 | the method computes the datetime statistics and appends the datetime issues |
| Validate.CheckValues | src/datagrab/storage/validate.py:210-252 | the method computes the value statistics and appends the value issues |
| Validate.CheckData | src/datagrab/storage/validate.py:170-278 | the method computes the data summary and appends the data issues |
| Validate.ValidateParquetFile | src/datagrab/storage/validate.py:68-278 | the method computes Validation: the read, the schema checks and the fused or fallback data checks |
| Validate.CheckTable | src/datagrab/storage/validate.py:96-278 | a readable file's issues are its schema issues followed by its data issues |
| Validate.CheckSchema | src/datagrab/storage/validate.py:96-119 | the method computes the schema issues |
| Validate.MaxWorkers | src/datagrab/storage/validate.py:304-307 | the worker count is at least 1; a requested count is kept, raised to 1; otherwise it is at most the file count and 32 |
| Validate.BatchIssuesSnoc | src/datagrab/storage/validate.py:318-325 | one more file adds its issues at the end |
| Validate.BatchSummariesSnoc | src/datagrab/storage/validate.py:318-320 | one more file adds its summary at the end |
| Validate.AllCleanSnoc | src/datagrab/storage/validate.py:318-325 | a batch is clean exactly when its earlier files are and the last file is |
| Validate.BatchErrorsIff | src/datagrab/storage/validate.py:281-329 | a batch has no ERROR exactly when every file is readable and has datetime and close |
| Validate.WriteEach | src/datagrab/storage/validate.py:323-325 | the issue writer receives the issues in order |
| Validate.BatchStep | src/datagrab/storage/validate.py:318-328 | one more file keeps summaries, issues, written issues and progress reports equal to those of the files so far |
| Validate.ProgressSnoc | src/datagrab/storage/validate.py:326-328 | one more progress report keeps report k at completed = k + 1 with file k's name |
| Validate.ValidateBatch | src/datagrab/storage/validate.py:281-329 | one summary per file in order; the issues are returned when no writer is given and written otherwise, in file order; progress k reports k + 1 of total with file k's name |
| Failures.NotEmpty | src/datagrab/validation/failures.py:32-38 | symbol and interval are accepted exactly when not all whitespace, and the value kept is non-empty and stripped |
| Failures.NotEmptySpec | src/datagrab/validation/failures.py:32-38 | the value kept is the stripped input, and validating it again keeps it |
| Failures.NormalizeDatetime | src/datagrab/validation/failures.py:40-45 | a missing or empty start/end becomes none; any other value is stripped |
| Failures.NormalizeAdjust | src/datagrab/validation/failures.py:47-53 | an empty adjust becomes "auto"; otherwise the stripped, lower-cased value is accepted exactly when it is one of the six choices |
| Failures.AutoNormal | src/datagrab/validation/failures.py:50 | the default "auto" is already in normal form |
| Failures.NormalizeAdjustIdempotent | src/datagrab/validation/failures.py:47-53 | normalising an accepted adjust again gives the same value |
| Failures.AdjustChoiceNotBlank | src/datagrab/validation/failures.py:51 | no adjust choice is empty |
| Failures.FieldErrorsSpec | src/datagrab/validation/failures.py:17-55 | a row has no field error exactly when it meets every field rule of the model |
| Failures.ModelValidate | src/datagrab/validation/failures.py:17-55 | model_validate succeeds exactly on rows meeting the field rules, giving the stripped symbol and interval, the normalised dates and adjust, and asset_type defaulting to "stock"; otherwise a ValidationError |
| Failures.FailureDefaultInterval | src/datagrab/validation/failures.py:66-67 | the default range ends now and starts exactly 365 days earlier, and fails only before year 2 |
| Failures.OffsetText | src/datagrab/validation/failures.py:140 | isoformat's offset suffix has the form "+HH:MM" or "+HH:MM:SS" |
| Failures.IsoFormat | src/datagrab/validation/failures.py:140 | isoformat of an aware datetime starts with its ISO date followed by 'T' |
| Failures.FailureDatetime | src/datagrab/validation/failures.py:129-144 | a date that parse_date accepts is returned with no warning; otherwise strict mode raises ValidationFailureRecordError and lenient mode returns the fallback with one warning naming the row |
| Failures.DateOr | src/datagrab/validation/failures.py:87-106 | the date of a record, or its default, is aware and representable |
| Failures.DateField | src/datagrab/validation/failures.py:89-106 | a blank or parsing date gives its value without warning; a bad one raises in strict mode and falls back with a warning otherwise |
| Failures.CheckRecord | src/datagrab/validation/failures.py:86-125 | a record that passes always yields a task |
| Failures.CheckRecordSpec | src/datagrab/validation/failures.py:86-125 | a clean record yields its task with no warning; an unclean one raises in strict mode with a message naming the row, and gives warnings in lenient mode; every task has start <= end |
| Failures.MakeTaskGood | src/datagrab/validation/failures.py:116-125 | a task built from a good record and an ordered pair of dates is good |
| Failures.CheckRowSpec | src/datagrab/validation/failures.py:77-125 | a clean row gives its task with no warning; strict mode raises on the first problem; lenient mode warns, and yields a task exactly when the model validates |
| Failures.ValidateRows | src/datagrab/validation/failures.py:70-126 | there are never more tasks than rows |
| Failures.ErrorStops | src/datagrab/validation/failures.py:82-83 | once a prefix of rows raises, the whole call raises the same error |
| Failures.ValidateRow | src/datagrab/validation/failures.py:77-125 | the method computes CheckRow for one row |
| Failures.ValidateRecord | src/datagrab/validation/failures.py:86-125 | the method computes CheckRecord for one validated record |
| Failures.ValidateFailureRows | src/datagrab/validation/failures.py:70-126 | with the default range from now, the loop computes ValidateRows, numbering rows from 2 |
| Failures.ValidateRowsOk | src/datagrab/validation/failures.py:77-125 | a successful result is the result for the earlier rows extended by the last row's task and warnings |
| Failures.LenientNeverRaises | src/datagrab/validation/failures.py:80-85 | lenient mode never raises |
| Failures.TasksGood | src/datagrab/validation/failures.py:70-126 | every returned task has non-empty symbol and interval, a valid adjust and start <= end |
| Failures.FirstBad | src/datagrab/validation/failures.py:77-125 | the first unclean row's position is at most the row count |
| Failures.FirstBadSpec | src/datagrab/validation/failures.py:77-125 | every row before it is clean, and the row there, if any, is not |
| Failures.CleanTasks | src/datagrab/validation/failures.py:116-125 | clean rows give one task each |
| Failures.CleanTasksAt | src/datagrab/validation/failures.py:116-125 | task k is row k's task |
| Failures.CleanRowsInOrder | src/datagrab/validation/failures.py:70-126 | rows that are all clean give one task per row, in order, and no warning, in either mode |
| Failures.CheckRowGood | src/datagrab/validation/failures.py:116-125 | every task a row yields is good |
| Failures.CheckRowClean | src/datagrab/validation/failures.py:77-125 | a clean row yields its task with no warning |
| Failures.StrictFailsAtFirstBadRow | src/datagrab/validation/failures.py:81-83 | strict mode succeeds exactly when every row is clean, and otherwise raises naming the first unclean row's number |
| Failures.ValidRecords | src/datagrab/validation/failures.py:77-85 | the number of rows the model accepts is at most the row count |
| Failures.LenientCounts | src/datagrab/validation/failures.py:77-126 | lenient mode returns one task per row the model accepts, and no warnings exactly when every row is clean |
| Failures.BlankDatesDefault | src/datagrab/validation/failures.py:87-88 | a row with neither start nor end gets the default range |
| Failures.WithDefaults | src/datagrab/validation/failures.py:156-158 | a written row keeps every given key and gains version "1" and created_at now only where they are missing |
| Failures.WithDefaultsIdempotent | src/datagrab/validation/failures.py:156-158 | defaulting a row twice changes nothing the second time |
| Failures.WrittenCount | src/datagrab/validation/failures.py:152-159 | rows are written up to, not including, the first row with a key outside the header |
| Failures.Defaulted | src/datagrab/validation/failures.py:155-158 | each written row is its input with the defaults |
| Failures.WrittenCountAt | src/datagrab/validation/failures.py:152-159 | the first row with an extra key is where writing stops |
| Failures.ExtraKeyDefaults | src/datagrab/validation/failures.py:156-158 | the defaults add no key outside the header |
| Failures.NoExtraKeySnoc | src/datagrab/validation/failures.py:155-159 | one more row without an extra key extends the run of written rows |
| Failures.DefaultedSnoc | src/datagrab/validation/failures.py:155-158 | one more row adds its defaulted form at the end |
| Failures.WriteFailuresRows | src/datagrab/validation/failures.py:147-159 | the file holds the header and the defaulted rows before the first row with an extra key; DictWriter's ValueError is returned exactly when such a row exists |
| Catalog.ClassifySplit | src/datagrab/pipeline/catalog.py:111-136 | the prefix-and-number branching gives the exchange and board of the reference table CodeBoard: sh → SSE (688 STAR, 900 B, else MAIN), sz → SZSE (300 CHINEXT, 200 B, else MAIN), bj → BSE/BSE, anything else none |
| Catalog.SplitMatchesBoard | src/datagrab/pipeline/catalog.py:111-114 | the prefix is "sh", "sz" or "bj" exactly when the code starts with it and a dot, and the number is then the rest |
| Catalog.ClassifyAshareCode | src/datagrab/pipeline/catalog.py:109-136 | classify_ashare_code is the board table applied to the stripped, lower-cased code |
| Catalog.ClassifyAshareCodeCaseInsensitive | src/datagrab/pipeline/catalog.py:110 | the classification ignores letter case and surrounding whitespace |
| Catalog.OrCategory | src/datagrab/pipeline/catalog.py:180-186 | `fund_category or X` keeps a category that is set and otherwise gives X |
| Catalog.TypeCategory | src/datagrab/pipeline/catalog.py:145-156 | a category from the type field is one of the fund categories |
| Catalog.TypeFlags | src/datagrab/pipeline/catalog.py:145-156 | the type field alone never marks a security as an ETF or fund |
| Catalog.NameCategory | src/datagrab/pipeline/catalog.py:158-176 | the name rules give a fund category or keep the type's |
| Catalog.CodeCategory | src/datagrab/pipeline/catalog.py:178-186 | the code rules never override a category already set, and otherwise give a fund category or none |
| Catalog.ClassifyAshareSecurity | src/datagrab/pipeline/catalog.py:139-191 | a security with a fund category is a fund, and an ETF exactly when the category is "ETF"; without a category the type's flags are kept and never mark it a fund |
| Catalog.SecurityCategory | src/datagrab/pipeline/catalog.py:145-186 | the category chosen is one of the fund categories |
| Catalog.SecurityFlags | src/datagrab/pipeline/catalog.py:188-191 | the flags follow the category: set marks a fund and ETF only for "ETF"; unset leaves the type's flags |
| Catalog.EtfLinkName | src/datagrab/pipeline/catalog.py:164-165 | a name with "ETF" and "联接" is a feeder fund "ETF_LINK", a fund but not an ETF |
| Catalog.NameEtfLink | src/datagrab/pipeline/catalog.py:164-165 | the name rules give "ETF_LINK" for such a name |
| Catalog.EtfByCode | src/datagrab/pipeline/catalog.py:183-186 | an "sh.51" code with no name or type is an ETF |
| Catalog.NoTypeNoName | src/datagrab/pipeline/catalog.py:145-176 | an empty type and an empty name set no category and no flags |
| Catalog.EtfCodeCategory | src/datagrab/pipeline/catalog.py:183-186 | the code rules give "ETF" for "sh.51" codes |
| Catalog.NormalizeExchange | src/datagrab/pipeline/catalog.py:194-200 | blank gives ""; a stripped alias gives its code; anything else is upper-cased |
| Catalog.NormalizeMarket | src/datagrab/pipeline/catalog.py:203-210 | blank gives ""; the lower-cased alias gives its code; anything else is upper-cased |
| Catalog.NormalizeFundCategory | src/datagrab/pipeline/catalog.py:213-220 | blank gives ""; the stripped alias, then the upper-cased alias, gives its code; anything else is upper-cased |
| Catalog.ExchangeCodesFixed | src/datagrab/pipeline/catalog.py:194-200 | exchange codes normalise to themselves |
| Catalog.NormalizeExchangeIdempotent | src/datagrab/pipeline/catalog.py:194-200 | normalising an exchange twice is the same as once |
| Catalog.ExchangeUpperStable | src/datagrab/pipeline/catalog.py:194-200 | an upper-cased unknown exchange stays unchanged |
| Catalog.MarketCodesFixed | src/datagrab/pipeline/catalog.py:203-210 | market codes normalise to themselves |
| Catalog.NormalizeMarketIdempotent | src/datagrab/pipeline/catalog.py:203-210 | normalising a market twice is the same as once |
| Catalog.FundCategoriesFixed | src/datagrab/pipeline/catalog.py:213-220 | every fund category the classifier assigns normalises to itself |
| Catalog.FundCodeFixed | src/datagrab/pipeline/catalog.py:213-220 | a plain upper-case code that is not an alias of another code normalises to itself |
| Catalog.NormalizeFundCategoryIdempotent | src/datagrab/pipeline/catalog.py:213-220 | normalising a fund category twice is the same as once |
| Catalog.AliasOf | src/datagrab/pipeline/catalog.py:223-238 | an alias exists exactly for a non-empty value whose upper case is a code of the table, and is that code's entry |
| Catalog.ExchangeTables | src/datagrab/pipeline/catalog.py:29-72 | every exchange code's display alias maps back to that code |
| Catalog.MarketAliasBack | src/datagrab/pipeline/catalog.py:40-65 | every market code's display alias but that of "B" maps back to the code |
| Catalog.FundAliasBack | src/datagrab/pipeline/catalog.py:74-106 | every fund code's display alias but those of "REIT" and "GRADED" maps back to the code |
| Catalog.FundKeys | src/datagrab/pipeline/catalog.py:74-106 | "REITs" is not an alias key but its upper case is, mapping to "REIT"; "分级基金" is not a key |
| Catalog.ReitsNormal | src/datagrab/pipeline/catalog.py:213-220 | the display alias "REITs" normalises to "REIT" through the upper-case lookup |
| Catalog.GradedNormal | src/datagrab/pipeline/catalog.py:213-220 | the display alias "分级基金" normalises to itself, not to "GRADED" |
| Catalog.ExchangeAlias | src/datagrab/pipeline/catalog.py:229-232 | a blank exchange has no alias, any other gets the display name of its upper case, when that is a code; ExchangeAliasRoundTrip proves every code has one that normalises back |
| Catalog.MarketAlias | src/datagrab/pipeline/catalog.py:223-226 | a blank market has no alias, any other gets the display name of its upper case, when that is a code; MarketAliasRoundTrip proves every code has one that normalises back |
| Catalog.FundCategoryAlias | src/datagrab/pipeline/catalog.py:235-238 | a blank fund category has no alias, any other gets the display name of its upper case, when that is a code; FundCategoryAliasRoundTrip proves every code but "GRADED" has one that normalises back |
| Catalog.ExchangeAliasRoundTrip | src/datagrab/pipeline/catalog.py:194-232 | every exchange code has its display alias, and normalising that alias gives the code back |
| Catalog.MarketAliasRoundTrip | src/datagrab/pipeline/catalog.py:203-226 | every market code has its display alias, and normalising that alias gives the code back, "B" included through the lower-case lookup |
| Catalog.MarketAliasOfB | src/datagrab/pipeline/catalog.py:203-210 | "B股" normalises to "B" |
| Catalog.FundCategoryAliasRoundTrip | src/datagrab/pipeline/catalog.py:213-238 | every fund code has its display alias, and normalising the alias gives the code back exactly when the code is not "GRADED" |
| Catalog.UpperPrefixes | src/datagrab/pipeline/catalog.py:439-440 | the prefix list holds the upper case of each non-empty prefix |
| Catalog.NormSet | src/datagrab/pipeline/catalog.py:441-452 | the set holds the normal form of each non-empty value and nothing else |
| Catalog.Matches | src/datagrab/pipeline/catalog.py:454-522 | an item passes `match` when its symbol lists, categories, regular expressions and ETF/fund flags all pass; Filtered, ExcludedSymbolDropped, IncludedSymbolRequired and FlagRules prove the rules, and ApplyFilters filters with it |
| Catalog.Filtered | src/datagrab/pipeline/catalog.py:524-527 | the result is a subsequence of the items in which every item passes the filters; without a limit every passing item is kept, and with one at most max(0, limit) |
| Catalog.FilteredLimit | src/datagrab/pipeline/catalog.py:524-527 | a limit keeps the first max(0, limit) passing items |
| Catalog.ExcludedSymbolDropped | src/datagrab/pipeline/catalog.py:466-467 | an item whose symbol matches an excluded symbol, ignoring case, is dropped |
| Catalog.IncludedSymbolRequired | src/datagrab/pipeline/catalog.py:464-465 | with an include-symbol list, a kept item's symbol matches one of its symbols, ignoring case |
| Catalog.FlagRules | src/datagrab/pipeline/catalog.py:510-521 | only_etf/only_fund set to false drop ETFs/funds; both true keep ETFs or funds; one true keeps only that kind |
| Catalog.CompilePatterns | src/datagrab/pipeline/catalog.py:529-536 | the compiled patterns are those that compile, in order; the others are skipped |
| Catalog.ApplyFilters | src/datagrab/pipeline/catalog.py:432-527 | the method computes Filtered with the compiled patterns and normalised sets |
| Catalog.SymbolsSnoc | src/datagrab/pipeline/catalog.py:293-295 | the symbols of one more item add that item's symbol |
| Catalog.FirstWithSnoc | src/datagrab/pipeline/catalog.py:293-295 | the first item with a symbol stays first when more items follow |
| Catalog.FirstWithAbsent | src/datagrab/pipeline/catalog.py:293-295 | a symbol that does not occur has no first item |
| Catalog.FirstBySymbolKeeps | src/datagrab/pipeline/catalog.py:293-296 | de-duplication keeps a subsequence with every symbol of the input |
| Catalog.FirstBySymbolDistinct | src/datagrab/pipeline/catalog.py:293-296 | no two kept items share a symbol |
| Catalog.FirstBySymbolFirst | src/datagrab/pipeline/catalog.py:293-296 | the item kept for each symbol is its first occurrence |
| Catalog.DedupBySymbol | src/datagrab/pipeline/catalog.py:293-296 | the dictionary loop computes FirstBySymbol, in first-insertion order |
| Catalog.StaticCatalog | src/datagrab/pipeline/catalog.py:406-430 | the method builds the preset items for the asset type |
| Catalog.StaticCatalogShape | src/datagrab/pipeline/catalog.py:406-430 | crypto, forex and commodity have four presets each with the asset type and a name; any other asset type has none; no two presets share a symbol |
| Catalog.Attempt | src/datagrab/pipeline/catalog.py:273-279 | attempt j gives the de-duplicated stock download, the ashare download, or the presets of any other asset type; RunAttempt computes it and StaticFetchFirstAttempt proves presets never fail |
| Catalog.FirstSuccess | src/datagrab/pipeline/catalog.py:270-283 | the first successful attempt among those left, or none; FetchWithRetry proves the retry loop returns it, and none exactly when every attempt fails |
| Catalog.RunAttempt | src/datagrab/pipeline/catalog.py:273-279 | one attempt gives the stock catalog de-duplicated, the ashare download, or the presets |
| Catalog.FetchWithRetry | src/datagrab/pipeline/catalog.py:270-283 | the result is the first successful attempt among retries + 1; there is none exactly when all fail; one sleep precedes each retry after a failure, the j-th lasting sleep_sec·retry_backoff^j |
| Catalog.RetryDelayClosedForm | src/datagrab/pipeline/catalog.py:271-281 | the delay multiplied after each failure is sleep_sec times retry_backoff to the number of earlier failures |
| Catalog.RetryDelaysGrow | src/datagrab/pipeline/catalog.py:271-281 | with sleep_sec >= 0 and retry_backoff >= 1 the delays are non-negative and never shrink |
| Catalog.StaticFetchFirstAttempt | src/datagrab/pipeline/catalog.py:276-279 | asset types other than stock and ashare succeed on the first attempt with their presets |
| Catalog.FlagRoundTrip | src/datagrab/pipeline/catalog.py:551-564 | an is_etf/is_fund flag written as "Y", "N" or "" reads back as itself |
| Catalog.DecodeFlagSpec | src/datagrab/pipeline/catalog.py:551-564 | a flag reads as true exactly for "Y" or "y" and as false exactly for "N" or "n", whitespace ignored |
| Catalog.OrNone | src/datagrab/pipeline/catalog.py:568-574 | `or None` turns "" into none and keeps any other text |
| Catalog.CachedItemCacheable | src/datagrab/pipeline/catalog.py:547-576 | every item read from the cache is one the cache can store |
| Catalog.CacheRowFields | src/datagrab/pipeline/catalog.py:596-608 | a cache row holds the item's fields, none as "" and flags as "Y"/"N"/"" |
| Catalog.RowRoundTrip | src/datagrab/pipeline/catalog.py:547-608 | reading the row written for a storable item gives the item back |
| Catalog.CachedItemOf | src/datagrab/pipeline/catalog.py:547-576 | a row whose cells decode to an item's fields reads as that item |
| Catalog.DecodeRecords | src/datagrab/pipeline/catalog.py:547-577 | rows with a blank symbol are skipped, and the others read as storable items |
| Catalog.EncodeRows | src/datagrab/pipeline/catalog.py:596-608 | one row per item |
| Catalog.CacheRoundTrip | src/datagrab/pipeline/catalog.py:541-609 | reading the cache written for storable items gives the same items, in order |
| Catalog.CachedAt | src/datagrab/pipeline/catalog.py:541-543 | there is no cache exactly when the file is absent |
| Catalog.DecodeRow | src/datagrab/pipeline/catalog.py:548-576 | the method reads one row as CachedItem does |
| Catalog.LoadCache | src/datagrab/pipeline/catalog.py:541-577 | the method reads the cache as CachedAt describes |
| Catalog.DecodeRows | src/datagrab/pipeline/catalog.py:547-576 | the loop keeps the rows that read as items, in order |
| Catalog.WriteCache | src/datagrab/pipeline/catalog.py:579-609 | the cache file holds the header and one row per item, written atomically, and nothing else changes |
| Catalog.WrittenCacheReads | src/datagrab/pipeline/catalog.py:541-609 | after writing storable items, loading the cache gives them back |
| Catalog.StaticItemsCacheable | src/datagrab/pipeline/catalog.py:406-430 | the presets can be stored in the cache |
| Catalog.GetCatalog | src/datagrab/pipeline/catalog.py:248-268 | without refresh a non-empty cache answers "cache" with nothing written; else a non-empty download is written to the cache and answers "remote"; else a non-empty cache answers "cache-fallback"; else RuntimeError with nothing changed; each answer is filtered and limited |
| Catalog.RemoteThenCache | src/datagrab/pipeline/catalog.py:262-264 | after a non-empty download is written, the cache reads back as that download |
| ConfigValidation.RateLimitErrors | src/datagrab/validation/config.py:23-50 | no error exactly when every rate-limit number is non-negative and jitter_min <= jitter_max; a negative rate gives its own message; the jitter check runs only after the field checks pass |
| ConfigValidation.CatalogErrors | src/datagrab/validation/config.py:53-73 | no error exactly when retries and limit are at least 1 and sleep_sec and retry_backoff are non-negative |
| ConfigValidation.DownloadErrors | src/datagrab/validation/config.py:76-96 | no error exactly when concurrency, batch_days and max_retries are at least 1 and startup_jitter_max is non-negative |
| ConfigValidation.StorageErrors | src/datagrab/validation/config.py:99-110 | no error exactly when data_root is not empty |
| ConfigValidation.NormalizeAdjustDefault | src/datagrab/validation/config.py:119-139 | an adjust default is accepted exactly when its stripped lower case is one of the six modes, which it becomes; otherwise "<section>.adjust_default invalid" |
| ConfigValidation.NormalizeAdjustDefaultIdempotent | src/datagrab/validation/config.py:119-139 | normalising an accepted default again gives the same value |
| ConfigValidation.AssetTypesField | src/datagrab/validation/config.py:179-198 | an empty list and a list with a blank item are rejected with their messages; otherwise the stripped items de-duplicated in first-occurrence order |
| ConfigValidation.ValidateAssetTypes | src/datagrab/validation/config.py:179-198 | the two loops compute AssetTypesField |
| ConfigValidation.AssetTypesFieldShape | src/datagrab/validation/config.py:179-198 | an accepted list is non-empty, distinct, stripped, an order-keeping subsequence of the stripped input with the same members, and validates to itself |
| ConfigValidation.IntervalsDefault | src/datagrab/validation/config.py:200-205 | an empty list becomes ["1d"]; otherwise the non-blank items, stripped |
| ConfigValidation.IntervalsDefaultShape | src/datagrab/validation/config.py:200-205 | every kept interval is stripped; a non-empty list of blanks gives the empty list |
| ConfigValidation.IntervalsDefaultStable | src/datagrab/validation/config.py:200-205 | a non-empty result validates to itself |
| ConfigValidation.IntervalsDefaultAllBlank | src/datagrab/validation/config.py:200-205 | ["  "] validates to [], and validating [] again gives ["1d"], so the validator is not idempotent on all-blank input |
| ConfigValidation.TimezoneField | src/datagrab/validation/config.py:207-215 | the zone is the stripped value, or "Asia/Shanghai" when blank; it is accepted exactly when the zone database knows it, and otherwise the error quotes the raw value |
| ConfigValidation.ExtraKeyErrors | src/datagrab/validation/config.py:160 | each unknown filters key gives its "Extra inputs are not permitted" error |
| ConfigValidation.PayloadErrors | src/datagrab/validation/config.py:163-215 | the payload has no error exactly when every section and field validator passes and filters has no unknown key |
| ConfigValidation.BuildConfig | src/datagrab/validation/config.py:225-247 | the built AppConfig satisfies every validator's invariant and carries the validated sections, the de-duplicated asset types and the normalised intervals |
| ConfigValidation.ValidateConfigPayload | src/datagrab/validation/config.py:218-222 | validation succeeds exactly when there are no errors, giving the built config; otherwise ValidationConfigError with the errors joined by newlines |
| ConfigValidation.RevalidateConfig | src/datagrab/validation/config.py:163-247 | a valid config with intervals, written back as a payload, validates to itself |
| ConfigValidation.WrittenBackAccepted | src/datagrab/validation/config.py:163-215 | the payload of a valid config with intervals raises no error |
| ConfigValidation.WrittenBackBuilds | src/datagrab/validation/config.py:225-247 | building the payload of a valid config with intervals gives the config |
| ConfigValidation.AssetTypesFixed | src/datagrab/validation/config.py:179-198 | a non-empty, distinct, stripped list validates to itself |
| ConfigValidation.IntervalsFixed | src/datagrab/validation/config.py:200-205 | a non-empty stripped list validates to itself |
| ConfigValidation.ModeFixed | src/datagrab/validation/config.py:119-139 | every adjust mode is already normal |
| ConfigValidation.ValidatedPacing | src/datagrab/validation/config.py:23-50 | under a validated config the jitter draw is non-negative, the limiter never schedules a request before last + min_interval, and backoff delays are non-negative |
| ConfigValidation.DefaultAssetTypesValid | src/datagrab/validation/config.py:173-175 | the default asset types are non-empty, distinct and stripped |
| ConfigValidation.DefaultsValid | src/datagrab/validation/config.py:163-175 | the default configuration satisfies every validator |
| ConfigValidation.DefaultsValidate | src/datagrab/validation/config.py:163-247 | an empty configuration file validates to the defaults |
| CliValidation.LeadingDigits | src/datagrab/validation/cli.py:15 | the digit run at the start of a text: all digits before it, a non-digit at it |
| CliValidation.IntervalSplitUnique | src/datagrab/validation/cli.py:15 | an interval splits into digits and a unit in only one way, at the end of the leading digits |
| CliValidation.SplitInterval | src/datagrab/validation/cli.py:15 | a text splits into a non-empty digit run and a unit of d, wk, w, mo, m, h, y, s exactly when it fully matches INTERVAL_RE |
| CliValidation.IntervalTokenSplit | src/datagrab/validation/cli.py:24-34 | a token is an interval exactly when it splits and its count is positive |
| CliValidation.NormalizeInterval | src/datagrab/validation/cli.py:24-34 | an interval is accepted exactly when its stripped lower case is a token with a positive count, which it becomes; otherwise ValueError |
| CliValidation.NormalizeIntervalIdempotent | src/datagrab/validation/cli.py:24-34 | normalising an accepted interval again gives the same value |
| CliValidation.NormalizeIntervalAccepts | src/datagrab/validation/cli.py:24-34 | any positive count followed by a unit is accepted, whatever its case and surrounding whitespace |
| CliValidation.InvalidPieceOfSafe | src/datagrab/validation/cli.py:16-17 | among the unsafe substrings, only ".." can occur in a text made of safe characters |
| CliValidation.ValidateSymbol | src/datagrab/validation/cli.py:37-48 | a symbol is accepted exactly when its stripped form is non-empty, at most 128 characters, holds no unsafe substring and only safe characters; it becomes that form; otherwise ValueError |
| CliValidation.ValidateSymbolIdempotent | src/datagrab/validation/cli.py:37-48 | validating an accepted symbol again gives the same value |
| CliValidation.SafeSymbolNoComma | src/datagrab/validation/cli.py:16 | a safe symbol holds no comma |
| CliValidation.LogLevelField | src/datagrab/validation/cli.py:85-91 | a log level is accepted exactly when its stripped upper case is one of the five levels, which it becomes |
| CliValidation.AssetTypeField | src/datagrab/validation/cli.py:93-101 | an asset type is accepted when absent, when no list is configured, or when listed, and is kept unchanged |
| CliValidation.BoundedField | src/datagrab/validation/cli.py:67-68 | limit and workers are accepted when absent or at least 1 and, for workers, at most 256 |
| CliValidation.AdjustField | src/datagrab/validation/cli.py:103-111 | an adjust is accepted when absent or when its stripped lower case is one of the six modes, which it becomes |
| CliValidation.PathField | src/datagrab/validation/cli.py:140-148 | a path is kept stripped when not blank, and becomes none otherwise |
| CliValidation.DatetimeField | src/datagrab/validation/cli.py:150-153 | a missing or empty date is none; a given one is what parse_date returns, and is aware |
| CliValidation.CommaItems | src/datagrab/validation/cli.py:163 | the comma items kept are non-empty |
| CliValidation.IntervalsField | src/datagrab/validation/cli.py:155-164 | a list or a comma-separated text is split into items, each normalised as an interval; every accepted result is an interval token |
| CliValidation.SymbolItems | src/datagrab/validation/cli.py:124-138 | the symbols are accepted exactly when each stripped item is safe, and are then the stripped items |
| CliValidation.NonBlankPieces | src/datagrab/validation/cli.py:135 | the non-blank comma pieces of a text, none holding a comma |
| CliValidation.SymbolField | src/datagrab/validation/cli.py:126-138 | `--symbol` takes a list as it is and a text split on commas, dropping blank pieces, then validates each |
| CliValidation.SymbolsFieldAsWritten | src/datagrab/validation/cli.py:113-124 | `--symbols` as written wraps a text into a one-item list before validating, so the comma stays inside the token |
| CliValidation.SymbolsField | src/datagrab/validation/cli.py:113-124 | `--symbols` corrected to split a text on commas as `--symbol` does |
| CliValidation.NonBlankPiecesJoin | src/datagrab/validation/cli.py:135 | joining non-blank comma-free symbols with commas and splitting again gives them back |
| CliValidation.SymbolItemsAccepted | src/datagrab/validation/cli.py:37-48 | stripped safe symbols are accepted unchanged |
| CliValidation.SymbolsFieldRoundTrip | src/datagrab/validation/cli.py:113-124 | under the correction, a comma-joined list of valid symbols is accepted as that list |
| CliValidation.CapitalsSafe | src/datagrab/validation/cli.py:16 | four capital letters make a safe, stripped symbol |
| CliValidation.SymbolsCommaRejected | src/datagrab/validation/cli.py:113-124 | as written, `--symbols AAPL,MSFT` is rejected |
| CliValidation.SymbolsCommaAccepted | src/datagrab/validation/cli.py:113-124 | under the correction, `--symbols AAPL,MSFT` gives ["AAPL", "MSFT"] |
| CliValidation.CrossCheck | src/datagrab/validation/cli.py:166-181 | the cross check passes exactly when start is not after end and, for download and wizard on a non-ashare asset type, the adjust is absent, "auto" or "none" |
| CliValidation.FieldErrors | src/datagrab/validation/cli.py:59-164 | there is no field error exactly when every field validator accepts its value; `--symbols` is checked by the program's `_symbols` (SymbolsFieldAsWritten, so a comma text is a field error) or, when asked for, by the corrected SymbolsField |
| CliValidation.Assembled | src/datagrab/validation/cli.py:59-164 | the assembled model has a known log level, a known adjust, a configured asset type, interval tokens, safe symbols and aware dates; `symbols` comes from the program's `_symbols` or, when asked for, from the corrected SymbolsField |
| CliValidation.ValidateCliArgs | src/datagrab/validation/cli.py:184-197 | validation succeeds exactly when every field and the cross check pass, giving the assembled model; otherwise it raises CliValidationError; the model's message is the failing fields' messages joined by newlines, or the cross check's message alone, in place of pydantic's text; an accepted model has start <= end and only auto/none adjust for non-ashare downloads; with splitSymbols false it is the program's validator, with true the corrected one |
| CliValidation.ValidateCliArgsAgree | src/datagrab/validation/cli.py:113-197 | the program's validator and the corrected one give the same answer unless `--symbols` is a text holding a comma or only whitespace |
| CliValidation.InfoLevel | src/datagrab/validation/cli.py:85-91 | "INFO" is accepted as a log level as it stands |
| CliValidation.ValidateCliArgsCommaSymbols | src/datagrab/validation/cli.py:113-197 | `download --symbols AAPL,MSFT` raises CliValidationError under the program's validator, and the corrected one accepts it with symbols ["AAPL", "MSFT"] |
| Router.SourceRouter.constructor | src/datagrab/sources/router.py:9-12 | the router keeps the default source and its own copy of the table, with no current asset type |
| Router.SourceRouter.SetAssetType | src/datagrab/sources/router.py:14-15 | the current asset type becomes the given one |
| Router.SourceRouter.Select | src/datagrab/sources/router.py:30-35 | a source is found exactly when the asset type is non-empty and registered, or there is a default; it is the registered source or the default; otherwise a ValueError naming the asset type |
| Router.SourceRouter.ListSymbols | src/datagrab/sources/router.py:17-18 | listing goes to the source selected for the asked asset type |
| Router.SourceRouter.FetchOhlcv | src/datagrab/sources/router.py:20-28 | fetching goes to the source selected for the current asset type |
| Router.SelectRegistered | src/datagrab/sources/router.py:31-32 | a non-empty registered asset type selects its own source |
| Router.SelectFallsBack | src/datagrab/sources/router.py:33-35 | any other asset type selects the default, or fails when there is none |
| Router.RoutingScenario | src/datagrab/sources/router.py:9-35 | a fresh router fetches from the default; after set_asset_type(a) a fetch goes where list_symbols(a) goes, the registered source of a when there is one |
| Baostock.MapInterval | src/datagrab/sources/baostock_source.py:131-148 | an interval maps exactly when its stripped lower case is in the eleven-entry table, to that entry, one of d, w, m, 1, 5, 15, 30, 60; otherwise a ValueError naming the key |
| Baostock.MapIntervalNormalized | src/datagrab/sources/baostock_source.py:132 | the mapping ignores letter case and surrounding whitespace |
| Baostock.MapAdjust | src/datagrab/sources/baostock_source.py:150-165 | the flag is always one of "1", "2", "3" |
| Baostock.MapAdjustCases | src/datagrab/sources/baostock_source.py:150-165 | a known adjustment gets its own flag; anything else, "auto" included, gets the configured default's flag, or back ("1") when the default is unknown |
| Baostock.MapAdjustAutoDefault | src/datagrab/sources/baostock_source.py:153-165 | with the default "auto", both "auto" and a missing adjustment fetch back-adjusted |
| Baostock.QueryFields | src/datagrab/sources/baostock_source.py:60-62 | the fields include "time" exactly for intraday frequencies, start with "date" and end with the five OHLCV fields |
| Baostock.TimeFieldForIntraday | src/datagrab/sources/baostock_source.py:56-62 | the time of day is asked for exactly for 5m, 15m, 30m, 60m and 1h |
| Baostock.Retry | src/datagrab/sources/baostock_source.py:64-83 | the loop from attempt k: a login failure ends it with "baostock login failed: ..."; no rows gives an empty frame and rows give the frame; a query failure backs off with backoff(k + 1) and retries logged out, except on the last attempt where it is raised; RetryShape, RetryEmptyAnswer, RetryAllFail, RetryNoAttempts and RetryFailedStep prove its shape |
| Baostock.RetryShape | src/datagrab/sources/baostock_source.py:64-83 | at most max_retries + 1 attempts, none only when none is left; every attempt but the last is followed by one backoff, the i-th being backoff(k + i + 1) |
| Baostock.RetryEmptyAnswer | src/datagrab/sources/baostock_source.py:70-71 | an answer without rows ends the fetch at once with an empty frame and no sleep |
| Baostock.RetryAllFail | src/datagrab/sources/baostock_source.py:76-82 | when every query fails, every attempt is made and the last attempt's error is raised |
| Baostock.RetryNoAttempts | src/datagrab/sources/baostock_source.py:64-83 | a negative retry count makes no attempt and answers an empty frame |
| Baostock.RetryFailedStep | src/datagrab/sources/baostock_source.py:76-82 | a failure before the last attempt sleeps backoff(k + 1) and goes on to the next attempt logged out |
| Baostock.BaostockSource.constructor | src/datagrab/sources/baostock_source.py:22-30 | a new source is not logged in |
| Baostock.BaostockSource.FetchOhlcv | src/datagrab/sources/baostock_source.py:48-96 | an unmapped interval raises before any attempt, asks nothing and leaves the session alone; otherwise the query asked carries `_map_interval`'s frequency, QueryFields of that frequency and `_map_adjust`'s flag for the adjustment and the configured default, and the result, sleeps and final session state are those of the retry specification run on the answers to that query |
| Baostock.BaostockSource.RetryLoop | src/datagrab/sources/baostock_source.py:64-83 | the `for attempt` loop gives the result, the sleeps and the session state of Retry from attempt 0 |
| YFinance.AutoAdjust | src/datagrab/sources/yfinance_source.py:53-59 | the adjust is accepted exactly when its lower case is "auto" or "none", and auto_adjust is true exactly for "auto"; otherwise the strict-policy ValueError |
| YFinance.AutoAdjustCases | src/datagrab/sources/yfinance_source.py:53-54 | letter case does not matter, but surrounding whitespace is refused |
| YFinance.IsEmptyChartError | src/datagrab/sources/yfinance_source.py:331-339 | an error is an empty-chart error when its message contains one of the four texts; EmptyChartThreeTexts proves three of them suffice, and Handle and EmptyChartFallbackEmpty prove such an error ends the fetch with no data unless its history fallback raises otherwise |
| YFinance.IsRateLimited | src/datagrab/sources/yfinance_source.py:236-238 | an error is rate limited when its message contains "429" or "Too Many Requests"; Handle and RateLimitedEndsEmpty prove such an error always backs off and retries, and ends with no data once the attempts run out |
| YFinance.EmptyChartThreeTexts | src/datagrab/sources/yfinance_source.py:331-339 | the empty-chart test holds exactly when the message contains one of three texts, the "delisted" text being subsumed by "No data found" |
| YFinance.BaseName | src/datagrab/sources/yfinance_source.py:139-141 | a column's base name is never empty |
| YFinance.Bases | src/datagrab/sources/yfinance_source.py:138-141 | one base name per column, in order |
| YFinance.UniqueColumns | src/datagrab/sources/yfinance_source.py:135-145 | column i is renamed to its base name numbered by how often that base occurred before it |
| YFinance.RenamedAt | src/datagrab/sources/yfinance_source.py:138-144 | the names built after n columns are each column's unique name |
| YFinance.CountsOccurrences | src/datagrab/sources/yfinance_source.py:136-143 | after i columns the `seen` map counts every base name among them |
| YFinance.DedupStep | src/datagrab/sources/yfinance_source.py:142-144 | one loop step appends the base numbered by its count so far and increments that count |
| YFinance.NumberNames | src/datagrab/sources/yfinance_source.py:136-144 | the loop over the base names builds all the renamed names |
| YFinance.DedupColumns | src/datagrab/sources/yfinance_source.py:135-145 | the de-duplication loop gives UniqueColumns of the columns |
| YFinance.NotSeenBefore | src/datagrab/sources/yfinance_source.py:142 | a base not among the earlier names has count zero |
| YFinance.OccurrencesGrow | src/datagrab/sources/yfinance_source.py:142-143 | a later column of the same base has a larger count |
| YFinance.FirstOccurrenceKept | src/datagrab/sources/yfinance_source.py:144 | the first column of each base keeps its base name |
| YFinance.SameBaseDistinctNames | src/datagrab/sources/yfinance_source.py:135-145 | two columns with the same base name get different names |
| YFinance.NumberedNamesDiffer | src/datagrab/sources/yfinance_source.py:144 | different repeat numbers give different names |
| YFinance.DedupCanRepeat | src/datagrab/sources/yfinance_source.py:135-145 | columns ["a", "a", "a_1"] are renamed to ["a", "a_1", "a_1"]: the loop separates equal bases but can collide with a name already of the form base_n |
| YFinance.DistinctNamesKept | src/datagrab/sources/yfinance_source.py:135-145 | names that are stripped, not blank and distinct are kept unchanged by the de-duplication |
| YFinance.YahooColumnsRenamed | src/datagrab/storage/schema.py:18-28 | `normalize_ohlcv_columns` turns ["datetime", "Adj Close", "Volume"] into ["datetime", "adjusted_close", "volume"]: lowercased, the space made an underscore, "adj_close" renamed |
| YFinance.YahooColumnsNormalised | src/datagrab/sources/yfinance_source.py:135-153 | the same frame keeps its names through de-duplication and comes out under the stored names |
| YFinance.YahooFrameReturned | src/datagrab/sources/yfinance_source.py:63-154 | a download of that frame with rows returns it under the stored names |
| YFinance.CloseTwiceNormalised | src/datagrab/storage/schema.py:18-23 | ["datetime", "Close", "close"] survives de-duplication but both names normalise to "close", so normalisation raises DuplicateError |
| YFinance.CollidingNamesRaise | src/datagrab/storage/schema.py:18-23 | any two columns whose names normalise to one name make normalisation raise DuplicateError |
| YFinance.CloseTwiceRaises | src/datagrab/sources/yfinance_source.py:153-233 | such a frame raises DuplicateError in the try block, and the same frame from the history fallback after an empty-chart error is re-raised by the except block |
| YFinance.TryBlock | src/datagrab/sources/yfinance_source.py:63-154 | the try block returns no data, or data with rows and distinct (normalised) columns; an error from the first call raises; an empty frame for a symbol without "=" returns no data; a download frame with rows but no datetime raises the datetime error; TryBlockNormalises and FallbackNormalises state the columns returned |
| YFinance.TryBlockNormalises | src/datagrab/sources/yfinance_source.py:135-153 | a downloaded frame with rows and a datetime returns its de-duplicated columns passed through `normalize_ohlcv_columns` and its rows, or raises that function's error |
| YFinance.FallbackNormalises | src/datagrab/sources/yfinance_source.py:82-153 | for a symbol with "=", an empty download replaced by a history frame with rows and a datetime returns that frame's columns de-duplicated and normalised, or raises normalisation's error |
| YFinance.Handle | src/datagrab/sources/yfinance_source.py:155-246 | a retry always waits backoff(k + 1); returned data is empty or has rows and distinct columns; a rate-limit error (not an empty chart) always retries, even on the last attempt; any other error retries before the last attempt and is raised on it; HandleNormalises states the history fallback's columns |
| YFinance.HandleNormalises | src/datagrab/sources/yfinance_source.py:155-233 | after an empty-chart error, a history frame with rows and a datetime is returned with its de-duplicated columns passed through `normalize_ohlcv_columns`; that function's error is raised, since the call is outside the inner try |
| YFinance.YRetry | src/datagrab/sources/yfinance_source.py:62-247 | the attempts from k on: a try block that returns ends the fetch, one that raises is handled by Handle (return, raise again, or back off and retry), and used-up attempts give no data; YRetryShape, RateLimitedEndsEmpty, OtherErrorsRaise, EmptyChartFallbackEmpty and FetchOhlcv prove its shape |
| YFinance.YRetryShape | src/datagrab/sources/yfinance_source.py:62-247 | with attempts left at least one and at most max_retries + 1 - k attempts are made, at most one backoff each, the backoffs being those of attempts k + 1, k + 2, … in order; with none left, no data |
| YFinance.YRetryStep | src/datagrab/sources/yfinance_source.py:62-247 | one attempt either ends the fetch with no backoff or backs off by backoff(k + 1) before the run from attempt k + 1 |
| YFinance.BackoffsAt | src/datagrab/sources/yfinance_source.py:181-244 | the i-th of the backoffs listed from attempt `from` on is backoff(from + i) |
| YFinance.YRetryBackoffAt | src/datagrab/sources/yfinance_source.py:62-247 | the i-th backoff of the run from attempt k is backoff(k + i + 1) |
| YFinance.YRetryBackoffs | src/datagrab/sources/yfinance_source.py:62-247 | every backoff of the run from attempt k, by position i, is backoff(k + i + 1) |
| YFinance.RateLimitedEndsEmpty | src/datagrab/sources/yfinance_source.py:236-247 | when every attempt is rate limited, every attempt backs off and the fetch ends with no data instead of an error |
| YFinance.OtherErrorsRaise | src/datagrab/sources/yfinance_source.py:242-246 | when every attempt fails with another error, the last attempt's error is raised after one backoff per earlier attempt |
| YFinance.EmptyChartFallbackEmpty | src/datagrab/sources/yfinance_source.py:156-189 | an empty-chart error whose history fallback is also an empty chart or an empty frame ends the fetch with no data and no sleep |
| YFinance.Fetch | src/datagrab/sources/yfinance_source.py:45-247 | an adjust outside auto/none raises before any request; a result carries the lowercased adjust |
| YFinance.FetchOhlcv | src/datagrab/sources/yfinance_source.py:45-247 | the loop gives the result of the retry specification and sleeps its delays |
| Export.Missing | src/datagrab/storage/export.py:13 | a name is reported missing exactly when it is required and absent |
| Export.MissingColumns | src/datagrab/storage/export.py:9-13 | a column is missing exactly when it is one of the six required OHLCV columns and absent |
| Export.ValidateColumns | src/datagrab/storage/export.py:12-15 | no error exactly when all six required columns are present; otherwise a ValueError listing the missing ones joined by ", " |
| Export.BacktraderTable | src/datagrab/storage/export.py:18-34 | the export fails exactly when validation fails, with its error; a table with "openinterest" is written unchanged, otherwise that column of zeros is appended to every row |
| Export.BacktraderIdempotent | src/datagrab/storage/export.py:31-32 | exporting an exported table again changes nothing |
| Export.BacktraderKeepsValues | src/datagrab/storage/export.py:18-34 | every other cell keeps its value |
| Export.Column | src/datagrab/storage/export.py:41-46 | a column array has one entry per row, the row's cell or null |
| Export.VectorbtNames | src/datagrab/storage/export.py:40-49 | "adjusted_close" is exported exactly when the table has it |
| Export.VectorbtArrays | src/datagrab/storage/export.py:37-51 | the export fails exactly when validation fails; otherwise it holds exactly the six required arrays plus adjusted_close when present, each the table's column |
| Export.ExportsAgree | src/datagrab/storage/export.py:18-51 | both exports accept exactly the same tables |
| Export.BaseColumnsAccepted | src/datagrab/storage/export.py:9-15 | the stored schema's base columns pass the check |
| Export.NoneMissing | src/datagrab/storage/export.py:13 | when every required name is present nothing is missing |
| Export.MissingSingle | src/datagrab/storage/export.py:13 | when exactly one required name is absent it alone is missing |
| Export.OneMissingNamed | src/datagrab/storage/export.py:13-15 | a table lacking one required column gets an error naming just that column |
| Cli.CommaItems | src/datagrab/cli.py:173 | the comma items are non-empty, stripped and comma-free |
| Cli.CommaItemsJoin | src/datagrab/cli.py:173 | joining clean items with commas and splitting again gives them back |
| Cli.CommaItemsOfClean | src/datagrab/cli.py:173 | a clean item splits into itself |
| Cli.SplitAll | src/datagrab/cli.py:170-174 | every item produced is non-empty, stripped and comma-free |
| Cli.SplitValues | src/datagrab/cli.py:170-174 | the loop extending the result value by value computes SplitAll |
| Cli.SplitAllSnoc | src/datagrab/cli.py:172-173 | the items of one more value follow those of the earlier ones |
| Cli.SplitAllClean | src/datagrab/cli.py:170-174 | clean items pass through unchanged |
| Cli.SplitValuesIdempotent | src/datagrab/cli.py:170-174 | splitting the result again changes nothing |
| Cli.StrippedNonBlank | src/datagrab/cli.py:150 | the kept `--symbol` values are non-empty and stripped |
| Cli.StrippedNonBlankKeeps | src/datagrab/cli.py:150 | values already stripped and non-blank pass through unchanged |
| Cli.ParseSymbols | src/datagrab/cli.py:145-151 | every parsed symbol is non-empty and stripped |
| Cli.ParseSymbolsRoundTrip | src/datagrab/cli.py:145-151 | symbols given as one `--symbols` text and as repeated `--symbol` values come back in that order, unchanged |
| Cli.KnownFolded | src/datagrab/cli.py:163-165 | the folded values that are known asset types, repeats included |
| Cli.Kept | src/datagrab/cli.py:162-166 | only known asset types are kept |
| Cli.KeptIsDedup | src/datagrab/cli.py:162-166 | the list the loop builds is the known folded values without repeats |
| Cli.KeepKnown | src/datagrab/cli.py:162-166 | the loop computes Kept |
| Cli.NormalizeAssetTypes | src/datagrab/cli.py:154-167 | the function computes AssetTypes of its argument |
| Cli.AssetTypesShape | src/datagrab/cli.py:154-167 | the result is non-empty, distinct and made of known asset types; when no value is known it is the default list; otherwise it is the known folded values without repeats, in first-appearance order, an order-keeping subsequence of them with exactly their members |
| Cli.Switch | src/datagrab/cli.py:178-187 | "only" gives True, "exclude" alone gives False, neither leaves the setting unset |
| Cli.FiltersFromArgs | src/datagrab/cli.py:177-205 | each list filter is its option split on commas, and the two settings come from their switch pairs |
| Cli.NoFilterArgs | src/datagrab/cli.py:177-205 | no filter option gives the empty filter configuration |
| Cli.SwitchOf | src/datagrab/cli.py:178-187 | each setting comes back from the switches that select it |
| Cli.FiltersRoundTrip | src/datagrab/cli.py:177-205 | passing a configuration's clean lists back as options, with matching switches, rebuilds it |
| Cli.IsWizardBack | src/datagrab/cli.py:263-264 | an answer means "back" exactly when its stripped lower case is "b", "back", "上一步" or "返回"; WizardBackFolded proves whitespace and letter case do not matter |
| Cli.WizardBackFolded | src/datagrab/cli.py:263-264 | whether an answer means "back" does not depend on surrounding whitespace or letter case |
| Cli.ValidateIntervals | src/datagrab/cli.py:324-332 | the intervals are rejected exactly when some folded comma item is not a wizard interval, and the error lists those items; otherwise the items joined by commas ("" for blank input) |
| Cli.WizardIntervalChars | src/datagrab/cli.py:37 | a wizard interval holds only digits and lower-case letters |
| Cli.IntervalsJoinChars | src/datagrab/cli.py:332 | a comma-joined list of wizard intervals holds only commas, digits and lower-case letters |
| Cli.IntervalTextFolded | src/datagrab/cli.py:325 | such text is already stripped and lower-case |
| Cli.JoinedIntervalsFolded | src/datagrab/cli.py:324-332 | a comma-joined list of wizard intervals is unchanged by stripping and lower-casing |
| Cli.CommaItemsEmpty | src/datagrab/cli.py:326-328 | blank text has no items |
| Cli.ValidateIntervalsIdempotent | src/datagrab/cli.py:324-332 | validating an accepted result again gives it back |
| Cli.Doctor.constructor | src/datagrab/cli.py:378-382 | the doctor starts with no check and every flag down |
| Cli.Doctor.SetCheck | src/datagrab/cli.py:385-404 | the entry replaces any earlier one of that name; fail raises any_fail, warn raises any_warn and, when it blocks strict mode, any_warn_blocks_strict; no flag is lowered |
| Cli.FinalChecks | src/datagrab/cli.py:394-398 | the checks map after a run of calls holds the last entry per name |
| Cli.DoctorStep | src/datagrab/cli.py:385-404 | one more call adds its entry to the map and its status to the flags |
| Cli.ReportStatus | src/datagrab/cli.py:636 | the report is "fail" when any check failed, else "warn" when any warned, else "ok"; RunDoctor proves the doctor reports it and FailureOutlivesEntry that a failure is never hidden by a later entry |
| Cli.DoctorExit | src/datagrab/cli.py:649-651 | strict mode with a failure or a blocking warning exits 2, anything else 0; RunDoctor proves the doctor returns it and DoctorExitCases proves its cases |
| Cli.RunDoctor | src/datagrab/cli.py:377-651 | after the checks the report status is fail over warn over ok, the map is the last entry per name, and the exit code is the doctor's rule |
| Cli.DoctorExitCases | src/datagrab/cli.py:649-651 | the exit code is 0 or 2; it is 0 outside strict mode; 2 implies the report is not ok; a failure in strict mode gives 2 |
| Cli.FailureOutlivesEntry | src/datagrab/cli.py:394-404 | a failed check keeps the report failed even when a later check of the same name replaces its entry |
| Cli.ErrorCount | src/datagrab/cli.py:680-684 | the error count is at most the issue count and is positive exactly when some issue is an error |
| Cli.ValidateExitCode | src/datagrab/cli.py:665-767 | no file found gives 0; otherwise 1 when some issue is an error and 0 when none is; RunValidateExit proves the counting loop returns it |
| Cli.RunValidateExit | src/datagrab/cli.py:665-767 | validate exits 1 exactly when files were found and some issue is an error, and 0 otherwise |
| Cli.DownloadExitCode | src/datagrab/cli.py:906-920 | download exits 2 exactly on an unreadable failures ledger, 1 exactly when the run recorded failures, 0 when it recorded none |
| Screens.Limit | src/datagrab/tui/screens.py:97-104 | a blank box or one without an integer gives the configured limit; an integer n gives max(1, n) |
| Screens.LimitOfNumber | src/datagrab/tui/screens.py:101-102 | a typed number n is the limit, raised to 1 when n is 0 |
| Screens.MatchText | src/datagrab/tui/screens.py:161-172 | an empty pattern and a blank "re:" expression match; a plain pattern matches exactly when it occurs in the text ignoring case |
| Screens.ApplyTextFilters | src/datagrab/tui/screens.py:160-193 | the loop computes TextFiltered |
| Screens.TextFilteredShape | src/datagrab/tui/screens.py:174-193 | the result is an order-keeping subsequence, and an item is kept exactly when the include text matches its symbol or name (or is empty) and the exclude text matches neither (or is empty) |
| Screens.NoTextFilters | src/datagrab/tui/screens.py:174-184 | with both texts empty every item is kept |
| Screens.LowerKeepsContains | src/datagrab/tui/screens.py:172 | ignoring case never loses a match |
| Screens.SymbolPieceIncluded | src/datagrab/tui/screens.py:172-178 | an item whose symbol contains the plain include text is kept unless excluded |
| Screens.BlankRegexIncludes | src/datagrab/tui/screens.py:164-178 | an include of "re:" with a blank expression keeps exactly the items with a non-empty symbol or name |
| Screens.UpperValues | src/datagrab/tui/screens.py:203-204 | the set holds exactly the upper-cased stripped non-blank comma pieces |
| Screens.KeepBySets | src/datagrab/tui/screens.py:211-224 | the loop keeps exactly the items that pass the four set tests, in order |
| Screens.ApplyExchangeFilters | src/datagrab/tui/screens.py:195-224 | the filter computes ExchangeFiltered |
| Screens.ExchangeFilteredShape | src/datagrab/tui/screens.py:195-224 | the result is an order-keeping subsequence, and an item is kept exactly when its upper-cased exchange and market pass the include and exclude sets |
| Screens.UpperValuesBlank | src/datagrab/tui/screens.py:203-204 | a blank box gives the empty set |
| Screens.NoExchangeFilters | src/datagrab/tui/screens.py:215-222 | with all four boxes blank every item is kept |
| Screens.ExcludedExchangeDropped | src/datagrab/tui/screens.py:217-218 | an item whose exchange is excluded is dropped |
| Screens.OwnExchangeIncluded | src/datagrab/tui/screens.py:213-216 | typing an item's exchange, in any letter case, keeps it |
| Screens.Loaded | src/datagrab/tui/screens.py:118-130 | the list shown: the text filters run only when a text box is filled, then the exchange filters only when an exchange or market box is filled; LoadedIsBothFilters proves this equals both filters applied in turn, an order-keeping subsequence of the items |
| Screens.LoadedIsBothFilters | src/datagrab/tui/screens.py:107-131 | the loaded list is the text filters followed by the exchange filters, an order-keeping subsequence of the listed items |

## Left out

- TimeUtils.FromIsoFormat: accepts only `YYYY-MM-DD` optionally followed by one separator, `HH:MM:SS` and a `±HH:MM` offset. Python's `datetime.fromisoformat` also accepts `HH:MM` without seconds, a `Z` suffix and fractional seconds. Ledger rows written by src/datagrab/validation/failures.py:154 carry microseconds, so Failures.FailureDatetime treats such a row's time as unparseable: it warns and falls back where Python would parse it.
- Microseconds: a `DateTime` holds whole seconds, so microseconds are dropped.
- TimeUtils.AttachBeijing: Beijing time is the fixed offset UTC+8. The program uses the zone "Asia/Shanghai", which had summer time (UTC+9) in 1986-1991 and local mean time (+08:05:43) before 1901, so naive datetimes in those periods get a different offset there.
- TimeUtils.ToBeijing: converts with the same fixed UTC+8 offset, so instants in the 1986-1991 summers and before 1901 get a different wall clock than under "Asia/Shanghai".
- Failures.FailureDatetime: the warning renders `raw!r` as the text between single quotes. Python's `repr` switches to double quotes for text holding a single quote, and escapes backslashes and non-printable characters; such texts give a different warning message.
- Text.Lower: folds ASCII letters only; Python's `str.lower` uses Unicode case mapping.
- Text.Upper: folds ASCII letters only, like Text.Lower; Python's `str.upper` uses Unicode case mapping.
- Text.ParseInt: rejects the underscores between digits that Python's `int()` accepts.
- Catalog.Attempt: does not model the `random.shuffle` of the provider items (src/datagrab/pipeline/catalog.py:298). So Catalog.FirstBySymbol keeps the first occurrence in provider order, and the first `limit` items of Catalog.Filtered are the first in that order, not in shuffled order.
- CliValidation.ValidateCliArgs: pydantic's error text is replaced by the failing fields' messages joined by newlines; a failed cross check gives its bare message.
- Failures.ModelValidate: pydantic's error text is replaced by the names of the failing fields.
- Validate.ValidateParquetFile: a file that cannot be read gets a fixed error text in place of the exception's message.
- Downloader: the thread pool, cancellation and pausing, the startup jitter, the progress callbacks and the `random.shuffle` of tasks (src/datagrab/pipeline/downloader.py:137) are not modelled. The run is the sequential bookkeeping of tasks in the order given.
- Validate.ListRepr: Python's `repr` escapes quotes and backslashes inside a name and may pick double quotes; the model always writes the name between single quotes as it is.
- Validate: `validate_batch`'s thread pool and its "validate.unexpected_error" path are not modelled; only the serial batch is.
- Catalog: the provider downloads and their parsing (src/datagrab/pipeline/catalog.py:301-404) are the outcomes of the fetch attempts, given as parameters.
- Regular expressions in the catalog filters, the TUI "re:" filter and the two fixed command-line patterns: the filters take a `RegexEngine` parameter (compiles, search); the two fixed patterns are written out by hand with `\d` read as an ASCII digit.
- Sleeps: every `time.sleep` is modelled as the delay returned; the sleep itself and the locks around it are not modelled.
- Logging and printing: not modelled.
- CSV and JSON files: kept as their field names and rows (or ordered fields), not as bytes; quoting and escaping are not modelled.
- `load_config`: reading the YAML/TOML file and the DATAGRAB_CONFIG and DATAGRAB_DATA_ROOT environment variables are not modelled; a parsed document is a parameter.
- ConfigValidation: pydantic's coercion of YAML/TOML scalars, the filling in of missing keys with defaults and pydantic's error text are not modelled; each failing field contributes one message.
- ConfigValidation.TimezoneField: whether a zone exists in the zone database is the parameter `knownZone`.
- `iter_parquet_files`: directory globbing is not modelled; a listing is a parameter.
- Baostock.BaostockSource.FetchOhlcv: the rate limiter's `wait()` before each query is not modelled (it needs the clock and the jitter draw), and the query carries the frequency, the fields and the adjustment flag but not the symbol or the `%Y-%m-%d` date texts.
- Baostock: login and query run outside the model, and each attempt's outcome is a parameter. The reshaping of returned rows (`_normalize_datetime`, `normalize_ohlcv_columns`), the date formatting of the request and `list_symbols` (which only forwards to the catalog) are not modelled.
- YFinance.TryBlock: a frame is given by its column names, its row count after rows without a datetime are dropped, and whether a datetime column was found. The search for a datetime-like column, the time-zone conversion and the values of the rows are not modelled. `history` gives the same answer each time it is called within one attempt. The program tests `df.empty` before the rows with a null datetime are dropped, while the model decides "no data" from the row count after that drop. So a non-empty frame whose every datetime is null gives no data in the model (and, for a symbol with "=", tries the history fallback), where the program returns a frame with its columns and no rows.
- YFinance.Normalised: when de-duplication leaves two equal names (see YFinance.DedupCanRepeat), `pl.from_pandas` raises before `normalize_ohlcv_columns` runs; the model raises normalisation's DuplicateError in its place, so only the error's name and text differ.
- YFinance.FetchOhlcv: the rate limiter's `wait()` before each attempt is not modelled; `delays` lists only the backoff sleeps.
- YFinance: the `_download_df` proxy fallbacks, `list_symbols` and the error message's list of columns are not modelled.
- Export: reading the Parquet file and writing the CSV or NPZ file are not modelled; the exports return the table or the arrays they would write.
- Cli: argparse, the interactive wizard prompts, the doctor's individual checks and the work each command starts are not modelled; the exit-code rules take what that work reports as parameters.
- Screens: the widgets, the worker thread, the rendering and the "use-top" and "next" buttons are not modelled.
- Floating point: floats are modelled as exact reals.

## Findings

| source | as written | input that shows it | evidently intended | confidence | as-written member | corrected member |
|---|---|---|---|---|---|---|
| src/datagrab/validation/cli.py:113-124 | `_symbols` wraps a `--symbols` string into a one-item list and validates it as one symbol, so the comma stays inside it and fails the safe-character check | `--symbols AAPL,MSFT` is rejected (CliValidation.SymbolsCommaRejected), and `download --symbols AAPL,MSFT` raises CliValidationError (CliValidation.ValidateCliArgsCommaSymbols, CliValidation.ValidateCliArgs with splitSymbols false) | split the string on "," as `_symbol` (lines 126-138) and `_parse_symbols` in src/datagrab/cli.py:145-151 do | high, not executed | CliValidation.SymbolsFieldAsWritten (CliValidation.SymbolsCommaRejected, CliValidation.ValidateCliArgsCommaSymbols) | CliValidation.SymbolsField (CliValidation.SymbolsCommaAccepted, CliValidation.SymbolsFieldRoundTrip, CliValidation.ValidateCliArgsCommaSymbols) |
