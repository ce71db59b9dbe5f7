# Cryostat log ingestion and time slicing, in Dafny

A model of the data core of `parse_and_plot_log.py`, a notebook helper for a
dilution-refrigerator lab. It reads the plain-text logs that the fridge
control software writes into one folder per day. It then turns them into
time-indexed tables and cuts those tables into fixed-length windows that can
be overlaid on a plot. The model covers five pieces:

- **Folder index** (`FolderIndex`): the root path is normalised. The entries
  whose names are `%y-%m-%d` dates are kept and ordered by date.
- **Per-format record extraction** (`Formats`): there are four log kinds,
  `maxigauge`, `Status`, `Flowmeter` and `Temperature`. For each one the
  model fixes the file path, how a line is split, which fields hold the
  values, and the `Status` 64-field rule. The day-first `%d-%m-%y %H:%M:%S`
  timestamp is read strictly (`Calendar`).
- **Gap-sentinel accumulation** (`GapFill`, `Assemble`): records are appended
  to parallel date and value lists. When a record comes more than five
  minutes (by `Timedelta.seconds`) after the previously appended entry, a
  row with every value MISSING is appended. That row is timed at the
  midpoint of the two instants. The lists become a frame sorted by time
  (`Sorting`).
- **`slice_timeseries`** (`Slicer`): one window per anchor, from the anchor
  to `span` hours later, both ends included. Each window is re-based to its
  first sample.
- **`df_slices` helpers** (`Request`):
  - splitting the "type channel" selector;
  - reading the comma-separated anchor list, dropping the unreadable ones;
  - pairing each non-empty slice with its anchor for plotting.

`Scenarios` works one small folder through end to end. A `Flowmeter` log
with readings at 10:00 and 10:20 gives a frame with rows at 10:00, 10:10
(MISSING) and 10:20.

Modelling conventions:

- An instant is an `int` count of nanoseconds since 0001-01-01 (proleptic
  Gregorian).
- A measured value is an opaque type `V`. Python's `float(...)` is a
  parameter `num: string -> Option<V>`; `None` stands for the `ValueError`.
- NaN is `None` in a column of `Option<V>`.
- The directory listing is a sequence of names. The files are a map from
  path to lines, and a path missing from the map is a file that
  `os.path.isfile` rejects.
- The per-record loops are methods over `seq` state (`AppendRecord`,
  `ReadFile`, `AccumulateChannel`, `AccumulateTemperatures`, `LogParsing`,
  `ListDateFolders`, `SliceTimeseries`, `ReadTokens`, `PlotCurves`,
  `DfSlices`). Each is proved equal to a specification function, and the
  properties are proved about those functions.

Behaviour of the code that the model reproduces:

- A timestamp or number that fails to convert raises out of `log_parsing`.
  Nothing catches it, so the whole call fails, not just that file. The
  model returns `Err` from the whole call.
- The gap test compares the new record with the last entry appended. That
  entry may itself be a sentinel.
- The sentinel is appended after the record that opened the gap, so the
  lists are out of time order until `sort_index`.
- `Status` reads `line[0]` and `line[1]` before its 64-field check:
  - a line with fewer than two fields aborts the call;
  - any other length except 64 is skipped.
- The `Status` column list has 31 names, so the values are fields 3, 5, …, 63.
- An empty window is dropped in `df_slices`, not in `slice_timeseries`.
  `total_seconds()` on the empty index raises, and that is caught.

## Model

| member | source | states |
|---|---|---|
| Text.Split | parse_and_plot_log.py:69 | `str.split(sep)` yields at least one field and no field contains the separator |
| Text.SplitCount | parse_and_plot_log.py:125 | the number of fields is one more than the number of separators |
| Text.JoinSplit | parse_and_plot_log.py:69 | joining the fields back with the separator gives the original line |
| Text.Remove | parse_and_plot_log.py:125 | `replace(c, '')` removes every `c`, keeps every other character and leaves a string without `c` untouched |
| Text.StripInfix | parse_and_plot_log.py:29 | `strip()` is the infix between a leading and a trailing whitespace run, and neither end of the result is whitespace |
| Text.StripUnchanged | parse_and_plot_log.py:29 | a string whose ends are not whitespace is left as is |
| Calendar.ParseDate | parse_and_plot_log.py:40 | strict `%y-%m-%d` accepts only real dates (years 1969-2068) |
| Calendar.ParseFormatDate | parse_and_plot_log.py:40 | every valid date formatted as `%y-%m-%d` reads back as itself |
| Calendar.FormatParseDate | parse_and_plot_log.py:40 | every accepted folder name is the canonical text of its date |
| Calendar.ParseDateTime | parse_and_plot_log.py:73 | strict `%d-%m-%y %H:%M:%S` accepts only real dates with hours below 24 and minutes and seconds below 60 |
| Calendar.ParseFormatDateTime | parse_and_plot_log.py:73 | a formatted timestamp reads back as the same date and time |
| Calendar.FormatParseDateTime | parse_and_plot_log.py:73 | an accepted timestamp text is the canonical text of what it reads as |
| Calendar.TimeOfMonotone | parse_and_plot_log.py:101 | a strictly earlier date and time maps to a strictly smaller instant |
| Calendar.TimestampHalvesShape | parse_and_plot_log.py:72 | a timestamp text is its date half, a space and its time half, and neither half holds a comma, space or newline |
| Calendar.FormatDateTimeShape | parse_and_plot_log.py:307 | a formatted timestamp is 17 characters long, starts and ends with a digit and holds no comma or newline |
| FolderIndex.NormaliseRoot | parse_and_plot_log.py:29-31 | a blank path fails (`log_folder[-1]` on the empty string); otherwise the stripped path gains one `/` unless it already ends in one |
| FolderIndex.NormaliseRootIdempotent | parse_and_plot_log.py:29-31 | normalising an already normalised root changes nothing |
| FolderIndex.DatedEntriesMembers | parse_and_plot_log.py:38-44 | an entry is kept exactly when its name parses as a `%y-%m-%d` date, and it carries that date |
| FolderIndex.FolderIndexCorrect | parse_and_plot_log.py:33-48 | the index holds exactly the dated entries, in non-decreasing date order, and strictly increasing when the names are distinct |
| FolderIndex.ListDateFolders | parse_and_plot_log.py:35-48 | the filter-then-sort loop builds exactly that index |
| Formats.LogPathShape | parse_and_plot_log.py:58 | each format's file name (line 58 for `maxigauge`, 114 for `Status`, 164 for `Flowmeter`, 207 for temperatures) starts with the root, then the day folder (for temperatures after `/log-data/192.168.109.188/`, giving a doubled `/`), and ends in the day's name and `.log` |
| Formats.DataTypeOf | parse_and_plot_log.py:50-196 | each of the four exact tags selects its format and no other string selects that format |
| Formats.LayoutShape | parse_and_plot_log.py:105-138 | each format reads as many values as it has columns; the 31 `Status` values sit at fields 3 + 2i, all below 64 |
| Formats.ReadValues | parse_and_plot_log.py:76-81 | the values read succeed exactly when every value field exists and converts, and then value i is the conversion of field i; a failure is decided by the first value field, left to right, that is missing (FieldMissing) or does not convert (BadNumber) |
| Formats.ReadRecord | parse_and_plot_log.py:72-81 | a record is read exactly when the line has a date and a time field, they form a valid timestamp and every value converts; its time and values are those readings |
| Formats.ParseLine | parse_and_plot_log.py:124-138 | a line is skipped exactly when it is a `Status` line with at least two fields but not 64; a parsed line has one value per column; a 64-field `Status` line never fails for a missing field |
| Formats.ParseLineParsed | parse_and_plot_log.py:68-82 | a line is parsed exactly when it is not a skipped `Status` line, its first two fields read as a timestamp and every value field of its format exists and converts; every other line aborts |
| Formats.ParseLineRecord | parse_and_plot_log.py:68-82 | a parsed record's time is the timestamp of the first two fields and value i is the conversion of the format's value field i |
| Formats.StatusFieldCountRule | parse_and_plot_log.py:125-132 | a `Status` line with at least one comma once the newlines are removed is skipped exactly when it does not have 63 commas |
| Formats.SingleValueFields | parse_and_plot_log.py:175-182 | a `Flowmeter` line splits into date, time and the value with its newline; a `Temperature` line splits into the same three fields with no newline |
| Formats.SingleValueLineReads | parse_and_plot_log.py:174-182 | a well-formed single-value line reads as its instant and value, or aborts with BadNumber when the value does not convert |
| GapFill.TimedeltaSeconds | parse_and_plot_log.py:88 | `Timedelta.seconds` lies in 0..86399 and, within a day, is the whole number of seconds of the difference |
| GapFill.Midpoint | parse_and_plot_log.py:89 | the middle point of `date_range(a, b, periods=3)` lies between the two instants, and it is exact when their sum is even |
| GapFill.GapWithinADay | parse_and_plot_log.py:88 | for a forward step of under a day, a gap is exactly a step of at least 301 seconds |
| GapFill.GapIgnoresWholeDays | parse_and_plot_log.py:88 | adding whole days to the step never changes whether it counts as a gap |
| GapFill.GapExamples | parse_and_plot_log.py:88 | 20 minutes is a gap, 5 minutes is not, 5 minutes 1 second is, 1 day 3 minutes is not, and a one-minute step backwards is |
| GapFill.Step | parse_and_plot_log.py:84-96 | one record keeps the lists in lock step and grows them by two entries after a gap, otherwise by one |
| GapFill.StepFacts | parse_and_plot_log.py:84-96 | a step keeps every old entry, then appends the record, then, after a gap, a MISSING row at the midpoint between the last entry and the record |
| GapFill.IngestGapShaped | parse_and_plot_log.py:83-96 | after any sequence of records, sentinels are all-MISSING, sit at midpoints, and follow exactly the real entries that opened a gap |
| GapFill.SentinelFollowsGap | parse_and_plot_log.py:88-96 | a real entry is followed by a sentinel exactly when it is more than five minutes after the entry before it |
| GapFill.IngestRealEntries | parse_and_plot_log.py:68-96 | with the sentinels removed, the lists are exactly the records in order |
| GapFill.IngestCounts | parse_and_plot_log.py:83-96 | there are at most records − 1 sentinels, and each column has exactly as many MISSING values as there are sentinels |
| GapFill.IngestOne | parse_and_plot_log.py:84-86 | the first record never opens a gap |
| GapFill.TwentyMinuteGap | parse_and_plot_log.py:88-96 | readings at t0 and t0 + 20 min give lists t0, t0 + 20 min, t0 + 10 min with the MISSING last |
| GapFill.SentinelAsPredecessor | parse_and_plot_log.py:88 | the gap test after a sentinel is measured from the sentinel, not from the last real reading |
| Sorting.SortBy | parse_and_plot_log.py:101 | `sort_index` yields rows in non-decreasing time order that are a permutation of its input |
| Sorting.SortByMembers | parse_and_plot_log.py:101 | sorting neither adds nor loses a row |
| Sorting.SortThreeBy | parse_and_plot_log.py:194 | three entries whose middle key is the largest come out first, last, middle, which is how a trailing sentinel moves between its two readings |
| Assemble.LinesRecords | parse_and_plot_log.py:68-82 | a file's records all have the format's width, and there are at most as many as lines |
| Assemble.LinesRecordsOutcome | parse_and_plot_log.py:68-82 | a file reads exactly when no line aborts; otherwise the first aborting line's error is the result; the records are exactly the parsed lines' records |
| Assemble.SkippedLineAppendsNothing | parse_and_plot_log.py:130-132 | a skipped `Status` line leaves the records unchanged |
| Assemble.DayRecords | parse_and_plot_log.py:57-65 | the records gathered over the day folders all have the format's width |
| Assemble.DayRecordsErrPrefix | parse_and_plot_log.py:57-82 | once a day's file aborts, later days do not change the outcome |
| Assemble.DayRecordsLocal | parse_and_plot_log.py:58-62 | only the files at the indexed days' paths matter; other files never change the outcome |
| Assemble.ChannelSpec | parse_and_plot_log.py:53-96 | a channel's accumulated lists are in lock step with the format's width |
| Assemble.IngestEmptyIff | parse_and_plot_log.py:84-86 | `is_first_log` is true exactly while no record has been appended |
| Assemble.AppendRecord | parse_and_plot_log.py:71-96 | appending one record, with the first-log flag, is one step of the gap-filling fold |
| Assemble.Extend | parse_and_plot_log.py:57-96 | appending records to lists already in lock step keeps them in lock step, never shortens them, and leaves them empty only when they were empty and there were no records |
| Assemble.ExtendIngest | parse_and_plot_log.py:57-96 | carrying the lists and the first-log flag from one file to the next gives the same lists as ingesting all the records at once |
| Assemble.ReadFile | parse_and_plot_log.py:64-96 | reading one file either fails with that file's first abort, or appends the file's records to the lists it was given; the first-log flag stays set only if it was set and the file gave no record |
| Assemble.AccumulateChannel | parse_and_plot_log.py:53-96 | the loop over day folders builds exactly the channel's specified lists |
| Assemble.FrameRows | parse_and_plot_log.py:98-101 | the frame is sorted by time and is a permutation of the accumulated rows; it has at most twice as many rows as records; every row is a record's row or an all-MISSING row; the records' rows are exactly its real rows |
| Assemble.TwentyMinuteGapFrame | parse_and_plot_log.py:174-194 | readings at t0 and t0 + 20 min give the frame t0, t0 + 10 min (MISSING), t0 + 20 min |
| Assemble.TemperatureFrames | parse_and_plot_log.py:196-244 | `Temperature` yields one frame per channel |
| Assemble.TemperatureFramesErrPrefix | parse_and_plot_log.py:202-237 | once a channel aborts, later channels do not change the outcome |
| Assemble.AccumulateFrame | parse_and_plot_log.py:53-101 | accumulating and sorting one channel gives exactly its specified frame |
| Assemble.AccumulateTemperatures | parse_and_plot_log.py:196-244 | the per-channel loop gives exactly the four specified `Temperature` frames, each with its own first-log flag |
| Assemble.LogParsing | parse_and_plot_log.py:22-244 | `log_parsing` returns exactly the specified result: an error, a table, four tables, or nothing for an unknown tag |
| Slicer.Window | parse_and_plot_log.py:262 | a window never holds more samples than the series; which samples it holds, in both directions, is stated by WindowMembers |
| Slicer.FirstAtOrAfter | parse_and_plot_log.py:262 | the slice start is the first position whose instant is at or after the anchor |
| Slicer.FirstAfter | parse_and_plot_log.py:262 | the slice end is the first position whose instant is after the window's end |
| Slicer.LabelSliceIsWindow | parse_and_plot_log.py:262 | on a time-sorted series, label slicing `df[start:end]` selects exactly the samples in [anchor, anchor + span] |
| Slicer.WindowMembers | parse_and_plot_log.py:262 | a sample is in the window exactly when it is in the series and its instant is in [anchor, anchor + span] |
| Slicer.WindowSorted | parse_and_plot_log.py:262 | a window of a sorted series is sorted |
| Slicer.Rebase | parse_and_plot_log.py:263 | re-basing keeps one point per sample |
| Slicer.SliceContents | parse_and_plot_log.py:261-264 | slice i holds the window's values in order, at offsets from the window's first instant; the first offset is 0 and all lie in [0, span hours] |
| Slicer.AnchorAfterLast | parse_and_plot_log.py:262-264 | an anchor after the last sample gives an empty slice |
| Slicer.AnchorAtFirst | parse_and_plot_log.py:263 | an anchor at the first sample gives a slice starting at offset 0 with that sample's value |
| Slicer.SliceTimeseries | parse_and_plot_log.py:247-266 | one slice per anchor, and slice i is the re-based window of anchor i |
| Request.SplitRequest | parse_and_plot_log.py:297-301 | the channel holds no space; with a space in the selector the data type holds none either; without one the whole selector is the data type and the channel is empty |
| Request.SplitRequestJoin | parse_and_plot_log.py:297-301 | a data type and a channel joined by a space split back into the same two |
| Request.AnchorTokens | parse_and_plot_log.py:305 | the anchor text gives at least one token, and no token holds a comma or newline |
| Request.ReadAll | parse_and_plot_log.py:304-309 | at most one anchor per token |
| Request.ReadTokens | parse_and_plot_log.py:304-309 | the try/continue loop keeps exactly the readable tokens' instants, in order |
| Request.ParseAnchors | parse_and_plot_log.py:304-309 | the anchor list is exactly the readable stripped tokens' instants |
| Request.ReadAllAppend | parse_and_plot_log.py:304-309 | reading two token lists in sequence is the concatenation of reading each |
| Request.DropsUnreadable | parse_and_plot_log.py:306-309 | an unreadable token is dropped without affecting its neighbours |
| Request.ParsedAnchorsMembers | parse_and_plot_log.py:304-309 | an instant is an anchor exactly when some stripped token reads as it |
| Request.ReadFormatted | parse_and_plot_log.py:307 | a formatted timestamp is read back as its instant |
| Request.AnchorsRoundTrip | parse_and_plot_log.py:304-309 | a comma-joined list of formatted timestamps gives back exactly their instants, in order |
| Request.CurveOf | parse_and_plot_log.py:341-343 | a plotted curve pairs each offset with its value and carries the anchor |
| Request.KeptCurves | parse_and_plot_log.py:338-345 | at most one curve per slice |
| Request.PlotCurves | parse_and_plot_log.py:338-345 | the try/continue loop keeps exactly the specified curves |
| Request.KeptCurvesPaired | parse_and_plot_log.py:339-345 | a curve is kept exactly for a non-empty slice i that has an anchor i, and no kept curve is empty |
| Request.SlicesOf | parse_and_plot_log.py:335 | one slice per anchor |
| Request.CurveOfSlice | parse_and_plot_log.py:341-343 | a non-empty slice's curve plots the series' window at its anchor |
| Request.KeptCurvesPlot | parse_and_plot_log.py:335-345 | every kept curve's anchor is one of the anchors, and the curve plots that anchor's window |
| Request.DfSlices | parse_and_plot_log.py:294-347 | `df_slices` on a loaded series gives exactly the specified curves |
| Request.DfSlicesCurves | parse_and_plot_log.py:294-347 | there are no more curves than readable anchors, and each one plots the window of a readable anchor |
| Scenarios.RootIsNormal | parse_and_plot_log.py:29-31 | `log/` is already normal |
| Scenarios.OneDayFolder | parse_and_plot_log.py:38-48 | the entry `24-01-01` indexes as the folder of 2024-01-01 |
| Scenarios.FlowmeterPath | parse_and_plot_log.py:164 | that day's `Flowmeter` file is `log/24-01-01/Flowmeter 24-01-01.log` |
| Scenarios.LinesRead | parse_and_plot_log.py:174-182 | the two lines read as the readings at 10:00 and 10:20 on 24 January 2001 (the line date is day-first) |
| Scenarios.FileRecords | parse_and_plot_log.py:174-182 | the file gives those two records, twenty minutes apart |
| Scenarios.FlowmeterFileRecords | parse_and_plot_log.py:164-182 | in the one-file folder, the day's `Flowmeter` file exists and gives the two records |
| Scenarios.OneDayFrame | parse_and_plot_log.py:157-194 | a non-`Temperature` request over one day folder is the sorted frame of that day's records |
| Scenarios.OneDayTwoReadings | parse_and_plot_log.py:157-194 | a one-day `Flowmeter` folder with readings twenty minutes apart gives the three-row frame with a MISSING row in the middle |

## Left out

- Plotting, the widgets and `format_timedelta_ticks` are not modelled. They are display-only.
- The `stored_data` cache and the choice of series in `df_slices` (lines 311-332) are left out; `Request.DfSlices` starts from the loaded series. One consequence is not represented: a `Flowmeter` request stores a whole table, and `slice_timeseries` then fails on its missing `.name`.
- `os.listdir`, `os.path.isfile` and file reading are inputs: a list of names and a map from path to lines.
- Floating point is not modelled. `float` is an opaque conversion passed in, and NaN is `None`.
- Request.CurveOf: the plotted offsets stay in integer nanoseconds. The code plots `total_seconds()`, a float number of seconds, which is the same offset divided by 10^9.
- GapFill.Midpoint: for an odd sum the model takes the floor of the exact midpoint. Nanosecond rounding in `date_range` is not pinned down; only "between the two instants, exact when the sum is even" is claimed.
- Sorting.SortBy: equal timestamps are ordered by an insertion sort. `sort_index` is not stable by default, so only sortedness and permutation are claimed about the frame's row order.
- Calendar.ParseDateTime: models only the strict reading of the format. Leniencies of `pd.to_datetime` beyond it (single-digit fields, other separators) are left out.
- Calendar.ParseDate, Request.ReadAnchor: equally strict. A folder name such as `24-1-1` that `pd.to_datetime` accepts is dropped by the model. The strings `nan`, `NaT` and, in recent pandas, the empty string become `NaT` instead of raising. Such a folder name is kept by the code and such an anchor token gives a `NaT` anchor, while the model drops both.
- Pandas `DataFrame` and `DatetimeIndex` are reduced to `Frame` (column names plus rows) and `Series` (a name plus samples). Column label lookup is not modelled.
- An unrecognised data type makes `log_parsing` fall off its end and return `None`. The model returns `NoTable`.
- The "missing/incomplete" message printed for a skipped `Status` line is not modelled.
- The end-to-end `Flowmeter` example is not stated as a single lemma on literal inputs. It is the composition of `Scenarios.RootIsNormal`, `Scenarios.OneDayFolder`, `Scenarios.FlowmeterFileRecords` and `Scenarios.OneDayTwoReadings`.
