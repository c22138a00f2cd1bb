# Hypnogram report and sleep-statistic differences, in Dafny

This project models the report generator of the `pysleep` package and the
time-of-day difference of its sleep statistics, and proves properties of
the model.

A hypnogram is a list of stage codes, one per 30-second epoch. The report
generator (`src/pysleep/hypnogram_report.py`) works in six steps:

- It compresses the list into stage events, one per maximal run of equal
  codes (`extract_events_from_hypnogram`).
- It counts the epochs per stage name in first-seen order
  (`calculate_stage_summary`, `create_stage_summary`).
- It files the numbered events under clock hours when a start time is
  known (`group_events_by_hour`).
- It assembles the report dictionary (`generate_basic_stage_report`,
  `add_time_grouping`, `generate_hypnogram_report`), including the rule
  that an end time equal to the start time becomes the end of the recording.
- It writes the report as JSON text, with every `[index, stage, duration]`
  row on a line of its own (`format_json_compact`).
- Durations are rendered as `"1h 1m 5s"` (`format_duration`).

From `src/pysleep/stat.py` the model covers `subtract_relative_time`, the
difference of two clock times folded into (-12h, +12h], and the
`SleepStat.__sub__` rule for its integer and duration fields: a required
field is always the difference, and an optional field is present only when
both sides are truthy.

Modules, one per file:

| file | module | models |
|---|---|---|
| `wrappers.dfy` | `Wrappers` | `Option` |
| `text.dfy` | `Text` | `" ".join`, `str(int)` and their inverses |
| `duration.dfy` | `Duration` | `format_duration` |
| `stages.dfy` | `Stages` | `STAGE_MAP.get(code, f"Unknown({code})")` |
| `events.dfy` | `EventExtraction` | `extract_events_from_hypnogram` (runs of `groupby`) |
| `summary.dfy` | `Summary` | `calculate_stage_summary`, `create_stage_summary` |
| `hours.dfy` | `HourGrouping` | `group_events_by_hour` |
| `json.dfy` | `CompactJson` | `json.dumps` and `format_json_compact` |
| `document.dfy` | `CompactDocument` | the compact text is `json.dumps` re-indented |
| `report.dfy` | `HypnogramReport` | report assembly, `add_time_grouping` (a class updated in place), `generate_hypnogram_report` |
| `stat.dfy` | `SleepStats` | `subtract_relative_time`, `SleepStat.__sub__` |

Each `for` or `while` statement of the source is a method with a `while`
or `for` loop. The method is proved equal to a specification function, and
the properties are proved as lemmas about that function. The source's list
and dictionary comprehensions are functions. Times are whole seconds on one
timeline, and flooring to the hour is `(t / 3600) * 3600`.

Four operations the source takes from elsewhere are parameters of the
model:

- `strptime` parsing is `parse: string -> Option<int>`.
- `format_time_range` is `timeRange: (int, int) -> string`.
- The `.1f%` percentage text is `percent: (nat, nat) -> string`.
- `json.dumps` string escaping is `esc: string -> string`.

`STAGE_MAP` is a `map<int, string>` parameter. Where a property needs it,
the map must satisfy `ValidStageMap`: one name per code, and no name that
starts like `"Unknown("`.

## Model

| member | source | states |
|---|---|---|
| Duration.RenderDuration | src/pysleep/hypnogram_report.py:87-112 | appending the parts one by one and joining them with spaces gives `FormatDuration(seconds)` |
| Duration.PartsMeaning | src/pysleep/hypnogram_report.py:99-110 | there are 1 to 3 parts; `h` is present iff hours > 0, `m` iff minutes > 0, and `s` iff secs > 0 or there are no hours and no minutes; units come in h, m, s order; minute and second counts are below 60; the parts add up to the input |
| Duration.PartsOfUnits | src/pysleep/hypnogram_report.py:103-110 | each of the three `if`s appends its part exactly when its condition holds |
| Duration.PartsOfOrder | src/pysleep/hypnogram_report.py:103-110 | units are in "hms" and strictly decreasing in size, and counts other than hours are below 60 |
| Duration.PartsOfTotal | src/pysleep/hypnogram_report.py:99-110 | the parts add up to hours·3600 + minutes·60 + secs |
| Duration.ParsePartsRendered | src/pysleep/hypnogram_report.py:105-112 | rendering the parts and reading them back gives the same parts |
| Duration.RenderedHaveNoSpace | src/pysleep/hypnogram_report.py:105-112 | no rendered part holds a space, so the joined text splits back into its parts |
| Duration.FormatDurationRoundTrip | src/pysleep/hypnogram_report.py:87-112 | the text is never empty, and reading it back gives the seconds, so distinct durations give distinct texts |
| Duration.FormatDurationSmall | src/pysleep/hypnogram_report.py:90-97 | 0 gives "0s" and 45 gives "45s" |
| Duration.FormatDurationWhole | src/pysleep/hypnogram_report.py:92-93 | 300 gives "5m" and 3600 gives "1h" |
| Duration.FormatDurationMixed | src/pysleep/hypnogram_report.py:94 | 3665 gives "1h 1m 5s" |
| Text.NatToStringRoundTrip | src/pysleep/hypnogram_report.py:105-110 | the decimal text of a count reads back as the count |
| Text.IntToStringRoundTrip | src/pysleep/hypnogram_report.py:46 | the decimal text of a code, sign included, reads back as the code |
| Text.IntToStringInjective | src/pysleep/hypnogram_report.py:46 | two codes have the same decimal text iff they are equal |
| Text.SplitJoin | src/pysleep/hypnogram_report.py:112 | joining parts that lack the separator and splitting the result gives the parts back |
| Stages.StageName | src/pysleep/hypnogram_report.py:46 | `STAGE_MAP.get(code, ...)`: a mapped code gets its name from the map, and any other code gets an "Unknown(" name (its full form in `StageNameUnknown`, and distinctness in `StageNameInjective`) |
| Stages.StageNameUnknown | src/pysleep/hypnogram_report.py:46 | an unmapped code is named "Unknown(" + its decimal text + ")": the prefix, the code's decimal text, and a closing ")" as the last character |
| Stages.StageNameInjective | src/pysleep/hypnogram_report.py:46 | for a valid stage map, two codes get the same name iff they are equal, so each unmapped code gets its own name |
| EventExtraction.ExtractEvents | src/pysleep/hypnogram_report.py:16-53 | the events the loop appends are `Events(m, data)`: one event per run of `Runs(data)`, starting where the earlier runs end |
| EventExtraction.GroupEnd | src/pysleep/hypnogram_report.py:39-40 | the group `groupby` yields at `i` ends at the first later index with another code, or at the end of the input |
| EventExtraction.ExtractStep | src/pysleep/hypnogram_report.py:39-51 | the group found at `start_epoch` is the next run of the input, and `start_epoch + duration_epochs` is where the runs so far end |
| EventExtraction.EventsOfSnoc | src/pysleep/hypnogram_report.py:43-51 | appending a run appends its event, stamped with the sum of the earlier run lengths |
| EventExtraction.ExtractDone | src/pysleep/hypnogram_report.py:53 | once the loop has covered the input, the events are those of the whole input |
| EventExtraction.LeadCountSpec | src/pysleep/hypnogram_report.py:39-40 | a group's length is the number of leading codes equal to its first code, and the code after it differs |
| EventExtraction.RunsStep | src/pysleep/hypnogram_report.py:39-40 | the runs of a suffix are its first group followed by the runs of the rest |
| EventExtraction.RunsCorrect | src/pysleep/hypnogram_report.py:39-40 | every run is non-empty, neighbouring runs have different codes, expanding the runs rebuilds the input, and the run lengths sum to its length |
| EventExtraction.RunsMaximal | src/pysleep/hypnogram_report.py:39-40 | runs are non-empty and neighbouring runs differ; the first run has the first code |
| EventExtraction.RunsExpand | src/pysleep/hypnogram_report.py:39-40 | expanding the runs gives the input back |
| EventExtraction.RunsTotal | src/pysleep/hypnogram_report.py:39-41 | the run lengths sum to `len(hypnogram_data)` |
| EventExtraction.RunsUnique | src/pysleep/hypnogram_report.py:39-40 | any maximal run list that expands to the input is the one `groupby` yields |
| EventExtraction.EventsStarts | src/pysleep/hypnogram_report.py:33-51 | no input iff no events; the first start is 0; each later start is the previous start plus the previous run length; the last run ends at the end of the input |
| EventExtraction.EventsMaximal | src/pysleep/hypnogram_report.py:39-47 | one event per run; every run has at least one epoch; each duration text is that of its run's seconds; with a valid stage map, neighbouring events name different stages |
| EventExtraction.EventsCoverInput | src/pysleep/hypnogram_report.py:39-51 | every epoch an event covers carries the event's code, and its name is the event's stage |
| Summary.CalculateStageSummary | src/pysleep/hypnogram_report.py:56-84 | the two loops build `StageSummary(m, data, percent)`: one entry per distinct name in first-seen order, with its count's duration and percentage |
| Summary.TallyStep | src/pysleep/hypnogram_report.py:73-75 | counting one more epoch adds a new key for a new name and increments the count of a known one |
| Summary.FirstSeenMeaning | src/pysleep/hypnogram_report.py:73-79 | the dictionary's keys are distinct and are exactly the names that occur |
| Summary.CountsCoverAll | src/pysleep/hypnogram_report.py:73-79 | the per-name counts sum to the number of epochs |
| Summary.CountPerCode | src/pysleep/hypnogram_report.py:73-75 | with a valid stage map, a name's count is the number of epochs carrying its code |
| Summary.FirstSeenPrefix | src/pysleep/hypnogram_report.py:73-79 | the keys the dictionary has after the first i epochs are a prefix of its final keys, so a key keeps the place where its name first occurred |
| Summary.SummaryKeys | src/pysleep/hypnogram_report.py:66-79 | the summary is empty iff the input is; its keys are the names in first-seen order, with no key twice, and the keys of any prefix of the epochs are a prefix of the keys (`FirstSeenPrefix`); the counts sum to `len(hypnogram_data)` |
| Summary.SummaryCoversEpochs | src/pysleep/hypnogram_report.py:73-79 | every epoch's stage name has an entry |
| Summary.SummaryValues | src/pysleep/hypnogram_report.py:79-82 | each duration reads back as 30 seconds times the name's count; each percentage is that of the count out of all epochs |
| Summary.CreateStageSummary | src/pysleep/hypnogram_report.py:136-138 | one entry per summary entry, with the same keys in the same order, each mapped to a two-element list; `CreateStageSummaryRoundTrip` shows the list is `[duration, percentage]` and loses nothing |
| Summary.CreateStageSummaryRoundTrip | src/pysleep/hypnogram_report.py:136-138 | `{stage: [duration, percentage]}` keeps every key, its order and both values |
| HourGrouping.GroupEventsByHour | src/pysleep/hypnogram_report.py:141-181 | the groups the method builds are `GroupEvents(events, start, timeRange)` |
| HourGrouping.AdvanceHour | src/pysleep/hypnogram_report.py:164-172 | the inner `while` stops at the on-the-hour bucket that holds the event time, never moves back, and closes the old group only if it has rows |
| HourGrouping.FileEvent | src/pysleep/hypnogram_report.py:158-175 | after the inner loop, appending the event's row leaves the groups so far equal to those of the first i+1 events |
| HourGrouping.HourFloorSpec | src/pysleep/hypnogram_report.py:153 | `replace(minute=0, second=0)` gives the only on-the-hour time in (t-3600, t] |
| HourGrouping.CurrentHourAfter | src/pysleep/hypnogram_report.py:164-172 | after the inner loop the current hour is the later of the event's hour and the hour before |
| HourGrouping.GroupStep | src/pysleep/hypnogram_report.py:164-175 | filing event i under the current hour extends the groups of the first i events by its row |
| HourGrouping.GroupEventsWithoutStart | src/pysleep/hypnogram_report.py:143-150 | without a start time there is one "All Events" group holding `[i, stage, duration]` for i = 1..n in event order |
| HourGrouping.NumberedRows | src/pysleep/hypnogram_report.py:148 | row i of the numbered events is `[i + 1, stage, duration]` of event i |
| HourGrouping.BucketsFlatten | src/pysleep/hypnogram_report.py:158-181 | the groups' rows, concatenated, are rows 1..n in order, with no event lost or repeated |
| HourGrouping.BucketsHours | src/pysleep/hypnogram_report.py:164-179 | no group is empty; group hours are on the hour, no earlier than the start's hour, and strictly increasing |
| HourGrouping.BucketsRows | src/pysleep/hypnogram_report.py:158-175 | every row sits in the group of the hour its event is filed under |
| HourGrouping.GroupEventsWithStart | src/pysleep/hypnogram_report.py:152-181 | with a start time, the groups are non-empty, increasing by hour and cover rows 1..n in order; no events iff no groups |
| HourGrouping.SortedHourOf | src/pysleep/hypnogram_report.py:160-172 | for events in start order, an event is filed under the clock hour of its own start time |
| HourGrouping.ExtractedEventsSorted | src/pysleep/hypnogram_report.py:37-51 | extracted events are in start order |
| HourGrouping.SortedByClockHour | src/pysleep/hypnogram_report.py:158-175 | for events in start order, every row's event time, start + 30·start_epoch, lies in [hour, hour + 3600) of its group |
| HourGrouping.ExtractedEventsByClockHour | src/pysleep/hypnogram_report.py:158-175 | the same holds for the events of any hypnogram |
| CompactJson.FormatValue | src/pysleep/hypnogram_report.py:248-303 | the lines the method builds, joined with line breaks, are `Format(v, indent, esc)`; an empty dictionary is "{}" and anything but a dictionary is `json.dumps` |
| CompactJson.FormatEntry | src/pysleep/hypnogram_report.py:258-294 | the lines of one entry are `EntryLines`: the stage-row layout, the hour-group layout or `"key": value`, each with its trailing comma unless last |
| CompactJson.WriteStageRows | src/pysleep/hypnogram_report.py:263-272 | one line per row, `json.dumps` of the row, with a comma on all but the last |
| CompactJson.WriteHourGroups | src/pysleep/hypnogram_report.py:277-286 | each hour group is written as its head lines, its rows and its two closing lines |
| CompactJson.EntryLinesCases | src/pysleep/hypnogram_report.py:258-294 | a non-empty "stages" list, a "sleep_stages_by_hour" list and any other entry each get the layout of their branch |
| CompactJson.FieldsLinesStep | src/pysleep/hypnogram_report.py:256-294 | each entry appends its lines after those of the entries before it |
| CompactJson.GroupLinesStep | src/pysleep/hypnogram_report.py:277-286 | each hour group appends its lines after those of the groups before it |
| CompactDocument.ElementLinesAt | src/pysleep/hypnogram_report.py:263-272 | line k of a stage list is the prefix, `json.dumps` of row k and a comma unless row k is the last |
| CompactDocument.StageRowLine | src/pysleep/hypnogram_report.py:263-273 | each row is on a line of its own, and a line ends with a comma iff its row is not the last |
| CompactDocument.DumpsEnd | src/pysleep/hypnogram_report.py:266-268 | `json.dumps` of a value never ends with a comma, so the comma rule alone decides the line's end |
| CompactDocument.DumpsOneLine | src/pysleep/hypnogram_report.py:266 | with a sound escaping, `json.dumps` output has no line break |
| CompactDocument.GroupLinesMin | src/pysleep/hypnogram_report.py:277-286 | an hour group's lines, with the whitespace outside string literals removed, are `json.dumps` of the group followed by its comma |
| CompactDocument.EntryLinesMin | src/pysleep/hypnogram_report.py:258-294 | the same for one entry of a dictionary |
| CompactDocument.FormatMin | src/pysleep/hypnogram_report.py:248-303 | the compact text is `json.dumps` re-indented: removing whitespace outside string literals from both gives the same text |
| HypnogramReport.Report.AddTimeGrouping | src/pysleep/hypnogram_report.py:208-231 | the report becomes `WithTimeGrouping(old report)`: the sleep time is set only when both times are known, and the hour groups are replaced |
| HypnogramReport.WithTimeGrouping | src/pysleep/hypnogram_report.py:220-229 | the fallback without a start time is exactly the no-start result of `group_events_by_hour` |
| HypnogramReport.GenerateBasicStageReport | src/pysleep/hypnogram_report.py:184-205 | the new report is `BasicStageReport(len(data), summary)`; the events are not used |
| HypnogramReport.BasicStageReportMeaning | src/pysleep/hypnogram_report.py:200-205 | no sleep time, no hour groups, a duration that reads back as 30·len(data) seconds, and a summary that reads back as the given one |
| HypnogramReport.ParseTime | src/pysleep/hypnogram_report.py:115-122 | an empty text gives no time, and any other text gives what the parser makes of it; with `strptime` as the parameter `parse`, these two cases are all of `parse_time` |
| HypnogramReport.CalculateEndTime | src/pysleep/hypnogram_report.py:130-133 | the end is 30 seconds per epoch after the start, and equals the start iff there are no epochs |
| HypnogramReport.EndTime | src/pysleep/hypnogram_report.py:349-350 | an end time equal to the start time, with at least one epoch, becomes the start plus 30 seconds per epoch, which differs from the start; any other end, missing or not, is kept |
| HypnogramReport.SleepTimeRule | src/pysleep/hypnogram_report.py:216-217 | the sleep time is the range of start and end when both are known, with an end equal to the start moved to the end of the recording when there are epochs, and "" otherwise |
| HypnogramReport.HypnogramSleepTime | src/pysleep/hypnogram_report.py:345-353 | the same, stated for the texts given to `generate_hypnogram_report` |
| HypnogramReport.HypnogramReportContents | src/pysleep/hypnogram_report.py:338-353 | the duration reads back as 30·len(data) seconds, the summary is the night's, and the hour groups are those of its events |
| HypnogramReport.GenerateHypnogramReport | src/pysleep/hypnogram_report.py:308-356 | the compact result is the compact text of `HypnogramReportOf(...)`; otherwise it is a fresh report dictionary holding it |
| HypnogramReport.NameNotHoursKey | src/pysleep/hypnogram_report.py:46 | no unknown-code name is "sleep_stages_by_hour" |
| HypnogramReport.SummaryNamesLayable | src/pysleep/hypnogram_report.py:74-79 | when no stage is named "sleep_stages_by_hour", no summary key is either |
| HypnogramReport.ReportJsonFormattable | src/pysleep/hypnogram_report.py:252-294 | such a report can be laid out, and each of its hour groups is exactly `{"hour_range", "stages"}` |
| HypnogramReport.UnknownNamePlain | src/pysleep/hypnogram_report.py:46 | an unknown-code name is printable ASCII without quotes or backslashes |
| HypnogramReport.SummaryNamesPlain | src/pysleep/hypnogram_report.py:74-79 | with plain stage names, every summary key is plain |
| HypnogramReport.ReportKeysVerbatim | src/pysleep/hypnogram_report.py:262-294 | every key the layout writes unescaped would be written the same by `json.dumps` |
| HypnogramReport.CompactReportMatchesDumps | src/pysleep/hypnogram_report.py:234-305 | the compact text of a report is `json.dumps` of it, re-indented |
| HypnogramReport.GeneratedReportMatchesDumps | src/pysleep/hypnogram_report.py:353-356 | the text `generate_hypnogram_report` returns is the report as JSON, given plain stage names none of which is "sleep_stages_by_hour" |
| SleepStats.SubtractRelativeTime | src/pysleep/stat.py:183-192 | the result lies in (-43200, 43200] and differs from the difference of the times of day by a whole number of days |
| SleepStats.SubtractRelativeTimeUnique | src/pysleep/stat.py:186-190 | it is the only such value, so dates and UTC offsets do not matter |
| SleepStats.SubtractRelativeTimeSwap | src/pysleep/stat.py:187-190 | swapping the arguments negates the result, except that 12h apart gives +12h both ways |
| SleepStats.SubtractRelativeTimeCases | src/pysleep/stat_test.py:12-39 | the eight cases of the test table, including wrap-around midnight, differing dates, differing UTC offsets and exactly 12h apart |
| SleepStats.Subtract | src/pysleep/stat.py:51-104 | `self - other`: the clock fields are the folded time-of-day differences of `subtract_relative_time`; adding `other` back to every required integer or duration field gives `self`; each optional field is present iff both sides are truthy, and then adding `other` back gives `self` (see also `OptionalDiff`, `SubtractSwap`, `SubtractSelf`) |
| SleepStats.OptionalDiff | src/pysleep/stat.py:70-103 | an optional field's difference is present iff both sides are truthy, and then it is `self - other` |
| SleepStats.SubtractSwap | src/pysleep/stat.py:51-104 | swapping the operands negates every field of the delta, with 12h clock differences staying +12h |
| SleepStats.SubtractSelf | src/pysleep/stat.py:51-104 | a statistic minus itself is zero in every required field, and zero or absent in each optional field as it is truthy or not |

## Left out

- `parse_time`: `strptime` is the parameter `parse`. `ParseTime` only adds the source's rule that an empty text gives no time.
- `format_time_range`: the 12-hour `%I:%M %p` rendering is the parameter `timeRange`.
- The percentage of `calculate_stage_summary` (a float rendered with `.1f` and `%`) is the parameter `percent` of the count and the total. Its rounding is not modelled.
- `json.dumps` string escaping is the parameter `esc`. The layout writes dictionary keys unescaped. Equality with `json.dumps` is proved only for keys that escaping leaves alone (`KeysVerbatim`, `EscapeKeepsPlain`), for stage names in printable ASCII without quotes or backslashes, and for hour groups with exactly the entries the layout writes.
- JSON floats are not modelled. The report holds only strings, integers, lists and dictionaries.
- `format_json_compact` on a "sleep_stages_by_hour" list whose items are not dictionaries raises in the source. `Formattable` excludes those values, and `GenerateHypnogramReport` in compact mode requires that no stage be named "sleep_stages_by_hour" (`LayableNames`).
- Dates, calendars and time zones: times are whole seconds on one timeline, and the date rollover of `datetime`/`timedelta` is not modelled. `subtract_relative_time` sees only the seconds since midnight, as `.time()` does.
- Microseconds and the float result of `total_seconds()`: all times are whole seconds.
- `SleepStat.update_to_timezone` depends on the time-zone database.
- The float fields of `SleepStat.__sub__` (efficiency, ratios, breathing index) and its string field are not modelled. `snoring_count` and `sleep_cycle_time` are not carried into the delta, as in the source.
- The label module that defines the codes and names of `STAGE_MAP` is not part of this model: the map is a parameter.
- `src/pysleep/__init__.py` only re-exports.
- Integers are unbounded, as Python's are.
- In-place updates are modelled only where the source performs them on the report (`Report.AddTimeGrouping`). The lists and dictionaries the loops build are local `seq` and `map` values.
