/**
 * Report assembly of src/pysleep/hypnogram_report.py: the basic report
 * (`generate_basic_stage_report`), the time information added to it in
 * place (`add_time_grouping`), the whole pipeline
 * (`generate_hypnogram_report`) and the report as a JSON value.
 *
 * Times are whole seconds on one timeline. Parsing a time text
 * (`strptime` with "%Y-%m-%d %H:%M:%S") is the parameter `parse`, the
 * rendering of a time range (`format_time_range`) the parameter
 * `timeRange`, the percentage text the parameter `percent` and the
 * escaping of JSON strings the parameter `esc`.
 */
module HypnogramReport {
  import opened Wrappers
  import opened Text
  import opened Duration
  import opened Stages
  import opened EventExtraction
  import opened Summary
  import opened HourGrouping
  import opened CompactJson
  import opened CompactDocument

  /** The report dictionary, entry by entry, in its key order. */
  datatype ReportValue = ReportValue(
    sleepTime: string,
    duration: string,
    stageSummary: seq<(string, seq<string>)>,
    byHour: seq<HourGroup>)

  /** The report dictionary, which `add_time_grouping` updates in place. */
  class Report {
    var sleepTime: string
    var duration: string
    var stageSummary: seq<(string, seq<string>)>
    var byHour: seq<HourGroup>

    function Value(): ReportValue
      reads this
    {
      ReportValue(sleepTime, duration, stageSummary, byHour)
    }

    constructor (v: ReportValue)
      ensures Value() == v
    {
      sleepTime := v.sleepTime;
      duration := v.duration;
      stageSummary := v.stageSummary;
      byHour := v.byHour;
    }

    /**
     * `add_time_grouping`: sets the sleep time when both ends are known
     * and replaces the hour groups; without a start time there is the
     * single "All Events" group.
     */
    method AddTimeGrouping(events: seq<StageEvent>, start: Option<int>, end: Option<int>, timeRange: (int, int) -> string)
      modifies this
      ensures Value() == WithTimeGrouping(old(Value()), events, start, end, timeRange)
    {
      if start.Some? && end.Some? {
        sleepTime := timeRange(start.value, end.value);
      }
      if start.Some? {
        var groups := GroupEventsByHour(events, start, timeRange);
        byHour := groups;
      } else {
        byHour := [AllEventsGroup(events)];
      }
    }
  }

  /** The report `generate_basic_stage_report` builds for `numEpochs` epochs. */
  function BasicStageReport(numEpochs: nat, summary: seq<StageTotal>): ReportValue
  {
    ReportValue("", FormatDuration(numEpochs * EPOCH_DURATION), CreateStageSummary(summary), [])
  }

  /** `generate_basic_stage_report`: a new report dictionary; the events are not used. */
  method GenerateBasicStageReport(data: seq<int>, events: seq<StageEvent>, summary: seq<StageTotal>) returns (report: Report)
    ensures fresh(report) && report.Value() == BasicStageReport(|data|, summary)
  {
    report := new Report(BasicStageReport(|data|, summary));
  }

  /**
   * Before the time information: no sleep time, the night's length as a
   * duration text, the stage summary as `[duration, percentage]` pairs and
   * no hour groups.
   */
  lemma BasicStageReportMeaning(data: seq<int>, summary: seq<StageTotal>)
    ensures var r := BasicStageReport(|data|, summary);
      && r.sleepTime == "" && r.byHour == []
      && ParseDuration(r.duration) == Some(|data| * EPOCH_DURATION)
      && ReadStageSummary(r.stageSummary) == Some(summary)
  {
    FormatDurationRoundTrip(|data| * EPOCH_DURATION);
    CreateStageSummaryRoundTrip(summary);
  }

  /** The report after `add_time_grouping`. */
  function WithTimeGrouping(r: ReportValue, events: seq<StageEvent>, start: Option<int>, end: Option<int>,
                            timeRange: (int, int) -> string): (w: ReportValue)
    ensures w.byHour == GroupEvents(events, start, timeRange)
  {
    r.(sleepTime := if start.Some? && end.Some? then timeRange(start.value, end.value) else r.sleepTime,
       byHour := if start.Some? then GroupEvents(events, start, timeRange) else [AllEventsGroup(events)])
  }

  /** `parse_time`: an empty text is no time; any other is what the parser makes of it. */
  function ParseTime(text: string, parse: string -> Option<int>): (t: Option<int>)
    ensures text == "" ==> t == None
    ensures text != "" ==> t == parse(text)
  {
    if text == "" then None else parse(text)
  }

  /** `calculate_end_time`: 30 seconds after the start per epoch. */
  function CalculateEndTime(start: int, numEpochs: nat): (end: int)
    ensures end >= start && (end == start <==> numEpochs == 0)
    ensures end - start == numEpochs * EPOCH_DURATION
  {
    start + numEpochs * EPOCH_DURATION
  }

  /** The end time after the rule for an end equal to the start. */
  function EndTime(start: Option<int>, end: Option<int>, numEpochs: nat): (e: Option<int>)
    ensures e.None? <==> end.None?
    ensures start.Some? && end == start && numEpochs > 0 ==>
      e.Some? && e.value - start.value == numEpochs * EPOCH_DURATION && e != end
    ensures !(start.Some? && end == start && numEpochs > 0) ==> e == end
  {
    if start.Some? && end == start && numEpochs > 0 then Some(CalculateEndTime(start.value, numEpochs)) else end
  }

  /** The report `generate_hypnogram_report` builds, as a specification. */
  function HypnogramReportOf(m: StageMap, data: seq<int>, startText: string, endText: string,
                             parse: string -> Option<int>, timeRange: (int, int) -> string,
                             percent: (nat, nat) -> string): ReportValue
  {
    var start := ParseTime(startText, parse);
    var end := EndTime(start, ParseTime(endText, parse), |data|);
    WithTimeGrouping(BasicStageReport(|data|, StageSummary(m, data, percent)), Events(m, data), start, end, timeRange)
  }

  /**
   * The sleep time of the report: the range from the start to the end
   * when both parse, with an end equal to the start replaced by the end of
   * the recording when there are epochs, and "" otherwise.
   */
  lemma HypnogramSleepTime(m: StageMap, data: seq<int>, startText: string, endText: string,
                           parse: string -> Option<int>, timeRange: (int, int) -> string,
                           percent: (nat, nat) -> string)
    ensures var r := HypnogramReportOf(m, data, startText, endText, parse, timeRange, percent);
      var start, end := ParseTime(startText, parse), ParseTime(endText, parse);
      && (start.None? || end.None? ==> r.sleepTime == "")
      && (start.Some? && end.Some? && end != start ==> r.sleepTime == timeRange(start.value, end.value))
      && (start.Some? && end == start && |data| > 0 ==>
            r.sleepTime == timeRange(start.value, CalculateEndTime(start.value, |data|)))
      && (start.Some? && end == start && |data| == 0 ==> r.sleepTime == timeRange(start.value, start.value))
  {
    var start, end := ParseTime(startText, parse), ParseTime(endText, parse);
    var base := BasicStageReport(|data|, StageSummary(m, data, percent));
    var r := WithTimeGrouping(base, Events(m, data), start, EndTime(start, end, |data|), timeRange);
    assert HypnogramReportOf(m, data, startText, endText, parse, timeRange, percent) == r;
    SleepTimeRule(base, Events(m, data), start, end, |data|, timeRange);
  }

  lemma SleepTimeRule(base: ReportValue, events: seq<StageEvent>, start: Option<int>, end: Option<int>, n: nat,
                      timeRange: (int, int) -> string)
    requires base.sleepTime == ""
    ensures var r := WithTimeGrouping(base, events, start, EndTime(start, end, n), timeRange);
      && (start.None? || end.None? ==> r.sleepTime == "")
      && (start.Some? && end.Some? && end != start ==> r.sleepTime == timeRange(start.value, end.value))
      && (start.Some? && end == start && n > 0 ==> r.sleepTime == timeRange(start.value, CalculateEndTime(start.value, n)))
      && (start.Some? && end == start && n == 0 ==> r.sleepTime == timeRange(start.value, start.value))
  {
  }

  /**
   * The rest of the report: the duration is 30 seconds per epoch, and the
   * stage summary and hour groups are those of the night.
   */
  lemma HypnogramReportContents(m: StageMap, data: seq<int>, startText: string, endText: string,
                                parse: string -> Option<int>, timeRange: (int, int) -> string,
                                percent: (nat, nat) -> string)
    ensures var r := HypnogramReportOf(m, data, startText, endText, parse, timeRange, percent);
      && ParseDuration(r.duration) == Some(|data| * EPOCH_DURATION)
      && ReadStageSummary(r.stageSummary) == Some(StageSummary(m, data, percent))
      && r.byHour == GroupEvents(Events(m, data), ParseTime(startText, parse), timeRange)
  {
    var summary := StageSummary(m, data, percent);
    BasicStageReportMeaning(data, summary);
  }

  /** What `generate_hypnogram_report` returns: JSON text or the report dictionary. */
  datatype ReportOutput = CompactText(text: string) | RawReport(report: Report)

  /** No stage is named like the hour-group entry, whose layout expects hour groups. */
  predicate LayableNames(m: StageMap)
  {
    forall c :: c in m ==> m[c] != "sleep_stages_by_hour"
  }

  /**
   * `generate_hypnogram_report`: extracts the events, counts the stages,
   * builds the report, adds the time information and returns it as
   * compact JSON text or as the dictionary itself.
   */
  method GenerateHypnogramReport(m: StageMap, data: seq<int>, startText: string, endText: string, compact: bool,
                                 parse: string -> Option<int>, timeRange: (int, int) -> string,
                                 percent: (nat, nat) -> string, esc: string -> string)
    returns (out: ReportOutput)
    requires compact ==> LayableNames(m)
    ensures var r := HypnogramReportOf(m, data, startText, endText, parse, timeRange, percent);
      && (compact ==> Formattable(ReportJson(r)) && out == CompactText(Format(ReportJson(r), 0, esc)))
      && (!compact ==> out.RawReport? && fresh(out.report) && out.report.Value() == r)
  {
    var events := ExtractEvents(m, data);
    var summary := CalculateStageSummary(m, data, percent);
    var report := GenerateBasicStageReport(data, events, summary);
    var startDt := ParseTime(startText, parse);
    var endDt := ParseTime(endText, parse);
    if startDt.Some? && endDt == startDt && |data| > 0 {
      endDt := Some(CalculateEndTime(startDt.value, |data|));
    }
    report.AddTimeGrouping(events, startDt, endDt, timeRange);
    if compact {
      var v := report.Value();
      SummaryNamesLayable(m, data, percent);
      ReportJsonFormattable(v);
      var text := FormatValue(ReportJson(v), 0, esc);
      return CompactText(text);
    }
    return RawReport(report);
  }

  /*
   * The report as a JSON value: strings, the stage summary as a
   * dictionary of two-string lists, the hour groups as dictionaries of an
   * hour range and a list of `[index, stage, duration]` rows.
   */

  function Strings(ss: seq<string>): (items: seq<Json>)
    ensures |items| == |ss|
  {
    seq(|ss|, k requires 0 <= k < |ss| => JStr(ss[k]))
  }

  function SummaryFields(pairs: seq<(string, seq<string>)>): (fields: seq<Field>)
    ensures |fields| == |pairs|
  {
    seq(|pairs|, k requires 0 <= k < |pairs| => Field(pairs[k].0, JArr(Strings(pairs[k].1))))
  }

  function TripleJson(t: Triple): Json
  {
    JArr([JInt(t.index), JStr(t.stage), JStr(t.duration)])
  }

  function GroupJson(g: HourGroup): Json
  {
    JObj([Field("hour_range", JStr(g.hourRange)),
          Field("stages", JArr(seq(|g.stages|, k requires 0 <= k < |g.stages| => TripleJson(g.stages[k]))))])
  }

  function GroupsJson(gs: seq<HourGroup>): (items: seq<Json>)
    ensures |items| == |gs|
  {
    seq(|gs|, k requires 0 <= k < |gs| => GroupJson(gs[k]))
  }

  function ReportJson(r: ReportValue): Json
  {
    JObj([Field("sleep_time", JStr(r.sleepTime)),
          Field("duration", JStr(r.duration)),
          Field("sleep_stage_summary", JObj(SummaryFields(r.stageSummary))),
          Field("sleep_stages_by_hour", JArr(GroupsJson(r.byHour)))])
  }

  /** Every stage summary key is the name of some epoch's stage. */
  lemma SummaryNamesLayable(m: StageMap, data: seq<int>, percent: (nat, nat) -> string)
    requires LayableNames(m)
    ensures var r := BasicStageReport(|data|, StageSummary(m, data, percent));
      forall k :: 0 <= k < |r.stageSummary| ==> r.stageSummary[k].0 != "sleep_stages_by_hour"
  {
    var summary, names := StageSummary(m, data, percent), Names(m, data);
    assert forall x :: x in FirstSeen(names) ==> x in names by {
      FirstSeenMeaning(names);
    }
    forall k | 0 <= k < |summary|
      ensures summary[k].stage != "sleep_stages_by_hour"
    {
      assert summary[k].stage in FirstSeen(names);
      var i :| 0 <= i < |names| && names[i] == summary[k].stage;
      NameNotHoursKey(m, data[i]);
    }
  }

  /** No stage name, mapped or unknown, is the key of the hour groups. */
  lemma NameNotHoursKey(m: StageMap, code: int)
    requires LayableNames(m)
    ensures StageName(m, code) != "sleep_stages_by_hour"
  {
    if code !in m {
      var name := StageName(m, code);
      assert name[0] == 'U' by {
        StageNameUnknown(m, code);
        assert name[..8][0] == "Unknown("[0];
      }
    }
  }

  /** The hour groups of a report are exactly what the layout writes. */
  lemma GroupsExact(gs: seq<HourGroup>)
    ensures forall k :: 0 <= k < |gs| ==> ExactGroup(GroupsJson(gs)[k]) && HourGroupReadable(GroupsJson(gs)[k])
  {
    forall k | 0 <= k < |gs|
      ensures ExactGroup(GroupsJson(gs)[k]) && HourGroupReadable(GroupsJson(gs)[k])
    {
      ExactReadable(GroupsJson(gs)[k]);
    }
  }

  /**
   * A report the compact layout can write, with its hour groups exactly
   * as the layout writes them, unless a stage is named like the
   * hour-group entry.
   */
  lemma ReportJsonFormattable(r: ReportValue)
    requires forall k :: 0 <= k < |r.stageSummary| ==> r.stageSummary[k].0 != "sleep_stages_by_hour"
    ensures Formattable(ReportJson(r)) && LayoutExact(ReportJson(r))
  {
    var fs := SummaryFields(r.stageSummary);
    forall k | 0 <= k < |fs|
      ensures FieldFormattable(fs[k]) && FieldLayoutExact(fs[k])
    {
      assert !IsHoursEntry(fs[k]);
    }
    assert Formattable(JObj(fs)) && LayoutExact(JObj(fs));
    GroupsExact(r.byHour);
    var v := ReportJson(r);
    assert FieldFormattable(v.fields[3]) && FieldLayoutExact(v.fields[3]);
    assert forall k :: 0 <= k < 3 ==> !IsStagesEntry(v.fields[k]) && !IsHoursEntry(v.fields[k]);
  }

  /*
   * The compact text against `json.dumps`. The layout writes dictionary
   * keys without escaping them, so the two agree when every key is left
   * alone by the escaping: the report's own keys and the stage names are
   * printable ASCII without quotes or backslashes.
   */

  /** Printable ASCII without a quote or a backslash: text JSON escaping leaves alone. */
  predicate PlainText(s: string)
  {
    forall k :: 0 <= k < |s| ==> ' ' <= s[k] <= '~' && s[k] != '"' && s[k] != '\\'
  }

  ghost predicate EscapeKeepsPlain(esc: string -> string)
  {
    forall s :: PlainText(s) ==> esc(s) == s
  }

  /** Every stage has a plain name. */
  predicate PlainNames(m: StageMap)
  {
    forall c :: c in m ==> PlainText(m[c])
  }

  lemma ReportKeysPlain()
    ensures PlainText("sleep_time") && PlainText("duration") && PlainText("sleep_stage_summary")
    ensures PlainText("sleep_stages_by_hour") && PlainText("hour_range") && PlainText("stages")
  {
  }

  /** The name of an unknown stage code is plain. */
  lemma UnknownNamePlain(code: int)
    ensures PlainText("Unknown(" + IntToString(code) + ")")
  {
    var digits := if code < 0 then NatToString(-code) else NatToString(code);
    assert forall k :: 0 <= k < |digits| ==> IsDigit(digits[k]);
    var name := "Unknown(" + IntToString(code) + ")";
    forall k | 0 <= k < |name|
      ensures ' ' <= name[k] <= '~' && name[k] != '"' && name[k] != '\\'
    {
      if 8 <= k < |name| - 1 {
        if code < 0 {
          assert name[k] == ("-" + digits)[k - 8];
        } else {
          assert name[k] == digits[k - 8];
        }
      }
    }
  }

  /** With plain stage names, every key of the summary is plain. */
  lemma SummaryNamesPlain(m: StageMap, data: seq<int>, percent: (nat, nat) -> string)
    requires PlainNames(m)
    ensures var r := BasicStageReport(|data|, StageSummary(m, data, percent));
      forall k :: 0 <= k < |r.stageSummary| ==> PlainText(r.stageSummary[k].0)
  {
    var summary, names := StageSummary(m, data, percent), Names(m, data);
    FirstSeenMeaning(names);
    forall k | 0 <= k < |summary|
      ensures PlainText(summary[k].stage)
    {
      assert summary[k].stage in FirstSeen(names);
      var i :| 0 <= i < |names| && names[i] == summary[k].stage;
      if data[i] !in m {
        UnknownNamePlain(data[i]);
      }
    }
  }

  /** With plain summary keys, every key of the report is written verbatim. */
  lemma ReportKeysVerbatim(r: ReportValue, esc: string -> string)
    requires EscapeKeepsPlain(esc)
    requires forall k :: 0 <= k < |r.stageSummary| ==> PlainText(r.stageSummary[k].0)
    ensures KeysVerbatim(ReportJson(r), esc)
  {
    ReportKeysPlain();
    var fs := SummaryFields(r.stageSummary);
    forall k | 0 <= k < |fs|
      ensures FieldKeysVerbatim(fs[k], esc)
    {
      var items := fs[k].value.items;
      assert forall j :: 0 <= j < |items| ==> KeysVerbatim(items[j], esc);
    }
    var gs := GroupsJson(r.byHour);
    forall k | 0 <= k < |gs|
      ensures KeysVerbatim(gs[k], esc)
    {
      var rows := gs[k].fields[1].value.items;
      forall j | 0 <= j < |rows|
        ensures KeysVerbatim(rows[j], esc)
      {
        assert forall i :: 0 <= i < |rows[j].items| ==> KeysVerbatim(rows[j].items[i], esc);
      }
      assert FieldKeysVerbatim(gs[k].fields[0], esc) && FieldKeysVerbatim(gs[k].fields[1], esc);
    }
    var v := ReportJson(r);
    assert forall k :: 0 <= k < 4 ==> FieldKeysVerbatim(v.fields[k], esc);
  }

  /**
   * The compact text of a report is `json.dumps` of it, re-indented: with
   * the whitespace outside string literals removed the two are the same
   * text, given a sound escaping and plain stage names that are not
   * "sleep_stages_by_hour".
   */
  lemma CompactReportMatchesDumps(r: ReportValue, esc: string -> string)
    requires EscapeSound(esc) && EscapeKeepsPlain(esc)
    requires forall k :: 0 <= k < |r.stageSummary| ==>
      PlainText(r.stageSummary[k].0) && r.stageSummary[k].0 != "sleep_stages_by_hour"
    ensures Formattable(ReportJson(r))
    ensures Min(Format(ReportJson(r), 0, esc)) == Min(Dumps(ReportJson(r), esc))
  {
    ReportJsonFormattable(r);
    ReportKeysVerbatim(r, esc);
    FormatMin(ReportJson(r), 0, esc);
  }

  /** The text `generate_hypnogram_report` returns in compact mode is the report as JSON. */
  lemma GeneratedReportMatchesDumps(m: StageMap, data: seq<int>, startText: string, endText: string,
                                    parse: string -> Option<int>, timeRange: (int, int) -> string,
                                    percent: (nat, nat) -> string, esc: string -> string)
    requires EscapeSound(esc) && EscapeKeepsPlain(esc) && PlainNames(m) && LayableNames(m)
    ensures var v := ReportJson(HypnogramReportOf(m, data, startText, endText, parse, timeRange, percent));
      Formattable(v) && Min(Format(v, 0, esc)) == Min(Dumps(v, esc))
  {
    SummaryNamesPlain(m, data, percent);
    SummaryNamesLayable(m, data, percent);
    CompactReportMatchesDumps(HypnogramReportOf(m, data, startText, endText, parse, timeRange, percent), esc);
  }
}

