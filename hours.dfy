/**
 * `group_events_by_hour` (src/pysleep/hypnogram_report.py): the numbered
 * events of a night split into clock hours. Times are whole seconds on
 * one timeline; the rendering of an hour range (`format_time_range`, a
 * 12-hour clock text) is the parameter `timeRange`.
 */
module HourGrouping {
  import opened Wrappers
  import opened Stages
  import opened EventExtraction

  /** Seconds per hour. */
  const HOUR: nat := 3600

  /** One row of an hour group: `[index, stage, duration]`, the index counting from 1. */
  datatype Triple = Triple(index: nat, stage: string, duration: string)

  /** `{"hour_range": ..., "stages": [...]}`. */
  datatype HourGroup = HourGroup(hourRange: string, stages: seq<Triple>)

  /** A group together with the start of the hour it covers. */
  datatype Bucket = Bucket(hour: int, stages: seq<Triple>)

  /** The hour range text used when no start time is known. */
  const ALL_EVENTS := "All Events"

  /** The events as rows, numbered from 1. */
  function Numbered(events: seq<StageEvent>): (rows: seq<Triple>)
    ensures |rows| == |events|
  {
    NumberedUpTo(events, |events|)
  }

  /** The first `n` events as rows. */
  function NumberedUpTo(events: seq<StageEvent>, n: nat): (rows: seq<Triple>)
    requires n <= |events|
    ensures |rows| == n
  {
    if n == 0 then [] else NumberedUpTo(events, n - 1) + [Row(events, n)]
  }

  /** The single group of a report without time information. */
  function AllEventsGroup(events: seq<StageEvent>): HourGroup
  {
    HourGroup(ALL_EVENTS, Numbered(events))
  }

  /** A time at the start of a clock hour. */
  predicate OnTheHour(t: int)
  {
    t % HOUR == 0
  }

  /** `replace(minute=0, second=0)`: the start of the clock hour holding `t`. */
  function HourFloor(t: int): int
  {
    (t / HOUR) * HOUR
  }

  /** When event `e` of a night starting at `start` begins. */
  function EventTime(start: int, e: StageEvent): int
  {
    start + e.startEpoch * EPOCH_DURATION
  }

  /**
   * The hour under which event `i` is filed: the hour of the start time or
   * of any event so far, whichever is latest (the current hour only ever
   * moves forward).
   */
  function HourOf(events: seq<StageEvent>, start: int, i: nat): int
    requires i < |events|
  {
    var h := HourFloor(EventTime(start, events[i]));
    var previous := if i == 0 then HourFloor(start) else HourOf(events, start, i - 1);
    if h > previous then h else previous
  }

  /** Row `n` of the report: event `n - 1` numbered from 1. */
  function Row(events: seq<StageEvent>, n: nat): Triple
    requires 0 < n <= |events|
  {
    Triple(n, events[n - 1].stage, events[n - 1].duration)
  }

  /**
   * Files `row` under hour `h`: it joins the last group when that group is
   * of hour `h`, and opens a new group otherwise.
   */
  function AddRow(bs: seq<Bucket>, h: int, row: Triple): seq<Bucket>
  {
    if bs != [] && bs[|bs| - 1].hour == h then bs[..|bs| - 1] + [Bucket(h, bs[|bs| - 1].stages + [row])]
    else bs + [Bucket(h, [row])]
  }

  /**
   * The groups of the first `n` events: consecutive events filed under the
   * same hour share a group; hours without events have none.
   */
  function BucketsUpTo(events: seq<StageEvent>, start: int, n: nat): seq<Bucket>
    requires n <= |events|
  {
    if n == 0 then [] else AddRow(BucketsUpTo(events, start, n - 1), HourOf(events, start, n - 1), Row(events, n))
  }

  /** The groups as the report shows them, each labelled with its hour range. */
  function Render(bs: seq<Bucket>, timeRange: (int, int) -> string): (gs: seq<HourGroup>)
    ensures |gs| == |bs|
  {
    seq(|bs|, k requires 0 <= k < |bs| => HourGroup(timeRange(bs[k].hour, bs[k].hour + HOUR), bs[k].stages))
  }

  /** The specification of `group_events_by_hour`. */
  function GroupEvents(events: seq<StageEvent>, start: Option<int>, timeRange: (int, int) -> string): seq<HourGroup>
  {
    match start
      case None => [AllEventsGroup(events)]
      case Some(t) => Render(BucketsUpTo(events, t, |events|), timeRange)
  }

  /**
   * Walks the events, moving the current hour forward past every hour
   * boundary the next event lies beyond and closing the current group
   * when it has rows.
   */
  method GroupEventsByHour(events: seq<StageEvent>, start: Option<int>, timeRange: (int, int) -> string)
    returns (groups: seq<HourGroup>)
    ensures groups == GroupEvents(events, start, timeRange)
  {
    if start == None {
      return [AllEventsGroup(events)];
    }
    var startTime := start.value;
    groups := [];
    var currentHour := HourFloor(startTime);
    var nextHour := currentHour + HOUR;
    var hourRange := timeRange(currentHour, nextHour);
    var stages: seq<Triple> := [];
    ghost var done: seq<Bucket> := [];
    assert OnTheHour(currentHour) by {
      HourFloorSpec(startTime);
    }
    for i := 0 to |events|
      invariant OnTheHour(currentHour) && nextHour == currentHour + HOUR
      invariant hourRange == timeRange(currentHour, nextHour)
      invariant groups == Render(done, timeRange)
      invariant Filed(events, startTime, i, currentHour, stages, done)
    {
      var eventTime := startTime + events[i].startEpoch * EPOCH_DURATION;
      ghost var h0, s0, done0 := currentHour, stages, done;
      groups, done, currentHour, nextHour, hourRange, stages :=
        AdvanceHour(eventTime, timeRange, groups, done, currentHour, nextHour, hourRange, stages);
      FileEvent(events, startTime, i, h0, s0, done0, currentHour, stages, done);
      stages := stages + [Triple(i + 1, events[i].stage, events[i].duration)];
    }
    if stages != [] {
      RenderSnoc(done, Bucket(currentHour, stages), timeRange);
      groups := groups + [HourGroup(hourRange, stages)];
      done := done + [Bucket(currentHour, stages)];
    }
    assert done == BucketsUpTo(events, startTime, |events|);
    assert GroupEvents(events, start, timeRange) == Render(done, timeRange);
  }

  /**
   * The state after filing the first `i` events: nothing yet, or the
   * groups closed so far and the open group, under the hour of event
   * `i - 1`.
   */
  ghost predicate Filed(events: seq<StageEvent>, start: int, i: nat, h: int, stages: seq<Triple>, done: seq<Bucket>)
    requires i <= |events|
  {
    if i == 0 then stages == [] && done == [] && h == HourFloor(start)
    else stages != [] && h == HourOf(events, start, i - 1) && BucketsUpTo(events, start, i) == done + [Bucket(h, stages)]
  }

  /**
   * The inner loop of `group_events_by_hour`: while the event lies beyond
   * the current hour, closes the current group (when it has rows) and
   * moves on to the next hour.
   */
  method AdvanceHour(eventTime: int, timeRange: (int, int) -> string, groups: seq<HourGroup>, ghost done: seq<Bucket>,
                     currentHour: int, nextHour: int, hourRange: string, stages: seq<Triple>)
    returns (groups': seq<HourGroup>, ghost done': seq<Bucket>, currentHour': int, nextHour': int, hourRange': string, stages': seq<Triple>)
    requires OnTheHour(currentHour) && nextHour == currentHour + HOUR
    requires hourRange == timeRange(currentHour, nextHour)
    requires groups == Render(done, timeRange)
    ensures OnTheHour(currentHour') && nextHour' == currentHour' + HOUR && eventTime < nextHour'
    ensures hourRange' == timeRange(currentHour', nextHour')
    ensures groups' == Render(done', timeRange)
    ensures currentHour <= currentHour'
    ensures currentHour' == currentHour ==> stages' == stages && done' == done
    ensures currentHour' != currentHour ==>
      && currentHour' <= eventTime && stages' == []
      && done' == done + (if stages == [] then [] else [Bucket(currentHour, stages)])
  {
    groups', done', currentHour', nextHour', hourRange', stages' := groups, done, currentHour, nextHour, hourRange, stages;
    while eventTime >= nextHour'
      invariant OnTheHour(currentHour') && nextHour' == currentHour' + HOUR
      invariant hourRange' == timeRange(currentHour', nextHour')
      invariant groups' == Render(done', timeRange)
      invariant currentHour <= currentHour'
      invariant currentHour' == currentHour ==> stages' == stages && done' == done
      invariant currentHour' != currentHour ==>
        && currentHour' <= eventTime && stages' == []
        && done' == done + (if stages == [] then [] else [Bucket(currentHour, stages)])
      decreases eventTime - currentHour'
    {
      if stages' != [] {
        RenderSnoc(done', Bucket(currentHour', stages'), timeRange);
        groups' := groups' + [HourGroup(hourRange', stages')];
        done' := done' + [Bucket(currentHour', stages')];
      }
      NextHourOnTheHour(currentHour');
      currentHour' := nextHour';
      nextHour' := currentHour' + HOUR;
      hourRange' := timeRange(currentHour', nextHour');
      stages' := [];
    }
  }

  /** The hour floor starts an hour and holds `t`; it is the only such hour. */
  lemma HourFloorSpec(t: int)
    ensures OnTheHour(HourFloor(t)) && HourFloor(t) <= t < HourFloor(t) + HOUR
    ensures forall a :: OnTheHour(a) && a <= t < a + HOUR ==> a == HourFloor(t)
  {
    forall a | OnTheHour(a) && a <= t < a + HOUR
      ensures a == HourFloor(t)
    {
      var k := a / HOUR;
      assert a == k * HOUR;
      assert t / HOUR == k;
    }
  }

  /** Where the inner loop leaves the current hour: the later of the old one and the event's hour. */
  lemma CurrentHourAfter(h0: int, h: int, t: int)
    requires OnTheHour(h0) && OnTheHour(h) && h0 <= h && t < h + HOUR
    requires h == h0 || h <= t
    ensures h == if HourFloor(t) > h0 then HourFloor(t) else h0
  {
    HourFloorSpec(t);
    if h == h0 {
      if h0 <= t {
        assert h0 == HourFloor(t);
      }
    } else {
      assert h == HourFloor(t);
    }
  }

  /** How event `i` extends the groups of the events before it. */
  lemma HourOfStep(events: seq<StageEvent>, start: int, i: nat, h0: int)
    requires i < |events|
    requires i == 0 ==> h0 == HourFloor(start)
    requires i > 0 ==> h0 == HourOf(events, start, i - 1)
    ensures var h := HourFloor(EventTime(start, events[i]));
      HourOf(events, start, i) == if h > h0 then h else h0
  {
  }

  lemma NextHourOnTheHour(h: int)
    requires OnTheHour(h)
    ensures OnTheHour(h + HOUR)
  {
    assert h == (h / HOUR) * HOUR;
    assert h + HOUR == (h / HOUR + 1) * HOUR;
  }

  /**
   * Filing event `i` under hour `h`: the row joins the open group when the
   * hour did not move, and opens a new group (after closing the old one,
   * if it had rows) when it did.
   */
  lemma GroupStep(events: seq<StageEvent>, start: int, i: nat, h0: int, s0: seq<Triple>, done0: seq<Bucket>,
                  h: int, stages: seq<Triple>, done: seq<Bucket>)
    requires i < |events|
    requires i == 0 ==> s0 == [] && done0 == [] && h0 == HourFloor(start)
    requires i > 0 ==> s0 != [] && h0 == HourOf(events, start, i - 1) && BucketsUpTo(events, start, i) == done0 + [Bucket(h0, s0)]
    requires h == HourOf(events, start, i)
    requires h == h0 ==> stages == s0 && done == done0
    requires h != h0 ==> stages == [] && done == done0 + (if s0 == [] then [] else [Bucket(h0, s0)])
    ensures BucketsUpTo(events, start, i + 1) == done + [Bucket(h, stages + [Triple(i + 1, events[i].stage, events[i].duration)])]
  {
    var bs := BucketsUpTo(events, start, i);
    var row := Row(events, i + 1);
    assert BucketsUpTo(events, start, i + 1) == AddRow(bs, h, row);
    if i == 0 {
      assert bs == [] && stages == [] && done == [];
      assert stages + [row] == [row];
    } else if h == h0 {
      assert bs[|bs| - 1] == Bucket(h0, s0);
      assert bs[..|bs| - 1] == done0;
    } else {
      assert bs == done;
      assert stages + [row] == [row];
    }
  }

  /**
   * Once the current hour has caught up with event `i`, it is the hour the
   * event is filed under, and appending the event's row to the open group
   * gives the groups of the first `i + 1` events.
   */
  lemma FileEvent(events: seq<StageEvent>, start: int, i: nat, h0: int, s0: seq<Triple>, done0: seq<Bucket>,
                  h: int, stages: seq<Triple>, done: seq<Bucket>)
    requires i < |events|
    requires OnTheHour(h0) && OnTheHour(h) && h0 <= h && EventTime(start, events[i]) < h + HOUR
    requires Filed(events, start, i, h0, s0, done0)
    requires h == h0 ==> stages == s0 && done == done0
    requires h != h0 ==> h <= EventTime(start, events[i]) && stages == [] && done == done0 + (if s0 == [] then [] else [Bucket(h0, s0)])
    ensures Filed(events, start, i + 1, h, stages + [Triple(i + 1, events[i].stage, events[i].duration)], done)
  {
    CurrentHourAfter(h0, h, EventTime(start, events[i]));
    HourOfStep(events, start, i, h0);
    GroupStep(events, start, i, h0, s0, done0, h, stages, done);
  }

  lemma RenderSnoc(bs: seq<Bucket>, b: Bucket, timeRange: (int, int) -> string)
    ensures Render(bs + [b], timeRange) == Render(bs, timeRange) + [HourGroup(timeRange(b.hour, b.hour + HOUR), b.stages)]
  {
  }

  /** The rows of the groups, in group order. */
  function Flatten(bs: seq<Bucket>): seq<Triple>
  {
    if bs == [] then [] else Flatten(bs[..|bs| - 1]) + bs[|bs| - 1].stages
  }

  /** The filing hour starts an hour, never precedes the start's hour and never moves back. */
  lemma {:induction false} HourOfBounds(events: seq<StageEvent>, start: int, i: nat)
    requires i < |events|
    ensures OnTheHour(HourOf(events, start, i)) && HourFloor(start) <= HourOf(events, start, i)
    ensures i > 0 ==> HourOf(events, start, i - 1) <= HourOf(events, start, i)
  {
    HourFloorSpec(EventTime(start, events[i]));
    HourFloorSpec(start);
    if i > 0 {
      HourOfBounds(events, start, i - 1);
    }
  }

  lemma FlattenSnoc(bs: seq<Bucket>, b: Bucket)
    ensures Flatten(bs + [b]) == Flatten(bs) + b.stages
  {
    assert (bs + [b])[..|bs|] == bs;
  }

  /** Filing a row appends it to the rows read group by group. */
  lemma FlattenAddRow(bs: seq<Bucket>, h: int, row: Triple)
    ensures Flatten(AddRow(bs, h, row)) == Flatten(bs) + [row]
  {
    if bs != [] && bs[|bs| - 1].hour == h {
      var init, last := bs[..|bs| - 1], bs[|bs| - 1];
      assert bs == init + [last];
      FlattenSnoc(init, last);
      FlattenSnoc(init, Bucket(h, last.stages + [row]));
    } else {
      FlattenSnoc(bs, Bucket(h, [row]));
    }
  }

  /** Reading the groups row by row gives the numbered events. */
  lemma {:induction false} BucketsFlatten(events: seq<StageEvent>, start: int, n: nat)
    requires n <= |events|
    ensures Flatten(BucketsUpTo(events, start, n)) == NumberedUpTo(events, n)
  {
    if n > 0 {
      BucketsFlatten(events, start, n - 1);
      FlattenAddRow(BucketsUpTo(events, start, n - 1), HourOf(events, start, n - 1), Row(events, n));
    }
  }

  /**
   * No group is empty; group hours start on the hour, no earlier than
   * `floor`, and strictly increase.
   */
  predicate HoursShape(bs: seq<Bucket>, floor: int)
  {
    && (forall k :: 0 <= k < |bs| ==> bs[k].stages != [])
    && (forall k :: 0 <= k < |bs| ==> OnTheHour(bs[k].hour) && floor <= bs[k].hour)
    && (forall k, l :: 0 <= k < l < |bs| ==> bs[k].hour < bs[l].hour)
  }

  /** Filing a row under an hour no earlier than the last group's keeps the shape. */
  lemma AddRowShape(bs: seq<Bucket>, floor: int, h: int, row: Triple)
    requires HoursShape(bs, floor) && OnTheHour(h) && floor <= h
    requires bs != [] ==> bs[|bs| - 1].hour <= h
    ensures var bs' := AddRow(bs, h, row);
      HoursShape(bs', floor) && bs' != [] && bs'[|bs'| - 1].hour == h
  {
    if bs != [] && bs[|bs| - 1].hour == h {
      var init := bs[..|bs| - 1];
      var bs' := init + [Bucket(h, bs[|bs| - 1].stages + [row])];
      assert forall k :: 0 <= k < |bs'| ==> bs'[k].hour == bs[k].hour;
    } else {
      var bs' := bs + [Bucket(h, [row])];
      assert forall k :: 0 <= k < |bs| ==> bs'[k] == bs[k];
      assert forall k :: 0 <= k < |bs| ==> bs[k].hour < h by {
        forall k | 0 <= k < |bs|
          ensures bs[k].hour < h
        {
          assert bs[k].hour <= bs[|bs| - 1].hour;
        }
      }
    }
  }

  /** The groups of the first `n` events have that shape, the last one under the last event's hour. */
  predicate Shaped(events: seq<StageEvent>, start: int, n: nat)
    requires n <= |events|
  {
    var bs := BucketsUpTo(events, start, n);
    && HoursShape(bs, HourFloor(start))
    && (n > 0 ==> bs != [] && bs[|bs| - 1].hour == HourOf(events, start, n - 1))
  }

  /** Filing event `n - 1` keeps the shape. */
  lemma ShapedStep(events: seq<StageEvent>, start: int, n: nat)
    requires 0 < n <= |events| && Shaped(events, start, n - 1)
    ensures Shaped(events, start, n)
  {
    var prev, h := BucketsUpTo(events, start, n - 1), HourOf(events, start, n - 1);
    assert OnTheHour(h) && HourFloor(start) <= h && (prev != [] ==> prev[|prev| - 1].hour <= h) by {
      HourOfBounds(events, start, n - 1);
      if n == 1 {
        assert prev == [];
      }
    }
    AddRowShape(prev, HourFloor(start), h, Row(events, n));
  }

  lemma {:induction false} BucketsHours(events: seq<StageEvent>, start: int, n: nat)
    requires n <= |events|
    ensures Shaped(events, start, n)
  {
    if n > 0 {
      BucketsHours(events, start, n - 1);
      ShapedStep(events, start, n);
    }
  }

  /** Every row of `bs` sits under the hour its event is filed under. */
  predicate RowsFiled(events: seq<StageEvent>, start: int, bs: seq<Bucket>, n: nat)
  {
    forall k, r :: 0 <= k < |bs| && r in bs[k].stages ==>
      1 <= r.index <= n <= |events| && HourOf(events, start, r.index - 1) == bs[k].hour
  }

  /** Filing row `n` under its own hour keeps every row under its hour. */
  lemma AddRowFiled(events: seq<StageEvent>, start: int, bs: seq<Bucket>, n: nat)
    requires 0 < n <= |events|
    requires RowsFiled(events, start, bs, n - 1)
    ensures RowsFiled(events, start, AddRow(bs, HourOf(events, start, n - 1), Row(events, n)), n)
  {
    var h, row := HourOf(events, start, n - 1), Row(events, n);
    var bs' := AddRow(bs, h, row);
    forall k, r | 0 <= k < |bs'| && r in bs'[k].stages
      ensures 1 <= r.index <= n && HourOf(events, start, r.index - 1) == bs'[k].hour
    {
      if k < |bs| && bs'[k] == bs[k] {
      } else if r != row {
        assert k == |bs| - 1 && r in bs[k].stages;
      }
    }
  }

  lemma {:induction false} BucketsRows(events: seq<StageEvent>, start: int, n: nat)
    requires n <= |events|
    ensures RowsFiled(events, start, BucketsUpTo(events, start, n), n)
  {
    if n > 0 {
      BucketsRows(events, start, n - 1);
      AddRowFiled(events, start, BucketsUpTo(events, start, n - 1), n);
    }
  }

  /**
   * Without a start time there is one group, "All Events", holding every
   * event numbered from 1.
   */
  lemma GroupEventsWithoutStart(events: seq<StageEvent>, timeRange: (int, int) -> string)
    ensures var groups := GroupEvents(events, None, timeRange);
      && |groups| == 1 && groups[0].hourRange == ALL_EVENTS
      && |groups[0].stages| == |events|
      && (forall i :: 0 <= i < |events| ==> groups[0].stages[i] == Triple(i + 1, events[i].stage, events[i].duration))
  {
    NumberedRows(events, |events|);
  }

  /** Row `i` of the numbering is event `i`, numbered `i + 1`. */
  lemma {:induction false} NumberedRows(events: seq<StageEvent>, n: nat)
    requires n <= |events|
    ensures forall i :: 0 <= i < n ==> NumberedUpTo(events, n)[i] == Triple(i + 1, events[i].stage, events[i].duration)
  {
    if n > 0 {
      NumberedRows(events, n - 1);
    }
  }

  /**
   * With a start time there is a group per clock hour that has events:
   * labelled with the range of an hour that starts on the hour, no earlier
   * than the start time's hour, the hours strictly increasing; no group is
   * empty; the rows, read group by group, are the numbered events in
   * order; every row sits under the hour its event is filed under. No
   * events give no groups.
   */
  lemma GroupEventsWithStart(events: seq<StageEvent>, start: int, timeRange: (int, int) -> string)
    ensures var groups, bs := GroupEvents(events, Some(start), timeRange), BucketsUpTo(events, start, |events|);
      && groups == Render(bs, timeRange)
      && HoursShape(bs, HourFloor(start))
      && Flatten(bs) == Numbered(events)
      && RowsFiled(events, start, bs, |events|)
      && (events == [] <==> groups == [])
  {
    BucketsHours(events, start, |events|);
    BucketsFlatten(events, start, |events|);
    BucketsRows(events, start, |events|);
  }


  /** Events in order of their start epochs. */
  predicate Sorted(events: seq<StageEvent>)
  {
    forall i, j :: 0 <= i < j < |events| ==> events[i].startEpoch <= events[j].startEpoch
  }

  lemma HourFloorMonotone(a: int, b: int)
    requires a <= b
    ensures HourFloor(a) <= HourFloor(b)
  {
    HourFloorSpec(a);
    HourFloorSpec(b);
    assert a / HOUR <= b / HOUR;
  }

  /** For events in order, each one is filed under the clock hour in which it starts. */
  lemma {:induction false} SortedHourOf(events: seq<StageEvent>, start: int, i: nat)
    requires Sorted(events) && i < |events|
    ensures HourOf(events, start, i) == HourFloor(EventTime(start, events[i]))
  {
    if i == 0 {
      HourFloorMonotone(start, EventTime(start, events[0]));
    } else {
      SortedHourOf(events, start, i - 1);
      HourFloorMonotone(EventTime(start, events[i - 1]), EventTime(start, events[i]));
    }
  }

  /** The events of a night are in order of their start epochs. */
  lemma ExtractedEventsSorted(m: StageMap, data: seq<int>)
    ensures Sorted(Events(m, data))
  {
    var events, runs := Events(m, data), Runs(data);
    EventsStarts(m, data);
    forall i, j | 0 <= i < j < |events|
      ensures events[i].startEpoch <= events[j].startEpoch
    {
      StartsIncrease(events, runs, i, j);
    }
  }

  lemma {:induction false} StartsIncrease(events: seq<StageEvent>, runs: seq<Run>, i: nat, j: nat)
    requires i <= j < |events| <= |runs|
    requires forall k :: 0 <= k < |events| - 1 ==> events[k + 1].startEpoch == events[k].startEpoch + runs[k].length
    ensures events[i].startEpoch <= events[j].startEpoch
    decreases j - i
  {
    if i < j {
      StartsIncrease(events, runs, i + 1, j);
    }
  }

  /** For events in order, every row sits under the hour in which its event starts. */
  lemma SortedByClockHour(events: seq<StageEvent>, start: int)
    requires Sorted(events)
    ensures var bs := BucketsUpTo(events, start, |events|);
      forall k, r :: 0 <= k < |bs| && r in bs[k].stages ==>
        1 <= r.index <= |events|
        && bs[k].hour <= EventTime(start, events[r.index - 1]) < bs[k].hour + HOUR
  {
    var bs := BucketsUpTo(events, start, |events|);
    BucketsRows(events, start, |events|);
    forall k, r | 0 <= k < |bs| && r in bs[k].stages
      ensures 1 <= r.index <= |events| && bs[k].hour <= EventTime(start, events[r.index - 1]) < bs[k].hour + HOUR
    {
      SortedHourOf(events, start, r.index - 1);
      HourFloorSpec(EventTime(start, events[r.index - 1]));
    }
  }

  /**
   * Grouping the events of a night by the clock: every row sits under the
   * hour in which its event starts.
   */
  lemma ExtractedEventsByClockHour(m: StageMap, data: seq<int>, start: int)
    ensures var events := Events(m, data);
      var bs := BucketsUpTo(events, start, |events|);
      forall k, r :: 0 <= k < |bs| && r in bs[k].stages ==>
        1 <= r.index <= |events|
        && bs[k].hour <= EventTime(start, events[r.index - 1]) < bs[k].hour + HOUR
  {
    ExtractedEventsSorted(m, data);
    SortedByClockHour(Events(m, data), start);
  }
}
