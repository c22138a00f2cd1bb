/**
 * src/pysleep/stat.py: the difference of two clock times
 * (`subtract_relative_time`) and the difference of two sleep statistics
 * (`SleepStat.__sub__`) over its integer and duration fields.
 *
 * A duration is whole seconds. A datetime is a day number, the seconds
 * since its local midnight and an optional UTC offset; `.time()` keeps
 * only the seconds since midnight.
 */
module SleepStats {
  import opened Wrappers

  const DAY: int := 24 * 3600
  const HALF_DAY: int := 12 * 3600

  type SecondOfDay = t: int | 0 <= t < 24 * 3600

  datatype DateTime = DateTime(day: int, time: SecondOfDay, utcOffset: Option<int>)

  /**
   * `subtract_relative_time(dt1, dt2)`: the difference of the two clock
   * times folded into (-12h, 12h], exactly 12h counting as +12h. Python's
   * `%` by a positive divisor never returns a negative remainder, as
   * Dafny's does not.
   */
  function SubtractRelativeTime(dt1: DateTime, dt2: DateTime): (d: int)
    ensures -HALF_DAY < d <= HALF_DAY
    ensures (d - (dt1.time - dt2.time)) % DAY == 0
  {
    var delta := dt1.time - dt2.time;
    var folded := ((delta + HALF_DAY) % DAY) - HALF_DAY;
    if folded == -HALF_DAY then HALF_DAY else folded
  }

  /** The difference is the only value in (-12h, 12h] that agrees with the clock times modulo a day. */
  lemma SubtractRelativeTimeUnique(dt1: DateTime, dt2: DateTime, d: int)
    requires -HALF_DAY < d <= HALF_DAY && (d - (dt1.time - dt2.time)) % DAY == 0
    ensures d == SubtractRelativeTime(dt1, dt2)
  {
    var r := SubtractRelativeTime(dt1, dt2);
    var q1 := (d - (dt1.time - dt2.time)) / DAY;
    var q2 := (r - (dt1.time - dt2.time)) / DAY;
    assert d - r == (q1 - q2) * DAY;
    WholeDays(q1 - q2);
  }

  /** A non-zero number of days is at least a day long. */
  lemma WholeDays(k: int)
    ensures k >= 1 ==> k * DAY >= DAY
    ensures k <= -1 ==> k * DAY <= -DAY
  {
  }

  /**
   * Swapping the arguments negates the difference, except that clock
   * times 12 hours apart give +12h either way.
   */
  lemma SubtractRelativeTimeSwap(dt1: DateTime, dt2: DateTime)
    ensures var d, e := SubtractRelativeTime(dt1, dt2), SubtractRelativeTime(dt2, dt1);
      && (d == HALF_DAY ==> e == HALF_DAY)
      && (d != HALF_DAY ==> e == -d)
  {
    var d := SubtractRelativeTime(dt1, dt2);
    var off := d - (dt1.time - dt2.time);
    NegatedMultiple(off);
    if d == HALF_DAY {
      assert HALF_DAY - (dt2.time - dt1.time) == -off + DAY;
      SubtractRelativeTimeUnique(dt2, dt1, HALF_DAY);
    } else {
      assert -d - (dt2.time - dt1.time) == -off;
      SubtractRelativeTimeUnique(dt2, dt1, -d);
    }
  }

  /** The negation of a multiple of a day, and it plus a day, are multiples of a day. */
  lemma NegatedMultiple(x: int)
    requires x % DAY == 0
    ensures (-x) % DAY == 0 && (-x + DAY) % DAY == 0
  {
    var q := x / DAY;
    assert x == q * DAY;
    assert -x == (-q) * DAY;
    assert -x + DAY == (1 - q) * DAY;
  }

  /** The datetime at `hour:minute` on day `day`. */
  function At(day: int, hour: int, minute: int, utcOffset: Option<int>): (dt: DateTime)
    requires 0 <= hour < 24 && 0 <= minute < 60
    ensures dt.time == hour * 3600 + minute * 60
  {
    DateTime(day, hour * 3600 + minute * 60, utcOffset)
  }

  /**
   * The cases of src/pysleep/stat_test.py, days numbered within October
   * 2023: dates and UTC offsets do not matter, differences wrap around
   * midnight, and 12 hours apart is +12h in either order.
   */
  lemma SubtractRelativeTimeCases()
    ensures SubtractRelativeTime(At(2, 0, 10, None), At(1, 23, 50, None)) == 20 * 60
    ensures SubtractRelativeTime(At(1, 23, 40, None), At(1, 23, 50, None)) == -10 * 60
    ensures SubtractRelativeTime(At(2, 12, 0, None), At(1, 12, 0, None)) == 0
    ensures SubtractRelativeTime(At(1, 0, 10, None), At(1, 23, 50, None)) == 20 * 60
    ensures SubtractRelativeTime(At(1, 23, 50, None), At(5, 0, 10, None)) == -20 * 60
    ensures SubtractRelativeTime(At(1, 10, 0, Some(-4 * 3600)), At(1, 10, 0, Some(9 * 3600))) == 0
    ensures SubtractRelativeTime(At(1, 18, 0, None), At(1, 6, 0, None)) == 12 * 3600
    ensures SubtractRelativeTime(At(1, 6, 0, None), At(1, 18, 0, None)) == 12 * 3600
  {
  }

  /*
   * `SleepStat.__sub__` over the integer and duration fields. The float
   * fields (ratios, efficiency, breathing index) are not part of this
   * model; `breathing_pattern`, `sleep_cycle_time` and `snoring_count`
   * have no counterpart in the delta.
   */

  datatype SleepStat = SleepStat(
    sleepTime: DateTime,
    wakeTime: DateTime,
    sleepIndex: int,
    sleepLatency: int,
    wakeupLatency: int,
    lightLatency: int,
    deepLatency: int,
    remLatency: int,
    timeInBed: int,
    timeInSleepPeriod: int,
    timeInSleep: int,
    timeInWake: int,
    timeInLight: int,
    timeInDeep: int,
    timeInRem: int,
    timeInStableBreath: int,
    timeInUnstableBreath: int,
    timeInSnoring: Option<int>,
    timeInNoSnoring: Option<int>,
    breathingPattern: string,
    wasoCount: Option<int>,
    longestWaso: Option<int>,
    sleepCycleCount: Option<int>,
    sleepCycle: Option<int>,
    sleepCycleTime: seq<DateTime>,
    unstableBreathCount: Option<int>,
    snoringCount: Option<int>)

  datatype SleepStatDelta = SleepStatDelta(
    sleepTime: int,
    wakeTime: int,
    sleepIndex: int,
    sleepLatency: int,
    wakeupLatency: int,
    lightLatency: int,
    deepLatency: int,
    remLatency: int,
    timeInBed: int,
    timeInSleepPeriod: int,
    timeInSleep: int,
    timeInWake: int,
    timeInLight: int,
    timeInDeep: int,
    timeInRem: int,
    timeInStableBreath: int,
    timeInUnstableBreath: int,
    timeInSnoring: Option<int>,
    timeInNoSnoring: Option<int>,
    wasoCount: Option<int>,
    longestWaso: Option<int>,
    sleepCycleCount: Option<int>,
    sleepCycle: Option<int>,
    unstableBreathCount: Option<int>)

  /** Python truthiness of an optional count or duration: present and not zero. */
  predicate Truthy(v: Option<int>)
  {
    v.Some? && v.value != 0
  }

  /** The difference of an optional field: present exactly when both sides are truthy. */
  function OptionalDiff(a: Option<int>, b: Option<int>): (d: Option<int>)
    ensures d.Some? <==> Truthy(a) && Truthy(b)
    ensures d.Some? ==> d.value == a.value - b.value
  {
    if Truthy(a) && Truthy(b) then Some(a.value - b.value) else None
  }

  /** `self - other`. */
  function Subtract(a: SleepStat, b: SleepStat): (d: SleepStatDelta)
    // The clock fields are the folded time-of-day differences.
    ensures -HALF_DAY < d.sleepTime <= HALF_DAY && (d.sleepTime - (a.sleepTime.time - b.sleepTime.time)) % DAY == 0
    ensures -HALF_DAY < d.wakeTime <= HALF_DAY && (d.wakeTime - (a.wakeTime.time - b.wakeTime.time)) % DAY == 0
    // Every required field of the delta added to `other` gives back `self`.
    ensures && b.sleepIndex + d.sleepIndex == a.sleepIndex
            && b.sleepLatency + d.sleepLatency == a.sleepLatency
            && b.wakeupLatency + d.wakeupLatency == a.wakeupLatency
            && b.lightLatency + d.lightLatency == a.lightLatency
            && b.deepLatency + d.deepLatency == a.deepLatency
            && b.remLatency + d.remLatency == a.remLatency
            && b.timeInBed + d.timeInBed == a.timeInBed
            && b.timeInSleepPeriod + d.timeInSleepPeriod == a.timeInSleepPeriod
            && b.timeInSleep + d.timeInSleep == a.timeInSleep
            && b.timeInWake + d.timeInWake == a.timeInWake
            && b.timeInLight + d.timeInLight == a.timeInLight
            && b.timeInDeep + d.timeInDeep == a.timeInDeep
            && b.timeInRem + d.timeInRem == a.timeInRem
            && b.timeInStableBreath + d.timeInStableBreath == a.timeInStableBreath
            && b.timeInUnstableBreath + d.timeInUnstableBreath == a.timeInUnstableBreath
    // An optional field is present iff both sides are truthy, and then adding `other` back gives `self`.
    ensures d.timeInSnoring.Some? <==> Truthy(a.timeInSnoring) && Truthy(b.timeInSnoring)
    ensures d.timeInNoSnoring.Some? <==> Truthy(a.timeInNoSnoring) && Truthy(b.timeInNoSnoring)
    ensures d.wasoCount.Some? <==> Truthy(a.wasoCount) && Truthy(b.wasoCount)
    ensures d.longestWaso.Some? <==> Truthy(a.longestWaso) && Truthy(b.longestWaso)
    ensures d.sleepCycleCount.Some? <==> Truthy(a.sleepCycleCount) && Truthy(b.sleepCycleCount)
    ensures d.sleepCycle.Some? <==> Truthy(a.sleepCycle) && Truthy(b.sleepCycle)
    ensures d.unstableBreathCount.Some? <==> Truthy(a.unstableBreathCount) && Truthy(b.unstableBreathCount)
    ensures && (d.timeInSnoring.Some? ==> b.timeInSnoring.value + d.timeInSnoring.value == a.timeInSnoring.value)
            && (d.timeInNoSnoring.Some? ==> b.timeInNoSnoring.value + d.timeInNoSnoring.value == a.timeInNoSnoring.value)
            && (d.wasoCount.Some? ==> b.wasoCount.value + d.wasoCount.value == a.wasoCount.value)
            && (d.longestWaso.Some? ==> b.longestWaso.value + d.longestWaso.value == a.longestWaso.value)
            && (d.sleepCycleCount.Some? ==> b.sleepCycleCount.value + d.sleepCycleCount.value == a.sleepCycleCount.value)
            && (d.sleepCycle.Some? ==> b.sleepCycle.value + d.sleepCycle.value == a.sleepCycle.value)
            && (d.unstableBreathCount.Some? ==> b.unstableBreathCount.value + d.unstableBreathCount.value == a.unstableBreathCount.value)
  {
    SleepStatDelta(
      SubtractRelativeTime(a.sleepTime, b.sleepTime),
      SubtractRelativeTime(a.wakeTime, b.wakeTime),
      a.sleepIndex - b.sleepIndex,
      a.sleepLatency - b.sleepLatency,
      a.wakeupLatency - b.wakeupLatency,
      a.lightLatency - b.lightLatency,
      a.deepLatency - b.deepLatency,
      a.remLatency - b.remLatency,
      a.timeInBed - b.timeInBed,
      a.timeInSleepPeriod - b.timeInSleepPeriod,
      a.timeInSleep - b.timeInSleep,
      a.timeInWake - b.timeInWake,
      a.timeInLight - b.timeInLight,
      a.timeInDeep - b.timeInDeep,
      a.timeInRem - b.timeInRem,
      a.timeInStableBreath - b.timeInStableBreath,
      a.timeInUnstableBreath - b.timeInUnstableBreath,
      OptionalDiff(a.timeInSnoring, b.timeInSnoring),
      OptionalDiff(a.timeInNoSnoring, b.timeInNoSnoring),
      OptionalDiff(a.wasoCount, b.wasoCount),
      OptionalDiff(a.longestWaso, b.longestWaso),
      OptionalDiff(a.sleepCycleCount, b.sleepCycleCount),
      OptionalDiff(a.sleepCycle, b.sleepCycle),
      OptionalDiff(a.unstableBreathCount, b.unstableBreathCount))
  }

  /** The delta with every field negated, and a +12h clock-time difference kept as +12h. */
  function Negate(d: SleepStatDelta): SleepStatDelta
  {
    SleepStatDelta(
      if d.sleepTime == HALF_DAY then HALF_DAY else -d.sleepTime,
      if d.wakeTime == HALF_DAY then HALF_DAY else -d.wakeTime,
      -d.sleepIndex, -d.sleepLatency, -d.wakeupLatency, -d.lightLatency, -d.deepLatency, -d.remLatency,
      -d.timeInBed, -d.timeInSleepPeriod, -d.timeInSleep, -d.timeInWake, -d.timeInLight, -d.timeInDeep,
      -d.timeInRem, -d.timeInStableBreath, -d.timeInUnstableBreath,
      NegateOptional(d.timeInSnoring), NegateOptional(d.timeInNoSnoring), NegateOptional(d.wasoCount),
      NegateOptional(d.longestWaso), NegateOptional(d.sleepCycleCount), NegateOptional(d.sleepCycle),
      NegateOptional(d.unstableBreathCount))
  }

  function NegateOptional(v: Option<int>): Option<int>
  {
    if v.Some? then Some(-v.value) else None
  }

  /**
   * Swapping the operands negates every field of the delta, the clock
   * times as `subtract_relative_time` does (12 hours apart stays +12h).
   */
  lemma SubtractSwap(a: SleepStat, b: SleepStat)
    ensures Subtract(b, a) == Negate(Subtract(a, b))
  {
    SubtractRelativeTimeSwap(a.sleepTime, b.sleepTime);
    SubtractRelativeTimeSwap(a.wakeTime, b.wakeTime);
  }

  /** What an optional field of a statistic minus itself is: zero when truthy, absent otherwise. */
  function SelfDiff(v: Option<int>): Option<int>
  {
    if Truthy(v) then Some(0) else None
  }

  /**
   * A statistic minus itself: every required field is zero, and an
   * optional field is zero when it is truthy and absent otherwise.
   */
  lemma SubtractSelf(a: SleepStat)
    ensures Subtract(a, a) == SleepStatDelta(0, 0, 0, 0, 0, 0, 0, 0, 0, 0, 0, 0, 0, 0, 0, 0, 0,
      SelfDiff(a.timeInSnoring), SelfDiff(a.timeInNoSnoring), SelfDiff(a.wasoCount), SelfDiff(a.longestWaso),
      SelfDiff(a.sleepCycleCount), SelfDiff(a.sleepCycle), SelfDiff(a.unstableBreathCount))
  {
    SubtractRelativeTimeUnique(a.sleepTime, a.sleepTime, 0);
    SubtractRelativeTimeUnique(a.wakeTime, a.wakeTime, 0);
  }
}
