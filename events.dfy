/**
 * `extract_events_from_hypnogram` (src/pysleep/hypnogram_report.py): the
 * run-length compression of the per-epoch stage codes, one event per
 * maximal run, each stamped with the epoch at which it starts.
 */
module EventExtraction {
  import opened Duration
  import opened Stages

  /** Seconds per epoch: EPOCH_DURATION. */
  const EPOCH_DURATION: nat := 30

  /** A maximal run of one stage code, as `itertools.groupby` yields it. */
  datatype Run = Run(code: int, length: nat)

  /** One event of the report: where a run starts, its stage name and its duration text. */
  datatype StageEvent = StageEvent(startEpoch: nat, stage: string, duration: string)

  /** The number of leading elements of `s` equal to `x`. */
  function LeadCount(s: seq<int>, x: int): (n: nat)
    ensures n <= |s|
    ensures s != [] && s[0] == x ==> n >= 1
  {
    if s == [] || s[0] != x then 0 else 1 + LeadCount(s[1..], x)
  }

  /** `LeadCount(s, x)` is the index of the first element of `s` other than `x`. */
  lemma {:induction false} LeadCountSpec(s: seq<int>, x: int)
    ensures forall k :: 0 <= k < LeadCount(s, x) ==> s[k] == x
    ensures LeadCount(s, x) == |s| || s[LeadCount(s, x)] != x
  {
    if s != [] && s[0] == x {
      LeadCountSpec(s[1..], x);
    }
  }

  /** The runs of `s` in order: the groups of `groupby(s)`. */
  function Runs(s: seq<int>): seq<Run>
    decreases |s|
  {
    if s == [] then []
    else
      var n := LeadCount(s, s[0]);
      [Run(s[0], n)] + Runs(s[n..])
  }

  /** The per-epoch codes a list of runs stands for. */
  function Expand(runs: seq<Run>): seq<int>
  {
    if runs == [] then [] else seq(runs[0].length, _ => runs[0].code) + Expand(runs[1..])
  }

  /** Every run is non-empty and neighbouring runs have different codes. */
  predicate MaximalRuns(runs: seq<Run>)
  {
    && (forall k :: 0 <= k < |runs| ==> runs[k].length >= 1)
    && (forall k :: 0 <= k < |runs| - 1 ==> runs[k].code != runs[k + 1].code)
  }

  /** The sum of the run lengths. */
  function TotalLength(runs: seq<Run>): nat
  {
    if runs == [] then 0 else runs[0].length + TotalLength(runs[1..])
  }

  /** The events for `runs`: event `k` starts where the runs before it end. */
  function EventsOf(m: StageMap, runs: seq<Run>): (events: seq<StageEvent>)
    ensures |events| == |runs|
  {
    seq(|runs|, k requires 0 <= k < |runs| => EventOf(m, runs[k], TotalLength(runs[..k])))
  }

  /** The event for one run starting at epoch `start`. */
  function EventOf(m: StageMap, run: Run, start: nat): StageEvent
  {
    StageEvent(start, StageName(m, run.code), FormatDuration(run.length * EPOCH_DURATION))
  }

  /** The events of a hypnogram. */
  function Events(m: StageMap, data: seq<int>): seq<StageEvent>
  {
    EventsOf(m, Runs(data))
  }

  /** The source's `extract_events_from_hypnogram(hypnogram_data)`. */
  method ExtractEvents(m: StageMap, data: seq<int>) returns (events: seq<StageEvent>)
    ensures events == Events(m, data)
  {
    if data == [] {
      assert Runs(data) == [];
      return [];
    }
    events := [];
    var startEpoch: nat := 0;
    ghost var done: seq<Run> := [];
    assert data[startEpoch..] == data;
    while startEpoch < |data|
      invariant Extracted(m, data, startEpoch, done, events)
      decreases |data| - startEpoch
    {
      var stage := data[startEpoch];
      var next := GroupEnd(data, startEpoch);
      var durationEpochs := next - startEpoch;
      var event := StageEvent(startEpoch, StageName(m, stage), FormatDuration(durationEpochs * EPOCH_DURATION));
      ghost var run := Run(stage, durationEpochs);
      ExtractStep(data, done, startEpoch, next, run);
      EventsOfSnoc(m, done, run);
      events := events + [event];
      done := done + [run];
      startEpoch := startEpoch + durationEpochs;
    }
    ExtractDone(m, data, startEpoch, done, events);
  }

  /**
   * The state after the events of the runs `done`: they cover the first
   * `i` codes, the runs of the rest complete them, and `events` are their
   * events.
   */
  ghost predicate Extracted(m: StageMap, data: seq<int>, i: nat, done: seq<Run>, events: seq<StageEvent>)
  {
    && i <= |data|
    && done + Runs(data[i..]) == Runs(data)
    && i == TotalLength(done)
    && events == EventsOf(m, done)
  }

  /** Once every code is covered, the events are those of the whole input. */
  lemma ExtractDone(m: StageMap, data: seq<int>, i: nat, done: seq<Run>, events: seq<StageEvent>)
    requires Extracted(m, data, i, done, events) && i >= |data|
    ensures events == Events(m, data)
  {
    assert data[i..] == [] && Runs([]) == [];
    assert done + [] == done;
  }

  /** The end of the group `groupby` yields at index `i`: the first later index with another code. */
  method GroupEnd(data: seq<int>, i: nat) returns (j: nat)
    requires i < |data|
    ensures i < j <= |data|
    ensures forall k :: i <= k < j ==> data[k] == data[i]
    ensures j == |data| || data[j] != data[i]
  {
    j := i + 1;
    while j < |data| && data[j] == data[i]
      invariant i < j <= |data|
      invariant forall k :: i <= k < j ==> data[k] == data[i]
      decreases |data| - j
    {
      j := j + 1;
    }
  }

  /**
   * One turn of the outer loop of `ExtractEvents`: the group from `i` to
   * `j` is the next run of the input, and the runs so far end at `j`.
   */
  lemma ExtractStep(data: seq<int>, done: seq<Run>, i: nat, j: nat, run: Run)
    requires i < j <= |data|
    requires forall k :: i <= k < j ==> data[k] == data[i]
    requires j == |data| || data[j] != data[i]
    requires done + Runs(data[i..]) == Runs(data) && i == TotalLength(done)
    requires run == Run(data[i], j - i)
    ensures (done + [run]) + Runs(data[j..]) == Runs(data)
    ensures TotalLength(done + [run]) == j
  {
    RunsStep(data, i, j);
    AppendAssoc(done, [run], Runs(data[j..]));
    TotalLengthAppend(done, [run]);
    assert TotalLength([run]) == run.length;
  }

  lemma AppendAssoc<T>(a: seq<T>, b: seq<T>, c: seq<T>)
    ensures (a + b) + c == a + (b + c)
  {
  }

  /** Appending a run appends its event, starting where the earlier runs end. */
  lemma EventsOfSnoc(m: StageMap, runs: seq<Run>, r: Run)
    ensures EventsOf(m, runs + [r]) == EventsOf(m, runs) + [EventOf(m, r, TotalLength(runs))]
  {
    var a := EventsOf(m, runs + [r]);
    var b := EventsOf(m, runs) + [EventOf(m, r, TotalLength(runs))];
    forall k | 0 <= k < |a| ensures a[k] == b[k] {
      if k < |runs| {
        assert (runs + [r])[..k] == runs[..k];
      } else {
        assert (runs + [r])[..k] == runs;
      }
    }
  }

  lemma {:induction false} TotalLengthAppend(a: seq<Run>, b: seq<Run>)
    ensures TotalLength(a + b) == TotalLength(a) + TotalLength(b)
  {
    if a == [] {
      assert a + b == b;
    } else {
      assert (a + b)[1..] == a[1..] + b;
      TotalLengthAppend(a[1..], b);
    }
  }

  /** The runs of a suffix start with the run the inner loop measures. */
  lemma RunsStep(data: seq<int>, i: nat, j: nat)
    requires i < j <= |data|
    requires forall k :: i <= k < j ==> data[k] == data[i]
    requires j == |data| || data[j] != data[i]
    ensures Runs(data[i..]) == [Run(data[i], j - i)] + Runs(data[j..])
  {
    var s := data[i..];
    var n := LeadCount(s, s[0]);
    LeadCountSpec(s, s[0]);
    assert n == j - i;
    assert s[n..] == data[j..];
  }

  lemma {:induction false} ExpandAppend(a: seq<Run>, b: seq<Run>)
    ensures Expand(a + b) == Expand(a) + Expand(b)
  {
    if a == [] {
      assert a + b == b;
    } else {
      assert (a + b)[1..] == a[1..] + b;
      ExpandAppend(a[1..], b);
    }
  }

  lemma {:induction false} ExpandLength(runs: seq<Run>)
    ensures |Expand(runs)| == TotalLength(runs)
  {
    if runs != [] {
      ExpandLength(runs[1..]);
    }
  }

  /**
   * The runs are maximal and expanding them gives the input back: the
   * events cover the input exactly, and their lengths add up to it.
   */
  lemma RunsCorrect(s: seq<int>)
    ensures MaximalRuns(Runs(s))
    ensures Expand(Runs(s)) == s
    ensures TotalLength(Runs(s)) == |s|
  {
    RunsMaximal(s);
    RunsExpand(s);
    RunsTotal(s);
  }

  /** The first run of a non-empty sequence, and the runs after it. */
  lemma RunsHead(s: seq<int>)
    requires s != []
    ensures var n := LeadCount(s, s[0]);
      && 1 <= n && (forall k :: 0 <= k < n ==> s[k] == s[0]) && (n == |s| || s[n] != s[0])
      && Runs(s)[0] == Run(s[0], n) && Runs(s)[1..] == Runs(s[n..]) && |Runs(s)| == 1 + |Runs(s[n..])|
  {
    LeadCountSpec(s, s[0]);
  }

  lemma {:induction false} RunsMaximal(s: seq<int>)
    ensures MaximalRuns(Runs(s))
    ensures s != [] ==> Runs(s) != [] && Runs(s)[0].code == s[0]
    decreases |s|
  {
    if s != [] {
      var n := LeadCount(s, s[0]);
      RunsHead(s);
      RunsMaximal(s[n..]);
      var runs, rest := Runs(s), Runs(s[n..]);
      forall k | 0 <= k < |runs|
        ensures runs[k].length >= 1
      {
        if k > 0 {
          assert runs[k] == rest[k - 1];
        }
      }
      forall k | 0 <= k < |runs| - 1
        ensures runs[k].code != runs[k + 1].code
      {
        if k > 0 {
          assert runs[k] == rest[k - 1] && runs[k + 1] == rest[k];
        } else {
          assert runs[1] == rest[0];
        }
      }
    }
  }

  lemma {:induction false} RunsExpand(s: seq<int>)
    ensures Expand(Runs(s)) == s
    decreases |s|
  {
    if s != [] {
      var n := LeadCount(s, s[0]);
      RunsHead(s);
      var runs := Runs(s);
      assert Expand(runs[1..]) == s[n..] by {
        RunsExpand(s[n..]);
      }
      var lead := seq(runs[0].length, _ => runs[0].code);
      assert Expand(runs) == lead + Expand(runs[1..]);
      assert lead == s[..n];
      assert s == s[..n] + s[n..];
    }
  }

  lemma {:induction false} RunsTotal(s: seq<int>)
    ensures TotalLength(Runs(s)) == |s|
    decreases |s|
  {
    if s != [] {
      var n := LeadCount(s, s[0]);
      RunsHead(s);
      RunsTotal(s[n..]);
    }
  }

  /**
   * `Runs` is the only maximal run-length encoding of a sequence: any list
   * of non-empty runs with neighbouring codes different that expands to
   * `s` is `Runs(s)`.
   */
  lemma {:induction false} RunsUnique(s: seq<int>, runs: seq<Run>)
    requires MaximalRuns(runs)
    requires Expand(runs) == s
    ensures runs == Runs(s)
    decreases |s|
  {
    if runs != [] {
      var r := runs[0];
      var tail := Expand(runs[1..]);
      assert s == seq(r.length, _ => r.code) + tail;
      assert s[0] == r.code;
      if runs[1..] != [] {
        assert runs[1..][0] == runs[1];
        assert tail[0] == runs[1].code;
        assert s[r.length] == tail[0];
      }
      RunsStep(s, 0, r.length);
      assert s[0..] == s;
      assert s[r.length..] == tail;
      RunsUnique(tail, runs[1..]);
    }
  }

  lemma {:induction false} TotalLengthSnoc(runs: seq<Run>, k: nat)
    requires k < |runs|
    ensures TotalLength(runs[..k + 1]) == TotalLength(runs[..k]) + runs[k].length
  {
    if k > 0 {
      assert runs[..k + 1][1..] == runs[1..][..k];
      assert runs[..k][1..] == runs[1..][..k - 1];
      TotalLengthSnoc(runs[1..], k - 1);
    } else {
      assert runs[..1] == [runs[0]];
    }
  }

  /**
   * The start epochs are the prefix sums of the run lengths: the first
   * event starts at epoch 0, each later one where the previous run ends,
   * and the last run ends at the end of the input. No input gives no
   * events.
   */
  lemma EventsStarts(m: StageMap, data: seq<int>)
    ensures var runs, events := Runs(data), Events(m, data);
      && (data == [] <==> events == [])
      && (events != [] ==> events[0].startEpoch == 0)
      && (forall k :: 0 <= k < |events| - 1 ==> events[k + 1].startEpoch == events[k].startEpoch + runs[k].length)
      && (events != [] ==> events[|events| - 1].startEpoch + runs[|runs| - 1].length == |data|)
  {
    var runs, events := Runs(data), Events(m, data);
    RunsTotal(data);
    if events != [] {
      assert runs[..0] == [];
      TotalLengthSnoc(runs, |runs| - 1);
      assert runs[..|runs|] == runs;
    }
    forall k | 0 <= k < |events| - 1
      ensures events[k + 1].startEpoch == events[k].startEpoch + runs[k].length
    {
      TotalLengthSnoc(runs, k);
    }
  }

  /**
   * Every event spans at least one epoch, its duration text is that of its
   * run, and (for a stage map with one name per code) neighbouring events
   * name different stages.
   */
  lemma EventsMaximal(m: StageMap, data: seq<int>)
    requires ValidStageMap(m)
    ensures var runs, events := Runs(data), Events(m, data);
      && |events| == |runs|
      && (forall k :: 0 <= k < |events| ==> runs[k].length >= 1)
      && (forall k :: 0 <= k < |events| ==> events[k].duration == FormatDuration(runs[k].length * EPOCH_DURATION))
      && (forall k :: 0 <= k < |events| - 1 ==> events[k].stage != events[k + 1].stage)
  {
    var runs, events := Runs(data), Events(m, data);
    RunsMaximal(data);
    forall k | 0 <= k < |events| - 1
      ensures events[k].stage != events[k + 1].stage
    {
      StageNameInjective(m, runs[k].code, runs[k + 1].code);
    }
  }

  /** Epoch `e` lies in run `k` of the expansion. */
  lemma {:induction false} ExpandAt(runs: seq<Run>, k: nat, e: nat)
    requires k < |runs|
    requires TotalLength(runs[..k]) <= e < TotalLength(runs[..k]) + runs[k].length
    ensures e < |Expand(runs)| && Expand(runs)[e] == runs[k].code
  {
    ExpandLength(runs);
    if k == 0 {
      assert runs[..0] == [];
    } else {
      assert runs[..k][1..] == runs[1..][..k - 1];
      ExpandAt(runs[1..], k - 1, e - runs[0].length);
    }
  }

  /**
   * Each event names the stage of every epoch it covers: epochs
   * `startEpoch .. startEpoch + length - 1` of the input all carry the
   * event's code.
   */
  lemma EventsCoverInput(m: StageMap, data: seq<int>, k: nat, e: nat)
    requires k < |Events(m, data)|
    requires Events(m, data)[k].startEpoch <= e < Events(m, data)[k].startEpoch + Runs(data)[k].length
    ensures e < |data| && data[e] == Runs(data)[k].code
    ensures StageName(m, data[e]) == Events(m, data)[k].stage
  {
    RunsCorrect(data);
    ExpandAt(Runs(data), k, e);
  }
}
