/**
 * `calculate_stage_summary` and `create_stage_summary`
 * (src/pysleep/hypnogram_report.py): the number of epochs spent under each
 * stage name, kept in the order in which the names first occur, rendered
 * as a duration and a percentage of the whole night.
 */
module Summary {
  import opened Wrappers
  import opened Duration
  import opened Stages
  import opened EventExtraction

  /** One entry of the summary dictionary: its key and its two values. */
  datatype StageTotal = StageTotal(stage: string, duration: string, percentage: string)

  /** The stage name of every epoch. */
  function Names(m: StageMap, data: seq<int>): (names: seq<string>)
    ensures |names| == |data|
  {
    seq(|data|, i requires 0 <= i < |data| => StageName(m, data[i]))
  }

  /**
   * The distinct elements of `s` in the order of their first occurrence:
   * the key order of a dictionary filled by walking `s`.
   */
  function FirstSeen(s: seq<string>): seq<string>
    decreases |s|
  {
    if s == [] then []
    else
      var keys := FirstSeen(s[..|s| - 1]);
      if s[|s| - 1] in keys then keys else keys + [s[|s| - 1]]
  }

  /** No element occurs twice. */
  predicate Distinct(s: seq<string>)
  {
    forall i, j :: 0 <= i < j < |s| ==> s[i] != s[j]
  }

  /** How often `x` occurs in `s`. */
  function Count(s: seq<string>, x: string): nat
  {
    multiset(s)[x]
  }

  /**
   * The summary entry for a stage seen `count` times among `total` epochs.
   * The percentage text (a float rendered with one decimal and a '%') is
   * the parameter `percent`.
   */
  function TotalOf(stage: string, count: nat, total: nat, percent: (nat, nat) -> string): StageTotal
  {
    StageTotal(stage, FormatDuration(count * EPOCH_DURATION), percent(count, total))
  }

  /** The entries for `keys`, counting over `names`. */
  function TotalsOf(keys: seq<string>, names: seq<string>, percent: (nat, nat) -> string): (r: seq<StageTotal>)
    ensures |r| == |keys|
  {
    seq(|keys|, k requires 0 <= k < |keys| => TotalOf(keys[k], Count(names, keys[k]), |names|, percent))
  }

  /** The summary of a night, as a specification. */
  function StageSummary(m: StageMap, data: seq<int>, percent: (nat, nat) -> string): seq<StageTotal>
  {
    var names := Names(m, data);
    TotalsOf(FirstSeen(names), names, percent)
  }

  /**
   * Counts the epochs per stage name into an insertion-ordered dictionary
   * (its key order `keys`, its values `counts`), then builds one entry per
   * key.
   */
  method CalculateStageSummary(m: StageMap, data: seq<int>, percent: (nat, nat) -> string)
    returns (summary: seq<StageTotal>)
    ensures summary == StageSummary(m, data, percent)
  {
    if data == [] {
      assert FirstSeen(Names(m, data)) == [];
      return [];
    }
    var total := |data|;
    var keys: seq<string> := [];
    var counts: map<string, nat> := map[];
    ghost var names := Names(m, data);
    for i := 0 to |data|
      invariant Tallied(names, i, keys, counts)
    {
      var name := StageName(m, data[i]);
      TallyStep(names, i, keys, counts);
      if name in counts {
        counts := counts[name := counts[name] + 1];
      } else {
        keys := keys + [name];
        counts := counts[name := 1];
      }
    }
    assert names[..|data|] == names;
    summary := [];
    for j := 0 to |keys|
      invariant summary == TotalsOf(keys[..j], names, percent)
    {
      var count := counts[keys[j]];
      TotalsOfSnoc(keys, j, names, percent);
      summary := summary + [StageTotal(keys[j], FormatDuration(count * EPOCH_DURATION), percent(count, total))];
    }
    assert keys[..|keys|] == keys;
  }

  /**
   * The dictionary after the first `i` epochs: its keys in first-seen
   * order, each mapped to the number of epochs so far with that name.
   */
  ghost predicate Tallied(names: seq<string>, i: nat, keys: seq<string>, counts: map<string, nat>)
    requires i <= |names|
  {
    && keys == FirstSeen(names[..i])
    && (forall n :: n in counts <==> n in keys)
    && (forall n :: n in counts ==> counts[n] == Count(names[..i], n))
  }

  /** Counting epoch `i` under its name: a new key when the name is new, one more otherwise. */
  lemma TallyStep(names: seq<string>, i: nat, keys: seq<string>, counts: map<string, nat>)
    requires i < |names| && Tallied(names, i, keys, counts)
    ensures var name := names[i];
      if name in counts then Tallied(names, i + 1, keys, counts[name := counts[name] + 1])
      else Tallied(names, i + 1, keys + [name], counts[name := 1])
  {
    var name := names[i];
    CountStep(names, i, name);
    if name in counts {
      var counts' := counts[name := counts[name] + 1];
      assert forall n :: n in counts' ==> counts'[n] == Count(names[..i + 1], n);
    } else {
      FirstSeenMeaning(names[..i]);
      assert Count(names[..i], name) == 0;
      var counts' := counts[name := 1];
      assert forall n :: n in counts' ==> counts'[n] == Count(names[..i + 1], n);
    }
  }

  /** One step of the counting loop. */
  lemma CountStep(names: seq<string>, i: nat, name: string)
    requires i < |names| && names[i] == name
    ensures names[..i + 1][..i] == names[..i]
    ensures FirstSeen(names[..i + 1]) == if name in FirstSeen(names[..i]) then FirstSeen(names[..i]) else FirstSeen(names[..i]) + [name]
    ensures forall n :: Count(names[..i + 1], n) == Count(names[..i], n) + (if n == name then 1 else 0)
  {
    assert names[..i + 1] == names[..i] + [name];
  }

  /** One step of the building loop. */
  lemma TotalsOfSnoc(keys: seq<string>, j: nat, names: seq<string>, percent: (nat, nat) -> string)
    requires j < |keys|
    ensures TotalsOf(keys[..j + 1], names, percent)
      == TotalsOf(keys[..j], names, percent) + [TotalOf(keys[j], Count(names, keys[j]), |names|, percent)]
  {
  }

  /**
   * The keys are exactly the names that occur, each once.
   */
  lemma {:induction false} FirstSeenMeaning(s: seq<string>)
    ensures Distinct(FirstSeen(s))
    ensures forall x :: x in FirstSeen(s) <==> x in s
    decreases |s|
  {
    if s != [] {
      var p := s[..|s| - 1];
      FirstSeenMeaning(p);
      assert s == p + [s[|s| - 1]];
    }
  }

  /**
   * Key order is first-occurrence order: the keys of a prefix of the
   * epochs are a prefix of the keys of all of them.
   */
  lemma {:induction false} FirstSeenPrefix(s: seq<string>, i: nat)
    requires i <= |s|
    ensures FirstSeen(s[..i]) <= FirstSeen(s)
    decreases |s| - i
  {
    if i < |s| {
      FirstSeenPrefix(s, i + 1);
      assert s[..i + 1][..i] == s[..i];
    } else {
      assert s[..i] == s;
    }
  }

  /** Sum of the counts of `keys` in `s`. */
  function SumCounts(keys: seq<string>, s: seq<string>): nat
  {
    if keys == [] then 0 else SumCounts(keys[..|keys| - 1], s) + Count(s, keys[|keys| - 1])
  }

  lemma {:induction false} SumCountsOther(keys: seq<string>, s: seq<string>, x: string)
    requires x !in keys
    ensures SumCounts(keys, s + [x]) == SumCounts(keys, s)
  {
    if keys != [] {
      SumCountsOther(keys[..|keys| - 1], s, x);
    }
  }

  lemma {:induction false} SumCountsIn(keys: seq<string>, s: seq<string>, x: string)
    requires Distinct(keys) && x in keys
    ensures SumCounts(keys, s + [x]) == SumCounts(keys, s) + 1
  {
    var init, last := keys[..|keys| - 1], keys[|keys| - 1];
    assert keys == init + [last];
    if last == x {
      assert x !in init;
      SumCountsOther(init, s, x);
    } else {
      SumCountsIn(init, s, x);
    }
  }

  /** Every epoch is counted under exactly one key. */
  lemma {:induction false} CountsCoverAll(s: seq<string>)
    ensures SumCounts(FirstSeen(s), s) == |s|
    decreases |s|
  {
    if s != [] {
      var p, x := s[..|s| - 1], s[|s| - 1];
      assert s == p + [x];
      CountsCoverAll(p);
      FirstSeenMeaning(p);
      var keys := FirstSeen(p);
      if x in keys {
        SumCountsIn(keys, p, x);
      } else {
        SumCountsOther(keys, p, x);
        assert (keys + [x])[..|keys|] == keys;
      }
    }
  }

  /**
   * With one name per stage code, the count under a code's stage name is
   * the number of epochs carrying that code: in particular every unknown
   * code gets an entry "Unknown(<code>)" of its own.
   */
  lemma {:induction false} CountPerCode(m: StageMap, data: seq<int>, c: int)
    requires ValidStageMap(m)
    ensures Count(Names(m, data), StageName(m, c)) == multiset(data)[c]
    decreases |data|
  {
    if data != [] {
      var p, x := data[..|data| - 1], data[|data| - 1];
      assert data == p + [x];
      CountPerCode(m, p, c);
      assert Names(m, data) == Names(m, p) + [StageName(m, x)];
      StageNameInjective(m, x, c);
    }
  }

  /**
   * The summary has one entry per distinct stage name, in first-seen
   * order; the counts add up to the number of epochs, and an empty night
   * has an empty summary.
   */
  lemma SummaryKeys(m: StageMap, data: seq<int>, percent: (nat, nat) -> string)
    ensures var summary, names := StageSummary(m, data, percent), Names(m, data);
      && (summary == [] <==> data == [])
      && |summary| == |FirstSeen(names)|
      && (forall k :: 0 <= k < |summary| ==> summary[k].stage == FirstSeen(names)[k])
      && (forall i, j :: 0 <= i < j < |summary| ==> summary[i].stage != summary[j].stage)
      && SumCounts(FirstSeen(names), names) == |data|
      && (forall i :: 0 <= i <= |names| ==> FirstSeen(names[..i]) <= FirstSeen(names))
  {
    var names := Names(m, data);
    FirstSeenMeaning(names);
    forall i | 0 <= i <= |names|
      ensures FirstSeen(names[..i]) <= FirstSeen(names)
    {
      FirstSeenPrefix(names, i);
    }
    CountsCoverAll(names);
    if data != [] {
      assert names[0] in FirstSeen(names);
    }
  }

  /** Every epoch's stage name has its entry in the summary. */
  lemma SummaryCoversEpochs(m: StageMap, data: seq<int>, percent: (nat, nat) -> string)
    ensures var summary := StageSummary(m, data, percent);
      forall i :: 0 <= i < |data| ==> exists k :: 0 <= k < |summary| && summary[k].stage == StageName(m, data[i])
  {
    var summary, names := StageSummary(m, data, percent), Names(m, data);
    var keys := FirstSeen(names);
    assert forall x :: x in names ==> x in keys by {
      FirstSeenMeaning(names);
    }
    forall i | 0 <= i < |data|
      ensures exists k :: 0 <= k < |summary| && summary[k].stage == StageName(m, data[i])
    {
      assert names[i] in keys;
      var k :| 0 <= k < |keys| && keys[k] == names[i];
      assert summary[k].stage == StageName(m, data[i]);
    }
  }

  /**
   * Each entry's duration reads back as 30 seconds per epoch counted under
   * its stage name, and its percentage is that count against the number of
   * epochs.
   */
  lemma SummaryValues(m: StageMap, data: seq<int>, percent: (nat, nat) -> string)
    ensures var summary, names := StageSummary(m, data, percent), Names(m, data);
      forall k :: 0 <= k < |summary| ==>
        && ParseDuration(summary[k].duration) == Some(Count(names, summary[k].stage) * EPOCH_DURATION)
        && summary[k].percentage == percent(Count(names, summary[k].stage), |data|)
  {
    var summary, names := StageSummary(m, data, percent), Names(m, data);
    forall k | 0 <= k < |summary|
      ensures ParseDuration(summary[k].duration) == Some(Count(names, summary[k].stage) * EPOCH_DURATION)
    {
      FormatDurationRoundTrip(Count(names, summary[k].stage) * EPOCH_DURATION);
    }
  }

  /** `create_stage_summary`: each entry becomes `stage: [duration, percentage]`. */
  function CreateStageSummary(summary: seq<StageTotal>): (r: seq<(string, seq<string>)>)
    ensures |r| == |summary|
    ensures forall k :: 0 <= k < |r| ==> r[k].0 == summary[k].stage && |r[k].1| == 2
  {
    seq(|summary|, k requires 0 <= k < |summary| => (summary[k].stage, [summary[k].duration, summary[k].percentage]))
  }

  /** Reads a `[duration, percentage]` dictionary back into summary entries. */
  function ReadStageSummary(pairs: seq<(string, seq<string>)>): Option<seq<StageTotal>>
  {
    if pairs == [] then Some([])
    else if |pairs[0].1| != 2 then None
    else match ReadStageSummary(pairs[1..])
      case None => None
      case Some(rest) => Some([StageTotal(pairs[0].0, pairs[0].1[0], pairs[0].1[1])] + rest)
  }

  /** The conversion loses nothing: it keeps the keys, their order and both values. */
  lemma {:induction false} CreateStageSummaryRoundTrip(summary: seq<StageTotal>)
    ensures ReadStageSummary(CreateStageSummary(summary)) == Some(summary)
  {
    if summary != [] {
      CreateStageSummaryRoundTrip(summary[1..]);
      assert CreateStageSummary(summary)[1..] == CreateStageSummary(summary[1..]);
      assert [summary[0]] + summary[1..] == summary;
    }
  }
}
