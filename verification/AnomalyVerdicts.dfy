// What the rules of one series promise the lifecycle (anomaly_detect.go): who
// raises and who ends which metric, that an event is never reported absent,
// and that a frozen level is only left by the newest measurement coming back
// to it.
module AnomalyVerdicts {
  import opened Wrappers
  import opened AnomalyTypes
  import opened AnomalyRules
  import opened AnomalyNewData
  import opened OrderStatistics

  ghost predicate Raises(d: Decided, m: Metric) { exists i :: 0 <= i < |d.found| && d.found[i].metric == m }

  ghost predicate Ends(d: Decided, m: Metric) { exists i :: 0 <= i < |d.absent| && d.absent[i].metric == m }

  lemma BothSay(a: Decided, b: Decided, m: Metric)
    ensures Raises(Both(a, b), m) <==> Raises(a, m) || Raises(b, m)
    ensures Ends(Both(a, b), m) <==> Ends(a, m) || Ends(b, m)
  {
    RaisesBoth(a, b, m);
    EndsBoth(a, b, m);
  }

  lemma RaisesBoth(a: Decided, b: Decided, m: Metric)
    ensures Raises(Both(a, b), m) <==> Raises(a, m) || Raises(b, m)
  {
    var c := Both(a, b);
    if Raises(a, m) {
      var i :| 0 <= i < |a.found| && a.found[i].metric == m;
      assert c.found[i].metric == m;
    }
    if Raises(b, m) {
      var i :| 0 <= i < |b.found| && b.found[i].metric == m;
      assert c.found[|a.found| + i].metric == m;
    }
  }

  lemma EndsBoth(a: Decided, b: Decided, m: Metric)
    ensures Ends(Both(a, b), m) <==> Ends(a, m) || Ends(b, m)
  {
    var c := Both(a, b);
    if Ends(a, m) {
      var i :| 0 <= i < |a.absent| && a.absent[i].metric == m;
      assert c.absent[i].metric == m;
    }
    if Ends(b, m) {
      var i :| 0 <= i < |b.absent| && b.absent[i].metric == m;
      assert c.absent[|a.absent| + i].metric == m;
    }
  }

  ghost predicate Sound(d: Decided) { SoundFindings(d.found, d.absent) }

  lemma BothSound(a: Decided, b: Decided)
    requires Sound(a) && Sound(b)
    ensures Sound(Both(a, b))
  {
  }

  // A verdict speaks about its own metric, always: it raises it or ends it.
  lemma VerdictSays(open: map<Metric, Row>, metric: Metric, current: Measurement, raised: Option<Finding>,
      cleared: real -> bool)
    requires !IsEvent(metric) && (raised.Some? ==> raised.value.metric == metric && !raised.value.event)
    ensures var d := Verdict(open, metric, current, raised, cleared);
            && Sound(d)
            && (forall m :: m != metric ==> !Raises(d, m) && !Ends(d, m))
            && (Raises(d, metric) <==> !Ends(d, metric))
            && (metric in open ==> (Ends(d, metric) <==> cleared(open[metric].expected)))
            && (metric !in open ==> (Raises(d, metric) <==> raised.Some?))
  {
    var d := Verdict(open, metric, current, raised, cleared);
    if |d.found| == 1 {
      assert d.found[0].metric == metric;
    } else {
      assert d.absent[0].metric == metric;
    }
  }

  // ---- the newest measurement behind a frozen level -----------------------

  function Newest(ms: seq<Measurement>): Option<Measurement> {
    if ms == [] then None else Some(ms[|ms| - 1])
  }

  // The metrics that are held against a level.
  predicate LevelMetric(m: Metric) {
    m in {SourceBytesShrink, SourceBytesGrowth, SourceFilesShrink, DumpBytesShrink, DumpBytesGrowth, DurationSlower,
      DumpDurationSlower}
  }

  predicate WatchedBy(kind: SeriesKind, m: Metric) {
    match m
    case SourceBytesShrink | SourceBytesGrowth | SourceFilesShrink | DurationSlower =>
      kind == ItemSeries || kind == DatasetSeries
    case DumpBytesShrink | DumpBytesGrowth | DumpDurationSlower => kind == DumpSeries
    case _ => false
  }

  function QuantityOf(m: Metric): Quantity {
    match m
    case SourceFilesShrink => SourceFilesOf
    case DurationSlower | DumpDurationSlower => ResticMSOf
    case _ => SourceBytesOf
  }

  // What the newest run that measured the metric's quantity measured, for a
  // series the metric is watched on.
  function NewestFor(input: ItemInput, m: Metric): Option<Measurement> {
    if WatchedBy(input.kind, m) then Newest(Measurements(Reversed(EligibleRuns(input.series)), QuantityOf(m))) else None
  }

  // The value is back at the level: 0.9 of it on the way down, 1.1 up, 1.2 for
  // a duration.
  predicate BackAt(m: Metric, value: real, expected: real) {
    match m
    case SourceBytesGrowth | DumpBytesGrowth => value <= 1.1 * expected
    case DurationSlower | DumpDurationSlower => value <= 1.2 * expected
    case _ => value >= 0.9 * expected
  }

  // The verdict d on metric m, whose newest measurement is back or not.
  ghost predicate SpeaksFor(d: Decided, m: Metric, open: map<Metric, Row>, back: real -> bool) {
    && Sound(d)
    && (forall k :: k != m ==> !Raises(d, k) && !Ends(d, k))
    && (Raises(d, m) <==> !Ends(d, m))
    && (m in open ==> (Ends(d, m) <==> back(open[m].expected)))
  }

  ghost predicate Condition(raised: Option<Finding>, m: Metric) {
    raised.Some? ==> raised.value.metric == m && !raised.value.event
  }

  lemma ShrinkIsCondition(r: SizeRule, current: Measurement, prior: seq<Measurement>, down: seq<Measurement>,
      rebase: int, p: Params)
    ensures Condition(ShrinkRaised(r, current, prior, down, rebase, p), r.shrinkMetric)
  {
    var cut := SamplesFrom(prior, rebase);
    assert Condition(Collapsed(r, current, cut, p), r.shrinkMetric);
    ShrankIsCondition(r, current, down, p);
  }

  lemma ShrankIsCondition(r: SizeRule, current: Measurement, down: seq<Measurement>, p: Params)
    ensures Condition(Shrank(r, current, down, p), r.shrinkMetric)
  {
  }

  lemma GrewIsCondition(r: SizeRule, m: Metric, current: Measurement, up: seq<Measurement>, p: Params)
    ensures Condition(Grew(r, m, current, up, p), m)
  {
  }

  lemma SlowerIsCondition(current: Measurement, samples: seq<Measurement>, m: Metric, p: Params)
    ensures Condition(SlowerRun(current, samples, m, p), m)
  {
  }

  lemma ShrinkSays(r: SizeRule, open: map<Metric, Row>, expectations: map<Family, Expectation>, current: Measurement,
      prior: seq<Measurement>, rebase: int, p: Params)
    requires !IsEvent(r.shrinkMetric)
    ensures SpeaksFor(ShrinkVerdict(r, open, expectations, current, prior, rebase, p), r.shrinkMetric, open,
      ShrinkCleared(current.value))
  {
    var down := NewestSamples(SamplesFrom(prior, Max(rebase, SinceAt(expectations, r.downFamily))), WINDOW);
    var raised := ShrinkRaised(r, current, prior, down, rebase, p);
    ShrinkIsCondition(r, current, prior, down, rebase, p);
    VerdictSays(open, r.shrinkMetric, current, raised, ShrinkCleared(current.value));
  }

  lemma GrowthSays(r: SizeRule, open: map<Metric, Row>, expectations: map<Family, Expectation>, current: Measurement,
      prior: seq<Measurement>, rebase: int, p: Params)
    requires r.growthMetric.Some? && !IsEvent(r.growthMetric.value)
    ensures SpeaksFor(GrowthVerdict(r, open, expectations, current, prior, rebase, p), r.growthMetric.value, open,
      GrowthCleared(current.value))
  {
    var m := r.growthMetric.value;
    var up := NewestSamples(SamplesFrom(prior, Max(rebase, SinceAt(expectations, r.upFamily))), WINDOW);
    GrewIsCondition(r, m, current, up, p);
    VerdictSays(open, m, current, Grew(r, m, current, up, p), GrowthCleared(current.value));
  }

  // What one size rule says, given its newest measurement.
  ghost predicate SizeSpeaks(d: Decided, r: SizeRule, open: map<Metric, Row>, newest: Option<Measurement>, m: Metric) {
    && Sound(d)
    && (newest.None? || (m != r.shrinkMetric && Some(m) != r.growthMetric) ==> !Raises(d, m) && !Ends(d, m))
    && (newest.Some? && m == r.shrinkMetric && m in open ==>
          (Ends(d, m) <==> newest.value.value >= 0.9 * open[m].expected) && (Raises(d, m) <==> !Ends(d, m)))
    && (newest.Some? && Some(m) == r.growthMetric && m in open ==>
          (Ends(d, m) <==> newest.value.value <= 1.1 * open[m].expected) && (Raises(d, m) <==> !Ends(d, m)))
  }

  predicate ConditionRule(r: SizeRule) {
    !IsEvent(r.shrinkMetric)
      && (r.growthMetric.Some? ==> !IsEvent(r.growthMetric.value) && r.growthMetric.value != r.shrinkMetric)
  }

  lemma SizeSays(r: SizeRule, open: map<Metric, Row>, expectations: map<Family, Expectation>, rows: seq<SeriesRun>,
      rebase: int, p: Params, m: Metric)
    requires ConditionRule(r)
    ensures SizeSpeaks(EvaluateSize(r, open, expectations, rows, rebase, p), r, open,
      Newest(Measurements(rows, r.quantity)), m)
  {
    var samples := Measurements(rows, r.quantity);
    NothingSaid(m);
    if samples != [] {
      SizeVerdictSays(r, open, expectations, samples[|samples| - 1], samples[..|samples| - 1], rebase, p, m);
    }
  }

  lemma SizeVerdictSays(r: SizeRule, open: map<Metric, Row>, expectations: map<Family, Expectation>,
      current: Measurement, prior: seq<Measurement>, rebase: int, p: Params, m: Metric)
    requires ConditionRule(r)
    ensures SizeSpeaks(SizeVerdict(r, open, expectations, current, prior, rebase, p), r, open, Some(current), m)
  {
    hide ShrinkVerdict, GrowthVerdict, SpeaksFor, SizeSpeaks;
    ShrinkSays(r, open, expectations, current, prior, rebase, p);
    if r.growthMetric.None? {
      OneSide(ShrinkVerdict(r, open, expectations, current, prior, rebase, p), r, open, current, m);
    } else {
      GrowthSays(r, open, expectations, current, prior, rebase, p);
      TwoSides(ShrinkVerdict(r, open, expectations, current, prior, rebase, p),
        GrowthVerdict(r, open, expectations, current, prior, rebase, p),
               r, open, current, m);
    }
  }

  lemma OneSide(shrink: Decided, r: SizeRule, open: map<Metric, Row>, current: Measurement, m: Metric)
    requires r.growthMetric.None? && SpeaksFor(shrink, r.shrinkMetric, open, ShrinkCleared(current.value))
    ensures SizeSpeaks(shrink, r, open, Some(current), m)
  {
    hide Sound;
  }

  lemma TwoSides(shrink: Decided, growth: Decided, r: SizeRule, open: map<Metric, Row>, current: Measurement, m: Metric)
    requires r.growthMetric.Some? && r.growthMetric.value != r.shrinkMetric
    requires SpeaksFor(shrink, r.shrinkMetric, open, ShrinkCleared(current.value))
    requires SpeaksFor(growth, r.growthMetric.value, open, GrowthCleared(current.value))
    ensures SizeSpeaks(Both(shrink, growth), r, open, Some(current), m)
  {
    hide Both, Sound, Raises, Ends;
    BothSay(shrink, growth, m);
    BothSound(shrink, growth);
  }

  lemma NothingSaid(m: Metric)
    ensures Sound(Decided([], [])) && !Raises(Decided([], []), m) && !Ends(Decided([], []), m)
  {
  }

  // d is silent about m, or m stands or ends by its newest measurement.
  ghost predicate FollowsLevel(d: Decided, m: Metric, open: map<Metric, Row>, newest: Option<Measurement>) {
    && (newest.None? ==> !Raises(d, m) && !Ends(d, m))
    && (newest.Some? && m in open ==>
         (Ends(d, m) <==> BackAt(m, newest.value.value, open[m].expected)) && (Raises(d, m) <==> !Ends(d, m)))
  }

  lemma RulesAreConditions(kind: SeriesKind, p: Params)
    ensures forall i :: 0 <= i < |SourceRules(kind, p)| ==> ConditionRule(SourceRules(kind, p)[i])
  {
  }

  lemma SourceSays(input: ItemInput, p: Params, m: Metric)
    requires LevelMetric(m) || IsEvent(m)
    ensures Sound(DetectSource(input, p))
    ensures m != DurationSlower && m != DumpDurationSlower && LevelMetric(m) ==>
      FollowsLevel(DetectSource(input, p), m, input.open, NewestFor(input, m))
    ensures m == DurationSlower || m == DumpDurationSlower || IsEvent(m) ==>
      !Raises(DetectSource(input, p), m) && !Ends(DetectSource(input, p), m)
  {
    if input.kind == TreeSeries {
      NothingSaid(m);
    } else {
      RulesAreConditions(input.kind, p);
      SourceRulesSay(SourceRules(input.kind, p), input, p,
        Max(SelectionRebaseAt(input.series), OwnChangeAt(input.series, input.changedAt)), m);
    }
  }

  lemma SourceRulesSay(rules: seq<SizeRule>, input: ItemInput, p: Params, rebase: int, m: Metric)
    requires (LevelMetric(m) || IsEvent(m)) && input.kind != TreeSeries && rules == SourceRules(input.kind, p)
    requires forall i :: 0 <= i < |rules| ==> ConditionRule(rules[i])
    ensures var d :=
      EvaluateRules(rules, input.open, input.expectations, Reversed(EligibleRuns(input.series)), rebase, p);
            && Sound(d)
            && (m != DurationSlower && m != DumpDurationSlower && LevelMetric(m) ==>
                 FollowsLevel(d, m, input.open, NewestFor(input, m)))
            && (m == DurationSlower || m == DumpDurationSlower || IsEvent(m) ==> !Raises(d, m) && !Ends(d, m))
  {
    hide EvaluateRules, SizeSpeaks, SourceRules, NewestFor, FollowsLevel, LevelMetric, ConditionRule, SaidBy, Raises,
      Ends, Sound;
    var rows := Reversed(EligibleRuns(input.series));
    var said := RulesSaid(rules, input.open, input.expectations, rows, rebase, p, m);
    SpokenFor(said, rules, input, p, m, EvaluateRules(rules, input.open, input.expectations, rows, rebase, p));
  }

  // What a list of decisions says together.
  ghost predicate SaidBy(said: seq<Decided>, d: Decided, m: Metric) {
    && (Raises(d, m) <==> exists i :: 0 <= i < |said| && Raises(said[i], m))
    && (Ends(d, m) <==> exists i :: 0 <= i < |said| && Ends(said[i], m))
    && ((forall i :: 0 <= i < |said| ==> Sound(said[i])) ==> Sound(d))
  }

  lemma SaidBoth(first: Decided, rest: seq<Decided>, d: Decided, m: Metric)
    requires SaidBy(rest, d, m)
    ensures SaidBy([first] + rest, Both(first, d), m)
  {
    hide Raises, Ends, Sound, Both;
    BothSay(first, d, m);
    if Sound(first) && Sound(d) {
      BothSound(first, d);
    }
    var said := [first] + rest;
    assert said[0] == first && forall i :: 0 < i < |said| ==> said[i] == rest[i - 1];
    assert forall i :: 0 <= i < |rest| ==> said[i + 1] == rest[i];
  }

  // What a list of size rules says, rule by rule.
  lemma {:induction false} RulesSaid(rules: seq<SizeRule>, open: map<Metric, Row>,
      expectations: map<Family, Expectation>, rows: seq<SeriesRun>, rebase: int, p: Params, m: Metric)
    returns (said: seq<Decided>)
    requires forall i :: 0 <= i < |rules| ==> ConditionRule(rules[i])
    ensures |said| == |rules| && SaidBy(said, EvaluateRules(rules, open, expectations, rows, rebase, p), m)
    ensures forall i :: 0 <= i < |rules| ==>
      SizeSpeaks(said[i], rules[i], open, Newest(Measurements(rows, rules[i].quantity)), m)
  {
    hide EvaluateSize, SizeSpeaks, SaidBy, ConditionRule, Both;
    if rules == [] {
      said := [];
      NoneSaid(m);
    } else {
      var first := EvaluateSize(rules[0], open, expectations, rows, rebase, p);
      var rest := RulesSaid(rules[1..], open, expectations, rows, rebase, p, m);
      SizeSays(rules[0], open, expectations, rows, rebase, p, m);
      SaidBoth(first, rest, EvaluateRules(rules[1..], open, expectations, rows, rebase, p), m);
      said := [first] + rest;
    }
  }

  lemma NoneSaid(m: Metric)
    ensures SaidBy([], Decided([], []), m)
  {
    NothingSaid(m);
  }

  lemma SpokenFor(said: seq<Decided>, rules: seq<SizeRule>, input: ItemInput, p: Params, m: Metric, d: Decided)
    requires (LevelMetric(m) || IsEvent(m)) && input.kind != TreeSeries && rules == SourceRules(input.kind, p)
      && |said| == |rules|
    requires forall i :: 0 <= i < |rules| ==>
      SizeSpeaks(said[i], rules[i], input.open,
        Newest(Measurements(Reversed(EligibleRuns(input.series)), rules[i].quantity)), m)
    requires SaidBy(said, d, m)
    ensures Sound(d)
    ensures m != DurationSlower && m != DumpDurationSlower && LevelMetric(m) ==>
      FollowsLevel(d, m, input.open, NewestFor(input, m))
    ensures m == DurationSlower || m == DumpDurationSlower || IsEvent(m) ==> !Raises(d, m) && !Ends(d, m)
  {
    hide Measurements, EligibleRuns, Sound, Raises, Ends;
    if |rules| == 2 {
      assert SizeSpeaks(said[1], rules[1], input.open,
        Newest(Measurements(Reversed(EligibleRuns(input.series)), rules[1].quantity)), m);
    }
    assert SizeSpeaks(said[0], rules[0], input.open,
      Newest(Measurements(Reversed(EligibleRuns(input.series)), rules[0].quantity)), m);
  }

  lemma DurationVerdictSays(input: ItemInput, p: Params, current: Measurement, prior: seq<Measurement>)
    ensures var m := DurationMetric(input.kind);
            SpeaksFor(Verdict(input.open, m, current, SlowerRun(current, DurationSamples(input, prior), m, p),
              DurationCleared(current.value)),
                      m, input.open, DurationCleared(current.value))
  {
    var m := DurationMetric(input.kind);
    SlowerIsCondition(current, DurationSamples(input, prior), m, p);
    VerdictSays(input.open, m, current, SlowerRun(current, DurationSamples(input, prior), m, p),
      DurationCleared(current.value));
  }

  lemma DurationSays(input: ItemInput, p: Params, m: Metric)
    ensures Sound(DetectDuration(input, p))
    ensures m == DurationSlower || m == DumpDurationSlower ==>
      FollowsLevel(DetectDuration(input, p), m, input.open, NewestFor(input, m))
    ensures m != DurationSlower && m != DumpDurationSlower ==>
      !Raises(DetectDuration(input, p), m) && !Ends(DetectDuration(input, p), m)
  {
    hide Verdict, SlowerRun, DurationSamples, Measurements;
    NothingSaid(m);
    var measured := DurationMeasurements(input);
    if input.kind != TreeSeries && measured != [] {
      DurationVerdictSays(input, p, measured[|measured| - 1], measured[..|measured| - 1]);
    }
  }

  // d is one finding or one absence about a condition.
  ghost predicate SpeaksOnly(d: Decided, metric: Metric) {
    && (forall i :: 0 <= i < |d.found| ==> d.found[i].metric == metric && !d.found[i].event)
    && (forall i :: 0 <= i < |d.absent| ==> d.absent[i].metric == metric)
  }

  lemma StreakSays(runs: seq<SeriesRun>, metric: Metric, p: Params)
    requires runs != []
    ensures SpeaksOnly(JudgeStreak(runs, metric, p), metric)
  {
  }

  lemma FlakySays(runs: seq<SeriesRun>, metric: Metric, p: Params)
    requires runs != []
    ensures SpeaksOnly(JudgeFlaky(runs, metric, p), metric)
  {
  }

  lemma OnlyIsSilent(d: Decided, metric: Metric, m: Metric)
    requires SpeaksOnly(d, metric) && m != metric && !IsEvent(metric)
    ensures Sound(d) && !Raises(d, m) && !Ends(d, m)
  {
  }

  lemma JudgeSays(runs: seq<SeriesRun>, streakMetric: Metric, flakyMetric: Metric, p: Params, m: Metric)
    requires runs != [] && m != streakMetric && m != flakyMetric && !IsEvent(streakMetric) && !IsEvent(flakyMetric)
    ensures var d := JudgeReliability(runs, streakMetric, flakyMetric, p); Sound(d) && !Raises(d, m) && !Ends(d, m)
  {
    StreakSays(runs, streakMetric, p);
    FlakySays(runs, flakyMetric, p);
    OnlyIsSilent(JudgeStreak(runs, streakMetric, p), streakMetric, m);
    OnlyIsSilent(JudgeFlaky(runs, flakyMetric, p), flakyMetric, m);
    BothSay(JudgeStreak(runs, streakMetric, p), JudgeFlaky(runs, flakyMetric, p), m);
    BothSound(JudgeStreak(runs, streakMetric, p), JudgeFlaky(runs, flakyMetric, p));
  }

  lemma ReliabilitySays(input: ItemInput, p: Params, m: Metric)
    requires LevelMetric(m) || IsEvent(m)
    ensures Sound(DetectReliability(input, p)) && !Raises(DetectReliability(input, p), m)
      && !Ends(DetectReliability(input, p), m)
  {
    NothingSaid(m);
    var runs := NewestFinished(input.series, RELIABILITY_RUNS);
    if input.kind != DatasetSeries && runs != [] {
      if input.kind == DumpSeries {
        JudgeSays(runs, DumpFailureStreak, DumpFlaky, p, m);
      } else {
        JudgeSays(runs, FailureStreak, Flaky, p, m);
      }
    }
  }

  lemma NewDataSays(input: ItemInput, p: Params, m: Metric)
    ensures Sound(Decided(NewDataFindings(input, p), []))
    ensures !IsEvent(m) ==> !Raises(Decided(NewDataFindings(input, p), []), m)
    ensures !Ends(Decided(NewDataFindings(input, p), []), m)
  {
    NewDataAreEvents(input, p);
    var fs := NewDataFindings(input, p);
    assert forall i :: 0 <= i < |fs| ==> fs[i] in fs;
  }

  // Everything the rules say about one series is sound, and about a metric
  // held against a level they say exactly this: with an open row it stands
  // until its newest measurement is back at the level the row opened with.
  lemma ItemSays(input: ItemInput, m: Metric)
    requires LevelMetric(m)
    ensures Sound(EvaluateItem(input))
    ensures FollowsLevel(EvaluateItem(input), m, input.open, NewestFor(input, m))
  {
    var p := ParamsFor(input.sens);
    var a, b := Decided(NewDataFindings(input, p), []), DetectSource(input, p);
    var c, d := DetectDuration(input, p), DetectReliability(input, p);
    NewDataSays(input, p, m);
    SourceSays(input, p, m);
    DurationSays(input, p, m);
    ReliabilitySays(input, p, m);
    BothSay(a, b, m);
    BothSay(Both(a, b), c, m);
    BothSay(Both(Both(a, b), c), d, m);
    BothSound(a, b);
    BothSound(Both(a, b), c);
    BothSound(Both(Both(a, b), c), d);
  }

  lemma CapacityIsSound(v: VolumeInput)
    ensures Sound(DetectCapacity(v))
  {
    hide JudgeEta, JudgeRoom, Sound, Both;
    if v.readings > 0 {
      EtaIsSound(v, ParamsFor(v.sens));
      RoomIsSound(v);
      BothSound(JudgeEta(v, ParamsFor(v.sens)), JudgeRoom(v));
    } else {
      SilenceIsSound();
    }
  }

  lemma SilenceIsSound()
    ensures Sound(Decided([], []))
  {
  }

  lemma EtaIsSound(v: VolumeInput, p: Params)
    ensures Sound(JudgeEta(v, p))
  {
  }

  lemma RoomIsSound(v: VolumeInput)
    ensures Sound(JudgeRoom(v))
  {
  }

  lemma IntegrityIsSound(key: DrillKey, checks: seq<Drill>)
    ensures Sound(DetectIntegrity(key, checks))
  {
  }

  // ---- the last good backup of a size finding -----------------------------

  // f names the newest sample that is not bad as the last good backup and the
  // first of the bad ones after it as the onset; -1 when every sample is bad.
  ghost predicate NamesLastGood(f: Finding, prior: seq<Measurement>, bad: real -> bool, i: int) {
    && NewestNotBad(prior, bad, i)
    && f.lastGoodRunID == (if i >= 0 then prior[i].runID else "")
    && (i >= 0 ==> "lastGoodAt" in f.details && f.details["lastGoodAt"] == Num(prior[i].takenAt as real))
    && f.onsetRunID == (if i < |prior| - 1 then prior[i + 1].runID else "")
    && (i < |prior| - 1 ==> "since" in f.details && f.details["since"] == Num(prior[i + 1].at as real))
  }

  lemma DatedNames(f: Finding, prior: seq<Measurement>, bad: real -> bool)
    requires f.lastGoodRunID == "" && f.onsetRunID == ""
    ensures NamesLastGood(Dated(f, prior, bad), prior, bad, LastNotBad(prior, bad))
  {
  }

  lemma CollapseNamesLastGood(r: SizeRule, current: Measurement, prior: seq<Measurement>, p: Params) returns (i: int)
    ensures var f := Collapsed(r, current, prior, p);
            f.Some? ==> NamesLastGood(f.value, prior, (v: real) => Lost(r, v, f.value.expected, p), i)
                        && Lost(r, current.value, f.value.expected, p)
  {
    var expected := CollapseReference(r, current, prior, p);
    i := LastNotBad(prior, (v: real) => Lost(r, v, expected, p));
  }

  function UnderShare(ratio: real, level: real): real -> bool { (v: real) => v < ratio * level }

  // A shrink that is raised names the newest sample that is not itself under
  // the threshold of the level it reports, and the judged value lies under it.
  lemma ShrinkNamesLastGood(r: SizeRule, current: Measurement, samples: seq<Measurement>, p: Params) returns (i: int)
    ensures var f := Shrank(r, current, samples, p);
            f.Some? ==> NamesLastGood(f.value, samples, UnderShare(p.shrinkRatio, f.value.expected), i)
                        && current.value < p.shrinkRatio * f.value.expected
  {
    hide NamesLastGood, LevelOf;
    var l := LevelOf(samples, 0.02, r.madFloor);
    i := ShrinkFindingNames(r, current, samples, l, p);
  }

  lemma ShrinkFindingNames(r: SizeRule, current: Measurement, samples: seq<Measurement>, l: Level, p: Params)
      returns (i: int)
    ensures NamesLastGood(ShrinkFinding(r, current, samples, l, p), samples, UnderShare(p.shrinkRatio, l.median), i)
  {
    var bad := (v: real) => v < p.shrinkRatio * l.median;
    i := LastNotBad(samples, bad);
    DatedNames(LevelFinding(r.shrinkMetric, if current.value < 0.5 * l.median then Critical else Warning, current, l,
      p.shrinkRatio), samples, bad);
  }
}
