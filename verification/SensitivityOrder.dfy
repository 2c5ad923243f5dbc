// The presets refine each other: whatever a looser preset raises on a series
// without open rows, a stricter one raises at no lower severity
// (anomaly_detect.go).
module SensitivityOrder {
  import opened Wrappers
  import opened AnomalyTypes
  import opened AnomalyRules
  import opened AnomalyNewData
  import opened OrderStatistics

  // p lets more pass than q in every threshold.
  ghost predicate Looser(p: Params, q: Params) {
    && p.k >= q.k && p.newDataMult >= q.newDataMult >= 0.0 && p.newDataFloor >= q.newDataFloor
    && p.collapseFrac <= q.collapseFrac && p.shrinkRatio <= q.shrinkRatio && p.shrinkFloor >= q.shrinkFloor
    && p.filesFloor >= q.filesFloor && p.growthRatio >= q.growthRatio && p.growthFloor >= q.growthFloor
    && p.durRatio >= q.durRatio && p.durFloorMS >= q.durFloorMS && p.streakWarn >= q.streakWarn
    && p.flakyK >= q.flakyK && p.etaWarnDays <= q.etaWarnDays && p.etaCritDays <= q.etaCritDays
  }

  predicate NoMoreSensitive(a: Sensitivity, b: Sensitivity) { a == b || a == Permissive || b == Strict }

  lemma PresetsOrdered(a: Sensitivity, b: Sensitivity)
    requires NoMoreSensitive(a, b)
    ensures Looser(ParamsFor(a), ParamsFor(b))
  {
  }

  // g answers for f: the same run, no lower severity, the same metric except
  // that an unreliable series may count as a streak of failures.
  ghost predicate Answers(g: Finding, f: Finding) {
    && g.runID == f.runID && g.runAt == f.runAt && g.severity.Rank() >= f.severity.Rank()
    && (g.metric == f.metric || (f.metric == Flaky && g.metric == FailureStreak)
       || (f.metric == DumpFlaky && g.metric == DumpFailureStreak))
  }

  ghost predicate Covers(strong: seq<Finding>, weak: seq<Finding>) {
    forall f :: f in weak ==> exists g :: g in strong && Answers(g, f)
  }

  ghost predicate AnswersRaised(strong: Option<Finding>, weak: Option<Finding>) {
    weak.Some? ==> strong.Some? && Answers(strong.value, weak.value)
  }

  lemma CoversSum(s1: seq<Finding>, w1: seq<Finding>, s2: seq<Finding>, w2: seq<Finding>)
    requires Covers(s1, w1) && Covers(s2, w2)
    ensures Covers(s1 + s2, w1 + w2)
  {
    forall f | f in w1 + w2 ensures exists g :: g in s1 + s2 && Answers(g, f) {
      if f in w1 {
        var g :| g in s1 && Answers(g, f);
        assert g in s1 + s2;
      } else {
        var g :| g in s2 && Answers(g, f);
        assert g in s1 + s2;
      }
    }
  }

  ghost predicate NonNegative(o: Option<int>) { o.Some? ==> o.value >= 0 }

  ghost predicate MeasuredAmounts(runs: seq<SeriesRun>) {
    forall r :: r in runs ==>
      r.bytes >= 0 && NonNegative(r.sourceBytes) && NonNegative(r.sourceFiles) && NonNegative(r.resticMS)
  }

  ghost predicate NonNegativeSamples(ms: seq<Measurement>) {
    forall i :: 0 <= i < |ms| ==> ms[i].value >= 0.0
  }

  lemma {:induction false} EligibleAreRuns(series: seq<SeriesRun>)
    ensures forall r :: r in EligibleRuns(series) ==> r in series
  {
    if series != [] {
      EligibleAreRuns(series[1..]);
    }
  }

  lemma {:induction false} MeasurementsNonNegative(rows: seq<SeriesRun>, q: Quantity)
    requires MeasuredAmounts(rows)
    ensures NonNegativeSamples(Measurements(rows, q))
  {
    if rows != [] {
      assert rows[0] in rows;
      MeasurementsNonNegative(rows[1..], q);
    }
  }

  lemma LevelNonNegative(ms: seq<Measurement>)
    requires NonNegativeSamples(ms)
    ensures Median(Values(ms)) >= 0.0
  {
    MedianNonNegative(Values(ms));
  }

  lemma Scaled(a: real, b: real, level: real)
    requires a <= b && level >= 0.0
    ensures a * level <= b * level
  {
  }

  // ---- size ---------------------------------------------------------------

  // The rule of the looser preset next to the rule of the stricter one.
  ghost predicate SameRule(r: SizeRule, s: SizeRule) {
    && r.shrinkFloor >= s.shrinkFloor && r.growthFloor >= s.growthFloor
    && s == r.(shrinkFloor := s.shrinkFloor, growthFloor := s.growthFloor)
  }

  lemma LostRefines(r: SizeRule, s: SizeRule, value: real, reference: real, p: Params, q: Params)
    requires SameRule(r, s) && Looser(p, q) && reference >= 0.0 && Lost(r, value, reference, p)
    ensures Lost(s, value, reference, q)
  {
    Scaled(p.collapseFrac, q.collapseFrac, reference);
  }

  lemma MonthPeakNonNegative(current: Measurement, prior: seq<Measurement>)
    requires NonNegativeSamples(prior)
    ensures MonthPeak(current, prior) >= 0.0
  {
    var month := SamplesFrom(prior, current.at - DRAIN_DAYS * DAY);
    if month != [] {
      assert Values(month)[0] in Values(month);
    }
  }

  lemma CollapsedRefines(r: SizeRule, s: SizeRule, current: Measurement, prior: seq<Measurement>, p: Params, q: Params)
    requires SameRule(r, s) && Looser(p, q) && NonNegativeSamples(prior)
    ensures AnswersRaised(Collapsed(s, current, prior, q), Collapsed(r, current, prior, p))
  {
    LevelNonNegative(NewestSamples(prior, COLLAPSE_REF_SAMPLES));
    MonthPeakNonNegative(current, prior);
    if Lost(r, current.value, CollapseLevel(prior), p) {
      LostRefines(r, s, current.value, CollapseLevel(prior), p, q);
    }
    if Lost(r, current.value, MonthPeak(current, prior), p) {
      LostRefines(r, s, current.value, MonthPeak(current, prior), p, q);
    }
  }

  lemma FarBelowRefines(value: real, l: Level, p: Params, q: Params, pFloor: real, qFloor: real)
    requires Looser(p, q) && l.median >= 0.0 && pFloor >= qFloor && FarBelow(value, l, p.shrinkRatio, pFloor, p.k)
    ensures FarBelow(value, l, q.shrinkRatio, qFloor, q.k)
  {
    Scaled(p.shrinkRatio, q.shrinkRatio, l.median);
  }

  lemma ShrankRefines(r: SizeRule, s: SizeRule, current: Measurement, samples: seq<Measurement>, p: Params, q: Params)
    requires SameRule(r, s) && Looser(p, q) && NonNegativeSamples(samples)
    ensures AnswersRaised(Shrank(s, current, samples, q), Shrank(r, current, samples, p))
  {
    LevelNonNegative(samples);
    if Shrank(r, current, samples, p).Some? {
      FarBelowRefines(current.value, LevelOf(samples, 0.02, r.madFloor), p, q, r.shrinkFloor, s.shrinkFloor);
    }
  }

  lemma FarAboveRefines(value: real, l: Level, p: Params, q: Params, pFloor: real, qFloor: real)
    requires Looser(p, q) && l.median >= 0.0 && pFloor >= qFloor && FarAbove(value, l, p.growthRatio, pFloor, p.k)
    ensures FarAbove(value, l, q.growthRatio, qFloor, q.k)
  {
    Scaled(q.growthRatio, p.growthRatio, l.median);
  }

  lemma GrewRefines(r: SizeRule, s: SizeRule, m: Metric, current: Measurement, samples: seq<Measurement>, p: Params,
      q: Params)
    requires SameRule(r, s) && Looser(p, q) && NonNegativeSamples(samples)
    ensures AnswersRaised(Grew(s, m, current, samples, q), Grew(r, m, current, samples, p))
  {
    LevelNonNegative(samples);
    if Grew(r, m, current, samples, p).Some? {
      FarAboveRefines(current.value, LevelOf(samples, 0.02, r.madFloor), p, q, r.growthFloor, s.growthFloor);
    }
  }

  lemma CollapsedIsCritical(r: SizeRule, current: Measurement, prior: seq<Measurement>, p: Params)
    ensures var f := Collapsed(r, current, prior, p);
      f.Some? ==>
        f.value.metric == r.shrinkMetric && f.value.severity == Critical && f.value.runID == current.runID
        && f.value.runAt == current.at
  {
  }

  lemma ShrankIsAbout(r: SizeRule, current: Measurement, samples: seq<Measurement>, p: Params)
    ensures var f := Shrank(r, current, samples, p);
      f.Some? ==> f.value.metric == r.shrinkMetric && f.value.runID == current.runID && f.value.runAt == current.at
  {
  }

  lemma ShrinkRefines(r: SizeRule, s: SizeRule, current: Measurement, prior: seq<Measurement>, down: seq<Measurement>,
                      rebase: int, p: Params, q: Params)
    requires SameRule(r, s) && Looser(p, q) && NonNegativeSamples(prior) && NonNegativeSamples(down)
    ensures AnswersRaised(ShrinkRaised(s, current, prior, down, rebase, q),
      ShrinkRaised(r, current, prior, down, rebase, p))
  {
    hide Collapsed, Shrank;
    var cut := SamplesFrom(prior, rebase);
    CollapsedRefines(r, s, current, cut, p, q);
    ShrankRefines(r, s, current, down, p, q);
    CollapsedIsCritical(s, current, cut, q);
    ShrankIsAbout(r, current, down, p);
  }

  lemma ShrinkVerdictRefines(r: SizeRule, s: SizeRule, expectations: map<Family, Expectation>, current: Measurement,
      prior: seq<Measurement>,
                             rebase: int, p: Params, q: Params)
    requires SameRule(r, s) && Looser(p, q) && NonNegativeSamples(prior)
    ensures Covers(ShrinkVerdict(s, map[], expectations, current, prior, rebase, q).found,
      ShrinkVerdict(r, map[], expectations, current, prior, rebase, p).found)
  {
    var down := NewestSamples(SamplesFrom(prior, Max(rebase, SinceAt(expectations, r.downFamily))), WINDOW);
    ShrinkRefines(r, s, current, prior, down, rebase, p, q);
    RaisedCovers(r.shrinkMetric, current, ShrinkRaised(s, current, prior, down, rebase, q),
      ShrinkRaised(r, current, prior, down, rebase, p), ShrinkCleared(current.value));
  }

  lemma GrowthVerdictRefines(r: SizeRule, s: SizeRule, expectations: map<Family, Expectation>, current: Measurement,
      prior: seq<Measurement>,
                             rebase: int, p: Params, q: Params)
    requires SameRule(r, s) && Looser(p, q) && NonNegativeSamples(prior) && r.growthMetric.Some?
    ensures Covers(GrowthVerdict(s, map[], expectations, current, prior, rebase, q).found,
      GrowthVerdict(r, map[], expectations, current, prior, rebase, p).found)
  {
    var m := r.growthMetric.value;
    var up := NewestSamples(SamplesFrom(prior, Max(rebase, SinceAt(expectations, r.upFamily))), WINDOW);
    GrewRefines(r, s, m, current, up, p, q);
    RaisedCovers(m, current, Grew(s, m, current, up, q), Grew(r, m, current, up, p), GrowthCleared(current.value));
  }

  lemma SizeVerdictRefines(r: SizeRule, s: SizeRule, expectations: map<Family, Expectation>, current: Measurement,
      prior: seq<Measurement>,
                           rebase: int, p: Params, q: Params)
    requires SameRule(r, s) && Looser(p, q) && NonNegativeSamples(prior)
    ensures Covers(SizeVerdict(s, map[], expectations, current, prior, rebase, q).found,
      SizeVerdict(r, map[], expectations, current, prior, rebase, p).found)
  {
    ShrinkVerdictRefines(r, s, expectations, current, prior, rebase, p, q);
    if r.growthMetric.Some? {
      GrowthVerdictRefines(r, s, expectations, current, prior, rebase, p, q);
      CoversSum(ShrinkVerdict(s, map[], expectations, current, prior, rebase, q).found,
        ShrinkVerdict(r, map[], expectations, current, prior, rebase, p).found,
                GrowthVerdict(s, map[], expectations, current, prior, rebase, q).found,
                  GrowthVerdict(r, map[], expectations, current, prior, rebase, p).found);
    }
  }

  lemma PriorNonNegative(rows: seq<SeriesRun>, q: Quantity)
    requires MeasuredAmounts(rows) && Measurements(rows, q) != []
    ensures var samples := Measurements(rows, q); NonNegativeSamples(samples[..|samples| - 1])
  {
    MeasurementsNonNegative(rows, q);
  }

  lemma SizeIsVerdict(r: SizeRule, open: map<Metric, Row>, expectations: map<Family, Expectation>,
      rows: seq<SeriesRun>, rebase: int, p: Params) returns (d: Decided)
    ensures d == EvaluateSize(r, open, expectations, rows, rebase, p)
    ensures var samples := Measurements(rows, r.quantity);
            if samples == [] then d == Decided([], [])
            else d == SizeVerdict(r, open, expectations, samples[|samples| - 1], samples[..|samples| - 1], rebase, p)
  {
    d := EvaluateSize(r, open, expectations, rows, rebase, p);
  }

  lemma SizeRefines(r: SizeRule, s: SizeRule, expectations: map<Family, Expectation>, rows: seq<SeriesRun>,
      rebase: int, p: Params, q: Params)
    requires SameRule(r, s) && Looser(p, q) && MeasuredAmounts(rows)
    ensures Covers(EvaluateSize(s, map[], expectations, rows, rebase, q).found,
      EvaluateSize(r, map[], expectations, rows, rebase, p).found)
  {
    hide SizeVerdict, Measurements;
    var samples := Measurements(rows, r.quantity);
    var strong := SizeIsVerdict(s, map[], expectations, rows, rebase, q);
    var weak := SizeIsVerdict(r, map[], expectations, rows, rebase, p);
    assert Covers(strong.found, weak.found) by {
      if samples != [] {
        PriorNonNegative(rows, r.quantity);
        SizeVerdictRefines(r, s, expectations, samples[|samples| - 1], samples[..|samples| - 1], rebase, p, q);
      }
    }
  }

  lemma RaisedCovers(m: Metric, current: Measurement, strong: Option<Finding>, weak: Option<Finding>,
      cleared: real -> bool)
    requires AnswersRaised(strong, weak)
    ensures Covers(Verdict(map[], m, current, strong, cleared).found, Verdict(map[], m, current, weak, cleared).found)
  {
    if weak.Some? {
      assert strong.value in Verdict(map[], m, current, strong, cleared).found;
    }
  }

  lemma {:induction false} RulesRefine(rs: seq<SizeRule>, ss: seq<SizeRule>, expectations: map<Family, Expectation>,
                                       rows: seq<SeriesRun>, rebase: int, p: Params, q: Params)
    requires |rs| == |ss| && (forall i :: 0 <= i < |rs| ==> SameRule(rs[i], ss[i])) && Looser(p, q)
      && MeasuredAmounts(rows)
    ensures Covers(EvaluateRules(ss, map[], expectations, rows, rebase, q).found,
      EvaluateRules(rs, map[], expectations, rows, rebase, p).found)
  {
    if rs != [] {
      SizeRefines(rs[0], ss[0], expectations, rows, rebase, p, q);
      RulesRefine(rs[1..], ss[1..], expectations, rows, rebase, p, q);
      CoversSum(EvaluateSize(ss[0], map[], expectations, rows, rebase, q).found,
        EvaluateSize(rs[0], map[], expectations, rows, rebase, p).found,
                EvaluateRules(ss[1..], map[], expectations, rows, rebase, q).found,
                  EvaluateRules(rs[1..], map[], expectations, rows, rebase, p).found);
    }
  }

  // ---- duration and reliability -------------------------------------------

  lemma FarSlowerRefines(value: real, l: Level, p: Params, q: Params)
    requires Looser(p, q) && l.median >= 0.0 && FarSlower(value, l, p.durRatio, p.durFloorMS, p.k)
    ensures FarSlower(value, l, q.durRatio, q.durFloorMS, q.k)
  {
    Scaled(q.durRatio, p.durRatio, l.median);
  }

  lemma SlowerRefines(current: Measurement, samples: seq<Measurement>, metric: Metric, p: Params, q: Params)
    requires Looser(p, q) && NonNegativeSamples(samples)
    ensures AnswersRaised(SlowerRun(current, samples, metric, q), SlowerRun(current, samples, metric, p))
  {
    LevelNonNegative(samples);
    if SlowerRun(current, samples, metric, p).Some? {
      FarSlowerRefines(current.value, LevelOf(samples, 0.05, 1000.0), p, q);
    }
  }

  lemma DurationRefines(input: ItemInput, p: Params, q: Params)
    requires Looser(p, q) && input.open == map[] && MeasuredAmounts(input.series)
    ensures Covers(DetectDuration(input, q).found, DetectDuration(input, p).found)
  {
    hide Verdict, SlowerRun, DurationSamples, Looser, Covers;
    DurationsNonNegative(input);
    var measured := DurationMeasurements(input);
    if input.kind != TreeSeries && measured != [] {
      DurationVerdictRefines(input, measured[|measured| - 1], measured[..|measured| - 1], p, q);
    } else {
      NothingCovered();
    }
  }

  lemma NothingCovered()
    ensures Covers([], [])
  {
  }

  lemma DurationsNonNegative(input: ItemInput)
    requires MeasuredAmounts(input.series)
    ensures NonNegativeSamples(DurationMeasurements(input))
  {
    EligibleAreRuns(input.series);
    MeasurementsNonNegative(Reversed(EligibleRuns(input.series)), ResticMSOf);
  }

  lemma DurationVerdictRefines(input: ItemInput, current: Measurement, prior: seq<Measurement>, p: Params, q: Params)
    requires Looser(p, q) && NonNegativeSamples(prior) && input.open == map[]
    ensures var m, samples := DurationMetric(input.kind), DurationSamples(input, prior);
      Covers(Verdict(input.open, m, current, SlowerRun(current, samples, m, q), DurationCleared(current.value)).found,
             Verdict(input.open, m, current, SlowerRun(current, samples, m, p), DurationCleared(current.value)).found)
  {
    hide SlowerRun, Looser;
    var m, samples := DurationMetric(input.kind), DurationSamples(input, prior);
    SlowerRefines(current, samples, m, p, q);
    RaisedCovers(m, current, SlowerRun(current, samples, m, q), SlowerRun(current, samples, m, p),
      DurationCleared(current.value));
  }

  lemma StreakAnswered(runs: seq<SeriesRun>, metric: Metric, p: Params, q: Params, f: Finding)
    requires runs != [] && Looser(p, q) && f in JudgeStreak(runs, metric, p).found
    ensures var strong := JudgeStreak(runs, metric, q).found; strong != [] && Answers(strong[0], f)
  {
    hide Streak;
  }

  lemma FlakyAnswered(runs: seq<SeriesRun>, streakMetric: Metric, flakyMetric: Metric, p: Params, q: Params, f: Finding)
    requires runs != [] && Looser(p, q) && f in JudgeFlaky(runs, flakyMetric, p).found
    requires (streakMetric == FailureStreak && flakyMetric == Flaky)
      || (streakMetric == DumpFailureStreak && flakyMetric == DumpFlaky)
    ensures exists g :: g in JudgeReliability(runs, streakMetric, flakyMetric, q).found && Answers(g, f)
  {
    hide Streak, FailedRuns;
    var strong := JudgeReliability(runs, streakMetric, flakyMetric, q).found;
    assert Answers(strong[0], f) && strong[0] in strong;
  }

  lemma ReliabilityRefines(runs: seq<SeriesRun>, streakMetric: Metric, flakyMetric: Metric, p: Params, q: Params)
    requires runs != [] && Looser(p, q)
    requires (streakMetric == FailureStreak && flakyMetric == Flaky)
      || (streakMetric == DumpFailureStreak && flakyMetric == DumpFlaky)
    ensures Covers(JudgeReliability(runs, streakMetric, flakyMetric, q).found,
      JudgeReliability(runs, streakMetric, flakyMetric, p).found)
  {
    hide Streak, FailedRuns, JudgeStreak, JudgeFlaky, Looser;
    var strong := JudgeReliability(runs, streakMetric, flakyMetric, q).found;
    forall f | f in JudgeReliability(runs, streakMetric, flakyMetric, p).found
      ensures exists g :: g in strong && Answers(g, f) {
      if f in JudgeStreak(runs, streakMetric, p).found {
        StreakAnswered(runs, streakMetric, p, q, f);
        assert JudgeStreak(runs, streakMetric, q).found[0] in strong;
      } else {
        FlakyAnswered(runs, streakMetric, flakyMetric, p, q, f);
      }
    }
  }

  // ---- new data -----------------------------------------------------------

  lemma {:induction false} SameSamples(w: Window, v: Window, i: nat, from: int)
    requires v == w.(p := v.p) && i <= |w.rows|
    ensures SamplesBefore(w, i, from) == SamplesBefore(v, i, from) && AllSamplesBefore(w, i) == AllSamplesBefore(v, i)
  {
    if i > 0 {
      SameSamples(w, v, i - 1, from);
    }
  }

  lemma FarOverRefines(observed: real, rate: real, refBytes: real, refRate: real, ceiling: real, p: Params, q: Params)
    requires Looser(p, q) && FarOver(observed, rate, refBytes, refRate, ceiling, p)
    ensures FarOver(observed, rate, refBytes, refRate, ceiling, q)
  {
    Scaled(q.newDataMult, p.newDataMult, MaxReal(refBytes, REF_FLOOR));
    Scaled(q.newDataMult, p.newDataMult, MaxReal(refRate, REF_FLOOR / 86400.0));
  }

  // What a run is compared with does not depend on the preset.
  lemma SameReferences(w: Window, v: Window, i: nat)
    requires v == w.(p := v.p) && 0 < i < |w.rows|
    ensures SamplesFor(v, i) == SamplesFor(w, i)
    ensures BytesOf(v, SamplesFor(v, i)) == BytesOf(w, SamplesFor(w, i))
      && RatesOf(v, SamplesFor(v, i)) == RatesOf(w, SamplesFor(w, i))
  {
    SameSamples(w, v, i, w.rows[i].startedAt - NEW_DATA_DAYS * DAY);
  }

  lemma SpikeRefines(w: Window, v: Window, i: nat)
    requires v == w.(p := v.p) && Looser(w.p, v.p) && 0 < i < |w.rows|
    ensures AnswersRaised(Spike(v, i), Spike(w, i))
  {
    SameReferences(w, v, i);
    if Spike(w, i).Some? {
      var s := SamplesFor(w, i);
      FarOverRefines(w.rows[i].bytes as real, RateOf(w, i), Reference(BytesOf(w, s)), Reference(RatesOf(w, s)),
        w.ceiling, w.p, v.p);
    }
  }

  lemma RaisedRefines(w: Window, v: Window, i: nat, evaluateFrom: int)
    requires v == w.(p := v.p) && Looser(w.p, v.p) && i < |w.rows|
    ensures AnswersRaised(RaisedAt(v, i, evaluateFrom), RaisedAt(w, i, evaluateFrom))
  {
    if RaisedAt(w, i, evaluateFrom).Some? {
      SameSamples(w, v, i, w.rows[i].startedAt - NEW_DATA_DAYS * DAY);
      SpikeRefines(w, v, i);
    }
  }

  lemma {:induction false} PresentCovers(strong: seq<Option<Finding>>, weak: seq<Option<Finding>>)
    requires |strong| == |weak| && forall i :: 0 <= i < |weak| ==> AnswersRaised(strong[i], weak[i])
    ensures Covers(Present(strong), Present(weak))
  {
    if weak != [] {
      var n := |weak| - 1;
      PresentCovers(strong[..n], weak[..n]);
      var s, w := if strong[n].Some? then [strong[n].value] else [], if weak[n].Some? then [weak[n].value] else [];
      assert Covers(s, w) by {
        if weak[n].Some? { assert strong[n].value in s; }
      }
      CoversSum(Present(strong[..n]), Present(weak[..n]), s, w);
    }
  }

  lemma NewDataRefines(input: ItemInput, p: Params, q: Params)
    requires Looser(p, q)
    ensures Covers(NewDataFindings(input, q), NewDataFindings(input, p))
  {
    if input.kind != DumpSeries && input.kind != TreeSeries {
      var w, v := WindowOf(input, p), WindowOf(input, q);
      forall i | 0 <= i < |w.rows|
        ensures AnswersRaised(RaisedAt(v, i, input.evaluateFrom), RaisedAt(w, i, input.evaluateFrom)) {
        RaisedRefines(w, v, i, input.evaluateFrom);
      }
      PresentCovers(RaisedRows(v, input.evaluateFrom), RaisedRows(w, input.evaluateFrom));
    }
  }

  // ---- the theorem --------------------------------------------------------

  // On every series without open rows, the stricter preset answers for every
  // finding of the looser one.
  lemma StricterSeesMore(input: ItemInput, a: Sensitivity, b: Sensitivity)
    requires NoMoreSensitive(a, b) && input.open == map[]
    requires MeasuredAmounts(input.series)
    ensures Covers(EvaluateItem(input.(sens := b)).found, EvaluateItem(input.(sens := a)).found)
  {
    var p, q := ParamsFor(a), ParamsFor(b);
    PresetsOrdered(a, b);
    EligibleAreRuns(input.series);
    var weak, strong := input.(sens := a), input.(sens := b);
    NewDataRefines(weak, p, q);
    assert NewDataFindings(strong, q) == NewDataFindings(weak, q);
    var rows := Reversed(EligibleRuns(input.series));
    RulesRefine(SourceRules(input.kind, p), SourceRules(input.kind, q), input.expectations, rows,
                Max(SelectionRebaseAt(input.series), OwnChangeAt(input.series, input.changedAt)), p, q);
    assert Covers(DetectSource(strong, q).found, DetectSource(weak, p).found);
    DurationRefines(weak, p, q);
    assert DetectDuration(strong, q) == DetectDuration(weak, q);
    var runs := NewestFinished(input.series, RELIABILITY_RUNS);
    if input.kind != DatasetSeries && runs != [] {
      if input.kind == DumpSeries {
        ReliabilityRefines(runs, DumpFailureStreak, DumpFlaky, p, q);
      } else {
        ReliabilityRefines(runs, FailureStreak, Flaky, p, q);
      }
    }
    assert Covers(DetectReliability(strong, q).found, DetectReliability(weak, p).found);
    CoversSum(NewDataFindings(strong, q), NewDataFindings(weak, p), DetectSource(strong, q).found,
      DetectSource(weak, p).found);
    CoversSum(NewDataFindings(strong, q) + DetectSource(strong, q).found,
      NewDataFindings(weak, p) + DetectSource(weak, p).found,
              DetectDuration(strong, q).found, DetectDuration(weak, p).found);
    CoversSum(NewDataFindings(strong, q) + DetectSource(strong, q).found + DetectDuration(strong, q).found,
              NewDataFindings(weak, p) + DetectSource(weak, p).found + DetectDuration(weak, p).found,
              DetectReliability(strong, q).found, DetectReliability(weak, p).found);
  }

  // The same for a volume's capacity.
  lemma StricterSeesMoreCapacity(v: VolumeInput, a: Sensitivity, b: Sensitivity)
    requires NoMoreSensitive(a, b) && v.open == map[]
    ensures Covers(DetectCapacity(v.(sens := b)).found, DetectCapacity(v.(sens := a)).found)
  {
    hide ParamsFor, Looser, JudgeEta, JudgeRoom, Covers;
    PresetsOrdered(a, b);
    if v.readings > 0 {
      var weak, strong := v.(sens := a), v.(sens := b);
      EtaRefines(weak, strong, ParamsFor(a), ParamsFor(b));
      RoomRefines(weak, strong);
      CoversSum(JudgeEta(strong, ParamsFor(b)).found, JudgeEta(weak, ParamsFor(a)).found, JudgeRoom(strong).found,
        JudgeRoom(weak).found);
    } else {
      NothingCovered();
    }
  }

  lemma EtaRefines(weak: VolumeInput, strong: VolumeInput, p: Params, q: Params)
    requires Looser(p, q) && weak.open == map[] && strong == weak.(sens := strong.sens)
    ensures Covers(JudgeEta(strong, q).found, JudgeEta(weak, p).found)
  {
    var s, w := JudgeEta(strong, q).found, JudgeEta(weak, p).found;
    if w != [] {
      assert Answers(s[0], w[0]) && s[0] in s;
    }
  }

  lemma RoomRefines(weak: VolumeInput, strong: VolumeInput)
    requires weak.open == map[] && strong == weak.(sens := strong.sens)
    ensures Covers(JudgeRoom(strong).found, JudgeRoom(weak).found)
  {
    var s, w := JudgeRoom(strong).found, JudgeRoom(weak).found;
    if w != [] {
      assert Answers(s[0], w[0]) && s[0] in s;
    }
  }
}
