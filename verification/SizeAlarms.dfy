// When the size and duration rules raise a finding at all, told by what the
// runs of the series measured (anomaly_detect.go): a collapse, a drain over a
// month, and a step away from a steady level.
module SizeAlarms {
  import opened Wrappers
  import opened AnomalyTypes
  import opened AnomalyRules
  import opened AnomalyNewData
  import opened AnomalyVerdicts
  import opened OrderStatistics

  // ---- the runs that count ------------------------------------------------

  // A success that left a backup or a measurement behind.
  predicate BackedUp(run: SeriesRun) {
    run.status == Success && (run.snapshotID != "" || run.sourceBytes.Some?)
  }

  // What a run measured of a metric's quantity.
  function Amount(run: SeriesRun, m: Metric): Option<int> {
    if !BackedUp(run) then None
    else
      match m
      case SourceFilesShrink => run.sourceFiles
      case DurationSlower | DumpDurationSlower => run.resticMS
      case _ => run.sourceBytes
  }

  // The runs that measured it, newest first.
  function Measuring(series: seq<SeriesRun>, m: Metric): (runs: seq<SeriesRun>)
    ensures forall i :: 0 <= i < |runs| ==> Amount(runs[i], m).Some?
  {
    if series == [] then []
    else (if Amount(series[0], m).Some? then [series[0]] else []) + Measuring(series[1..], m)
  }

  ghost predicate NewestRunFirst(series: seq<SeriesRun>) {
    forall i, j :: 0 <= i < j < |series| ==> series[i].startedAt >= series[j].startedAt
  }

  function SampleOf(run: SeriesRun, m: Metric): Measurement
    requires Amount(run, m).Some?
  {
    Measurement(run.id, run.startedAt, if run.finishedAt > 0 then run.finishedAt else run.startedAt,
                Amount(run, m).value as real)
  }

  // The samples are those runs, oldest first.
  ghost predicate SamplesOf(ms: seq<Measurement>, runs: seq<SeriesRun>, m: Metric)
    requires forall i :: 0 <= i < |runs| ==> Amount(runs[i], m).Some?
  {
    |ms| == |runs| && forall i :: 0 <= i < |ms| ==> ms[i] == SampleOf(runs[|runs| - 1 - i], m)
  }

  lemma {:induction false} MeasurementsSum(a: seq<SeriesRun>, b: seq<SeriesRun>, q: Quantity)
    ensures Measurements(a + b, q) == Measurements(a, q) + Measurements(b, q)
  {
    if a == [] {
      assert a + b == b;
    } else {
      assert (a + b)[0] == a[0] && (a + b)[1..] == a[1..] + b;
      MeasurementsSum(a[1..], b, q);
      hide Column;
    }
  }

  lemma {:induction false} MeasurementsAre(series: seq<SeriesRun>, m: Metric)
    ensures SamplesOf(Measurements(Reversed(EligibleRuns(series)), QuantityOf(m)), Measuring(series, m), m)
  {
    if series != [] {
      MeasurementsAre(series[1..], m);
      OneMoreRun(series, m);
    }
  }

  lemma OneMoreRun(series: seq<SeriesRun>, m: Metric)
    requires series != []
    requires SamplesOf(Measurements(Reversed(EligibleRuns(series[1..])), QuantityOf(m)), Measuring(series[1..], m), m)
    ensures SamplesOf(Measurements(Reversed(EligibleRuns(series)), QuantityOf(m)), Measuring(series, m), m)
  {
    hide Measurements, SamplesOf, Eligible, BackedUp, QuantityOf;
    var older, run := EligibleRuns(series[1..]), series[0];
    OneSample(run, m);
    if Eligible(run) {
      assert Reversed(EligibleRuns(series)) == Reversed(older) + [run];
      MeasurementsSum(Reversed(older), [run], QuantityOf(m));
    } else {
      assert EligibleRuns(series) == older;
    }
    var ms := Measurements(Reversed(older), QuantityOf(m));
    SamplesGrow(ms, Measuring(series[1..], m), run, m);
    assert ms + [] == ms;
  }

  lemma SamplesGrow(ms: seq<Measurement>, runs: seq<SeriesRun>, run: SeriesRun, m: Metric)
    requires forall i :: 0 <= i < |runs| ==> Amount(runs[i], m).Some?
    requires SamplesOf(ms, runs, m)
    ensures Amount(run, m).Some? ==> SamplesOf(ms + [SampleOf(run, m)], [run] + runs, m)
    ensures SamplesOf(ms + [], [] + runs, m)
  {
    hide SampleOf;
  }

  lemma OneSample(run: SeriesRun, m: Metric)
    ensures Eligible(run) <==> BackedUp(run)
    ensures !BackedUp(run) ==> Amount(run, m).None?
    ensures BackedUp(run) ==>
      Measurements([run], QuantityOf(m)) == if Amount(run, m).Some? then [SampleOf(run, m)] else []
  {
    assert [run][1..] == [];
  }

  lemma {:induction false} StaysNewestFirst(series: seq<SeriesRun>, m: Metric)
    requires NewestRunFirst(series)
    ensures NewestRunFirst(Measuring(series, m)) && forall r :: r in Measuring(series, m) ==> r in series
  {
    if series != [] {
      StaysNewestFirst(series[1..], m);
      forall r | r in Measuring(series[1..], m) ensures series[0].startedAt >= r.startedAt {
        assert r in series[1..];
      }
    }
  }

  // ---- where the levels begin again ---------------------------------------

  function Backups(series: seq<SeriesRun>): seq<SeriesRun> {
    if series == [] then [] else (if BackedUp(series[0]) then [series[0]] else []) + Backups(series[1..])
  }

  lemma {:induction false} BackupsAreEligible(series: seq<SeriesRun>)
    ensures Backups(series) == EligibleRuns(series)
  {
    if series != [] {
      BackupsAreEligible(series[1..]);
    }
  }

  // The i-th newest backup covers another selection than the one before it.
  predicate OtherSelection(runs: seq<SeriesRun>, i: nat)
    requires i + 1 < |runs|
  {
    runs[i].selectionFP.Some? && runs[i + 1].selectionFP.Some?
      && runs[i].selectionFP.value != runs[i + 1].selectionFP.value
  }

  // The levels begin again at the newest backup of another selection.
  lemma SelectionStartsOver(series: seq<SeriesRun>, i: nat)
    requires i <= |Backups(series)|
    requires forall k :: 0 <= k < i && k + 1 < |Backups(series)| ==> !OtherSelection(Backups(series), k)
    ensures i + 1 < |Backups(series)| && OtherSelection(Backups(series), i) ==>
      SelectionRebaseAt(series) == Backups(series)[i].startedAt
    ensures i == |Backups(series)| ==> SelectionRebaseAt(series) == 0
  {
    BackupsAreEligible(series);
    var newest := Backups(series);
    if newest != [] {
      if i == |newest| || (i + 1 < |newest| && OtherSelection(newest, i)) {
        WalkBack(newest, |newest| - 1, i);
      }
    }
  }

  lemma {:induction false} WalkBack(newest: seq<SeriesRun>, j: nat, i: nat)
    requires j < |newest| && |newest| - 1 - j <= i <= |newest|
    requires forall k :: 0 <= k < i && k + 1 < |newest| ==> !OtherSelection(newest, k)
    requires i == |newest| || (i + 1 < |newest| && OtherSelection(newest, i))
    ensures SelectionRebaseIn(Reversed(newest), j) == if i == |newest| then 0 else newest[i].startedAt
  {
    var k := |newest| - 1 - j;
    if j > 0 {
      assert SelectionChangedAt(Reversed(newest), j) <==> OtherSelection(newest, k);
      if k < i {
        WalkBack(newest, j - 1, i);
      }
    }
  }

  predicate OldestFrom(newest: seq<SeriesRun>, i: int, at: int) {
    0 <= i < |newest| && newest[i].startedAt >= at && (i + 1 < |newest| ==> newest[i + 1].startedAt < at)
  }

  // And at the oldest backup that started after BombVault's own change; while
  // there is none, at one that was still running then.
  lemma OwnChangeStartsOver(series: seq<SeriesRun>, changedAt: int)
    requires NewestRunFirst(series)
    ensures changedAt == 0 ==> OwnChangeAt(series, changedAt) == 0
    ensures changedAt != 0 ==> forall i :: 0 <= i < |Backups(series)| && OldestFrom(Backups(series), i, changedAt) ==>
      OwnChangeAt(series, changedAt) == Backups(series)[i].startedAt
    ensures changedAt != 0 && (forall i :: 0 <= i < |Backups(series)| ==> Backups(series)[i].startedAt < changedAt) ==>
      OwnChangeAt(series, changedAt) ==
        if Backups(series) != [] && Backups(series)[0].finishedAt > changedAt then Backups(series)[0].startedAt else 0
  {
    hide OldestFrom;
    BackupsAreEligible(series);
    BackupsNewestFirst(series);
    var newest := Backups(series);
    if changedAt != 0 {
      forall i | 0 <= i < |newest| && OldestFrom(newest, i, changedAt)
        ensures OwnChangeAt(series, changedAt) == newest[i].startedAt
      {
        OldestIsFirst(newest, i, changedAt);
      }
      if forall i :: 0 <= i < |newest| ==> newest[i].startedAt < changedAt {
        NoneFrom(Reversed(newest), changedAt);
      }
    }
  }

  lemma OldestIsFirst(newest: seq<SeriesRun>, i: nat, at: int)
    requires NewestRunFirst(newest) && OldestFrom(newest, i, at)
    ensures FirstStartFrom(Reversed(newest), at) == Some(newest[i].startedAt)
  {
    FirstFrom(Reversed(newest), |newest| - 1 - i, at);
  }

  lemma {:induction false} BackupsNewestFirst(series: seq<SeriesRun>)
    requires NewestRunFirst(series)
    ensures NewestRunFirst(Backups(series)) && forall r :: r in Backups(series) ==> r in series
  {
    if series != [] {
      BackupsNewestFirst(series[1..]);
      forall r | r in Backups(series[1..]) ensures series[0].startedAt >= r.startedAt {
        assert r in series[1..];
      }
    }
  }

  lemma {:induction false} FirstFrom(rows: seq<SeriesRun>, i: nat, at: int)
    requires i < |rows| && rows[i].startedAt >= at && forall k :: 0 <= k < i ==> rows[k].startedAt < at
    ensures FirstStartFrom(rows, at) == Some(rows[i].startedAt)
  {
    if i > 0 {
      FirstFrom(rows[1..], i - 1, at);
    }
  }

  lemma {:induction false} NoneFrom(rows: seq<SeriesRun>, at: int)
    requires forall k :: 0 <= k < |rows| ==> rows[k].startedAt < at
    ensures FirstStartFrom(rows, at) == None
  {
    if rows != [] {
      NoneFrom(rows[1..], at);
    }
  }

  // ---- which rule speaks for a metric -------------------------------------

  // The metrics of a loss and the kinds of series they are watched on.
  predicate LossWatched(kind: SeriesKind, m: Metric) {
    || ((kind == ItemSeries || kind == DatasetSeries) && (m == SourceBytesShrink || m == SourceFilesShrink))
    || (kind == DumpSeries && m == DumpBytesShrink)
  }

  predicate GrowthWatched(kind: SeriesKind, m: Metric) {
    || ((kind == ItemSeries || kind == DatasetSeries) && m == SourceBytesGrowth)
    || (kind == DumpSeries && m == DumpBytesGrowth)
  }

  ghost predicate OnlyAbout(found: seq<Finding>, ms: set<Metric>) {
    forall f :: f in found ==> f.metric in ms
  }

  lemma VerdictOnly(open: map<Metric, Row>, m: Metric, current: Measurement, raised: Option<Finding>,
      cleared: real -> bool)
    requires raised.Some? ==> raised.value.metric == m
    ensures OnlyAbout(Verdict(open, m, current, raised, cleared).found, {m})
  {
  }

  lemma ShrinkOnly(r: SizeRule, open: map<Metric, Row>, expectations: map<Family, Expectation>, current: Measurement,
      prior: seq<Measurement>, rebase: int, p: Params)
    ensures OnlyAbout(ShrinkVerdict(r, open, expectations, current, prior, rebase, p).found, {r.shrinkMetric})
  {
    hide ShrinkRaised;
    var down := NewestSamples(SamplesFrom(prior, Max(rebase, SinceAt(expectations, r.downFamily))), WINDOW);
    ShrinkIsCondition(r, current, prior, down, rebase, p);
    VerdictOnly(open, r.shrinkMetric, current, ShrinkRaised(r, current, prior, down, rebase, p),
      ShrinkCleared(current.value));
  }

  lemma GrowthOnly(r: SizeRule, open: map<Metric, Row>, expectations: map<Family, Expectation>, current: Measurement,
      prior: seq<Measurement>, rebase: int, p: Params)
    requires r.growthMetric.Some?
    ensures OnlyAbout(GrowthVerdict(r, open, expectations, current, prior, rebase, p).found, {r.growthMetric.value})
  {
    hide Grew;
    var m := r.growthMetric.value;
    var up := NewestSamples(SamplesFrom(prior, Max(rebase, SinceAt(expectations, r.upFamily))), WINDOW);
    GrewIsCondition(r, m, current, up, p);
    VerdictOnly(open, m, current, Grew(r, m, current, up, p), GrowthCleared(current.value));
  }

  // The findings of metric m among one list are those among the other.
  ghost predicate SameAbout(a: seq<Finding>, b: seq<Finding>, m: Metric) {
    forall f: Finding :: f.metric == m ==> (f in a <==> f in b)
  }

  lemma SizeOnly(r: SizeRule, open: map<Metric, Row>, expectations: map<Family, Expectation>, current: Measurement,
      prior: seq<Measurement>, rebase: int, p: Params)
    requires r.growthMetric != Some(r.shrinkMetric)
    ensures var d := SizeVerdict(r, open, expectations, current, prior, rebase, p);
      && SameAbout(d.found, ShrinkVerdict(r, open, expectations, current, prior, rebase, p).found, r.shrinkMetric)
      && (r.growthMetric.Some? ==>
           SameAbout(d.found, GrowthVerdict(r, open, expectations, current, prior, rebase, p).found,
             r.growthMetric.value))
      && forall f :: f in d.found ==> f.metric == r.shrinkMetric || Some(f.metric) == r.growthMetric
  {
    hide ShrinkVerdict, GrowthVerdict;
    ShrinkOnly(r, open, expectations, current, prior, rebase, p);
    if r.growthMetric.Some? {
      GrowthOnly(r, open, expectations, current, prior, rebase, p);
    }
  }

  // Nothing but the size rules speaks about sizes.
  lemma SizesBySourceRules(input: ItemInput, m: Metric)
    requires LossWatched(input.kind, m) || GrowthWatched(input.kind, m)
    ensures SameAbout(EvaluateItem(input).found, DetectSource(input, ParamsFor(input.sens)).found, m)
  {
    hide DetectSource, NewDataFindings, DetectDuration, DetectReliability;
    var p := ParamsFor(input.sens);
    NewDataAreEvents(input, p);
    DurationOnly(input, p);
    ReliabilityOnly(input, p);
  }

  lemma DurationOnly(input: ItemInput, p: Params)
    ensures OnlyAbout(DetectDuration(input, p).found, {DurationSlower, DumpDurationSlower})
  {
    hide Verdict, SlowerRun, DurationSamples, Measurements;
    var measured := DurationMeasurements(input);
    if input.kind != TreeSeries && measured != [] {
      var m, current := DurationMetric(input.kind), measured[|measured| - 1];
      var raised := SlowerRun(current, DurationSamples(input, measured[..|measured| - 1]), m, p);
      SlowerIsCondition(current, DurationSamples(input, measured[..|measured| - 1]), m, p);
      VerdictOnly(input.open, m, current, raised, DurationCleared(current.value));
    }
  }

  lemma ReliabilityOnly(input: ItemInput, p: Params)
    ensures OnlyAbout(DetectReliability(input, p).found, {FailureStreak, Flaky, DumpFailureStreak, DumpFlaky})
  {
  }

  // The size rule of a metric.
  function RuleOf(kind: SeriesKind, m: Metric, p: Params): SizeRule {
    var rules := SourceRules(kind, p);
    if m == SourceFilesShrink && |rules| > 1 then rules[1] else rules[0]
  }

  function RebaseOf(input: ItemInput): int {
    Max(SelectionRebaseAt(input.series), OwnChangeAt(input.series, input.changedAt))
  }

  // What a series says about a size is what its rule says about the newest
  // measurement against the earlier ones.
  lemma SizeByItsRule(input: ItemInput, m: Metric)
    requires LossWatched(input.kind, m) || GrowthWatched(input.kind, m)
    ensures var p := ParamsFor(input.sens);
      SameAbout(EvaluateItem(input).found, EvaluateSize(RuleOf(input.kind, m, p), input.open, input.expectations,
        Reversed(EligibleRuns(input.series)), RebaseOf(input), p).found, m)
  {
    hide EvaluateItem, EvaluateSize;
    var p := ParamsFor(input.sens);
    SizesBySourceRules(input, m);
    var rows, rules := Reversed(EligibleRuns(input.series)), SourceRules(input.kind, p);
    RuleSpeaksOnly(rules[0], input, rows, p);
    if |rules| == 2 {
      RuleSpeaksOnly(rules[1], input, rows, p);
      assert rules[1..][1..] == [];
    }
    OfTheRules(rules, input, rows, p, m);
  }

  lemma RuleSpeaksOnly(r: SizeRule, input: ItemInput, rows: seq<SeriesRun>, p: Params)
    requires r.growthMetric != Some(r.shrinkMetric)
    ensures forall f :: f in EvaluateSize(r, input.open, input.expectations, rows, RebaseOf(input), p).found ==>
      f.metric == r.shrinkMetric || Some(f.metric) == r.growthMetric
  {
    hide SizeVerdict, Measurements, RebaseOf;
    var samples := Measurements(rows, r.quantity);
    if samples != [] {
      SizeOnly(r, input.open, input.expectations, samples[|samples| - 1], samples[..|samples| - 1], RebaseOf(input), p);
    }
  }

  lemma OfTheRules(rules: seq<SizeRule>, input: ItemInput, rows: seq<SeriesRun>, p: Params, m: Metric)
    requires LossWatched(input.kind, m) || GrowthWatched(input.kind, m)
    requires rules == SourceRules(input.kind, p)
    requires forall i :: 0 <= i < |rules| ==>
      forall f :: f in EvaluateSize(rules[i], input.open, input.expectations, rows, RebaseOf(input), p).found ==>
        f.metric == rules[i].shrinkMetric || Some(f.metric) == rules[i].growthMetric
    ensures SameAbout(EvaluateRules(rules, input.open, input.expectations, rows, RebaseOf(input), p).found,
      EvaluateSize(RuleOf(input.kind, m, p), input.open, input.expectations, rows, RebaseOf(input), p).found, m)
  {
    hide EvaluateSize, RebaseOf;
    var head := EvaluateSize(rules[0], input.open, input.expectations, rows, RebaseOf(input), p);
    if |rules| == 2 {
      var next := EvaluateSize(rules[1], input.open, input.expectations, rows, RebaseOf(input), p);
      assert EvaluateRules(rules[1..], input.open, input.expectations, rows, RebaseOf(input), p).found == next.found;
    } else {
      assert EvaluateRules(rules[1..], input.open, input.expectations, rows, RebaseOf(input), p).found == [];
    }
  }

  // ---- a collapse ---------------------------------------------------------

  // The newest value is a fraction of x and the difference is large enough to
  // be a loss of data.
  predicate FarLess(m: Metric, s: Sensitivity, value: real, x: real) {
    && value <= (match s case Strict => 0.25 case Balanced => 0.1 case Permissive => 0.05) * x
    && x - value >= (match m case SourceFilesShrink => 100.0 case DumpBytesShrink => 1048576.0 case _ => 67108864.0)
    && x >= (if m == DumpBytesShrink then 4194304.0 else 0.0)
  }

  lemma LostIsFarLess(kind: SeriesKind, m: Metric, s: Sensitivity, value: real, x: real)
    requires LossWatched(kind, m)
    ensures Lost(RuleOf(kind, m, ParamsFor(s)), value, x, ParamsFor(s)) <==> FarLess(m, s, value, x)
  {
  }

  lemma FarLessOfMore(m: Metric, s: Sensitivity, value: real, x: real, y: real)
    requires FarLess(m, s, value, x) && x <= y
    ensures FarLess(m, s, value, y)
  {
  }

  // What the k-th newest run that measured the quantity measured.
  function AmountAt(input: ItemInput, m: Metric, k: nat): real
    requires k < |Measuring(input.series, m)|
  {
    Amount(Measuring(input.series, m)[k], m).value as real
  }

  // It is one of the earlier runs a loss is measured against.
  predicate Earlier(input: ItemInput, m: Metric, k: nat) {
    1 <= k < |Measuring(input.series, m)| && Measuring(input.series, m)[k].startedAt >= RebaseOf(input)
  }

  // The rules raise a critical finding of the metric about the newest run, with
  // the given word among its figures.
  ghost predicate RaisesAlarm(input: ItemInput, m: Metric, word: string) {
    && Measuring(input.series, m) != []
    && exists f :: f in EvaluateItem(input).found && IsAlarm(input, m, f) && word in f.details
  }

  predicate IsAlarm(input: ItemInput, m: Metric, f: Finding)
    requires Measuring(input.series, m) != []
  {
    && f.metric == m && f.severity == Critical && !f.event
    && f.runID == Measuring(input.series, m)[0].id && f.runAt == Measuring(input.series, m)[0].startedAt
    && f.observed == AmountAt(input, m, 0)
  }

  // The row that is open about the metric, if any, does not take the newest
  // value for the way back.
  predicate NotBackYet(input: ItemInput, m: Metric) {
    Measuring(input.series, m) != [] && (m in input.open ==> AmountAt(input, m, 0) < 0.9 * input.open[m].expected)
  }

  // The samples before the newest one, and those of them from the rebase on.
  ghost predicate Split(input: ItemInput, m: Metric, current: Measurement, prior: seq<Measurement>,
      cut: seq<Measurement>)
  {
    var runs := Measuring(input.series, m);
    && runs != [] && current == SampleOf(runs[0], m)
    && |prior| == |runs| - 1 && (forall i :: 0 <= i < |prior| ==> prior[i] == SampleOf(runs[|prior| - i], m))
    && cut == SamplesFrom(prior, RebaseOf(input))
    && |cut| <= |prior| && (forall i :: 0 <= i < |cut| ==> cut[i] == SampleOf(runs[|cut| - i], m))
    && (forall k :: 1 <= k < |runs| ==> (k <= |cut| <==> Earlier(input, m, k)))
  }

  ghost predicate OldestFirst(samples: seq<Measurement>) {
    forall i, j :: 0 <= i < j < |samples| ==> samples[i].at <= samples[j].at
  }

  lemma {:induction false} StartsFrom(samples: seq<Measurement>, at: int) returns (n: nat)
    ensures n <= |samples| && SamplesFrom(samples, at) == samples[n..]
    ensures n < |samples| ==> samples[n].at >= at
    ensures forall i :: 0 <= i < n ==> samples[i].at < at
  {
    n := 0;
    if samples != [] && samples[0].at < at {
      var rest := StartsFrom(samples[1..], at);
      n := rest + 1;
      assert samples[1..][rest..] == samples[n..];
    }
  }

  lemma FromOn(samples: seq<Measurement>, at: int)
    requires OldestFirst(samples)
    ensures var n := |samples| - |SamplesFrom(samples, at)|;
      forall i :: 0 <= i < |samples| ==> (samples[i].at >= at <==> i >= n)
  {
    hide SamplesFrom;
    var n := StartsFrom(samples, at);
  }

  lemma SplitOf(input: ItemInput, m: Metric) returns (current: Measurement, prior: seq<Measurement>,
      cut: seq<Measurement>)
    requires NewestRunFirst(input.series) && Measuring(input.series, m) != []
    ensures Split(input, m, current, prior, cut)
    ensures var samples := Measurements(Reversed(EligibleRuns(input.series)), QuantityOf(m));
      samples != [] && current == samples[|samples| - 1] && prior == samples[..|samples| - 1]
  {
    hide Measurements, EligibleRuns, Measuring, RebaseOf, Split, SamplesFrom, SampleOf, QuantityOf;
    var runs := Measuring(input.series, m);
    MeasurementsAre(input.series, m);
    StaysNewestFirst(input.series, m);
    var samples := Measurements(Reversed(EligibleRuns(input.series)), QuantityOf(m));
    current, prior := samples[|samples| - 1], samples[..|samples| - 1];
    cut := SplitRuns(input, m, runs, samples);
  }

  lemma SplitRuns(input: ItemInput, m: Metric, runs: seq<SeriesRun>, samples: seq<Measurement>)
      returns (cut: seq<Measurement>)
    requires runs == Measuring(input.series, m) && runs != [] && NewestRunFirst(runs) && SamplesOf(samples, runs, m)
    ensures samples != [] && Split(input, m, samples[|samples| - 1], samples[..|samples| - 1], cut)
  {
    hide Measuring, RebaseOf, SampleOf, SamplesFrom;
    var prior := samples[..|samples| - 1];
    cut := SamplesFrom(prior, RebaseOf(input));
    PriorAscends(runs, samples, prior, m);
    FromOn(prior, RebaseOf(input));
    CutHas(input, m, runs, prior, cut);
  }

  lemma PriorAscends(runs: seq<SeriesRun>, samples: seq<Measurement>, prior: seq<Measurement>, m: Metric)
    requires forall i :: 0 <= i < |runs| ==> Amount(runs[i], m).Some?
    requires runs != [] && NewestRunFirst(runs) && SamplesOf(samples, runs, m) && prior == samples[..|samples| - 1]
    ensures OldestFirst(prior)
    ensures forall i :: 0 <= i < |prior| ==> prior[i] == SampleOf(runs[|prior| - i], m)
  {
  }

  lemma CutHas(input: ItemInput, m: Metric, runs: seq<SeriesRun>, prior: seq<Measurement>, cut: seq<Measurement>)
    requires runs == Measuring(input.series, m) && |prior| == |runs| - 1
    requires forall i :: 0 <= i < |prior| ==> prior[i] == SampleOf(runs[|prior| - i], m)
    requires |cut| <= |prior| && cut == prior[|prior| - |cut|..]
    requires forall i :: 0 <= i < |prior| ==> (prior[i].at >= RebaseOf(input) <==> i >= |prior| - |cut|)
    ensures forall i :: 0 <= i < |cut| ==> cut[i] == SampleOf(runs[|cut| - i], m)
    ensures forall k :: 1 <= k < |runs| ==> (k <= |cut| <==> Earlier(input, m, k))
  {
    hide RebaseOf, Measuring;
    forall k | 1 <= k < |runs| ensures k <= |cut| <==> Earlier(input, m, k) {
      assert prior[|prior| - k] == SampleOf(runs[k], m);
    }
  }

  // What the shrink rule of the series says.
  function ShrinkSaid(input: ItemInput, m: Metric, current: Measurement, prior: seq<Measurement>): Decided {
    var p := ParamsFor(input.sens);
    ShrinkVerdict(RuleOf(input.kind, m, p), input.open, input.expectations, current, prior, RebaseOf(input), p)
  }

  lemma LossByShrink(input: ItemInput, m: Metric, current: Measurement, prior: seq<Measurement>)
    requires LossWatched(input.kind, m)
    requires var samples := Measurements(Reversed(EligibleRuns(input.series)), QuantityOf(m));
      samples != [] && current == samples[|samples| - 1] && prior == samples[..|samples| - 1]
    ensures SameAbout(EvaluateItem(input).found, ShrinkSaid(input, m, current, prior).found, m)
  {
    hide EvaluateItem, RebaseOf, SizeVerdict, ShrinkVerdict, Measurements, RuleOf, ParamsFor;
    var p := ParamsFor(input.sens);
    RuleIsAbout(input.kind, m, p);
    SizeByItsRule(input, m);
    SizeOnly(RuleOf(input.kind, m, p), input.open, input.expectations, current, prior, RebaseOf(input), p);
  }

  // An alarm of the collapse rule reaches the findings of the series.
  lemma CollapseIsFound(input: ItemInput, m: Metric, current: Measurement, prior: seq<Measurement>,
      cut: seq<Measurement>, word: string)
    requires LossWatched(input.kind, m) && Split(input, m, current, prior, cut) && NotBackYet(input, m)
    requires SameAbout(EvaluateItem(input).found, ShrinkSaid(input, m, current, prior).found, m)
    requires var p := ParamsFor(input.sens);
      var f := Collapsed(RuleOf(input.kind, m, p), current, cut, p); f.Some? && word in f.value.details
    ensures RaisesAlarm(input, m, word)
  {
    hide EvaluateItem, RebaseOf, Measuring, Collapsed;
    var p := ParamsFor(input.sens);
    var r := RuleOf(input.kind, m, p);
    CollapsedIsAlarm(r, current, cut, p);
    var f := Collapsed(r, current, cut, p).value;
    assert ShrinkSaid(input, m, current, prior).found == [f];
    assert f in ShrinkSaid(input, m, current, prior).found && f.metric == m;
    assert IsAlarm(input, m, f);
  }

  lemma CollapsedIsAlarm(r: SizeRule, current: Measurement, prior: seq<Measurement>, p: Params)
    ensures var f := Collapsed(r, current, prior, p);
      f.Some? ==>
        f.value.metric == r.shrinkMetric && f.value.severity == Critical && f.value.runID == current.runID
        && f.value.runAt == current.at && f.value.observed == current.value && !f.value.event
  {
  }

  lemma LevelAtLeast(prior: seq<Measurement>, x: real)
    requires prior != [] && forall i :: 0 <= i < |prior| && i >= |prior| - 5 ==> prior[i].value >= x
    ensures CollapseLevel(prior) >= x
  {
    MedianAtLeast(Values(NewestSamples(prior, 5)), x);
  }

  lemma MedianAtLeast(xs: seq<real>, x: real)
    requires xs != [] && forall i :: 0 <= i < |xs| ==> xs[i] >= x
    ensures x <= Median(xs) <= Largest(xs)
  {
    hide Median, Count;
    var top := Largest(xs);
    forall i | 0 <= i < |xs| ensures xs[i] <= top {
      assert xs[i] in xs;
    }
    CountAll(xs, (v: real) => x <= v <= top);
    MedianInMajorityInterval(xs, x, top);
  }

  // A series whose newest measurement is far under what each of the five before
  // it measured raises an alarm.
  lemma CollapseIsRaised(input: ItemInput, m: Metric, x: real)
    requires NewestRunFirst(input.series) && LossWatched(input.kind, m) && NotBackYet(input, m)
    requires Earlier(input, m, 1) && forall k :: 1 <= k <= 5 && Earlier(input, m, k) ==> AmountAt(input, m, k) >= x
    requires FarLess(m, input.sens, AmountAt(input, m, 0), x)
    ensures RaisesAlarm(input, m, "collapse")
  {
    hide Measuring, RebaseOf, Measurements, EvaluateItem, FarLess, Lost, ShrinkSaid, RuleOf, CollapseLevel;
    var current, prior, cut := SplitOf(input, m);
    forall i | 0 <= i < |cut| && i >= |cut| - 5 ensures cut[i].value >= x {
      assert Earlier(input, m, |cut| - i);
    }
    LevelAtLeast(cut, x);
    FarLessOfMore(m, input.sens, current.value, x, CollapseLevel(cut));
    LostIsFarLess(input.kind, m, input.sens, current.value, CollapseLevel(cut));
    LostIsSaid(RuleOf(input.kind, m, ParamsFor(input.sens)), current, cut, ParamsFor(input.sens));
    LossByShrink(input, m, current, prior);
    CollapseIsFound(input, m, current, prior, cut, "collapse");
  }

  // So does one that is far under any measurement of the last thirty days, in
  // however many steps it got there.
  lemma DrainIsRaised(input: ItemInput, m: Metric, k: nat)
    requires NewestRunFirst(input.series) && LossWatched(input.kind, m) && NotBackYet(input, m) && Earlier(input, m, k)
    requires Measuring(input.series, m)[k].startedAt >= Measuring(input.series, m)[0].startedAt - 2592000
    requires FarLess(m, input.sens, AmountAt(input, m, 0), AmountAt(input, m, k))
    ensures RaisesAlarm(input, m, "drain")
  {
    hide Measuring, RebaseOf, Measurements, EvaluateItem, FarLess, Lost, ShrinkSaid, RuleOf, MonthPeak, Split,
      Collapsed, AmountAt, Earlier, LossWatched;
    var current, prior, cut := SplitOf(input, m);
    CutAscends(input, m, current, prior, cut);
    EarlierIsCut(input, m, current, prior, cut, k);
    PeakAtLeast(current, cut, |cut| - k);
    FarLessOfMore(m, input.sens, current.value, AmountAt(input, m, k), MonthPeak(current, cut));
    LostIsFarLess(input.kind, m, input.sens, current.value, MonthPeak(current, cut));
    LostIsSaid(RuleOf(input.kind, m, ParamsFor(input.sens)), current, cut, ParamsFor(input.sens));
    LossByShrink(input, m, current, prior);
    CollapseIsFound(input, m, current, prior, cut, "drain");
  }

  lemma EarlierIsCut(input: ItemInput, m: Metric, current: Measurement, prior: seq<Measurement>,
      cut: seq<Measurement>, k: nat)
    requires Split(input, m, current, prior, cut) && Earlier(input, m, k)
    ensures var runs := Measuring(input.series, m);
      && 1 <= k <= |cut| && k < |runs|
      && cut[|cut| - k].value == AmountAt(input, m, k) && cut[|cut| - k].at == runs[k].startedAt
      && current.at == runs[0].startedAt && current.value == AmountAt(input, m, 0)
  {
    hide Measuring, RebaseOf;
  }

  // A collapse says against which of the two levels it is one.
  lemma LostIsSaid(r: SizeRule, current: Measurement, cut: seq<Measurement>, p: Params)
    requires cut != []
    ensures var f := Collapsed(r, current, cut, p);
      && (Lost(r, current.value, CollapseLevel(cut), p) ==> f.Some? && "collapse" in f.value.details)
      && (Lost(r, current.value, MonthPeak(current, cut), p) ==> f.Some? && "drain" in f.value.details)
  {
    hide Lost, MonthPeak, CollapseLevel, LastNotBad, CollapseReference;
  }

  lemma CutAscends(input: ItemInput, m: Metric, current: Measurement, prior: seq<Measurement>, cut: seq<Measurement>)
    requires NewestRunFirst(input.series) && Split(input, m, current, prior, cut)
    ensures OldestFirst(cut)
  {
    hide Measuring;
    StaysNewestFirst(input.series, m);
  }

  lemma PeakAtLeast(current: Measurement, prior: seq<Measurement>, i: nat)
    requires i < |prior| && OldestFirst(prior)
    requires prior[i].at >= current.at - 2592000
    ensures MonthPeak(current, prior) >= prior[i].value
  {
    hide SamplesFrom, Largest;
    FromOn(prior, current.at - DRAIN_DAYS * DAY);
    var n := StartsFrom(prior, current.at - DRAIN_DAYS * DAY);
    var month := SamplesFrom(prior, current.at - DRAIN_DAYS * DAY);
    assert month[i - n] == prior[i];
    assert Values(month)[i - n] in Values(month);
  }

  // The finding was raised by the collapse rule, which says so in its figures.
  predicate OfCollapse(f: Finding) { "collapse" in f.details || "drain" in f.details }

  // A value that is not far under any earlier measurement raises no collapse,
  // and with ten earlier measurements or fewer nothing.
  lemma NoCollapseWithoutLoss(input: ItemInput, m: Metric, f: Finding)
    requires NewestRunFirst(input.series) && LossWatched(input.kind, m) && Measuring(input.series, m) != []
    requires AmountAt(input, m, 0) >= 0.0
    requires forall k :: Earlier(input, m, k) ==> !FarLess(m, input.sens, AmountAt(input, m, 0), AmountAt(input, m, k))
    requires f in EvaluateItem(input).found && f.metric == m
    ensures !OfCollapse(f)
    ensures m in input.open || |Measuring(input.series, m)| > 10
  {
    hide Measuring, RebaseOf, Measurements, EvaluateItem, FarLess, Lost, ShrinkSaid, RuleOf, CollapseLevel, MonthPeak,
      OfCollapse, Collapsed;
    var current, prior, cut := SplitOf(input, m);
    forall i | 0 <= i < |cut| ensures !FarLess(m, input.sens, current.value, cut[i].value) {
      assert Earlier(input, m, |cut| - i);
    }
    NotCollapsed(input, m, current, cut);
    LossByShrink(input, m, current, prior);
    WithoutCollapse(input, m, current, prior, f);
  }

  lemma NotCollapsed(input: ItemInput, m: Metric, current: Measurement, cut: seq<Measurement>)
    requires LossWatched(input.kind, m) && current.value >= 0.0
    requires forall i :: 0 <= i < |cut| ==> !FarLess(m, input.sens, current.value, cut[i].value)
    ensures var p := ParamsFor(input.sens); Collapsed(RuleOf(input.kind, m, p), current, cut, p) == None
  {
    hide FarLess, Lost, RuleOf, CollapseLevel, MonthPeak;
    if cut != [] {
      LevelIsMeasured(cut, current.value, m, input.sens);
      PeakIsMeasured(current, cut, m, input.sens);
      LostIsFarLess(input.kind, m, input.sens, current.value, CollapseLevel(cut));
      LostIsFarLess(input.kind, m, input.sens, current.value, MonthPeak(current, cut));
    }
  }

  lemma LevelIsMeasured(cut: seq<Measurement>, value: real, m: Metric, s: Sensitivity)
    requires cut != [] && forall i :: 0 <= i < |cut| ==> !FarLess(m, s, value, cut[i].value)
    ensures !FarLess(m, s, value, CollapseLevel(cut))
  {
    hide FarLess, Median;
    var newest := NewestSamples(cut, COLLAPSE_REF_SAMPLES);
    var xs := Values(newest);
    var low, at := SmallestOf(xs);
    MedianAtLeast(xs, low);
    var top :| 0 <= top < |xs| && xs[top] == Largest(xs);
    assert newest[top] == cut[|cut| - |newest| + top];
    if FarLess(m, s, value, CollapseLevel(cut)) {
      FarLessOfMore(m, s, value, CollapseLevel(cut), xs[top]);
    }
  }

  lemma {:induction false} SmallestOf(xs: seq<real>) returns (low: real, at: nat)
    requires xs != []
    ensures at < |xs| && low == xs[at] && forall i :: 0 <= i < |xs| ==> xs[i] >= low
  {
    low, at := xs[0], 0;
    if |xs| > 1 {
      var rest, i := SmallestOf(xs[1..]);
      if rest < low {
        low, at := rest, i + 1;
      }
    }
  }

  lemma PeakIsMeasured(current: Measurement, cut: seq<Measurement>, m: Metric, s: Sensitivity)
    requires current.value >= 0.0 && forall i :: 0 <= i < |cut| ==> !FarLess(m, s, current.value, cut[i].value)
    ensures !FarLess(m, s, current.value, MonthPeak(current, cut))
  {
    var month := SamplesFrom(cut, current.at - DRAIN_DAYS * DAY);
    if month != [] {
      hide FarLess;
      var top :| 0 <= top < |month| && Values(month)[top] == Largest(Values(month));
      assert month[top] == cut[|cut| - |month| + top];
    }
  }

  // Without a collapse only a shrink or a row that stays open is left.
  lemma WithoutCollapse(input: ItemInput, m: Metric, current: Measurement, prior: seq<Measurement>, f: Finding)
    requires LossWatched(input.kind, m) && f in ShrinkSaid(input, m, current, prior).found
    requires var p := ParamsFor(input.sens);
      Collapsed(RuleOf(input.kind, m, p), current, SamplesFrom(prior, RebaseOf(input)), p) == None
    ensures !OfCollapse(f) && (m in input.open || |prior| >= 10)
  {
    hide RebaseOf, OfCollapse, RuleOf, ShrinkVerdict;
    var p := ParamsFor(input.sens);
    var r := RuleOf(input.kind, m, p);
    RuleIsAbout(input.kind, m, p);
    OnlyShrank(r, input, current, prior, p, f);
  }

  lemma OnlyShrank(r: SizeRule, input: ItemInput, current: Measurement, prior: seq<Measurement>, p: Params, f: Finding)
    requires f in ShrinkVerdict(r, input.open, input.expectations, current, prior, RebaseOf(input), p).found
    requires Collapsed(r, current, SamplesFrom(prior, RebaseOf(input)), p) == None
    ensures !OfCollapse(f) && (r.shrinkMetric in input.open || |prior| >= 10)
  {
    hide Collapsed, RebaseOf, Shrank, OfCollapse, Verdict, ShrinkVerdict, SamplesFrom;
    var down := VerdictOnShrink(r, input, current, prior, p);
    ShrankIsNoCollapse(r, current, down, p);
    KeptIsNoCollapse(input, r.shrinkMetric, current, Shrank(r, current, down, p), f);
  }

  lemma VerdictOnShrink(r: SizeRule, input: ItemInput, current: Measurement, prior: seq<Measurement>, p: Params)
      returns (down: seq<Measurement>)
    requires Collapsed(r, current, SamplesFrom(prior, RebaseOf(input)), p) == None
    ensures |down| <= |prior|
    ensures ShrinkVerdict(r, input.open, input.expectations, current, prior, RebaseOf(input), p)
      == Verdict(input.open, r.shrinkMetric, current, Shrank(r, current, down, p), ShrinkCleared(current.value))
  {
    hide Collapsed, RebaseOf, Shrank, Verdict, SamplesFrom, NewestSamples;
    down := NewestSamples(SamplesFrom(prior, Max(RebaseOf(input), SinceAt(input.expectations, r.downFamily))), WINDOW);
  }

  lemma RuleIsAbout(kind: SeriesKind, m: Metric, p: Params)
    requires LossWatched(kind, m)
    ensures var r := RuleOf(kind, m, p);
      r.shrinkMetric == m && r.growthMetric != Some(m) && r.quantity == QuantityOf(m)
  {
  }

  lemma ShrankIsNoCollapse(r: SizeRule, current: Measurement, down: seq<Measurement>, p: Params)
    ensures Shrank(r, current, down, p).Some? ==> |down| >= 10 && !OfCollapse(Shrank(r, current, down, p).value)
  {
    hide LevelOf, FarBelow;
  }

  lemma KeptIsNoCollapse(input: ItemInput, m: Metric, current: Measurement, raised: Option<Finding>, f: Finding)
    requires f in Verdict(input.open, m, current, raised, ShrinkCleared(current.value)).found
    requires raised.Some? ==> !OfCollapse(raised.value)
    ensures !OfCollapse(f) && (m in input.open || raised.Some?)
  {
  }

  // The first k earlier runs are all far under the level f was held against,
  // and the one after them, if there is any, is not.
  ghost predicate BadUpTo(input: ItemInput, m: Metric, f: Finding, k: nat) {
    && (forall j :: 1 <= j <= k ==>
         Earlier(input, m, j) && FarLess(m, input.sens, AmountAt(input, m, j), f.expected))
    && (Earlier(input, m, k + 1) ==> !FarLess(m, input.sens, AmountAt(input, m, k + 1), f.expected))
  }

  // f dates the condition back to the k-th run and names the one before it as
  // the last good backup, if that is still one of the earlier runs.
  ghost predicate NamesGoodRun(input: ItemInput, m: Metric, f: Finding, k: nat) {
    var runs := Measuring(input.series, m);
    && k < |runs| && f.onsetRunID == (if k > 0 then runs[k].id else "")
    && (if !Earlier(input, m, k + 1) then f.lastGoodRunID == ""
        else f.lastGoodRunID == runs[k + 1].id && "lastGoodAt" in f.details
             && f.details["lastGoodAt"] == Num(SampleOf(runs[k + 1], m).takenAt as real))
    && (k > 0 ==> "since" in f.details && f.details["since"] == Num(runs[k].startedAt as real))
  }

  // A collapse names the newest earlier run that was not itself lost as the
  // last good backup, and the run after it as the first bad one.
  lemma CollapseNamesGoodRun(input: ItemInput, m: Metric, f: Finding, k: nat)
    requires NewestRunFirst(input.series) && LossWatched(input.kind, m) && Measuring(input.series, m) != []
    requires f in EvaluateItem(input).found && f.metric == m && OfCollapse(f) && BadUpTo(input, m, f, k)
    ensures FarLess(m, input.sens, AmountAt(input, m, 0), f.expected)
    ensures NamesGoodRun(input, m, f, k)
  {
    hide Measuring, RebaseOf, Measurements, EvaluateItem, FarLess, Lost, ShrinkSaid, RuleOf, OfCollapse, Collapsed,
      NamesLastGood, Split;
    var current, prior, cut := SplitOf(input, m);
    LossByShrink(input, m, current, prior);
    MustBeCollapse(input, m, current, prior, cut, f);
    var p := ParamsFor(input.sens);
    var i := CollapseNamesLastGood(RuleOf(input.kind, m, p), current, cut, p);
    LostIsFarLess(input.kind, m, input.sens, current.value, f.expected);
    NewestIs(input, m, current, prior, cut, f, k, i);
    NamedRun(input, m, current, prior, cut, f, k, i);
  }

  lemma MustBeCollapse(input: ItemInput, m: Metric, current: Measurement, prior: seq<Measurement>,
      cut: seq<Measurement>, f: Finding)
    requires LossWatched(input.kind, m) && Split(input, m, current, prior, cut) && OfCollapse(f)
    requires f in ShrinkSaid(input, m, current, prior).found
    ensures current == SampleOf(Measuring(input.series, m)[0], m)
    ensures var p := ParamsFor(input.sens); Collapsed(RuleOf(input.kind, m, p), current, cut, p) == Some(f)
  {
    hide Measuring, RebaseOf, RuleOf, OfCollapse, Collapsed, ShrinkSaid;
    var p := ParamsFor(input.sens);
    var r := RuleOf(input.kind, m, p);
    if Collapsed(r, current, cut, p) == None {
      WithoutCollapse(input, m, current, prior, f);
    } else {
      CollapseWins(input, m, current, prior, f);
    }
  }

  // Where a collapse was found nothing else speaks, except the row that is
  // already open, which carries no figures.
  lemma CollapseWins(input: ItemInput, m: Metric, current: Measurement, prior: seq<Measurement>, f: Finding)
    requires f in ShrinkSaid(input, m, current, prior).found
    requires var p := ParamsFor(input.sens);
      Collapsed(RuleOf(input.kind, m, p), current, SamplesFrom(prior, RebaseOf(input)), p).Some?
    ensures var p := ParamsFor(input.sens);
      Collapsed(RuleOf(input.kind, m, p), current, SamplesFrom(prior, RebaseOf(input)), p) == Some(f)
  {
    hide RebaseOf, RuleOf, Collapsed, Shrank, SamplesFrom, NewestSamples;
  }

  lemma NewestIs(input: ItemInput, m: Metric, current: Measurement, prior: seq<Measurement>, cut: seq<Measurement>,
      f: Finding, k: nat, i: int)
    requires LossWatched(input.kind, m) && Split(input, m, current, prior, cut) && BadUpTo(input, m, f, k)
    requires var p := ParamsFor(input.sens);
      NewestNotBad(cut, (v: real) => Lost(RuleOf(input.kind, m, p), v, f.expected, p), i)
    ensures i == |cut| - 1 - k && (k < |cut| <==> Earlier(input, m, k + 1)) && k <= |cut|
  {
    hide Measuring, RebaseOf, FarLess, Lost, RuleOf;
    var p := ParamsFor(input.sens);
    if k > 0 {
      assert Earlier(input, m, k);
    }
    forall j | 0 <= j < |cut|
      ensures Lost(RuleOf(input.kind, m, p), cut[j].value, f.expected, p) <==>
        FarLess(m, input.sens, AmountAt(input, m, |cut| - j), f.expected)
    {
      LostIsFarLess(input.kind, m, input.sens, cut[j].value, f.expected);
      assert cut[j] == SampleOf(Measuring(input.series, m)[|cut| - j], m);
    }
    var n := |cut| - 1 - k;
    OneNewestNotBad(cut, (v: real) => Lost(RuleOf(input.kind, m, p), v, f.expected, p), i, n);
  }

  lemma NamedRun(input: ItemInput, m: Metric, current: Measurement, prior: seq<Measurement>, cut: seq<Measurement>,
      f: Finding, k: nat, i: int)
    requires Split(input, m, current, prior, cut) && i == |cut| - 1 - k && k <= |cut|
    requires k < |cut| <==> Earlier(input, m, k + 1)
    requires f.lastGoodRunID == (if i >= 0 then cut[i].runID else "")
    requires i >= 0 ==> "lastGoodAt" in f.details && f.details["lastGoodAt"] == Num(cut[i].takenAt as real)
    requires f.onsetRunID == (if i < |cut| - 1 then cut[i + 1].runID else "")
    requires i < |cut| - 1 ==> "since" in f.details && f.details["since"] == Num(cut[i + 1].at as real)
    ensures NamesGoodRun(input, m, f, k)
  {
    hide Measuring, RebaseOf, SampleOf, Earlier, Split;
    CutRun(input, m, current, prior, cut, 0);
    if k < |cut| {
      CutRun(input, m, current, prior, cut, k + 1);
      assert cut[i] == cut[|cut| - (k + 1)];
    }
    if k > 0 {
      CutRun(input, m, current, prior, cut, k);
      assert cut[i + 1] == cut[|cut| - k];
    }
  }

  // The j-th newest run is the j-th sample from the end.
  lemma CutRun(input: ItemInput, m: Metric, current: Measurement, prior: seq<Measurement>, cut: seq<Measurement>,
      j: nat)
    requires Split(input, m, current, prior, cut) && j <= |cut|
    ensures var runs := Measuring(input.series, m);
      j < |runs| && (j > 0 ==> cut[|cut| - j].runID == runs[j].id && cut[|cut| - j].at == runs[j].startedAt
                               && cut[|cut| - j].takenAt == SampleOf(runs[j], m).takenAt)
  {
    hide Measuring, RebaseOf;
  }

  // A series that covers the same data throughout has no rebase.
  lemma NoRebase(input: ItemInput)
    requires NewestRunFirst(input.series) && input.changedAt == 0
    requires forall i :: 0 <= i && i + 1 < |Backups(input.series)| ==> !OtherSelection(Backups(input.series), i)
    ensures RebaseOf(input) == 0
  {
    SelectionStartsOver(input.series, |Backups(input.series)|);
    OwnChangeStartsOver(input.series, 0);
  }
}
