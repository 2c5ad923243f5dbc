// What the size and duration rules make of a series that mostly measured one
// value (anomaly_detect.go): the level is that value, the noise is the floor,
// and the newest run raises a finding exactly when it is far enough away.
module SteadyLevels {
  import opened Wrappers
  import opened AnomalyTypes
  import opened AnomalyRules
  import opened AnomalyNewData
  import opened AnomalyVerdicts
  import opened OrderStatistics
  import opened SizeAlarms

  // ---- the window ---------------------------------------------------------

  // From when on the runs of a metric are compared: after the last rebase and
  // after what a user accepted.
  function ComparedFrom(input: ItemInput, m: Metric): int {
    var family :=
      match m
      case SourceBytesShrink => FamilySourceBytesDown
      case SourceFilesShrink => FamilySourceFilesDown
      case SourceBytesGrowth => FamilySourceBytesUp
      case DumpBytesShrink => FamilyDumpBytesDown
      case DumpBytesGrowth => FamilyDumpBytesUp
      case DumpDurationSlower => FamilyDumpDuration
      case _ => FamilyDuration;
    var accepted := if family in input.expectations then input.expectations[family].sinceAt else 0;
    Max(if m == DurationSlower || m == DumpDurationSlower then SelectionRebaseAt(input.series) else RebaseOf(input),
        accepted)
  }

  // The window holds the n runs before the newest one: thirty, or all from
  // there on when they are fewer.
  predicate WindowHas(input: ItemInput, m: Metric, n: nat) {
    var runs := Measuring(input.series, m);
    && n < |runs| && n <= 30 && (n > 0 ==> runs[n].startedAt >= ComparedFrom(input, m))
    && (n == 30 || n + 1 == |runs| || runs[n + 1].startedAt < ComparedFrom(input, m))
  }

  // How many of the n runs before the newest one measured exactly x.
  function Hits(runs: seq<SeriesRun>, m: Metric, x: real, n: nat): (h: nat)
    requires n < |runs| && forall i :: 0 <= i < |runs| ==> Amount(runs[i], m).Some?
    ensures h <= n
  {
    if n == 0 then 0 else Hits(runs, m, x, n - 1) + (if Amount(runs[n], m).value as real == x then 1 else 0)
  }

  // Ten runs or more, and most of them measured x.
  predicate Steady(input: ItemInput, m: Metric, x: real, n: nat) {
    WindowHas(input, m, n) && n >= 10 && 2 * Hits(Measuring(input.series, m), m, x, n) > n
  }

  lemma {:induction false} HitsCount(runs: seq<SeriesRun>, m: Metric, xs: seq<real>, x: real, n: nat)
    requires n < |runs| && forall i :: 0 <= i < |runs| ==> Amount(runs[i], m).Some?
    requires |xs| == n && forall i :: 0 <= i < n ==> xs[i] == Amount(runs[n - i], m).value as real
    ensures Hits(runs, m, x, n) == Count(xs, (v: real) => v == x)
  {
    if n > 0 {
      HitsCount(runs, m, xs[1..], x, n - 1);
    }
  }

  // The samples of a window.
  ghost predicate IsWindow(input: ItemInput, m: Metric, down: seq<Measurement>, n: nat) {
    var runs := Measuring(input.series, m);
    |down| == n < |runs| && forall i :: 0 <= i < n ==> down[i] == SampleOf(runs[n - i], m)
  }

  lemma WindowIs(input: ItemInput, m: Metric, current: Measurement, prior: seq<Measurement>, cut: seq<Measurement>,
      from: int, n: nat)
    requires NewestRunFirst(input.series) && Split(input, m, current, prior, cut) && WindowHas(input, m, n)
    requires from == ComparedFrom(input, m)
    ensures IsWindow(input, m, NewestSamples(SamplesFrom(prior, from), WINDOW), n)
  {
    hide Measuring, RebaseOf, ComparedFrom, SamplesFrom, NewestSamples, Split, SampleOf, WindowHas, IsWindow;
    PriorOldestFirst(input, m, current, prior, cut);
    WindowStarts(input, m, prior, n);
    WindowLength(prior, from, n);
    TailIsWindow(input, m, prior, n);
  }

  lemma WindowStarts(input: ItemInput, m: Metric, prior: seq<Measurement>, n: nat)
    requires |prior| == |Measuring(input.series, m)| - 1 && WindowHas(input, m, n)
    requires forall i :: 0 <= i < |prior| ==> prior[i].at == Measuring(input.series, m)[|prior| - i].startedAt
    ensures n <= |prior| && n <= 30 && (n > 0 ==> prior[|prior| - n].at >= ComparedFrom(input, m))
    ensures n == 30 || n == |prior| || prior[|prior| - n - 1].at < ComparedFrom(input, m)
  {
    hide Measuring, ComparedFrom;
  }

  lemma TailIsWindow(input: ItemInput, m: Metric, prior: seq<Measurement>, n: nat)
    requires |prior| == |Measuring(input.series, m)| - 1 && n <= |prior|
    requires forall i :: 0 <= i < |prior| ==> prior[i] == SampleOf(Measuring(input.series, m)[|prior| - i], m)
    ensures IsWindow(input, m, prior[|prior| - n..], n)
  {
    hide Measuring, SampleOf;
  }

  lemma PriorOldestFirst(input: ItemInput, m: Metric, current: Measurement, prior: seq<Measurement>,
      cut: seq<Measurement>)
    requires NewestRunFirst(input.series) && Split(input, m, current, prior, cut)
    ensures OldestFirst(prior)
    ensures var runs := Measuring(input.series, m);
      && |prior| == |runs| - 1
      && (forall i :: 0 <= i < |prior| ==> prior[i] == SampleOf(runs[|prior| - i], m))
      && (forall i :: 0 <= i < |prior| ==> prior[i].at == runs[|prior| - i].startedAt)
  {
    hide Measuring, RebaseOf;
    StaysNewestFirst(input.series, m);
  }

  lemma WindowLength(prior: seq<Measurement>, from: int, n: nat)
    requires OldestFirst(prior) && n <= |prior| && n <= 30
    requires n > 0 ==> prior[|prior| - n].at >= from
    requires n == 30 || n == |prior| || prior[|prior| - n - 1].at < from
    ensures |NewestSamples(SamplesFrom(prior, from), WINDOW)| == n
    ensures NewestSamples(SamplesFrom(prior, from), WINDOW) == prior[|prior| - n..]
  {
    hide SamplesFrom;
    FromOn(prior, from);
  }

  // The level of a steady window is its value, and the noise the larger of a
  // share of it and the floor.
  lemma SteadyLevel(input: ItemInput, m: Metric, down: seq<Measurement>, x: real, n: nat, relative: real, floor: real)
    requires IsWindow(input, m, down, n) && n > 0 && 2 * Hits(Measuring(input.series, m), m, x, n) > n
    requires floor > 0.0
    ensures LevelOf(down, relative, floor) == Level(x, MaxReal(relative * x, floor), n)
  {
    hide Measuring, Median, Count;
    var xs := Values(down);
    HitsCount(Measuring(input.series, m), m, xs, x, n);
    CountImplies(xs, (v: real) => v == x, (v: real) => x <= v <= x);
    MedianInMajorityInterval(xs, x, x);
    MadOfMajority(xs, x);
  }

  lemma ScoreReaches(value: real, x: real, spread: real, k: real)
    requires spread > 0.0
    ensures ModifiedZ(value, x, spread) <= -k <==> 0.6745 * (x - value) >= k * spread
    ensures ModifiedZ(value, x, spread) >= k <==> 0.6745 * (value - x) >= k * spread
  {
    var z := ModifiedZ(value, x, spread);
    assert z * spread == 0.6745 * (value - x);
    if z <= -k { assert z * spread <= -k * spread; } else { assert z * spread > -k * spread; }
    if z >= k { assert z * spread >= k * spread; } else { assert z * spread < k * spread; }
  }

  // ---- far enough from the level ------------------------------------------

  // The shares of a level each preset draws its lines at.
  function ShrinkShare(s: Sensitivity): real { match s case Strict => 0.85 case Balanced => 0.7 case Permissive => 0.5 }

  function GrowthShare(s: Sensitivity): real { match s case Strict => 1.5 case Balanced => 2.0 case Permissive => 4.0 }

  function SlowShare(s: Sensitivity): real { match s case Strict => 2.0 case Balanced => 3.0 case Permissive => 5.0 }

  // How far a value has to be under a steady level: below its share, by the
  // floor, and by enough of the noise.
  predicate FarUnder(m: Metric, s: Sensitivity, value: real, x: real) {
    var files := m == SourceFilesShrink;
    && value < ShrinkShare(s) * x
    && x - value >= (match s
                     case Strict => if files then 200.0 else 268435456.0
                     case Balanced => if files then 1000.0 else 1073741824.0
                     case Permissive => if files then 10000.0 else 5368709120.0)
    && 0.6745 * (x - value) >= (match s case Strict => 2.5 case Balanced => 3.5 case Permissive => 5.0)
                               * MaxReal(0.02 * x, if files then 10.0 else 1048576.0)
  }

  predicate FarOverSize(s: Sensitivity, value: real, x: real) {
    && value > GrowthShare(s) * x
    && value - x >= (match s case Strict => 1073741824.0 case Balanced => 5368709120.0 case Permissive => 21474836480.0)
    && 0.6745 * (value - x) >= (match s case Strict => 2.5 case Balanced => 3.5 case Permissive => 5.0)
                               * MaxReal(0.02 * x, 1048576.0)
  }

  // In milliseconds.
  predicate FarOverTime(s: Sensitivity, value: real, x: real) {
    && value >= SlowShare(s) * x
    && value - x >= (match s case Strict => 360000.0 case Balanced => 600000.0 case Permissive => 1800000.0)
    && 0.6745 * (value - x) >= (match s case Strict => 2.5 case Balanced => 3.5 case Permissive => 5.0)
                               * MaxReal(0.05 * x, 1000.0)
  }

  // The finding is about the newest run against the level x, with the line it
  // was drawn at.
  predicate AboutLevel(input: ItemInput, m: Metric, f: Finding, severity: Severity, x: real, share: real) {
    && Measuring(input.series, m) != []
    && f.metric == m && f.severity == severity && f.runID == Measuring(input.series, m)[0].id
    && f.runAt == Measuring(input.series, m)[0].startedAt && f.observed == AmountAt(input, m, 0)
    && f.expected == x && f.threshold == share * x && !f.event
  }

  // ---- a shrink -----------------------------------------------------------

  lemma ShrankIs(kind: SeriesKind, m: Metric, s: Sensitivity, current: Measurement, down: seq<Measurement>, x: real,
      n: nat)
    requires LossWatched(kind, m) && n >= 10 && |down| == n
    requires LevelOf(down, 0.02, RuleOf(kind, m, ParamsFor(s)).madFloor)
      == Level(x, MaxReal(0.02 * x, RuleOf(kind, m, ParamsFor(s)).madFloor), n)
    ensures var f := Shrank(RuleOf(kind, m, ParamsFor(s)), current, down, ParamsFor(s));
      && (f.Some? <==> FarUnder(m, s, current.value, x))
      && (f.Some? ==>
           f.value.metric == m && f.value.runID == current.runID && f.value.runAt == current.at
           && f.value.observed == current.value && f.value.expected == x && !f.value.event
           && f.value.threshold == ShrinkShare(s) * x
           && f.value.severity == if current.value < 0.5 * x then Critical else Warning)
  {
    hide LevelOf, ModifiedZ;
    var p := ParamsFor(s);
    var r := RuleOf(kind, m, p);
    ScoreReaches(current.value, x, MaxReal(0.02 * x, r.madFloor), p.k);
  }

  // A series whose window mostly measured x raises a shrink exactly when its
  // newest value is far enough under x, unless it is already a collapse.
  lemma SteadyShrink(input: ItemInput, m: Metric, x: real, n: nat)
    requires NewestRunFirst(input.series) && LossWatched(input.kind, m) && Steady(input, m, x, n)
    requires m !in input.open
    ensures FarUnder(m, input.sens, AmountAt(input, m, 0), x) ==>
      exists f :: f in EvaluateItem(input).found && f.metric == m
    ensures forall f :: f in EvaluateItem(input).found && f.metric == m ==>
      OfCollapse(f) || SaysShrunk(input, m, f, x)
  {
    hide Measuring, RebaseOf, Measurements, EvaluateItem, FarUnder, ShrinkSaid, RuleOf, OfCollapse, Split, WindowHas,
      LevelOf, Shrank, ParamsFor, Hits, ComparedFrom, AmountAt, LossWatched, SaysShrunk, Earlier, IsWindow, SamplesFrom;
    WindowBehind(input, m, n);
    var current, prior, cut := SplitOf(input, m);
    var down := ShrinkWindow(input, m, current, prior, cut, x, n);
    LossByShrink(input, m, current, prior);
    SteadyVerdict(input, m, current, prior, cut, down, x, n);
  }

  lemma WindowBehind(input: ItemInput, m: Metric, n: nat)
    requires WindowHas(input, m, n)
    ensures Measuring(input.series, m) != []
  {
  }

  // The finding tells of a shrink under the level x.
  predicate SaysShrunk(input: ItemInput, m: Metric, f: Finding, x: real) {
    && AboutLevel(input, m, f, if f.observed < 0.5 * x then Critical else Warning, x, ShrinkShare(input.sens))
    && FarUnder(m, input.sens, f.observed, x)
  }

  lemma RuleFloors(kind: SeriesKind, m: Metric, p: Params)
    requires LossWatched(kind, m)
    ensures RuleOf(kind, m, p).madFloor > 0.0
  {
  }

  // The samples the shrink rule compares with, and its level of them.
  lemma ShrinkWindow(input: ItemInput, m: Metric, current: Measurement, prior: seq<Measurement>,
      cut: seq<Measurement>, x: real, n: nat) returns (down: seq<Measurement>)
    requires NewestRunFirst(input.series) && Split(input, m, current, prior, cut) && Steady(input, m, x, n)
    requires LossWatched(input.kind, m)
    ensures down == NewestSamples(SamplesFrom(prior, ComparedFrom(input, m)), WINDOW) && |down| == n
    ensures var floor := RuleOf(input.kind, m, ParamsFor(input.sens)).madFloor;
      LevelOf(down, 0.02, floor) == Level(x, MaxReal(0.02 * x, floor), n)
  {
    hide RebaseOf, RuleOf, Split, Steady, LevelOf, ParamsFor, ComparedFrom, SamplesFrom, NewestSamples;
    RuleFloors(input.kind, m, ParamsFor(input.sens));
    down := SteadyWindow(input, m, current, prior, cut, x, n, 0.02,
      RuleOf(input.kind, m, ParamsFor(input.sens)).madFloor);
  }

  lemma ShrinkSaidOf(input: ItemInput, m: Metric, current: Measurement, prior: seq<Measurement>,
      down: seq<Measurement>)
    requires LossWatched(input.kind, m) && m !in input.open
    requires down == NewestSamples(SamplesFrom(prior, ComparedFrom(input, m)), WINDOW)
    ensures var p := ParamsFor(input.sens);
      var r := RuleOf(input.kind, m, p);
      var collapsed := Collapsed(r, current, SamplesFrom(prior, RebaseOf(input)), p);
      var raised := if collapsed.Some? then collapsed else Shrank(r, current, down, p);
      ShrinkSaid(input, m, current, prior).found == if raised.Some? then [raised.value] else []
  {
    hide RebaseOf, Collapsed, Shrank, SamplesFrom, NewestSamples, ParamsFor;
  }

  lemma SteadyVerdict(input: ItemInput, m: Metric, current: Measurement, prior: seq<Measurement>,
      cut: seq<Measurement>, down: seq<Measurement>, x: real, n: nat)
    requires LossWatched(input.kind, m) && m !in input.open && Split(input, m, current, prior, cut) && n >= 10
    requires down == NewestSamples(SamplesFrom(prior, ComparedFrom(input, m)), WINDOW) && |down| == n
    requires var floor := RuleOf(input.kind, m, ParamsFor(input.sens)).madFloor;
      LevelOf(down, 0.02, floor) == Level(x, MaxReal(0.02 * x, floor), n)
    requires SameAbout(EvaluateItem(input).found, ShrinkSaid(input, m, current, prior).found, m)
    ensures FarUnder(m, input.sens, AmountAt(input, m, 0), x) ==>
      exists f :: f in EvaluateItem(input).found && f.metric == m
    ensures forall f :: f in EvaluateItem(input).found && f.metric == m ==> OfCollapse(f) || SaysShrunk(input, m, f, x)
  {
    hide Measuring, RebaseOf, EvaluateItem, FarUnder, ShrinkSaid, RuleOf, OfCollapse, LevelOf, Shrank, ParamsFor,
      ComparedFrom, SamplesFrom, Collapsed, LossWatched;
    var p := ParamsFor(input.sens);
    var r := RuleOf(input.kind, m, p);
    ShrinkSaidOf(input, m, current, prior, down);
    ShrankIs(input.kind, m, input.sens, current, down, x, n);
    CollapsedIsAlarm(r, current, cut, p);
    CollapseSaysSo(r, current, cut, p);
    RuleIsAbout(input.kind, m, p);
    var said := ShrinkSaid(input, m, current, prior).found;
    if FarUnder(m, input.sens, current.value, x) {
      assert said[0] in said && said[0].metric == m;
    }
  }

  lemma CollapseSaysSo(r: SizeRule, current: Measurement, cut: seq<Measurement>, p: Params)
    ensures Collapsed(r, current, cut, p).Some? ==> OfCollapse(Collapsed(r, current, cut, p).value)
  {
    hide Lost, LastNotBad, CollapseReference;
  }

  // ---- a growth -----------------------------------------------------------

  // A series whose window mostly measured x raises a growth exactly when its
  // newest value is far enough over x, and never more than a warning.
  lemma SteadyGrowth(input: ItemInput, m: Metric, x: real, n: nat)
    requires NewestRunFirst(input.series) && GrowthWatched(input.kind, m) && Steady(input, m, x, n)
    requires m !in input.open
    ensures FarOverSize(input.sens, AmountAt(input, m, 0), x) ==>
      exists f :: f in EvaluateItem(input).found && f.metric == m
    ensures forall f :: f in EvaluateItem(input).found && f.metric == m ==>
      AboutLevel(input, m, f, Warning, x, GrowthShare(input.sens)) && FarOverSize(input.sens, f.observed, x)
  {
    hide Measuring, RebaseOf, Measurements, EvaluateItem, FarOverSize, RuleOf, Split, WindowHas, LevelOf, Grew,
      ParamsFor, Hits, ComparedFrom, GrowthWatched, Earlier, IsWindow, SamplesFrom, GrowthSaid, SampleOf,
      GrowthShare, AmountAt, AboutLevel, MaxReal;
    WindowBehind(input, m, n);
    var current, prior, cut := SplitOf(input, m);
    IsNewest(input, m, current, prior, cut);
    GrowthByRule(input, m, current, prior);
    var up := SteadyWindow(input, m, current, prior, cut, x, n, 0.02, MIB);
    GrowthSaidOf(input, m, current, prior, up);
    GrowthRuleIs(input.kind, m, ParamsFor(input.sens));
    GrewIs(input.sens, RuleOf(input.kind, m, ParamsFor(input.sens)), m, current, up, x, n);
    var raised := Grew(RuleOf(input.kind, m, ParamsFor(input.sens)), m, current, up, ParamsFor(input.sens));
    SaidOne(EvaluateItem(input).found, GrowthSaid(input, m, current, prior).found, m, raised);
    WarningAbout(input, m, current, raised, x, GrowthShare(input.sens));
  }

  // A warning of a rule is about the newest run, against the level.
  lemma WarningAbout(input: ItemInput, m: Metric, current: Measurement, raised: Option<Finding>, x: real, share: real)
    requires var runs := Measuring(input.series, m);
      runs != [] && current.runID == runs[0].id && current.at == runs[0].startedAt
        && current.value == AmountAt(input, m, 0)
    requires raised.Some? ==>
      raised.value.metric == m && raised.value.runID == current.runID && raised.value.runAt == current.at
      && raised.value.observed == current.value && raised.value.expected == x && !raised.value.event
      && raised.value.threshold == share * x && raised.value.severity == Warning
    ensures raised.Some? ==> AboutLevel(input, m, raised.value, Warning, x, share)
  {
    hide Measuring, AmountAt;
  }

  // The samples a rule compares with, and its level of them.
  lemma SteadyWindow(input: ItemInput, m: Metric, current: Measurement, prior: seq<Measurement>,
      cut: seq<Measurement>, x: real, n: nat, relative: real, floor: real) returns (samples: seq<Measurement>)
    requires NewestRunFirst(input.series) && Split(input, m, current, prior, cut) && Steady(input, m, x, n)
    requires floor > 0.0
    ensures samples == NewestSamples(SamplesFrom(prior, ComparedFrom(input, m)), WINDOW) && |samples| == n >= 10
    ensures LevelOf(samples, relative, floor) == Level(x, MaxReal(relative * x, floor), n)
  {
    hide Measuring, RebaseOf, Split, WindowHas, LevelOf, Hits, ComparedFrom, SamplesFrom;
    WindowIs(input, m, current, prior, cut, ComparedFrom(input, m), n);
    samples := NewestSamples(SamplesFrom(prior, ComparedFrom(input, m)), WINDOW);
    SteadyLevel(input, m, samples, x, n, relative, floor);
  }

  lemma SaidOne(found: seq<Finding>, said: seq<Finding>, m: Metric, raised: Option<Finding>)
    requires SameAbout(found, said, m) && said == if raised.Some? then [raised.value] else []
    requires raised.Some? ==> raised.value.metric == m
    ensures raised.Some? ==> raised.value in found
    ensures forall f :: f in found && f.metric == m ==> raised == Some(f)
  {
    if raised.Some? {
      assert said[0] in said;
    }
  }

  lemma IsNewest(input: ItemInput, m: Metric, current: Measurement, prior: seq<Measurement>, cut: seq<Measurement>)
    requires Split(input, m, current, prior, cut)
    ensures var runs := Measuring(input.series, m);
      runs != [] && current.runID == runs[0].id && current.at == runs[0].startedAt
        && current.value == AmountAt(input, m, 0)
  {
    hide Measuring;
  }

  lemma WindowSize(input: ItemInput, m: Metric, down: seq<Measurement>, n: nat)
    requires IsWindow(input, m, down, n)
    ensures |down| == n
  {
  }

  function GrowthSaid(input: ItemInput, m: Metric, current: Measurement, prior: seq<Measurement>): Decided
    requires GrowthWatched(input.kind, m)
  {
    var p := ParamsFor(input.sens);
    GrowthVerdict(RuleOf(input.kind, m, p), input.open, input.expectations, current, prior, RebaseOf(input), p)
  }

  lemma GrowthByRule(input: ItemInput, m: Metric, current: Measurement, prior: seq<Measurement>)
    requires GrowthWatched(input.kind, m)
    requires var samples := Measurements(Reversed(EligibleRuns(input.series)), QuantityOf(m));
      samples != [] && current == samples[|samples| - 1] && prior == samples[..|samples| - 1]
    ensures SameAbout(EvaluateItem(input).found, GrowthSaid(input, m, current, prior).found, m)
  {
    hide EvaluateItem, RebaseOf, SizeVerdict, GrowthVerdict, Measurements, RuleOf, ParamsFor;
    var p := ParamsFor(input.sens);
    GrowthRuleIs(input.kind, m, p);
    SizeByItsRule(input, m);
    SizeOnly(RuleOf(input.kind, m, p), input.open, input.expectations, current, prior, RebaseOf(input), p);
  }

  lemma GrowthRuleIs(kind: SeriesKind, m: Metric, p: Params)
    requires GrowthWatched(kind, m)
    ensures var r := RuleOf(kind, m, p);
      && r.growthMetric == Some(m) && r.growthMetric != Some(r.shrinkMetric) && r.quantity == QuantityOf(m)
      && r.madFloor == MIB && r.growthFloor == p.growthFloor
  {
  }

  lemma GrowthSaidOf(input: ItemInput, m: Metric, current: Measurement, prior: seq<Measurement>, up: seq<Measurement>)
    requires GrowthWatched(input.kind, m) && m !in input.open
    requires up == NewestSamples(SamplesFrom(prior, ComparedFrom(input, m)), WINDOW)
    ensures var p := ParamsFor(input.sens);
      var raised := Grew(RuleOf(input.kind, m, p), m, current, up, p);
      GrowthSaid(input, m, current, prior).found == if raised.Some? then [raised.value] else []
  {
    hide RebaseOf, Grew, SamplesFrom, NewestSamples, ParamsFor;
  }

  lemma GrewIs(s: Sensitivity, r: SizeRule, m: Metric, current: Measurement, up: seq<Measurement>, x: real, n: nat)
    requires n >= 10 && |up| == n && r.madFloor == MIB && r.growthFloor == ParamsFor(s).growthFloor
    requires LevelOf(up, 0.02, MIB) == Level(x, MaxReal(0.02 * x, MIB), n)
    ensures var f := Grew(r, m, current, up, ParamsFor(s));
      && (f.Some? <==> FarOverSize(s, current.value, x))
      && (f.Some? ==>
           f.value.metric == m && f.value.runID == current.runID && f.value.runAt == current.at
           && f.value.observed == current.value && f.value.expected == x && !f.value.event
           && f.value.threshold == GrowthShare(s) * x
           && f.value.severity == Warning)
  {
    hide LevelOf, ModifiedZ;
    ScoreReaches(current.value, x, MaxReal(0.02 * x, MIB), ParamsFor(s).k);
  }

  // ---- a slow run ---------------------------------------------------------

  predicate DurationWatched(kind: SeriesKind, m: Metric) {
    ((kind == ItemSeries || kind == DatasetSeries) && m == DurationSlower)
      || (kind == DumpSeries && m == DumpDurationSlower)
  }

  // The same for the time a run took, which is never held against a rebase of
  // BombVault's own.
  lemma SteadyDuration(input: ItemInput, m: Metric, x: real, n: nat)
    requires NewestRunFirst(input.series) && DurationWatched(input.kind, m) && Steady(input, m, x, n)
    requires m !in input.open
    ensures FarOverTime(input.sens, AmountAt(input, m, 0), x) ==>
      exists f :: f in EvaluateItem(input).found && f.metric == m
    ensures forall f :: f in EvaluateItem(input).found && f.metric == m ==>
      AboutLevel(input, m, f, Warning, x, SlowShare(input.sens)) && FarOverTime(input.sens, f.observed, x)
  {
    hide Measuring, RebaseOf, Measurements, EvaluateItem, FarOverTime, Split, WindowHas, LevelOf, SlowerRun,
      ParamsFor, Hits, ComparedFrom, DurationWatched, Earlier, IsWindow, SamplesFrom, SampleOf, DetectDuration,
      SlowShare, AmountAt, AboutLevel, MaxReal;
    WindowBehind(input, m, n);
    var current, prior, cut := SplitOf(input, m);
    IsNewest(input, m, current, prior, cut);
    var samples := SteadyWindow(input, m, current, prior, cut, x, n, 0.05, 1000.0);
    DurationSaidOf(input, m, current, prior, samples);
    DurationsByOwnRule(input, m);
    SlowerIs(input.sens, m, current, samples, x, n);
    var raised := SlowerRun(current, samples, m, ParamsFor(input.sens));
    SaidOne(EvaluateItem(input).found, DetectDuration(input, ParamsFor(input.sens)).found, m, raised);
    WarningAbout(input, m, current, raised, x, SlowShare(input.sens));
  }

  lemma DurationsByOwnRule(input: ItemInput, m: Metric)
    requires DurationWatched(input.kind, m)
    ensures SameAbout(EvaluateItem(input).found, DetectDuration(input, ParamsFor(input.sens)).found, m)
  {
    hide DetectSource, NewDataFindings, DetectDuration, DetectReliability, Raises, Ends, Sound;
    var p := ParamsFor(input.sens);
    NewDataAreEvents(input, p);
    SourceSays(input, p, m);
    ReliabilityOnly(input, p);
    NotRaised(DetectSource(input, p), m);
  }

  lemma NotRaised(d: Decided, m: Metric)
    requires !Raises(d, m)
    ensures forall f :: f in d.found ==> f.metric != m
  {
    forall f | f in d.found ensures f.metric != m {
      var i :| 0 <= i < |d.found| && d.found[i] == f;
    }
  }

  lemma DurationSaidOf(input: ItemInput, m: Metric, current: Measurement, prior: seq<Measurement>,
      samples: seq<Measurement>)
    requires DurationWatched(input.kind, m) && m !in input.open
    requires var measured := Measurements(Reversed(EligibleRuns(input.series)), QuantityOf(m));
      measured != [] && current == measured[|measured| - 1] && prior == measured[..|measured| - 1]
    requires samples == NewestSamples(SamplesFrom(prior, ComparedFrom(input, m)), WINDOW)
    ensures var p := ParamsFor(input.sens);
      var raised := SlowerRun(current, samples, m, p);
      DetectDuration(input, p).found == if raised.Some? then [raised.value] else []
  {
    hide SlowerRun, SamplesFrom, NewestSamples, ParamsFor, Measurements, EligibleRuns, SelectionRebaseAt;
  }

  lemma SlowerIs(s: Sensitivity, m: Metric, current: Measurement, samples: seq<Measurement>, x: real, n: nat)
    requires n >= 10 && |samples| == n
    requires LevelOf(samples, 0.05, 1000.0) == Level(x, MaxReal(0.05 * x, 1000.0), n)
    ensures var f := SlowerRun(current, samples, m, ParamsFor(s));
      && (f.Some? <==> FarOverTime(s, current.value, x))
      && (f.Some? ==>
           f.value.metric == m && f.value.runID == current.runID && f.value.runAt == current.at
           && f.value.observed == current.value && f.value.expected == x && !f.value.event
           && f.value.threshold == SlowShare(s) * x
           && f.value.severity == Warning)
  {
    hide LevelOf, FarSlower, FarOverTime;
    FarSlowerIs(s, current.value, x, n);
  }

  lemma FarSlowerIs(s: Sensitivity, value: real, x: real, n: nat)
    ensures var p := ParamsFor(s);
      FarSlower(value, Level(x, MaxReal(0.05 * x, 1000.0), n), p.durRatio, p.durFloorMS, p.k)
      <==> FarOverTime(s, value, x)
  {
    hide ModifiedZ;
    ScoreReaches(value, x, MaxReal(0.05 * x, 1000.0), ParamsFor(s).k);
  }

  // The figures of a level finding give the level and the share of it that was
  // measured.
  predicate TellsLevel(f: Finding) {
    && "median" in f.details && f.details["median"] == Num(f.expected)
    && (f.expected != 0.0 ==> "ratio" in f.details && f.details["ratio"] == Num(f.observed / f.expected))
  }

  lemma LevelFiguresAreTold(r: SizeRule, m: Metric, current: Measurement, samples: seq<Measurement>, p: Params)
    ensures Shrank(r, current, samples, p).Some? ==> TellsLevel(Shrank(r, current, samples, p).value)
    ensures Grew(r, m, current, samples, p).Some? ==> TellsLevel(Grew(r, m, current, samples, p).value)
    ensures SlowerRun(current, samples, m, p).Some? ==> TellsLevel(SlowerRun(current, samples, m, p).value)
  {
    hide LevelOf, FarBelow, FarAbove, FarSlower, TellsLevel, LevelFinding, Dated;
    forall metric: Metric, severity: Severity, l: Level, ratio: real
      ensures TellsLevel(LevelFinding(metric, severity, current, l, ratio))
    {
      LevelIsTold(metric, severity, current, l, ratio);
    }
    forall f: Finding, bad: real -> bool | TellsLevel(f) ensures TellsLevel(Dated(f, samples, bad)) {
      DatedStillTells(f, samples, bad);
    }
  }

  lemma LevelIsTold(metric: Metric, severity: Severity, current: Measurement, l: Level, ratio: real)
    ensures TellsLevel(LevelFinding(metric, severity, current, l, ratio))
  {
    hide ModifiedZ;
  }

  lemma DatedStillTells(f: Finding, samples: seq<Measurement>, bad: real -> bool)
    requires TellsLevel(f)
    ensures TellsLevel(Dated(f, samples, bad))
  {
    hide LastNotBad;
  }

  // ---- a noisy series -----------------------------------------------------

  // How many of the n runs before the newest one measured at least d off x.
  function Off(runs: seq<SeriesRun>, m: Metric, x: real, d: real, n: nat): (h: nat)
    requires n < |runs| && forall i :: 0 <= i < |runs| ==> Amount(runs[i], m).Some?
    ensures h <= n
  {
    if n == 0 then 0
    else Off(runs, m, x, d, n - 1) + (if Abs(Amount(runs[n], m).value as real - x) >= d then 1 else 0)
  }

  // The window measured at least d off x more often than not.
  predicate Noisy(input: ItemInput, m: Metric, x: real, d: real, n: nat) {
    WindowHas(input, m, n) && 2 * Off(Measuring(input.series, m), m, x, d, n) > n
  }

  lemma {:induction false} OffCount(runs: seq<SeriesRun>, m: Metric, xs: seq<real>, x: real, d: real, n: nat)
    requires n < |runs| && forall i :: 0 <= i < |runs| ==> Amount(runs[i], m).Some?
    requires |xs| == n && forall i :: 0 <= i < n ==> xs[i] == Amount(runs[n - i], m).value as real
    ensures Off(runs, m, x, d, n) == Count(xs, (v: real) => Abs(v - x) >= d)
  {
    if n > 0 {
      OffCount(runs, m, xs[1..], x, d, n - 1);
    }
  }

  // Then its noise is at least d.
  lemma MadAtLeast(xs: seq<real>, x: real, d: real)
    requires 2 * Count(xs, (v: real) => Abs(v - x) >= d) > |xs|
    ensures MadOf(xs, x) >= d
  {
    var ds := Deviations(xs, x);
    if xs == [] {
      CountNone(xs, (v: real) => Abs(v - x) >= d);
    } else {
      var top := Largest(ds);
      assert forall i :: 0 <= i < |ds| ==> ds[i] in ds;
      CountPointwise(xs, ds, (v: real) => Abs(v - x) >= d, (v: real) => d <= v <= top);
      MedianInMajorityInterval(ds, d, top);
    }
  }

  lemma NoiseCounts(input: ItemInput, m: Metric, samples: seq<Measurement>, x: real, d: real, n: nat,
      relative: real, floor: real)
    requires IsWindow(input, m, samples, n) && 2 * Off(Measuring(input.series, m), m, x, d, n) > n && floor > 0.0
    requires x == LevelOf(samples, relative, floor).median
    ensures LevelOf(samples, relative, floor).spread >= d && LevelOf(samples, relative, floor).spread > 0.0
  {
    hide Measuring, Median, Count, MadOf;
    OffCount(Measuring(input.series, m), m, Values(samples), x, d, n);
    MadAtLeast(Values(samples), x, d);
  }

  // The k of a preset.
  function Score(s: Sensitivity): real { match s case Strict => 2.5 case Balanced => 3.5 case Permissive => 5.0 }

  // The more a series varies, the farther its newest value has to be from the
  // level before anything is raised: k times what it is usually off, in units
  // of the standard deviation.
  lemma NoiseKeepsQuiet(input: ItemInput, m: Metric, f: Finding, d: real, n: nat)
    requires NewestRunFirst(input.series) && m !in input.open && Noisy(input, m, f.expected, d, n)
    requires LossWatched(input.kind, m) || GrowthWatched(input.kind, m) || DurationWatched(input.kind, m)
    requires f in EvaluateItem(input).found && f.metric == m && !OfCollapse(f)
    ensures 0.6745 * Abs(f.expected - f.observed) >= Score(input.sens) * d
  {
    hide Measuring, RebaseOf, Measurements, EvaluateItem, RuleOf, Split, WindowHas, LevelOf, Shrank, Grew, SlowerRun,
      ParamsFor, Off, ComparedFrom, LossWatched, GrowthWatched, DurationWatched, IsWindow, SamplesFrom, OfCollapse,
      Collapsed, SampleOf, Score, Abs;
    WindowBehind(input, m, n);
    var current, prior, cut := SplitOf(input, m);
    var samples := NewestSamples(SamplesFrom(prior, ComparedFrom(input, m)), WINDOW);
    WindowIs(input, m, current, prior, cut, ComparedFrom(input, m), n);
    var p := ParamsFor(input.sens);
    if LossWatched(input.kind, m) {
      LossByShrink(input, m, current, prior);
      ShrinkSaidOf(input, m, current, prior, samples);
      CollapseSaysSo(RuleOf(input.kind, m, p), current, SamplesFrom(prior, RebaseOf(input)), p);
      assert Shrank(RuleOf(input.kind, m, p), current, samples, p) == Some(f);
      NoisyShrank(input, m, current, samples, f, d, n);
    } else if GrowthWatched(input.kind, m) {
      GrowthByRule(input, m, current, prior);
      GrowthSaidOf(input, m, current, prior, samples);
      assert Grew(RuleOf(input.kind, m, p), m, current, samples, p) == Some(f);
      NoisyGrew(input, m, current, samples, f, d, n);
    } else {
      DurationsByOwnRule(input, m);
      DurationSaidOf(input, m, current, prior, samples);
      assert SlowerRun(current, samples, m, p) == Some(f);
      NoisySlower(input, m, current, samples, f, d, n);
    }
  }

  lemma AtLeastNoise(k: real, spread: real, d: real, gap: real)
    requires k > 0.0 && spread >= d && gap >= k * spread
    ensures gap >= k * d
  {
  }

  lemma NoisyShrank(input: ItemInput, m: Metric, current: Measurement, samples: seq<Measurement>, f: Finding, d: real,
      n: nat)
    requires LossWatched(input.kind, m) && IsWindow(input, m, samples, n)
    requires 2 * Off(Measuring(input.series, m), m, f.expected, d, n) > n
    requires var p := ParamsFor(input.sens); Shrank(RuleOf(input.kind, m, p), current, samples, p) == Some(f)
    ensures 0.6745 * Abs(f.expected - f.observed) >= Score(input.sens) * d
  {
    hide LevelOf, Measuring, Off, ModifiedZ, IsWindow;
    var p := ParamsFor(input.sens);
    var floor := RuleOf(input.kind, m, p).madFloor;
    var l := LevelOf(samples, 0.02, floor);
    NoiseCounts(input, m, samples, l.median, d, n, 0.02, floor);
    ScoreReaches(current.value, l.median, l.spread, p.k);
    AtLeastNoise(p.k, l.spread, d, 0.6745 * (l.median - current.value));
  }

  lemma NoisyGrew(input: ItemInput, m: Metric, current: Measurement, samples: seq<Measurement>, f: Finding, d: real,
      n: nat)
    requires GrowthWatched(input.kind, m) && IsWindow(input, m, samples, n)
    requires 2 * Off(Measuring(input.series, m), m, f.expected, d, n) > n
    requires var p := ParamsFor(input.sens); Grew(RuleOf(input.kind, m, p), m, current, samples, p) == Some(f)
    ensures 0.6745 * Abs(f.expected - f.observed) >= Score(input.sens) * d
  {
    hide LevelOf, Measuring, Off, ModifiedZ, IsWindow, RuleOf;
    var p := ParamsFor(input.sens);
    GrowthRuleIs(input.kind, m, p);
    var l := LevelOf(samples, 0.02, MIB);
    NoiseCounts(input, m, samples, l.median, d, n, 0.02, MIB);
    ScoreReaches(current.value, l.median, l.spread, p.k);
    AtLeastNoise(p.k, l.spread, d, 0.6745 * (current.value - l.median));
  }

  lemma NoisySlower(input: ItemInput, m: Metric, current: Measurement, samples: seq<Measurement>, f: Finding, d: real,
      n: nat)
    requires IsWindow(input, m, samples, n) && 2 * Off(Measuring(input.series, m), m, f.expected, d, n) > n
    requires SlowerRun(current, samples, m, ParamsFor(input.sens)) == Some(f)
    ensures 0.6745 * Abs(f.expected - f.observed) >= Score(input.sens) * d
  {
    hide LevelOf, Measuring, Off, ModifiedZ, IsWindow;
    var p := ParamsFor(input.sens);
    var l := LevelOf(samples, 0.05, 1000.0);
    NoiseCounts(input, m, samples, l.median, d, n, 0.05, 1000.0);
    ScoreReaches(current.value, l.median, l.spread, p.k);
    AtLeastNoise(p.k, l.spread, d, 0.6745 * (current.value - l.median));
  }

  // ---- what every such finding is about -----------------------------------

  predicate AboutRun(f: Finding, current: Measurement) {
    f.runID == current.runID && f.runAt == current.at && f.observed == current.value && !f.event
  }

  // Without figures of its own it keeps the open row's.
  predicate KeepsRow(input: ItemInput, m: Metric, f: Finding) {
    f.details == map[] ==>
      m in input.open && var row := input.open[m];
        f.severity == row.severity && f.expected == row.expected && f.threshold == row.threshold
        && f.samples == row.samples
  }

  lemma VerdictGives(input: ItemInput, m: Metric, current: Measurement, raised: Option<Finding>,
      cleared: real -> bool, f: Finding)
    requires f in Verdict(input.open, m, current, raised, cleared).found
    requires raised.Some? ==> AboutRun(raised.value, current) && raised.value.details != map[]
    ensures AboutRun(f, current) && KeepsRow(input, m, f)
  {
  }

  lemma ShrinkIsAboutRun(r: SizeRule, current: Measurement, prior: seq<Measurement>, down: seq<Measurement>,
      rebase: int, p: Params)
    ensures var f := ShrinkRaised(r, current, prior, down, rebase, p);
      f.Some? ==> AboutRun(f.value, current) && f.value.details != map[]
  {
    hide Collapsed, Shrank, SamplesFrom;
    var cut := SamplesFrom(prior, rebase);
    CollapsedIsAlarm(r, current, cut, p);
    CollapseSaysSo(r, current, cut, p);
    LevelsAreAboutRun(r, r.shrinkMetric, current, down, p);
  }

  lemma LevelsAreAboutRun(r: SizeRule, m: Metric, current: Measurement, samples: seq<Measurement>, p: Params)
    ensures var f := Shrank(r, current, samples, p);
      f.Some? ==> AboutRun(f.value, current) && f.value.details != map[]
    ensures var f := Grew(r, m, current, samples, p);
      f.Some? ==> AboutRun(f.value, current) && f.value.details != map[]
    ensures var f := SlowerRun(current, samples, m, p);
      f.Some? ==> AboutRun(f.value, current) && f.value.details != map[]
  {
    hide TellsLevel, LevelOf, FarBelow, FarAbove, FarSlower, LastNotBad;
    LevelFiguresAreTold(r, m, current, samples, p);
    forall f | TellsLevel(f) ensures f.details != map[] { ToldIsSomething(f); }
  }

  lemma ToldIsSomething(f: Finding)
    requires TellsLevel(f)
    ensures f.details != map[]
  {
  }

  // Whatever a size or duration rule raises or keeps open is about the newest
  // run that measured it and what that run measured; what it keeps open keeps
  // the level, the line and the severity of the row.
  lemma FindingsAreAboutNewest(input: ItemInput, m: Metric, f: Finding)
    requires NewestRunFirst(input.series) && Measuring(input.series, m) != []
    requires LossWatched(input.kind, m) || GrowthWatched(input.kind, m) || DurationWatched(input.kind, m)
    requires f in EvaluateItem(input).found && f.metric == m
    ensures f.runID == Measuring(input.series, m)[0].id && f.runAt == Measuring(input.series, m)[0].startedAt
    ensures f.observed == AmountAt(input, m, 0) && !f.event && KeepsRow(input, m, f)
  {
    hide Measuring, Measurements, EvaluateItem, Split, LossWatched, GrowthWatched, DurationWatched, KeepsRow, AmountAt;
    var current, prior, cut := SplitOf(input, m);
    IsNewest(input, m, current, prior, cut);
    if LossWatched(input.kind, m) {
      LossByShrink(input, m, current, prior);
      ShrinkGives(input, m, current, prior, f);
    } else if GrowthWatched(input.kind, m) {
      GrowthByRule(input, m, current, prior);
      GrowthGives(input, m, current, prior, f);
    } else {
      DurationsByOwnRule(input, m);
      DurationGives(input, m, current, prior, f);
    }
  }

  lemma ShrinkGives(input: ItemInput, m: Metric, current: Measurement, prior: seq<Measurement>, f: Finding)
    requires LossWatched(input.kind, m) && f in ShrinkSaid(input, m, current, prior).found
    ensures AboutRun(f, current) && KeepsRow(input, m, f)
  {
    hide ShrinkRaised, RuleOf, ParamsFor, RebaseOf, SamplesFrom, NewestSamples, Verdict, AboutRun, KeepsRow,
      LossWatched;
    var p := ParamsFor(input.sens);
    var r := RuleOf(input.kind, m, p);
    RuleIsAbout(input.kind, m, p);
    var down :=
      NewestSamples(SamplesFrom(prior, Max(RebaseOf(input), SinceAt(input.expectations, r.downFamily))), WINDOW);
    ShrinkIsAboutRun(r, current, prior, down, RebaseOf(input), p);
    VerdictGives(input, m, current, ShrinkRaised(r, current, prior, down, RebaseOf(input), p),
      ShrinkCleared(current.value), f);
  }

  lemma GrowthGives(input: ItemInput, m: Metric, current: Measurement, prior: seq<Measurement>, f: Finding)
    requires GrowthWatched(input.kind, m) && f in GrowthSaid(input, m, current, prior).found
    ensures AboutRun(f, current) && KeepsRow(input, m, f)
  {
    hide Grew, RuleOf, ParamsFor, RebaseOf, SamplesFrom, NewestSamples, Verdict, AboutRun, KeepsRow, GrowthWatched;
    var p := ParamsFor(input.sens);
    var r := RuleOf(input.kind, m, p);
    GrowthRuleIs(input.kind, m, p);
    var up := NewestSamples(SamplesFrom(prior, Max(RebaseOf(input), SinceAt(input.expectations, r.upFamily))), WINDOW);
    LevelsAreAboutRun(r, m, current, up, p);
    VerdictGives(input, m, current, Grew(r, m, current, up, p), GrowthCleared(current.value), f);
  }

  lemma DurationGives(input: ItemInput, m: Metric, current: Measurement, prior: seq<Measurement>, f: Finding)
    requires DurationWatched(input.kind, m) && f in DetectDuration(input, ParamsFor(input.sens)).found
    requires var measured := Measurements(Reversed(EligibleRuns(input.series)), QuantityOf(m));
      measured != [] && current == measured[|measured| - 1] && prior == measured[..|measured| - 1]
    ensures AboutRun(f, current) && KeepsRow(input, m, f)
  {
    hide SlowerRun, ParamsFor, DurationSamples, Verdict, AboutRun, KeepsRow, Measurements, EligibleRuns;
    var p := ParamsFor(input.sens);
    var samples := DurationSamples(input, prior);
    LevelsAreAboutRun(RuleOf(input.kind, m, p), m, current, samples, p);
    VerdictGives(input, m, current, SlowerRun(current, samples, m, p), DurationCleared(current.value), f);
  }
}
