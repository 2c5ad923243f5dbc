// The rules that judge one backup series (anomaly_detect.go): size, new data,
// duration, reliability, integrity and capacity. Amounts and levels are reals.
module AnomalyRules {
  import opened Wrappers
  import opened AnomalyTypes
  import opened OrderStatistics

  const DAY := 86400
  const MIB := 1048576.0
  const GIB := 1073741824.0
  const MIN_SAMPLES := 10
  const NEW_DATA_DAYS := 30
  const WINDOW := 30
  const COLLAPSE_REF_SAMPLES := 5
  const DRAIN_DAYS := 30
  const RELIABILITY_RUNS := 10
  const FLAKY_MIN_RUNS := 5

  // The thresholds one preset hands every rule.
  datatype Params = Params(
    k: real, newDataMult: real, newDataFloor: real, collapseFrac: real,
    shrinkRatio: real, shrinkFloor: real, filesFloor: real,
    growthRatio: real, growthFloor: real, durRatio: real, durFloorMS: real,
    streakWarn: nat, flakyK: nat, etaWarnDays: real, etaCritDays: real)

  function ParamsFor(s: Sensitivity): Params {
    match s
    case Strict =>
      Params(2.5, 3.0, 256.0 * MIB, 0.25, 0.85, 256.0 * MIB, 200.0, 1.5, GIB, 2.0, 360000.0, 2, 2, 56.0, 14.0)
    case Permissive =>
      Params(5.0, 10.0, 4.0 * GIB, 0.05, 0.5, 5.0 * GIB, 10000.0, 4.0, 20.0 * GIB, 5.0, 1800000.0, 5, 5, 14.0, 3.0)
    case Balanced => Params(3.5, 5.0, GIB, 0.1, 0.7, GIB, 1000.0, 2.0, 5.0 * GIB, 3.0, 600000.0, 3, 3, 28.0, 7.0)
  }

  // ---- reading a series ---------------------------------------------------

  function Reversed<T>(xs: seq<T>): (r: seq<T>)
    ensures |r| == |xs| && forall i :: 0 <= i < |xs| ==> r[i] == xs[|xs| - 1 - i]
  {
    seq(|xs|, i requires 0 <= i < |xs| => xs[|xs| - 1 - i])
  }

  predicate Eligible(run: SeriesRun) {
    run.status == Success && (run.snapshotID != "" || run.sourceBytes.Some?)
  }

  function EligibleRuns(series: seq<SeriesRun>): seq<SeriesRun> {
    if series == [] then []
    else (if Eligible(series[0]) then [series[0]] else []) + EligibleRuns(series[1..])
  }

  predicate SelectionChangedAt(rows: seq<SeriesRun>, i: nat)
    requires i < |rows|
  {
    i > 0 && rows[i].selectionFP.Some? && rows[i - 1].selectionFP.Some?
      && rows[i].selectionFP != rows[i - 1].selectionFP
  }

  function SelectionRebaseIn(rows: seq<SeriesRun>, i: nat): int
    requires i < |rows|
  {
    if i == 0 then 0
    else if SelectionChangedAt(rows, i) then rows[i].startedAt
    else SelectionRebaseIn(rows, i - 1)
  }

  // When the series last began to cover different data by configuration.
  function SelectionRebaseAt(series: seq<SeriesRun>): int {
    var rows := Reversed(EligibleRuns(series));
    if rows == [] then 0 else SelectionRebaseIn(rows, |rows| - 1)
  }

  function FirstStartFrom(rows: seq<SeriesRun>, at: int): Option<int> {
    if rows == [] then None
    else if rows[0].startedAt >= at then Some(rows[0].startedAt)
    else FirstStartFrom(rows[1..], at)
  }

  // The start of the backup that first saw what BombVault itself changed.
  function OwnChangeAt(series: seq<SeriesRun>, changedAt: int): int {
    if changedAt == 0 then 0
    else
      var rows := Reversed(EligibleRuns(series));
      var first := FirstStartFrom(rows, changedAt);
      if first.Some? then first.value
      else if rows != [] && rows[|rows| - 1].finishedAt > changedAt then rows[|rows| - 1].startedAt
      else 0
  }

  datatype Quantity = SourceBytesOf | SourceFilesOf | ResticMSOf

  function Column(run: SeriesRun, q: Quantity): Option<int> {
    match q
    case SourceBytesOf => run.sourceBytes
    case SourceFilesOf => run.sourceFiles
    case ResticMSOf => run.resticMS
  }

  // A run whose column is missing measured nothing and is no sample.
  function Measurements(rows: seq<SeriesRun>, q: Quantity): seq<Measurement> {
    if rows == [] then []
    else
      var run := rows[0];
      (match Column(run, q)
       case None => []
       case Some(v) => [Measurement(run.id, run.startedAt, BackupTakenAt(run.startedAt, run.finishedAt), v as real)])
      + Measurements(rows[1..], q)
  }

  function SamplesFrom(samples: seq<Measurement>, at: int): (r: seq<Measurement>)
    ensures |r| <= |samples| && r == samples[|samples| - |r|..]
  {
    if samples == [] then []
    else if samples[0].at >= at then samples
    else SamplesFrom(samples[1..], at)
  }

  function NewestSamples(samples: seq<Measurement>, n: nat): (r: seq<Measurement>)
    ensures |r| <= |samples| && r == samples[|samples| - |r|..]
  {
    if |samples| <= n then samples else samples[|samples| - n..]
  }

  function Values(samples: seq<Measurement>): (xs: seq<real>)
    ensures |xs| == |samples| && forall i :: 0 <= i < |xs| ==> xs[i] == samples[i].value
  {
    seq(|samples|, i requires 0 <= i < |samples| => samples[i].value)
  }

  function MaxReal(a: real, b: real): real { if a >= b then a else b }

  function Largest(xs: seq<real>): (m: real)
    requires xs != []
    ensures m in xs && forall x :: x in xs ==> x <= m
  {
    if |xs| == 1 then xs[0]
    else
      assert xs == [xs[0]] + xs[1..];
      MaxReal(xs[0], Largest(xs[1..]))
  }

  function ModifiedZ(x: real, m: real, spread: real): real {
    if spread <= 0.0 then 0.0 else 0.6745 * (x - m) / spread
  }

  function RatioDetail(value: real, level: real): Details {
    if level == 0.0 then map[] else map["ratio" := Num(value / level)]
  }

  function LevelDetails(value: real, level: real, spread: real, z: real): Details {
    map["median" := Num(level), "mad" := Num(spread), "z" := Num(z)] + RatioDetail(value, level)
  }

  // ---- levels and verdicts ------------------------------------------------

  datatype Decided = Decided(found: seq<Finding>, absent: seq<Absence>)

  function Both(a: Decided, b: Decided): Decided {
    Decided(a.found + b.found, a.absent + b.absent)
  }

  // One metric's rules as the lifecycle takes them. An open row keeps the level
  // its episode started from, and only a return to that level ends it.
  function Verdict(open: map<Metric, Row>, metric: Metric, current: Measurement,
                   raised: Option<Finding>, cleared: real -> bool): Decided
  {
    if metric in open && cleared(open[metric].expected) then Decided([], [Absence(metric, current.value)])
    else if raised.Some? then Decided([raised.value], [])
    else if metric in open then
      var row := open[metric];
      Decided([Finding(metric, row.severity, current.runID, "", "", current.at,
                       current.value, row.expected, row.threshold, row.samples, map[], false)], [])
    else Decided([], [Absence(metric, current.value)])
  }

  // ---- the last good backup -----------------------------------------------

  // The newest sample that is not itself bad, -1 when all of them are.
  function LastNotBad(prior: seq<Measurement>, bad: real -> bool): (i: int)
    ensures -1 <= i < |prior|
    ensures i >= 0 ==> !bad(prior[i].value)
    ensures forall j :: i < j < |prior| ==> bad(prior[j].value)
  {
    if prior == [] then -1
    else if !bad(prior[|prior| - 1].value) then |prior| - 1
    else LastNotBad(prior[..|prior| - 1], bad)
  }

  // Sample i is good and everything after it bad; i is -1 when all are bad.
  ghost predicate NewestNotBad(prior: seq<Measurement>, bad: real -> bool, i: int) {
    -1 <= i < |prior| && (i >= 0 ==> !bad(prior[i].value)) && (forall j :: i < j < |prior| ==> bad(prior[j].value))
  }

  lemma OneNewestNotBad(prior: seq<Measurement>, bad: real -> bool, i: int, k: int)
    requires NewestNotBad(prior, bad, i) && NewestNotBad(prior, bad, k)
    ensures i == k
  {
  }

  // A finding moved back to the backup its condition began on, with the last
  // backup before that named as the good one.
  function Dated(f: Finding, prior: seq<Measurement>, bad: real -> bool): (g: Finding)
    ensures g == f.(lastGoodRunID := g.lastGoodRunID, onsetRunID := g.onsetRunID, details := g.details)
  {
    var i := LastNotBad(prior, bad);
    var onset := if i < |prior| - 1
                 then f.(onsetRunID := prior[i + 1].runID,
                   details := f.details["since" := Num(prior[i + 1].at as real)])
                 else f;
    if i >= 0
    then onset.(lastGoodRunID := prior[i].runID,
      details := onset.details["lastGoodAt" := Num(prior[i].takenAt as real)])
    else onset
  }

  method DateOnset(f: Finding, prior: seq<Measurement>, bad: real -> bool) returns (g: Finding)
    ensures g == Dated(f, prior, bad)
    ensures forall i :: NewestNotBad(prior, bad, i) ==>
      (if i >= 0 then g.lastGoodRunID == prior[i].runID && "lastGoodAt" in g.details
        && g.details["lastGoodAt"] == Num(prior[i].takenAt as real)
       else g.lastGoodRunID == f.lastGoodRunID) &&
      g.onsetRunID == (if i < |prior| - 1 then prior[i + 1].runID else f.onsetRunID)
  {
    g := f;
    var i := |prior| - 1;
    while i >= 0 && bad(prior[i].value)
      invariant -1 <= i < |prior|
      invariant forall j :: i < j < |prior| ==> bad(prior[j].value)
    {
      i := i - 1;
    }
    assert NewestNotBad(prior, bad, i);
    forall k | NewestNotBad(prior, bad, k) ensures k == i {
      OneNewestNotBad(prior, bad, i, k);
    }
    if i < |prior| - 1 {
      g := g.(onsetRunID := prior[i + 1].runID, details := g.details["since" := Num(prior[i + 1].at as real)]);
    }
    if i >= 0 {
      g := g.(lastGoodRunID := prior[i].runID, details := g.details["lastGoodAt" := Num(prior[i].takenAt as real)]);
    }
  }

  // ---- size ---------------------------------------------------------------

  // One size metric of a series and the floors below which a change means
  // nothing. Without a growth metric only one direction is watched.
  datatype SizeRule = SizeRule(
    quantity: Quantity, shrinkMetric: Metric, growthMetric: Option<Metric>, downFamily: Family, upFamily: Family,
    collapseFloor: real, minCollapseRef: real, shrinkFloor: real, growthFloor: real, madFloor: real)

  function SourceRules(kind: SeriesKind, p: Params): seq<SizeRule> {
    if kind == DumpSeries then
      [SizeRule(SourceBytesOf, DumpBytesShrink, Some(DumpBytesGrowth), FamilyDumpBytesDown, FamilyDumpBytesUp,
                MIB, 4.0 * MIB, p.shrinkFloor, p.growthFloor, MIB)]
    else
      [SizeRule(SourceBytesOf, SourceBytesShrink, Some(SourceBytesGrowth), FamilySourceBytesDown, FamilySourceBytesUp,
                64.0 * MIB, 0.0, p.shrinkFloor, p.growthFloor, MIB),
       SizeRule(SourceFilesOf, SourceFilesShrink, None, FamilySourceFilesDown, FamilySourceFilesDown,
                100.0, 0.0, p.filesFloor, 0.0, 10.0)]
  }

  // Data loss rather than a source that simply changed.
  predicate Lost(r: SizeRule, value: real, reference: real, p: Params) {
    reference >= r.minCollapseRef && value <= p.collapseFrac * reference && reference - value >= r.collapseFloor
  }

  function CollapseLevel(prior: seq<Measurement>): real {
    Median(Values(NewestSamples(prior, COLLAPSE_REF_SAMPLES)))
  }

  function MonthPeak(current: Measurement, prior: seq<Measurement>): real {
    var month := SamplesFrom(prior, current.at - DRAIN_DAYS * DAY);
    if month == [] then 0.0 else Largest(Values(month))
  }

  // What a collapse is measured against: the level of the last few runs, or
  // the month's peak when only that was lost.
  function CollapseReference(r: SizeRule, current: Measurement, prior: seq<Measurement>, p: Params): real {
    if Lost(r, current.value, CollapseLevel(prior), p) then CollapseLevel(prior) else MonthPeak(current, prior)
  }

  function CollapseFinding(r: SizeRule, current: Measurement, prior: seq<Measurement>, p: Params, collapse: bool,
      drain: bool): (f: Finding)
    ensures f.metric == r.shrinkMetric && f.severity == Critical && f.runID == current.runID && f.runAt == current.at
    ensures f.observed == current.value && f.expected == CollapseReference(r, current, prior, p) && !f.event
  {
    var expected := CollapseReference(r, current, prior, p);
    var samples := if collapse then |NewestSamples(prior, COLLAPSE_REF_SAMPLES)|
                   else |SamplesFrom(prior, current.at - DRAIN_DAYS * DAY)|;
    var details := RatioDetail(current.value, expected)
                   + (if collapse then map["collapse" := Flag(true)] else map[])
                   + (if drain then map["drain" := Flag(true)] else map[]);
    Dated(Finding(r.shrinkMetric, Critical, current.runID, "", "", current.at, current.value, expected,
                  p.collapseFrac * expected, samples, details, false),
          prior, (v: real) => Lost(r, v, expected, p))
  }

  function Collapsed(r: SizeRule, current: Measurement, prior: seq<Measurement>, p: Params): Option<Finding> {
    if prior == [] then None
    else
      var collapse := Lost(r, current.value, CollapseLevel(prior), p);
      var drain := Lost(r, current.value, MonthPeak(current, prior), p);
      if !collapse && !drain then None
      else Some(CollapseFinding(r, current, prior, p, collapse, drain))
  }

  function Spread(xs: seq<real>, level: real, relative: real, floor: real): real {
    MaxReal(MaxReal(MadOf(xs, level), relative * level), floor)
  }

  // The level of a window and the noise around it.
  datatype Level = Level(median: real, spread: real, samples: nat)

  function LevelOf(samples: seq<Measurement>, relative: real, floor: real): Level {
    var level := Median(Values(samples));
    Level(level, Spread(Values(samples), level, relative, floor), |samples|)
  }

  // Under the threshold, by enough, and outside the usual noise.
  predicate FarBelow(value: real, l: Level, ratio: real, floor: real, k: real) {
    value < ratio * l.median && l.median - value >= floor && ModifiedZ(value, l.median, l.spread) <= -k
  }

  predicate FarAbove(value: real, l: Level, ratio: real, floor: real, k: real) {
    value > ratio * l.median && value - l.median >= floor && ModifiedZ(value, l.median, l.spread) >= k
  }

  function LevelFinding(metric: Metric, severity: Severity, current: Measurement, l: Level, ratio: real): (f: Finding)
    ensures f.metric == metric && f.severity == severity && f.runID == current.runID && f.runAt == current.at
    ensures f.observed == current.value && f.expected == l.median && !f.event && f.lastGoodRunID == ""
      && f.onsetRunID == ""
  {
    Finding(metric, severity, current.runID, "", "", current.at, current.value, l.median, ratio * l.median, l.samples,
            LevelDetails(current.value, l.median, l.spread, ModifiedZ(current.value, l.median, l.spread)), false)
  }

  function ShrinkFinding(r: SizeRule, current: Measurement, samples: seq<Measurement>, l: Level,
      p: Params): (f: Finding)
    ensures f.metric == r.shrinkMetric && f.runID == current.runID && f.runAt == current.at
    ensures f.severity == (if current.value < 0.5 * l.median then Critical else Warning)
    ensures f.observed == current.value && f.expected == l.median && !f.event
  {
    Dated(LevelFinding(r.shrinkMetric, if current.value < 0.5 * l.median then Critical else Warning, current, l,
      p.shrinkRatio),
          samples, (v: real) => v < p.shrinkRatio * l.median)
  }

  // A source that lost a large share of itself without collapsing.
  function Shrank(r: SizeRule, current: Measurement, samples: seq<Measurement>, p: Params): Option<Finding> {
    var l := LevelOf(samples, 0.02, r.madFloor);
    if |samples| >= MIN_SAMPLES && FarBelow(current.value, l, p.shrinkRatio, r.shrinkFloor, p.k)
    then Some(ShrinkFinding(r, current, samples, l, p)) else None
  }

  // The same in the other direction: worth a look and never an alarm.
  function Grew(r: SizeRule, metric: Metric, current: Measurement, samples: seq<Measurement>,
      p: Params): Option<Finding> {
    var l := LevelOf(samples, 0.02, r.madFloor);
    if |samples| >= MIN_SAMPLES && FarAbove(current.value, l, p.growthRatio, r.growthFloor, p.k)
    then Some(LevelFinding(metric, Warning, current, l, p.growthRatio)) else None
  }

  function SinceAt(expectations: map<Family, Expectation>, f: Family): int {
    if f in expectations then expectations[f].sinceAt else 0
  }

  function ShrinkCleared(value: real): real -> bool { (expected: real) => value >= 0.9 * expected }
  function GrowthCleared(value: real): real -> bool { (expected: real) => value <= 1.1 * expected }
  function DurationCleared(value: real): real -> bool { (expected: real) => value <= 1.2 * expected }

  // A collapse wins over a shrink, because both write the same fingerprint and
  // only a collapse ignores what a user's expectation cut away.
  function ShrinkRaised(r: SizeRule, current: Measurement, prior: seq<Measurement>, down: seq<Measurement>,
                        rebase: int, p: Params): Option<Finding>
  {
    var collapsed := Collapsed(r, current, SamplesFrom(prior, rebase), p);
    if collapsed.Some? then collapsed else Shrank(r, current, down, p)
  }

  function ShrinkVerdict(r: SizeRule, open: map<Metric, Row>, expectations: map<Family, Expectation>,
                         current: Measurement, prior: seq<Measurement>, rebase: int, p: Params): Decided
  {
    var down := NewestSamples(SamplesFrom(prior, Max(rebase, SinceAt(expectations, r.downFamily))), WINDOW);
    Verdict(open, r.shrinkMetric, current, ShrinkRaised(r, current, prior, down, rebase, p),
      ShrinkCleared(current.value))
  }

  function GrowthVerdict(r: SizeRule, open: map<Metric, Row>, expectations: map<Family, Expectation>,
                         current: Measurement, prior: seq<Measurement>, rebase: int, p: Params): Decided
    requires r.growthMetric.Some?
  {
    var up := NewestSamples(SamplesFrom(prior, Max(rebase, SinceAt(expectations, r.upFamily))), WINDOW);
    Verdict(open, r.growthMetric.value, current, Grew(r, r.growthMetric.value, current, up, p),
      GrowthCleared(current.value))
  }

  function SizeVerdict(r: SizeRule, open: map<Metric, Row>, expectations: map<Family, Expectation>,
                       current: Measurement, prior: seq<Measurement>, rebase: int, p: Params): Decided
  {
    var shrink := ShrinkVerdict(r, open, expectations, current, prior, rebase, p);
    if r.growthMetric.None? then shrink
    else Both(shrink, GrowthVerdict(r, open, expectations, current, prior, rebase, p))
  }

  function EvaluateSize(r: SizeRule, open: map<Metric, Row>, expectations: map<Family, Expectation>,
                        rows: seq<SeriesRun>, rebase: int, p: Params): Decided
  {
    var samples := Measurements(rows, r.quantity);
    if samples == [] then Decided([], [])
    else
      SizeVerdict(r, open, expectations, samples[|samples| - 1], samples[..|samples| - 1], rebase, p)
  }

  // ---- one series ---------------------------------------------------------

  datatype ItemInput = ItemInput(
    kind: SeriesKind, isVM: bool,
    series: seq<SeriesRun>,    // newest first
    newData: seq<SeriesRun>,   // the new-data window, newest first
    open: map<Metric, Row>, expectations: map<Family, Expectation>,
    sens: Sensitivity, changedAt: int, evaluateFrom: int)

  function EvaluateRules(rules: seq<SizeRule>, open: map<Metric, Row>, expectations: map<Family, Expectation>,
                         rows: seq<SeriesRun>, rebase: int, p: Params): Decided
  {
    if rules == [] then Decided([], [])
    else Both(EvaluateSize(rules[0], open, expectations, rows, rebase, p),
              EvaluateRules(rules[1..], open, expectations, rows, rebase, p))
  }

  function DetectSource(input: ItemInput, p: Params): Decided {
    if input.kind == TreeSeries then Decided([], [])
    else
      EvaluateRules(SourceRules(input.kind, p), input.open, input.expectations, Reversed(EligibleRuns(input.series)),
                    Max(SelectionRebaseAt(input.series), OwnChangeAt(input.series, input.changedAt)), p)
  }

  // ---- duration -----------------------------------------------------------

  function DurationMetric(kind: SeriesKind): Metric {
    if kind == DumpSeries then DumpDurationSlower else DurationSlower
  }

  // Slower by the ratio or more, unlike growth, which has to exceed it.
  predicate FarSlower(value: real, l: Level, ratio: real, floor: real, k: real) {
    value >= ratio * l.median && value - l.median >= floor && ModifiedZ(value, l.median, l.spread) >= k
  }

  function SlowerRun(current: Measurement, samples: seq<Measurement>, metric: Metric, p: Params): Option<Finding> {
    var l := LevelOf(samples, 0.05, 1000.0);
    if |samples| >= MIN_SAMPLES && FarSlower(current.value, l, p.durRatio, p.durFloorMS, p.k)
    then Some(LevelFinding(metric, Warning, current, l, p.durRatio)) else None
  }

  function DurationSamples(input: ItemInput, prior: seq<Measurement>): (r: seq<Measurement>)
    ensures |r| <= |prior| && r == prior[|prior| - |r|..]
  {
    var family := if input.kind == DumpSeries then FamilyDumpDuration else FamilyDuration;
    NewestSamples(SamplesFrom(prior, Max(SelectionRebaseAt(input.series), SinceAt(input.expectations, family))), WINDOW)
  }

  function DurationMeasurements(input: ItemInput): seq<Measurement> {
    Measurements(Reversed(EligibleRuns(input.series)), ResticMSOf)
  }

  function DetectDuration(input: ItemInput, p: Params): Decided {
    var measured := DurationMeasurements(input);
    if input.kind == TreeSeries || measured == [] then Decided([], [])
    else
      var metric := DurationMetric(input.kind);
      var current, prior := measured[|measured| - 1], measured[..|measured| - 1];
      Verdict(input.open, metric, current, SlowerRun(current, DurationSamples(input, prior), metric, p),
        DurationCleared(current.value))
  }

  // ---- reliability --------------------------------------------------------

  // The newest ten runs the item is answerable for.
  function NewestFinished(series: seq<SeriesRun>, room: nat): seq<SeriesRun> {
    if series == [] || room == 0 then []
    else if series[0].status == Success || series[0].status == Failed(false)
    then [series[0]] + NewestFinished(series[1..], room - 1)
    else NewestFinished(series[1..], room)
  }

  function Streak(runs: seq<SeriesRun>): (n: nat)
    ensures n <= |runs|
  {
    if runs == [] || !runs[0].status.Failed? then 0 else 1 + Streak(runs[1..])
  }

  function FailedRuns(runs: seq<SeriesRun>): nat {
    Count(runs, (r: SeriesRun) => r.status.Failed?)
  }

  function ReliabilityFinding(runs: seq<SeriesRun>, metric: Metric, severity: Severity, observed: int,
      threshold: nat): Finding
    requires runs != []
  {
    Finding(metric, severity, runs[0].id, "", "", runs[0].startedAt, observed as real, 0.0, threshold as real, |runs|,
            map["streak" := Num(Streak(runs) as real), "failed" := Num(FailedRuns(runs) as real),
              "total" := Num(|runs| as real)], false)
  }

  function JudgeStreak(runs: seq<SeriesRun>, metric: Metric, p: Params): Decided
    requires runs != []
  {
    var streak := Streak(runs);
    if streak >= 2 * p.streakWarn then Decided([ReliabilityFinding(runs, metric, Critical, streak, p.streakWarn)], [])
    else if streak >= p.streakWarn then Decided([ReliabilityFinding(runs, metric, Warning, streak, p.streakWarn)], [])
    else Decided([], [Absence(metric, streak as real)])
  }

  function JudgeFlaky(runs: seq<SeriesRun>, metric: Metric, p: Params): Decided
    requires runs != []
  {
    var failed := FailedRuns(runs);
    if |runs| >= FLAKY_MIN_RUNS && failed >= p.flakyK && Streak(runs) < p.streakWarn
    then Decided([ReliabilityFinding(runs, metric, Warning, failed, p.flakyK)], [])
    else Decided([], [Absence(metric, failed as real)])
  }

  function JudgeReliability(runs: seq<SeriesRun>, streakMetric: Metric, flakyMetric: Metric, p: Params): Decided
    requires runs != []
  {
    Both(JudgeStreak(runs, streakMetric, p), JudgeFlaky(runs, flakyMetric, p))
  }

  function DetectReliability(input: ItemInput, p: Params): Decided {
    var runs := NewestFinished(input.series, RELIABILITY_RUNS);
    if input.kind == DatasetSeries || runs == [] then Decided([], [])
    else if input.kind == DumpSeries then JudgeReliability(runs, DumpFailureStreak, DumpFlaky, p)
    else JudgeReliability(runs, FailureStreak, Flaky, p)
  }

  // The counting loop of the reliability rule: failures in a row from the
  // newest run, and failures altogether, in one walk.
  method CountFailures(runs: seq<SeriesRun>) returns (streak: nat, failed: nat)
    ensures streak == Streak(runs) && failed == FailedRuns(runs)
    ensures forall i :: 0 <= i < streak ==> runs[i].status.Failed?
    ensures streak < |runs| ==> !runs[streak].status.Failed?
    ensures streak <= failed
  {
    var unbroken := true;
    streak, failed := 0, 0;
    for i := 0 to |runs|
      invariant streak <= i && streak <= failed
      invariant unbroken ==> streak == i
      invariant !unbroken ==> streak < i && !runs[streak].status.Failed?
      invariant forall j :: 0 <= j < streak ==> runs[j].status.Failed?
      invariant failed == FailedRuns(runs[..i])
    {
      assert runs[..i + 1][..i] == runs[..i];
      CountSplitLast(runs[..i + 1], (r: SeriesRun) => r.status.Failed?);
      if !runs[i].status.Failed? {
        unbroken := false;
      } else {
        failed := failed + 1;
        if unbroken {
          streak := streak + 1;
        }
      }
    }
    assert runs[..|runs|] == runs;
    StreakIs(runs, streak);
  }

  lemma {:induction false} StreakIs(runs: seq<SeriesRun>, n: nat)
    requires n <= |runs|
    requires forall i :: 0 <= i < n ==> runs[i].status.Failed?
    requires n < |runs| ==> !runs[n].status.Failed?
    ensures Streak(runs) == n
  {
    if n > 0 {
      StreakIs(runs[1..], n - 1);
    }
  }

  // ---- integrity ----------------------------------------------------------

  datatype DrillKey = DrillKey(source: string, kind: string)

  // One restore check, newest first in a listing; a skipped one never ran.
  datatype Drill = Drill(ok: bool, skipped: bool, at: int)

  function RanDrills(checks: seq<Drill>): seq<Drill> {
    if checks == [] then []
    else (if checks[0].skipped then [] else [checks[0]]) + RanDrills(checks[1..])
  }

  // The newest restore check failed while an earlier one passed.
  function DetectIntegrity(key: DrillKey, checks: seq<Drill>): Decided {
    var metric := if key.kind == "subset" then DrillSubset else DrillDR;
    var ran := RanDrills(checks);
    if (key.kind != "subset" && key.kind != "dr") || ran == [] then Decided([], [])
    else if ran[0].ok || forall i :: 0 < i < |ran| ==> !ran[i].ok then Decided([], [Absence(metric, 0.0)])
    else Decided([Finding(metric, Critical, "", "", "", ran[0].at, 0.0, 0.0, 0.0, |ran|,
                          map["source" := Text(key.source), "kind" := Text(key.kind)], false)], [])
  }

  // ---- capacity -----------------------------------------------------------

  // A volume's newest reading and its projection, the nearer of what the
  // repositories' growth and the volume's own free space say.
  datatype VolumeInput = VolumeInput(
    eta: Option<real>, etaDetails: Details, at: int, source: string, freeBytes: int, totalBytes: Option<int>,
      readings: nat,
    open: map<Metric, Row>, sens: Sensitivity)

  function CapacityFinding(v: VolumeInput, metric: Metric, severity: Severity, observed: real, threshold: real,
      extra: Details): Finding {
    Finding(metric, severity, "", "", "", v.at, observed, 0.0, threshold, v.readings,
            map["freeBytes" := Num(v.freeBytes as real), "source" := Text(v.source)] + extra
            + (if v.totalBytes.Some? then map["totalBytes" := Num(v.totalBytes.value as real)] else map[]), false)
  }

  function JudgeEta(v: VolumeInput, p: Params): Decided {
    if v.eta.Some? && v.eta.value < p.etaCritDays
    then Decided([CapacityFinding(v, CapacityEta, Critical, v.eta.value, p.etaCritDays, v.etaDetails)], [])
    else if v.eta.Some? && v.eta.value < p.etaWarnDays
    then Decided([CapacityFinding(v, CapacityEta, Warning, v.eta.value, p.etaWarnDays, v.etaDetails)], [])
    else if v.eta.Some? && CapacityEta in v.open && v.eta.value < 1.25 * p.etaWarnDays
    then Decided([CapacityFinding(v, CapacityEta, v.open[CapacityEta].severity, v.eta.value,
      v.open[CapacityEta].threshold, v.etaDetails)], [])
    else Decided([], [Absence(CapacityEta, if v.eta.Some? then v.eta.value else 0.0)])
  }

  function JudgeRoom(v: VolumeInput): Decided {
    if v.totalBytes.None? || v.totalBytes.value <= 0 then Decided([], [])
    else
      var share := v.freeBytes as real / v.totalBytes.value as real;
      if share < 0.05 then Decided([CapacityFinding(v, CapacityLow, Critical, share, 0.05, map[])], [])
      else if share < 0.10 then Decided([CapacityFinding(v, CapacityLow, Warning, share, 0.10, map[])], [])
      else if CapacityLow in v.open && share < 0.12
      then Decided([CapacityFinding(v, CapacityLow, v.open[CapacityLow].severity, share, v.open[CapacityLow].threshold,
        map[])], [])
      else Decided([], [Absence(CapacityLow, share)])
  }

  function DetectCapacity(v: VolumeInput): Decided {
    if v.readings == 0 then Decided([], [])
    else Both(JudgeEta(v, ParamsFor(v.sens)), JudgeRoom(v))
  }
}
