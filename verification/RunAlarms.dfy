// When the remaining rules raise a finding, told by the runs, restore checks
// and volume readings themselves (anomaly_detect.go): failing series, a lost
// restore check, a volume running full, and what one backup added.
module RunAlarms {
  import opened Wrappers
  import opened AnomalyTypes
  import opened AnomalyRules
  import opened AnomalyNewData
  import opened AnomalyVerdicts
  import opened OrderStatistics
  import opened SizeAlarms

  // ---- failing series -----------------------------------------------------

  // The runs a series is answerable for, newest first: the ones that succeeded
  // or failed on their own.
  function Answerable(series: seq<SeriesRun>): seq<SeriesRun> {
    if series == [] then []
    else (if series[0].status == Success || (series[0].status.Failed? && !series[0].status.interrupted)
          then [series[0]] else []) + Answerable(series[1..])
  }

  predicate FailedInARow(series: seq<SeriesRun>, n: nat) {
    n <= |Answerable(series)| && forall i :: 0 <= i < n ==> Answerable(series)[i].status.Failed?
  }

  // Exactly the n newest failed, or ten and more of them.
  predicate LongestRow(series: seq<SeriesRun>, n: nat) {
    FailedInARow(series, n) && (n == 10 || !FailedInARow(series, n + 1))
  }

  // How many of the ten newest failed.
  ghost function FailedLately(series: seq<SeriesRun>): nat {
    |set i | 0 <= i < |Answerable(series)| && i < 10 && Answerable(series)[i].status.Failed?|
  }

  lemma {:induction false} NewestAnswerable(series: seq<SeriesRun>, room: nat)
    ensures NewestFinished(series, room) ==
      if |Answerable(series)| <= room then Answerable(series) else Answerable(series)[..room]
  {
    if series != [] && room > 0 {
      var older := Answerable(series[1..]);
      if series[0].status == Success || series[0].status == Failed(false) {
        NewestAnswerable(series[1..], room - 1);
        assert Answerable(series) == [series[0]] + older;
        assert |older| >= room ==> ([series[0]] + older)[..room] == [series[0]] + older[..room - 1];
      } else {
        NewestAnswerable(series[1..], room);
        assert Answerable(series) == older;
      }
    }
  }

  lemma {:induction false} StreakReaches(runs: seq<SeriesRun>, n: nat)
    ensures Streak(runs) >= n <==> n <= |runs| && forall i :: 0 <= i < n ==> runs[i].status.Failed?
  {
    if n > 0 && runs != [] && runs[0].status.Failed? {
      StreakReaches(runs[1..], n - 1);
      assert forall i :: 0 < i < n && i < |runs| ==> runs[i] == runs[1..][i - 1];
      assert forall i :: 0 <= i < n - 1 && i < |runs| - 1 ==> runs[1..][i] == runs[i + 1];
    }
  }

  ghost function FailedPlaces(runs: seq<SeriesRun>): set<int> {
    set i | 0 <= i < |runs| && runs[i].status.Failed?
  }

  lemma {:induction false} FailedRunsAre(runs: seq<SeriesRun>)
    ensures FailedRuns(runs) == |FailedPlaces(runs)|
  {
    hide Count;
    if runs != [] {
      var n := |runs| - 1;
      CountSplitLast(runs, (r: SeriesRun) => r.status.Failed?);
      FailedRunsAre(runs[..n]);
      OnePlaceMore(runs);
    } else {
      CountNone(runs, (r: SeriesRun) => r.status.Failed?);
    }
  }

  lemma OnePlaceMore(runs: seq<SeriesRun>)
    requires runs != []
    ensures var n := |runs| - 1;
      |FailedPlaces(runs)| == |FailedPlaces(runs[..n])| + (if runs[n].status.Failed? then 1 else 0)
  {
    var n := |runs| - 1;
    assert n !in FailedPlaces(runs[..n]);
    assert FailedPlaces(runs) == FailedPlaces(runs[..n]) + (if runs[n].status.Failed? then {n} else {});
  }

  lemma NewestTen(series: seq<SeriesRun>)
    ensures var runs := NewestFinished(series, RELIABILITY_RUNS);
      && |runs| == Min(|Answerable(series)|, 10)
      && (runs != [] ==> runs[0] == Answerable(series)[0])
      && (forall n: nat :: n <= 10 ==> (Streak(runs) >= n <==> FailedInARow(series, n)))
      && FailedRuns(runs) == FailedLately(series)
  {
    var runs := NewestFinished(series, RELIABILITY_RUNS);
    NewestAnswerable(series, 10);
    forall n: nat | n <= 10 ensures Streak(runs) >= n <==> FailedInARow(series, n) {
      StreakReaches(runs, n);
    }
    FailedRunsAre(runs);
    assert FailedPlaces(runs) ==
      set i | 0 <= i < |Answerable(series)| && i < 10 && Answerable(series)[i].status.Failed?;
  }

  lemma SourceOnly(input: ItemInput, p: Params)
    ensures OnlyAbout(DetectSource(input, p).found,
      {SourceBytesShrink, SourceBytesGrowth, SourceFilesShrink, DumpBytesShrink, DumpBytesGrowth})
  {
    hide EvaluateSize;
    if input.kind != TreeSeries {
      var rows, rules := Reversed(EligibleRuns(input.series)), SourceRules(input.kind, p);
      RuleSpeaksOnly(rules[0], input, rows, p);
      if |rules| == 2 {
        RuleSpeaksOnly(rules[1], input, rows, p);
        assert EvaluateRules(rules[1..], input.open, input.expectations, rows, RebaseOf(input), p).found
          == EvaluateSize(rules[1], input.open, input.expectations, rows, RebaseOf(input), p).found;
      } else {
        assert EvaluateRules(rules[1..], input.open, input.expectations, rows, RebaseOf(input), p).found == [];
      }
    }
  }

  lemma FailuresByOwnRule(input: ItemInput, m: Metric)
    requires m in {FailureStreak, Flaky, DumpFailureStreak, DumpFlaky}
    ensures SameAbout(EvaluateItem(input).found, DetectReliability(input, ParamsFor(input.sens)).found, m)
  {
    hide DetectSource, NewDataFindings, DetectDuration, DetectReliability;
    var p := ParamsFor(input.sens);
    NewDataAreEvents(input, p);
    SourceOnly(input, p);
    DurationOnly(input, p);
  }

  // How many failures in a row a preset waits for.
  function Patience(s: Sensitivity): nat { match s case Strict => 2 case Balanced => 3 case Permissive => 5 }

  function StreakMetric(kind: SeriesKind): Metric { if kind == DumpSeries then DumpFailureStreak else FailureStreak }

  function FlakyMetric(kind: SeriesKind): Metric { if kind == DumpSeries then DumpFlaky else Flaky }

  // A streak is raised exactly when the newest runs failed one after the other,
  // and is critical exactly when twice as many did.
  lemma StreakExactly(input: ItemInput)
    requires input.kind != DatasetSeries
    ensures (exists f :: f in EvaluateItem(input).found && f.metric == StreakMetric(input.kind))
      <==> FailedInARow(input.series, Patience(input.sens))
    ensures forall f :: f in EvaluateItem(input).found && f.metric == StreakMetric(input.kind) ==>
      && Answerable(input.series) != [] && f.runID == Answerable(input.series)[0].id && !f.event
      && f.severity == (if FailedInARow(input.series, 2 * Patience(input.sens)) then Critical else Warning)
      && f.runAt == Answerable(input.series)[0].startedAt
      && f.expected == 0.0 && f.threshold == Patience(input.sens) as real
      && forall n: nat :: n <= 10 && LongestRow(input.series, n) ==> f.observed == n as real
  {
    hide EvaluateItem, FailedInARow, Streak, FailedRuns, Answerable;
    var m, p := StreakMetric(input.kind), ParamsFor(input.sens);
    FailuresByOwnRule(input, m);
    NewestTen(input.series);
    StreakSaid(input);
    var said := DetectReliability(input, p).found;
    if FailedInARow(input.series, Patience(input.sens)) {
      var f :| f in said && f.metric == m;
    }
  }

  lemma StreakSaid(input: ItemInput)
    requires input.kind != DatasetSeries
    ensures var runs, p := NewestFinished(input.series, RELIABILITY_RUNS), ParamsFor(input.sens);
      var said := DetectReliability(input, p).found;
      && ((exists f :: f in said && f.metric == StreakMetric(input.kind)) <==>
           runs != [] && Streak(runs) >= Patience(input.sens))
      && (forall f :: f in said && f.metric == StreakMetric(input.kind) ==>
           runs != [] && f.runID == runs[0].id && !f.event
           && f.severity == (if Streak(runs) >= 2 * Patience(input.sens) then Critical else Warning)
           && f.expected == 0.0 && f.threshold == Patience(input.sens) as real && f.observed == Streak(runs) as real
           && f.runAt == runs[0].startedAt)
  {
    hide Streak, FailedRuns, NewestFinished, JudgeFlaky;
    var runs, p := NewestFinished(input.series, RELIABILITY_RUNS), ParamsFor(input.sens);
    if runs != [] {
      FlakySays(runs, FlakyMetric(input.kind), p);
    }
    if runs != [] && Streak(runs) >= p.streakWarn {
      var said := DetectReliability(input, p).found;
      assert said[0] in said && said[0].metric == StreakMetric(input.kind);
    }
  }

  // A series is called unreliable exactly when enough of its ten newest runs
  // failed, out of five at least, without a streak among them at the end.
  lemma FlakyExactly(input: ItemInput)
    requires input.kind != DatasetSeries
    ensures (exists f :: f in EvaluateItem(input).found && f.metric == FlakyMetric(input.kind))
      <==> |Answerable(input.series)| >= 5 && FailedLately(input.series) >= Patience(input.sens)
           && !FailedInARow(input.series, Patience(input.sens))
    ensures forall f :: f in EvaluateItem(input).found && f.metric == FlakyMetric(input.kind) ==>
      Answerable(input.series) != [] && f.runID == Answerable(input.series)[0].id && f.severity == Warning && !f.event
      && f.observed == FailedLately(input.series) as real && f.threshold == Patience(input.sens) as real
  {
    hide EvaluateItem, FailedInARow, Streak, FailedRuns, Answerable, FailedLately;
    var m, p := FlakyMetric(input.kind), ParamsFor(input.sens);
    FailuresByOwnRule(input, m);
    NewestTen(input.series);
    FlakySaid(input);
    var said := DetectReliability(input, p).found;
    if exists f :: f in said && f.metric == m {
      var f :| f in said && f.metric == m;
    }
  }

  lemma FlakySaid(input: ItemInput)
    requires input.kind != DatasetSeries
    ensures var runs, p := NewestFinished(input.series, RELIABILITY_RUNS), ParamsFor(input.sens);
      var said := DetectReliability(input, p).found;
      && ((exists f :: f in said && f.metric == FlakyMetric(input.kind)) <==>
           |runs| >= 5 && FailedRuns(runs) >= Patience(input.sens) && Streak(runs) < Patience(input.sens))
      && (forall f :: f in said && f.metric == FlakyMetric(input.kind) ==>
           runs != [] && f.runID == runs[0].id && !f.event && f.severity == Warning
           && f.observed == FailedRuns(runs) as real && f.threshold == Patience(input.sens) as real)
  {
    hide Streak, FailedRuns, NewestFinished;
    var runs, p := NewestFinished(input.series, RELIABILITY_RUNS), ParamsFor(input.sens);
    if |runs| >= 5 && FailedRuns(runs) >= p.flakyK && Streak(runs) < p.streakWarn {
      var said := DetectReliability(input, p).found;
      assert said[0] in said && said[0].metric == FlakyMetric(input.kind);
    }
  }

  // ---- a lost restore check -----------------------------------------------

  // The i-th check is the newest that ran.
  predicate NewestRan(checks: seq<Drill>, i: nat) {
    i < |checks| && !checks[i].skipped && forall k :: 0 <= k < i ==> checks[k].skipped
  }

  lemma {:induction false} RanIs(checks: seq<Drill>, i: nat)
    requires NewestRan(checks, i)
    ensures RanDrills(checks) == [checks[i]] + RanDrills(checks[i + 1..])
  {
    if i > 0 {
      RanIs(checks[1..], i - 1);
      assert checks[1..][i..] == checks[i + 1..];
    }
  }

  lemma {:induction false} RanHas(checks: seq<Drill>)
    ensures forall d :: d in RanDrills(checks) <==> d in checks && !d.skipped
  {
    if checks != [] {
      RanHas(checks[1..]);
      assert checks == [checks[0]] + checks[1..];
    }
  }

  // A check older than the i-th ran and passed.
  predicate PassedAfter(checks: seq<Drill>, i: nat) {
    exists k :: i < k < |checks| && !checks[k].skipped && checks[k].ok
  }

  // A restore check is called lost exactly when the newest one that ran failed
  // and an older one had passed; it is over exactly when some check ran and
  // this is not so.
  lemma LostCheckExactly(key: DrillKey, checks: seq<Drill>, i: nat)
    requires NewestRan(checks, i) && (key.kind == "subset" || key.kind == "dr")
    ensures var d, m := DetectIntegrity(key, checks), if key.kind == "subset" then DrillSubset else DrillDR;
      if !checks[i].ok && PassedAfter(checks, i)
      then d.absent == [] && |d.found| == 1 && d.found[0].metric == m && d.found[0].severity == Critical
           && !d.found[0].event && d.found[0].runAt == checks[i].at
      else d == Decided([], [Absence(m, 0.0)])
  {
    RanIs(checks, i);
    PassedBefore(checks, i);
    hide RanDrills;
  }

  lemma PassedBefore(checks: seq<Drill>, i: nat)
    requires NewestRan(checks, i)
    ensures var ran := RanDrills(checks);
      (exists j :: 0 < j < |ran| && ran[j].ok) <==> PassedAfter(checks, i)
  {
    RanIs(checks, i);
    var older := checks[i + 1..];
    RanHas(older);
    hide RanDrills, NewestRan;
    var ran, rest := RanDrills(checks), RanDrills(older);
    if k :| i < k < |checks| && !checks[k].skipped && checks[k].ok {
      assert older[k - i - 1] == checks[k];
      var j :| 0 <= j < |rest| && rest[j] == checks[k];
      assert ran[j + 1].ok;
    }
    if j :| 0 < j < |ran| && ran[j].ok {
      assert ran[j] == rest[j - 1] && rest[j - 1] in rest;
      var k :| 0 <= k < |older| && older[k] == ran[j];
      assert checks[i + 1 + k] == ran[j];
    }
  }

  // Other kinds of checks and checks that never ran say nothing.
  lemma NoCheckNoWord(key: DrillKey, checks: seq<Drill>)
    requires (key.kind != "subset" && key.kind != "dr") || forall i :: 0 <= i < |checks| ==> checks[i].skipped
    ensures DetectIntegrity(key, checks) == Decided([], [])
  {
    RanHas(checks);
    if RanDrills(checks) != [] {
      assert RanDrills(checks)[0] in RanDrills(checks);
    }
  }

  // ---- a volume running full ----------------------------------------------

  // Among the found, what is raised about m: nothing, or the figure observed
  // against a line of that severity.
  ghost predicate RaisedAs(found: seq<Finding>, m: Metric, line: Option<Line>, observed: real) {
    && ((exists f :: f in found && f.metric == m) <==> line.Some?)
    && (forall f :: f in found && f.metric == m ==>
         Some(Line(f.severity, f.threshold)) == line && f.observed == observed && !f.event)
  }

  datatype Line = Line(severity: Severity, threshold: real)

  function LineOf(row: Row): Line { Line(row.severity, row.threshold) }

  // The share of a volume that is free.
  function FreeShare(v: VolumeInput): real {
    if v.totalBytes.None? || v.totalBytes.value <= 0 then 0.0 else v.freeBytes as real / v.totalBytes.value as real
  }

  // A volume is called low under a twentieth of free space, warned about under
  // a tenth, and a standing row is kept under twelve hundredths.
  lemma RoomExactly(v: VolumeInput)
    requires v.readings > 0
    ensures RaisedAs(DetectCapacity(v).found, CapacityLow,
      if v.totalBytes.None? || v.totalBytes.value <= 0 then None
      else if 20 * v.freeBytes < v.totalBytes.value then Some(Line(Critical, 0.05))
      else if 10 * v.freeBytes < v.totalBytes.value then Some(Line(Warning, 0.10))
      else if CapacityLow in v.open && 100 * v.freeBytes < 12 * v.totalBytes.value
      then Some(LineOf(v.open[CapacityLow])) else None, FreeShare(v))
    ensures Ends(DetectCapacity(v), CapacityLow) <==>
      && v.totalBytes.Some? && v.totalBytes.value > 0
      && if CapacityLow in v.open then 100 * v.freeBytes >= 12 * v.totalBytes.value
         else 10 * v.freeBytes >= v.totalBytes.value
  {
    hide JudgeEta, JudgeRoom;
    EtaOnly(v, ParamsFor(v.sens));
    RoomSaid(v);
    OneOfBoth(JudgeEta(v, ParamsFor(v.sens)), JudgeRoom(v), CapacityLow);
  }

  lemma EtaOnly(v: VolumeInput, p: Params)
    ensures OnlyAbout(JudgeEta(v, p).found, {CapacityEta})
    ensures forall i :: 0 <= i < |JudgeEta(v, p).absent| ==> JudgeEta(v, p).absent[i].metric == CapacityEta
  {
  }

  lemma RoomOnly(v: VolumeInput)
    ensures OnlyAbout(JudgeRoom(v).found, {CapacityLow})
    ensures forall i :: 0 <= i < |JudgeRoom(v).absent| ==> JudgeRoom(v).absent[i].metric == CapacityLow
  {
  }

  lemma OneOfBoth(a: Decided, b: Decided, m: Metric)
    requires forall f :: f in a.found ==> f.metric != m
    requires forall i :: 0 <= i < |a.absent| ==> a.absent[i].metric != m
    ensures SameAbout(Both(a, b).found, b.found, m) && SameAbout(Both(b, a).found, b.found, m)
    ensures Ends(Both(a, b), m) <==> Ends(b, m)
    ensures Ends(Both(b, a), m) <==> Ends(b, m)
  {
    EndsBoth(a, b, m);
    EndsBoth(b, a, m);
  }

  lemma ShareUnder(free: int, total: int, parts: int)
    requires total > 0
    ensures free as real / total as real < parts as real / 100.0 <==> 100 * free < parts * total
  {
    var share := free as real / total as real;
    assert share * total as real == free as real;
    if share < parts as real / 100.0 {
      assert share * total as real < parts as real / 100.0 * total as real;
    } else {
      assert share * total as real >= parts as real / 100.0 * total as real;
    }
  }

  lemma RoomSaid(v: VolumeInput)
    ensures var d := JudgeRoom(v);
      && RaisedAs(d.found, CapacityLow,
           if v.totalBytes.None? || v.totalBytes.value <= 0 then None
           else if 20 * v.freeBytes < v.totalBytes.value then Some(Line(Critical, 0.05))
           else if 10 * v.freeBytes < v.totalBytes.value then Some(Line(Warning, 0.10))
           else if CapacityLow in v.open && 100 * v.freeBytes < 12 * v.totalBytes.value
           then Some(LineOf(v.open[CapacityLow])) else None, FreeShare(v))
      && (Ends(d, CapacityLow) <==>
           && v.totalBytes.Some? && v.totalBytes.value > 0
           && if CapacityLow in v.open then 100 * v.freeBytes >= 12 * v.totalBytes.value
              else 10 * v.freeBytes >= v.totalBytes.value)
  {
    var d := JudgeRoom(v);
    if v.totalBytes.Some? && v.totalBytes.value > 0 {
      var free, total := v.freeBytes, v.totalBytes.value;
      ShareUnder(free, total, 5);
      ShareUnder(free, total, 10);
      ShareUnder(free, total, 12);
      if d.found != [] {
        assert d.found[0] in d.found;
      } else {
        assert d.absent[0].metric == CapacityLow;
      }
    }
  }

  // The days left at which a preset is alarmed, and at which it warns; a
  // standing row is kept for a quarter more.
  function AlarmDays(s: Sensitivity): real { match s case Strict => 14.0 case Balanced => 7.0 case Permissive => 3.0 }

  function WarnDays(s: Sensitivity): real { match s case Strict => 56.0 case Balanced => 28.0 case Permissive => 14.0 }

  lemma EtaExactly(v: VolumeInput)
    requires v.readings > 0
    ensures RaisedAs(DetectCapacity(v).found, CapacityEta,
      if v.eta.None? then None
      else if v.eta.value < AlarmDays(v.sens) then Some(Line(Critical, AlarmDays(v.sens)))
      else if v.eta.value < WarnDays(v.sens) then Some(Line(Warning, WarnDays(v.sens)))
      else if CapacityEta in v.open && v.eta.value < 1.25 * WarnDays(v.sens)
      then Some(LineOf(v.open[CapacityEta])) else None, if v.eta.Some? then v.eta.value else 0.0)
    ensures v.eta.None? ==> Ends(DetectCapacity(v), CapacityEta)
    ensures v.eta.Some? ==> (Ends(DetectCapacity(v), CapacityEta) <==>
      v.eta.value >= if CapacityEta in v.open then 1.25 * WarnDays(v.sens) else WarnDays(v.sens))
  {
    hide JudgeEta, JudgeRoom;
    RoomOnly(v);
    EtaSaid(v);
    OneOfBoth(JudgeRoom(v), JudgeEta(v, ParamsFor(v.sens)), CapacityEta);
  }

  lemma EtaSaid(v: VolumeInput)
    ensures var d := JudgeEta(v, ParamsFor(v.sens));
      && RaisedAs(d.found, CapacityEta,
           if v.eta.None? then None
           else if v.eta.value < AlarmDays(v.sens) then Some(Line(Critical, AlarmDays(v.sens)))
           else if v.eta.value < WarnDays(v.sens) then Some(Line(Warning, WarnDays(v.sens)))
           else if CapacityEta in v.open && v.eta.value < 1.25 * WarnDays(v.sens)
           then Some(LineOf(v.open[CapacityEta])) else None, if v.eta.Some? then v.eta.value else 0.0)
      && (v.eta.None? ==> Ends(d, CapacityEta))
      && (v.eta.Some? ==> (Ends(d, CapacityEta) <==>
           v.eta.value >= if CapacityEta in v.open then 1.25 * WarnDays(v.sens) else WarnDays(v.sens)))
  {
    var d := JudgeEta(v, ParamsFor(v.sens));
    if d.found != [] {
      assert d.found[0] in d.found;
    } else {
      assert d.absent[0].metric == CapacityEta;
    }
  }
}
