// What anomaly detection reads and writes: runs of a series, the findings and
// absences one pass decides on, and the rows an episode is kept in
// (anomaly_detect.go, internal/store/anomalies.go, internal/store/runs.go).
module AnomalyTypes {
  import opened Wrappers

  datatype Severity = Info | Warning | Critical {
    function Rank(): nat {
      match this case Info => 1 case Warning => 2 case Critical => 3
    }
  }

  datatype Sensitivity = Strict | Balanced | Permissive

  datatype Detector = NewDataRule | SourceRule | DurationRule | ReliabilityRule | IntegrityRule | CapacityRule

  datatype Metric =
    | NewData | NewDataRewrite | NewDataFull
    | SourceBytesShrink | SourceBytesGrowth | SourceFilesShrink
    | DumpBytesShrink | DumpBytesGrowth
    | DurationSlower | DumpDurationSlower
    | FailureStreak | Flaky | DumpFailureStreak | DumpFlaky
    | DrillSubset | DrillDR
    | CapacityEta | CapacityLow

  // Which rule stands behind a metric.
  function DetectorOf(m: Metric): Detector {
    match m
    case NewData | NewDataRewrite | NewDataFull => NewDataRule
    case SourceBytesShrink | SourceBytesGrowth | SourceFilesShrink | DumpBytesShrink | DumpBytesGrowth => SourceRule
    case DurationSlower | DumpDurationSlower => DurationRule
    case FailureStreak | Flaky | DumpFailureStreak | DumpFlaky => ReliabilityRule
    case DrillSubset | DrillDR => IntegrityRule
    case CapacityEta | CapacityLow => CapacityRule
  }

  // Metrics about one run: nothing reports them absent again.
  predicate IsEvent(m: Metric) {
    m == NewData || m == NewDataRewrite || m == NewDataFull
  }

  // Metrics whose critical row stays open after the condition is gone.
  predicate NeedsAck(m: Metric) {
    m in {SourceBytesShrink, SourceFilesShrink, DumpBytesShrink, NewDataRewrite, CapacityEta, CapacityLow}
  }

  // Metrics that pause deleting old backups.
  predicate Holding(m: Metric) {
    m in {SourceBytesShrink, SourceFilesShrink, DumpBytesShrink, NewDataRewrite}
  }

  datatype Family =
    | FamilyNewData | FamilySourceBytesDown | FamilySourceBytesUp | FamilySourceFilesDown
    | FamilyDuration | FamilyDumpBytesDown | FamilyDumpBytesUp | FamilyDumpDuration

  // What a user marked as expected for one family of rules.
  datatype Expectation = Expectation(sinceAt: int, ceiling: real)

  datatype SeriesKind = ItemSeries | DumpSeries | TreeSeries | DatasetSeries

  datatype Status = Success | Failed(interrupted: bool) | Skipped | OtherStatus

  // One run of a series. Nullable columns are options.
  datatype SeriesRun = SeriesRun(
    id: string, status: Status, snapshotID: string, outcome: string,
    startedAt: int, finishedAt: int, bytes: int,
    sourceBytes: Option<int>, sourceFiles: Option<int>, filesNew: Option<int>,
    resticMS: Option<int>, hasParent: Option<int>, selectionFP: Option<string>)

  // What one run measured for one metric.
  datatype Measurement = Measurement(runID: string, at: int, takenAt: int, value: real)

  // The time a run's backup goes by.
  function BackupTakenAt(startedAt: int, finishedAt: int): int {
    if finishedAt > 0 then finishedAt else startedAt
  }

  // A finding's figures, the object its row stores. An empty map stores nothing.
  datatype Detail = Num(n: real) | Flag(b: bool) | Text(s: string)
  type Details = map<string, Detail>

  datatype Finding = Finding(
    metric: Metric, severity: Severity,
    runID: string, lastGoodRunID: string, onsetRunID: string, runAt: int,
    observed: real, expected: real, threshold: real, samples: nat,
    details: Details, event: bool)

  datatype Absence = Absence(metric: Metric, observed: real)

  // A condition across passes and episodes. The stored form joins the four
  // parts with a pipe, which none of them contains, so it is injective too.
  datatype Fingerprint = Fingerprint(detector: Detector, kind: string, id: string, metric: Metric)

  datatype RowState = StateOpen | StateAcknowledged | StateExpected | StateResolved

  // One episode as the store keeps it.
  datatype Row = Row(
    id: string, fp: Fingerprint, severity: Severity, state: RowState,
    targetID: string, domain: string,
    runID: string, lastRunID: string, lastGoodRunID: string, lastRunAt: int,
    observed: real, expected: real, threshold: real, samples: nat, sensitivity: string,
    details: Details, occurrences: nat,
    firstSeenAt: int, lastSeenAt: int, recoveredAt: int, resolvedAt: int, ackedAt: int, clearedAt: int)

  // The series a pass decided about.
  datatype ScopeRef = ScopeRef(kind: string, id: string, targetID: string, domain: string, sensitivity: string)

  function FingerprintOf(sc: ScopeRef, m: Metric): Fingerprint {
    Fingerprint(DetectorOf(m), sc.kind, sc.id, m)
  }

  // What every rule keeps to: an event is flagged as one, none is ever reported
  // absent, and a rewrite is critical.
  ghost predicate SoundFindings(found: seq<Finding>, absent: seq<Absence>) {
    && (forall i :: 0 <= i < |found| ==>
         found[i].event == IsEvent(found[i].metric)
         && (found[i].metric == NewDataRewrite ==> found[i].severity == Critical))
    && (forall i :: 0 <= i < |absent| ==> !IsEvent(absent[i].metric))
  }
}
