// What marking a finding as expected is for (anomaly.go, anomaly_detect.go):
// the amount or level a user accepted is not raised again.
module AcceptedLevels {
  import opened Wrappers
  import opened AnomalyTypes
  import opened AnomalyRules
  import opened AnomalyNewData
  import opened OrderStatistics
  import opened AnomalyVerdicts
  import opened AnomalyStore
  import Marks = AnomalyActions
  import opened SizeAlarms
  import opened SteadyLevels
  import opened NewDataAlarms

  // A pass over the series reads what is recorded for it.
  ghost predicate ReadsRecords(input: ItemInput, kind: string, id: string, records: Marks.Expectations) {
    forall f ::
      && (f in input.expectations <==> Marks.Key(kind, id, f) in records)
      && (f in input.expectations ==> input.expectations[f] == records[Marks.Key(kind, id, f)])
  }

  // The rule family a metric is accepted under.
  predicate AcceptedUnder(m: Metric, f: Family) {
    || ((m == NewData || m == NewDataRewrite) && f == FamilyNewData)
    || (m == SourceBytesShrink && f == FamilySourceBytesDown)
    || (m == SourceBytesGrowth && f == FamilySourceBytesUp)
    || (m == SourceFilesShrink && f == FamilySourceFilesDown)
    || (m == DumpBytesShrink && f == FamilyDumpBytesDown)
    || (m == DumpBytesGrowth && f == FamilyDumpBytesUp)
    || (m == DurationSlower && f == FamilyDuration)
    || (m == DumpDurationSlower && f == FamilyDumpDuration)
  }

  // What a marked row leaves for its family at least: a quarter more than the
  // amount of new data, or its newest run as the start of the new level.
  lemma MarkRecords(before: Marks.Expectations, after: Marks.Expectations, rows: Rows, ids: seq<string>, id: string,
      f: Family)
    requires (forall i :: i in ids ==> i in rows) && Marks.Raised(before, after, rows, ids) && id in ids
    requires AcceptedUnder(rows[id].fp.metric, f)
    ensures var k := Marks.Key(rows[id].fp.kind, rows[id].fp.id, f);
      && k in after
      && (f == FamilyNewData ==> after[k].ceiling >= 1.25 * rows[id].observed)
      && (f != FamilyNewData ==> after[k].sinceAt >= rows[id].lastRunAt)
      && (k in before ==> after[k].ceiling >= before[k].ceiling && after[k].sinceAt >= before[k].sinceAt)
  {
    var k := Marks.Key(rows[id].fp.kind, rows[id].fp.id, f);
    assert Marks.RaisedAt(before, after, rows, ids, k);
    assert Marks.Marks(rows[id], k);
  }

  // And no more than that: every recorded value was there before or comes from
  // a marked row.
  lemma MarkRecordsNoMore(before: Marks.Expectations, after: Marks.Expectations, rows: Rows, ids: seq<string>,
      k: Marks.Key)
    requires (forall i :: i in ids ==> i in rows) && Marks.Raised(before, after, rows, ids) && k in after
    ensures (k in before && after[k].ceiling == before[k].ceiling)
      || exists id :: id in ids && MarkedFor(rows[id], k) && after[k].ceiling == AmountOf(rows[id], k.family)
    ensures (k in before && after[k].sinceAt == before[k].sinceAt)
      || exists id :: id in ids && MarkedFor(rows[id], k) && after[k].sinceAt == StartOf(rows[id], k.family)
  {
    RaisedThere(before, after, rows, ids, k);
    hide Marks.Raised, Marks.AtLeast, AcceptedUnder, Marks.FamilyOf;
    if !(k in before && after[k].ceiling == before[k].ceiling) {
      var id :| id in ids && Marks.Marks(rows[id], k) && Marks.Recorded(rows[id]).ceiling == after[k].ceiling;
      RecordIs(rows[id], k);
    }
    if !(k in before && after[k].sinceAt == before[k].sinceAt) {
      var id :| id in ids && Marks.Marks(rows[id], k) && Marks.Recorded(rows[id]).sinceAt == after[k].sinceAt;
      RecordIs(rows[id], k);
    }
  }

  lemma RaisedThere(before: Marks.Expectations, after: Marks.Expectations, rows: Rows, ids: seq<string>, k: Marks.Key)
    requires (forall i :: i in ids ==> i in rows) && Marks.Raised(before, after, rows, ids)
    ensures Marks.RaisedAt(before, after, rows, ids, k)
  {
  }

  lemma RecordIs(row: Row, k: Marks.Key)
    requires Marks.Marks(row, k)
    ensures MarkedFor(row, k)
    ensures Marks.Recorded(row).ceiling == AmountOf(row, k.family)
      && Marks.Recorded(row).sinceAt == StartOf(row, k.family)
  {
  }

  function AmountOf(row: Row, f: Family): real { if f == FamilyNewData then 1.25 * row.observed else 0.0 }

  function StartOf(row: Row, f: Family): int { if f == FamilyNewData then 0 else row.lastRunAt }

  predicate MarkedFor(row: Row, k: Marks.Key) {
    AcceptedUnder(row.fp.metric, k.family) && row.fp.kind == k.kind && row.fp.id == k.id
  }

  // ---- an accepted amount of new data -------------------------------------

  lemma {:induction false} SomeRestorable(input: ItemInput, i: nat, n: nat) returns (g: int)
    requires n <= i < |Runs(input)|
    ensures -1 <= g < n && (g >= 0 ==> Restorable(Runs(input)[g]))
    ensures forall k :: g < k < n ==> !Restorable(Runs(input)[k])
  {
    if n == 0 {
      g := -1;
    } else if Restorable(Runs(input)[n - 1]) {
      g := n - 1;
    } else {
      g := SomeRestorable(input, i, n - 1);
    }
  }

  // No run is reported for new data that is at most a quarter more than what a
  // user accepted for the series, whatever was marked since.
  lemma AcceptedAmount(before: Marks.Expectations, after: Marks.Expectations, rows: Rows, ids: seq<string>,
      id: string, input: ItemInput, i: nat)
    requires (forall k :: k in ids ==> k in rows) && Marks.Raised(before, after, rows, ids) && id in ids
    requires rows[id].fp.metric == NewData || rows[id].fp.metric == NewDataRewrite
    requires ReadsRecords(input, rows[id].fp.kind, rows[id].fp.id, after)
    requires DistinctRuns(input) && i < |Runs(input)|
    requires Runs(input)[i].bytes as real <= 1.25 * rows[id].observed
    ensures !Says(input, i, NewData) && !Says(input, i, NewDataRewrite)
  {
    hide Says, Marks.Raised;
    MarkRecords(before, after, rows, ids, id, FamilyNewData);
    var k := Marks.Key(rows[id].fp.kind, rows[id].fp.id, FamilyNewData);
    assert FamilyNewData in input.expectations;
    assert AcceptedBytes(input) >= Runs(input)[i].bytes as real;
    if Says(input, i, NewData) {
      SpikeIsFar(input, i, {}, 0.0);
    }
    var g := SomeRestorable(input, i, i);
    RewriteExactly(input, i, g);
  }

  // ---- an accepted level --------------------------------------------------

  lemma TooFewSamples(input: ItemInput, m: Metric, current: Measurement, prior: seq<Measurement>,
      cut: seq<Measurement>, from: int)
    requires NewestRunFirst(input.series) && Split(input, m, current, prior, cut)
    requires |Measuring(input.series, m)| > 10 ==> Measuring(input.series, m)[10].startedAt < from
    ensures |NewestSamples(SamplesFrom(prior, from), WINDOW)| < 10
  {
    hide Measuring, Split, SamplesFrom;
    PriorOldestFirst(input, m, current, prior, cut);
    FromOn(prior, from);
    assert |prior| >= 10 ==> prior[|prior| - 10].at < from;
  }

  // Nobody is told again of a size or duration of which a user said it is the
  // new normal, before ten runs of the new level are there to compare with.
  // Only the collapse rule is not switched off by that.
  lemma AcceptedLevel(before: Marks.Expectations, after: Marks.Expectations, rows: Rows, ids: seq<string>,
      id: string, input: ItemInput, f: Finding)
    requires (forall k :: k in ids ==> k in rows) && Marks.Raised(before, after, rows, ids) && id in ids
    requires ReadsRecords(input, rows[id].fp.kind, rows[id].fp.id, after) && NewestRunFirst(input.series)
    requires var m := rows[id].fp.metric;
      && (LossWatched(input.kind, m) || GrowthWatched(input.kind, m) || DurationWatched(input.kind, m))
      && m !in input.open && Measuring(input.series, m) != []
      && (|Measuring(input.series, m)| > 10 ==> Measuring(input.series, m)[10].startedAt < rows[id].lastRunAt)
    requires f in EvaluateItem(input).found && f.metric == rows[id].fp.metric
    ensures LossWatched(input.kind, f.metric) && OfCollapse(f)
  {
    hide Marks.Raised, EvaluateItem, Measuring, Split, Measurements, OfCollapse, RebaseOf, ParamsFor, Shrank, Grew,
      SlowerRun, LossWatched, GrowthWatched, DurationWatched, RuleOf;
    var m := rows[id].fp.metric;
    AcceptedFrom(before, after, rows, ids, id, input);
    var current, prior, cut := SplitOf(input, m);
    TooFewSamples(input, m, current, prior, cut, ComparedFrom(input, m));
    var samples := NewestSamples(SamplesFrom(prior, ComparedFrom(input, m)), WINDOW);
    if LossWatched(input.kind, m) {
      OnlyCollapses(input, m, current, prior, samples, f);
    } else if GrowthWatched(input.kind, m) {
      GrowthByRule(input, m, current, prior);
      GrowthSaidOf(input, m, current, prior, samples);
      NothingFromFew(input, m, current, samples);
    } else {
      DurationsByOwnRule(input, m);
      DurationSaidOf(input, m, current, prior, samples);
      NothingFromFew(input, m, current, samples);
    }
  }

  lemma AcceptedFrom(before: Marks.Expectations, after: Marks.Expectations, rows: Rows, ids: seq<string>,
      id: string, input: ItemInput)
    requires (forall k :: k in ids ==> k in rows) && Marks.Raised(before, after, rows, ids) && id in ids
    requires ReadsRecords(input, rows[id].fp.kind, rows[id].fp.id, after)
    requires var m := rows[id].fp.metric;
      LossWatched(input.kind, m) || GrowthWatched(input.kind, m) || DurationWatched(input.kind, m)
    ensures ComparedFrom(input, rows[id].fp.metric) >= rows[id].lastRunAt
  {
    hide Marks.Raised, RebaseOf, SelectionRebaseAt;
    var family := FamilyFor(rows[id].fp.metric);
    MarkRecords(before, after, rows, ids, id, family);
    assert family in input.expectations;
  }

  function FamilyFor(m: Metric): (f: Family)
    requires LossWatched(ItemSeries, m) || LossWatched(DumpSeries, m) || GrowthWatched(ItemSeries, m)
      || GrowthWatched(DumpSeries, m) || DurationWatched(ItemSeries, m) || DurationWatched(DumpSeries, m)
    ensures AcceptedUnder(m, f) && f != FamilyNewData
  {
    match m
    case SourceBytesShrink => FamilySourceBytesDown
    case SourceBytesGrowth => FamilySourceBytesUp
    case SourceFilesShrink => FamilySourceFilesDown
    case DumpBytesShrink => FamilyDumpBytesDown
    case DumpBytesGrowth => FamilyDumpBytesUp
    case DurationSlower => FamilyDuration
    case DumpDurationSlower => FamilyDumpDuration
  }

  lemma NothingFromFew(input: ItemInput, m: Metric, current: Measurement, samples: seq<Measurement>)
    requires |samples| < 10
    ensures var p := ParamsFor(input.sens);
      && Shrank(RuleOf(input.kind, m, p), current, samples, p) == None
      && Grew(RuleOf(input.kind, m, p), m, current, samples, p) == None
      && SlowerRun(current, samples, m, p) == None
  {
    hide LevelOf, RuleOf;
  }

  lemma OnlyCollapses(input: ItemInput, m: Metric, current: Measurement, prior: seq<Measurement>,
      samples: seq<Measurement>, f: Finding)
    requires LossWatched(input.kind, m) && m !in input.open
    requires var measured := Measurements(Reversed(EligibleRuns(input.series)), QuantityOf(m));
      measured != [] && current == measured[|measured| - 1] && prior == measured[..|measured| - 1]
    requires samples == NewestSamples(SamplesFrom(prior, ComparedFrom(input, m)), WINDOW) && |samples| < 10
    requires f in EvaluateItem(input).found && f.metric == m
    ensures OfCollapse(f)
  {
    hide EvaluateItem, Measurements, OfCollapse, RebaseOf, ParamsFor, Shrank, RuleOf, Collapsed, SamplesFrom,
      NewestSamples, ShrinkSaid, ComparedFrom;
    var p := ParamsFor(input.sens);
    LossByShrink(input, m, current, prior);
    ShrinkSaidOf(input, m, current, prior, samples);
    NothingFromFew(input, m, current, samples);
    CollapseSaysSo(RuleOf(input.kind, m, p), current, SamplesFrom(prior, RebaseOf(input)), p);
  }
}
