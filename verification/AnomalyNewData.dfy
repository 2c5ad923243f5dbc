// The three rules around the data one backup added (anomaly_detect.go): an
// unusual amount, a source stored again, and a backup that found no parent.
// Rows are oldest first here, so a run's predecessor is the row before it.
module AnomalyNewData {
  import opened Wrappers
  import opened AnomalyTypes
  import opened AnomalyRules
  import opened OrderStatistics

  const REF_FLOOR := 64.0 * MIB
  const REWRITE_FLOOR := 64.0 * MIB
  const MIN_GAP := 300
  const MAX_GAP := 30 * DAY

  // What every run of one window is judged with.
  datatype Window = Window(rows: seq<SeriesRun>, ownChange: int, measuredOnly: bool, ceiling: real, p: Params)

  predicate FreshUpload(run: SeriesRun) { run.hasParent == Some(0) }

  predicate AllFilesNew(run: SeriesRun) {
    run.filesNew.Some? && run.sourceFiles.Some? && run.sourceFiles.value > 0 && run.filesNew == run.sourceFiles
  }

  // Run i is the first to back up something else, by selection or because
  // BombVault changed the source.
  predicate StartsOver(w: Window, i: nat)
    requires i < |w.rows|
  {
    SelectionChangedAt(w.rows, i) || (w.ownChange != 0 && w.rows[i].startedAt == w.ownChange)
  }

  predicate IsSample(w: Window, i: nat)
    requires i < |w.rows|
  {
    i > 0 && !FreshUpload(w.rows[i]) && !StartsOver(w, i) && (!w.measuredOnly || w.rows[i].sourceBytes.Some?)
  }

  // The time run i had to collect its data.
  function ElapsedBefore(rows: seq<SeriesRun>, i: nat): (d: int)
    requires 0 < i < |rows|
    ensures MIN_GAP <= d <= MAX_GAP
  {
    Min(Max(rows[i].startedAt - rows[i - 1].startedAt, MIN_GAP), MAX_GAP)
  }

  // The samples before run i that started at or after the given instant.
  function SamplesBefore(w: Window, i: nat, from: int): (s: seq<nat>)
    requires i <= |w.rows|
    ensures forall k :: 0 <= k < |s| ==> 0 < s[k] < i && IsSample(w, s[k])
  {
    if i == 0 then []
    else SamplesBefore(w, i - 1, from) + (if IsSample(w, i - 1) && w.rows[i - 1].startedAt >= from then [i - 1] else [])
  }

  function AllSamplesBefore(w: Window, i: nat): (s: seq<nat>)
    requires i <= |w.rows|
    ensures forall k :: 0 <= k < |s| ==> 0 < s[k] < i && IsSample(w, s[k])
  {
    if i == 0 then [] else AllSamplesBefore(w, i - 1) + (if IsSample(w, i - 1) then [i - 1] else [])
  }

  // What run i is judged against: the samples of the last thirty days, or the
  // newest ten of any age when those are too few.
  function SamplesFor(w: Window, i: nat): (s: seq<nat>)
    requires i < |w.rows|
    ensures forall k :: 0 <= k < |s| ==> 0 < s[k] < i && IsSample(w, s[k])
  {
    var recent := SamplesBefore(w, i, w.rows[i].startedAt - NEW_DATA_DAYS * DAY);
    var all := AllSamplesBefore(w, i);
    if |recent| >= MIN_SAMPLES then recent
    else if |all| > MIN_SAMPLES then all[|all| - MIN_SAMPLES..]
    else all
  }

  method NewDataSamples(w: Window, i: nat) returns (s: seq<nat>)
    requires i < |w.rows|
    ensures s == SamplesFor(w, i)
  {
    var from := w.rows[i].startedAt - NEW_DATA_DAYS * DAY;
    var recent: seq<nat>, all: seq<nat> := [], [];
    for j := 0 to i
      invariant recent == SamplesBefore(w, j, from)
      invariant all == AllSamplesBefore(w, j)
    {
      if IsSample(w, j) {
        all := all + [j];
        if w.rows[j].startedAt >= from {
          recent := recent + [j];
        }
      }
    }
    if |recent| >= MIN_SAMPLES {
      return recent;
    }
    if |all| > MIN_SAMPLES {
      return all[|all| - MIN_SAMPLES..];
    }
    return all;
  }

  function BytesOf(w: Window, s: seq<nat>): (xs: seq<real>)
    requires forall k :: 0 <= k < |s| ==> s[k] < |w.rows|
    ensures |xs| == |s|
  {
    seq(|s|, k requires 0 <= k < |s| => w.rows[s[k]].bytes as real)
  }

  function RateOf(w: Window, i: nat): real
    requires 0 < i < |w.rows|
  {
    w.rows[i].bytes as real / ElapsedBefore(w.rows, i) as real
  }

  function RatesOf(w: Window, s: seq<nat>): (xs: seq<real>)
    requires forall k :: 0 <= k < |s| ==> 0 < s[k] < |w.rows|
    ensures |xs| == |s|
  {
    seq(|s|, k requires 0 <= k < |s| => RateOf(w, s[k]))
  }

  // Far over the reference amount and the reference rate, and over what a user
  // accepted.
  predicate FarOver(observed: real, rate: real, refBytes: real, refRate: real, ceiling: real, p: Params) {
    && observed >= p.newDataFloor && observed >= p.newDataMult * MaxReal(refBytes, REF_FLOOR)
    && rate >= p.newDataMult * MaxReal(refRate, REF_FLOOR / 86400.0) && observed > ceiling
  }

  function SpikeFinding(w: Window, i: nat, refBytes: real, refRate: real, samples: nat): (f: Finding)
    requires 0 < i < |w.rows|
    ensures f.metric == NewData && f.severity == Warning && f.event
    ensures f.runID == w.rows[i].id && f.runAt == w.rows[i].startedAt
  {
    Finding(NewData, Warning, w.rows[i].id, "", "", w.rows[i].startedAt, w.rows[i].bytes as real, refBytes,
            w.p.newDataMult * MaxReal(refBytes, REF_FLOOR), samples,
            map["refBytes" := Num(refBytes), "refRate" := Num(refRate), "rate" := Num(RateOf(w, i)),
                "elapsedSec" := Num(ElapsedBefore(w.rows, i) as real)], true)
  }

  // A run that stored far more than the series ever stores, in total and per
  // second of the time it had to collect it.
  function Spike(w: Window, i: nat): Option<Finding>
    requires 0 < i < |w.rows|
  {
    var s := SamplesFor(w, i);
    var refBytes, refRate := Reference(BytesOf(w, s)), Reference(RatesOf(w, s));
    if |s| >= MIN_SAMPLES && FarOver(w.rows[i].bytes as real, RateOf(w, i), refBytes, refRate, w.ceiling, w.p)
    then Some(SpikeFinding(w, i, refBytes, refRate, |s|)) else None
  }

  // The newest of rows a restore could start from.
  function LastBackupWithData(rows: seq<SeriesRun>): (r: Option<SeriesRun>)
    ensures r.Some? ==> r.value in rows && r.value.snapshotID != ""
  {
    if rows == [] then None
    else
      var run := rows[|rows| - 1];
      if run.snapshotID != "" && (run.sourceBytes.None? || run.sourceBytes.value > 0) then Some(run)
      else LastBackupWithData(rows[..|rows| - 1])
  }

  // Half of everything the item backs up was stored again although an earlier
  // backup existed; what the source grew by does not count.
  predicate Rewrote(run: SeriesRun, lastGood: Option<SeriesRun>, ceiling: real) {
    !FreshUpload(run) && run.sourceBytes.Some? &&
    var grown := if lastGood.Some? && lastGood.value.sourceBytes.Some?
                 then Max(0, run.sourceBytes.value - lastGood.value.sourceBytes.value) else 0;
    var rewritten := run.bytes as real - grown as real;
    rewritten >= 0.5 * run.sourceBytes.value as real && rewritten >= REWRITE_FLOOR && run.bytes as real > ceiling
  }

  function RewriteFinding(run: SeriesRun, lastGood: Option<SeriesRun>, samples: nat): Finding
    requires run.sourceBytes.Some?
  {
    var source, observed := run.sourceBytes.value as real, run.bytes as real;
    var good := match lastGood
      case None => map[]
      case Some(run) => map["lastGoodAt" := Num(BackupTakenAt(run.startedAt, run.finishedAt) as real)];
    var details := map["sourceBytes" := Num(source)] + RatioDetail(observed, source) + good
                   + (if AllFilesNew(run) then map["allFilesNew" := Flag(true)] else map[])
                   + (if run.hasParent.Some? then map["hasParent" := Num(run.hasParent.value as real)] else map[]);
    Finding(NewDataRewrite, Critical, run.id, if lastGood.Some? then lastGood.value.id else "", "", run.startedAt,
            observed, source, 0.5 * source, samples, details, true)
  }

  function FullUploadFinding(run: SeriesRun, samples: nat): Finding {
    Finding(NewDataFull, Info, run.id, "", "", run.startedAt, run.bytes as real, 0.0, 0.0, samples, map[], true)
  }

  // What one run raises.
  function JudgeRun(w: Window, i: nat): Option<Finding>
    requires 0 < i < |w.rows|
  {
    var run, lastGood := w.rows[i], LastBackupWithData(w.rows[..i]);
    if Rewrote(run, lastGood, w.ceiling) then Some(RewriteFinding(run, lastGood, |SamplesFor(w, i)|))
    else if FreshUpload(run) && AllFilesNew(run) then Some(FullUploadFinding(run, |SamplesFor(w, i)|))
    else Spike(w, i)
  }

  predicate Judged(w: Window, i: nat, evaluateFrom: int)
    requires i < |w.rows|
  {
    i > 0 && w.rows[i].startedAt > evaluateFrom && !StartsOver(w, i)
  }

  // What row i raises in a pass that has judged everything up to evaluateFrom.
  function RaisedAt(w: Window, i: nat, evaluateFrom: int): Option<Finding>
    requires i < |w.rows|
  {
    if Judged(w, i, evaluateFrom) then JudgeRun(w, i) else None
  }

  function RaisedRows(w: Window, evaluateFrom: int): (r: seq<Option<Finding>>)
    ensures |r| == |w.rows| && forall i :: 0 <= i < |r| ==> r[i] == RaisedAt(w, i, evaluateFrom)
  {
    seq(|w.rows|, i requires 0 <= i < |w.rows| => RaisedAt(w, i, evaluateFrom))
  }

  function Present(xs: seq<Option<Finding>>): seq<Finding> {
    if xs == [] then []
    else Present(xs[..|xs| - 1]) + (if xs[|xs| - 1].Some? then [xs[|xs| - 1].value] else [])
  }

  function WindowOf(input: ItemInput, p: Params): Window {
    Window(Reversed(input.newData), OwnChangeAt(input.newData, input.changedAt), input.isVM,
           if FamilyNewData in input.expectations then input.expectations[FamilyNewData].ceiling else 0.0, p)
  }

  function NewDataFindings(input: ItemInput, p: Params): seq<Finding> {
    if input.kind == DumpSeries || input.kind == TreeSeries then []
    else Present(RaisedRows(WindowOf(input, p), input.evaluateFrom))
  }

  method DetectNewData(input: ItemInput, p: Params) returns (found: seq<Finding>)
    ensures found == NewDataFindings(input, p)
  {
    found := [];
    if input.kind == DumpSeries || input.kind == TreeSeries {
      return;
    }
    var w := WindowOf(input, p);
    ghost var all := RaisedRows(w, input.evaluateFrom);
    for i := 0 to |w.rows|
      invariant found == Present(all[..i])
    {
      assert all[..i + 1][..i] == all[..i];
      if i == 0 || w.rows[i].startedAt <= input.evaluateFrom || StartsOver(w, i) {
        continue;
      }
      var samples := NewDataSamples(w, i);
      var lastGood := LastBackupWithData(w.rows[..i]);
      if Rewrote(w.rows[i], lastGood, w.ceiling) {
        found := found + [RewriteFinding(w.rows[i], lastGood, |samples|)];
      } else if FreshUpload(w.rows[i]) && AllFilesNew(w.rows[i]) {
        found := found + [FullUploadFinding(w.rows[i], |samples|)];
      } else {
        var spike := Spike(w, i);
        if spike.Some? {
          found := found + [spike.value];
        }
      }
    }
    assert all[..|w.rows|] == all;
  }

  // ---- the whole verdict on one series ------------------------------------

  function EvaluateItem(input: ItemInput): Decided {
    var p := ParamsFor(input.sens);
    Both(Both(Both(Decided(NewDataFindings(input, p), []), DetectSource(input, p)), DetectDuration(input, p)),
         DetectReliability(input, p))
  }

  // A window as the store returns it: newest first, every run once.
  ghost predicate NewestFirst(runs: seq<SeriesRun>) {
    && (forall i, j :: 0 <= i < j < |runs| ==> runs[i].startedAt >= runs[j].startedAt)
    && (forall i, j :: 0 <= i < j < |runs| ==> runs[i].id != runs[j].id)
  }

  // f is about the given run, an event newer than what was judged before.
  ghost predicate EventOf(run: SeriesRun, evaluateFrom: int, f: Finding) {
    && f.runID == run.id && f.runAt == run.startedAt && f.runAt > evaluateFrom
    && f.event && IsEvent(f.metric) && (f.metric == NewDataRewrite <==> f.severity == Critical)
  }

  lemma RaisedIsEvent(w: Window, i: nat, evaluateFrom: int)
    requires i < |w.rows| && RaisedAt(w, i, evaluateFrom).Some?
    ensures EventOf(w.rows[i], evaluateFrom, RaisedAt(w, i, evaluateFrom).value)
  {
  }

  // Where the collected findings stood, in order.
  lemma {:induction false} PresentInOrder(xs: seq<Option<Finding>>) returns (at: seq<nat>)
    ensures |at| == |Present(xs)|
    ensures forall k :: 0 <= k < |at| ==> at[k] < |xs| && xs[at[k]] == Some(Present(xs)[k])
    ensures forall k, l :: 0 <= k < l < |at| ==> at[k] < at[l]
  {
    if xs == [] {
      at := [];
    } else {
      at := PresentInOrder(xs[..|xs| - 1]);
      if xs[|xs| - 1].Some? {
        at := at + [|xs| - 1];
      }
    }
  }

  lemma NewDataFrom(input: ItemInput, p: Params) returns (at: seq<nat>)
    ensures var fs, rows := NewDataFindings(input, p), Reversed(input.newData);
            && |at| == |fs|
            && (forall k :: 0 <= k < |fs| ==> at[k] < |rows| && EventOf(rows[at[k]], input.evaluateFrom, fs[k]))
            && (forall k, l :: 0 <= k < l < |fs| ==> at[k] < at[l])
  {
    at := [];
    if input.kind != DumpSeries && input.kind != TreeSeries {
      var w := WindowOf(input, p);
      var all := RaisedRows(w, input.evaluateFrom);
      at := PresentInOrder(all);
      forall k | 0 <= k < |at| ensures EventOf(w.rows[at[k]], input.evaluateFrom, Present(all)[k]) {
        RaisedIsEvent(w, at[k], input.evaluateFrom);
      }
    }
  }

  // Every new-data finding is an event about a run newer than the last pass
  // judged, and a rewrite and nothing else is critical.
  lemma NewDataAreEvents(input: ItemInput, p: Params)
    ensures forall f :: f in NewDataFindings(input, p) ==>
      f.event && IsEvent(f.metric) && f.runAt > input.evaluateFrom
        && (f.metric == NewDataRewrite <==> f.severity == Critical)
  {
    var at := NewDataFrom(input, p);
  }

  // On a window as the store returns it the findings come in run order and no
  // run raises two.
  lemma NewDataInRunOrder(input: ItemInput, p: Params)
    requires NewestFirst(input.newData)
    ensures var fs := NewDataFindings(input, p);
            forall k, l :: 0 <= k < l < |fs| ==> fs[k].runAt <= fs[l].runAt && fs[k].runID != fs[l].runID
  {
    var at := NewDataFrom(input, p);
  }
}
