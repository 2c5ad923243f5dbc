// When one backup's new data raises a finding, told by the runs of the window
// (anomaly_detect.go): a source stored again, a backup without a parent, and
// far more data than the series ever adds.
module NewDataAlarms {
  import opened Wrappers
  import opened AnomalyTypes
  import opened AnomalyRules
  import opened AnomalyNewData
  import opened OrderStatistics
  import opened SizeAlarms
  import opened RunAlarms

  // The runs of the window, oldest first.
  function Runs(input: ItemInput): (rows: seq<SeriesRun>)
    ensures |rows| == |input.newData|
    ensures forall i :: 0 <= i < |rows| ==> rows[i] == input.newData[|rows| - 1 - i]
  {
    Reversed(input.newData)
  }

  // Run i backs up something else than the run before it, by selection or
  // because BombVault changed the source.
  predicate CoversOther(input: ItemInput, i: nat)
    requires 0 < i < |Runs(input)|
  {
    var rows := Runs(input);
    || (rows[i].selectionFP.Some? && rows[i - 1].selectionFP.Some?
        && rows[i].selectionFP.value != rows[i - 1].selectionFP.value)
    || (OwnChangeAt(input.newData, input.changedAt) != 0
        && rows[i].startedAt == OwnChangeAt(input.newData, input.changedAt))
  }

  // The run is one this pass judges: it has a run before it, started after what
  // was judged already, and covers the same data.
  predicate JudgedNow(input: ItemInput, i: nat) {
    && (input.kind == ItemSeries || input.kind == DatasetSeries)
    && 0 < i < |Runs(input)| && Runs(input)[i].startedAt > input.evaluateFrom && !CoversOther(input, i)
  }

  // The rules raise m about run i.
  ghost predicate Says(input: ItemInput, i: nat, m: Metric)
    requires i < |Runs(input)|
  {
    exists f :: f in EvaluateItem(input).found && f.metric == m && f.runID == Runs(input)[i].id
  }

  ghost predicate DistinctRuns(input: ItemInput) {
    forall i, j :: 0 <= i < j < |input.newData| ==> input.newData[i].id != input.newData[j].id
  }

  lemma {:induction false} PresentHas(xs: seq<Option<Finding>>)
    ensures forall f :: f in Present(xs) <==> exists i :: 0 <= i < |xs| && xs[i] == Some(f)
  {
    if xs != [] {
      var n := |xs| - 1;
      PresentHas(xs[..n]);
      forall f ensures f in Present(xs) <==> exists i :: 0 <= i < |xs| && xs[i] == Some(f) {
        if f in Present(xs[..n]) {
          var i :| 0 <= i < n && xs[..n][i] == Some(f);
          assert xs[i] == Some(f);
        }
        assert forall i :: 0 <= i < n ==> xs[..n][i] == xs[i];
      }
    }
  }

  lemma EventsByOwnRule(input: ItemInput, m: Metric)
    requires IsEvent(m)
    ensures SameAbout(EvaluateItem(input).found, NewDataFindings(input, ParamsFor(input.sens)), m)
  {
    hide DetectSource, NewDataFindings, DetectDuration, DetectReliability;
    var p := ParamsFor(input.sens);
    SourceOnly(input, p);
    DurationOnly(input, p);
    ReliabilityOnly(input, p);
  }

  // What is raised about run i is what its own row raises.
  lemma SaidOf(input: ItemInput, i: nat, m: Metric)
    requires DistinctRuns(input) && IsEvent(m) && i < |Runs(input)|
    ensures var w := WindowOf(input, ParamsFor(input.sens));
      && |w.rows| == |Runs(input)|
      && (JudgedNow(input, i) <==>
           (input.kind == ItemSeries || input.kind == DatasetSeries) && Judged(w, i, input.evaluateFrom))
      && (Says(input, i, m) <==>
           JudgedNow(input, i) && JudgeRun(w, i).Some? && JudgeRun(w, i).value.metric == m)
      && forall f :: f in EvaluateItem(input).found && f.metric == m && f.runID == Runs(input)[i].id ==>
           JudgedNow(input, i) && JudgeRun(w, i) == Some(f)
  {
    hide EvaluateItem, JudgeRun;
    var p := ParamsFor(input.sens);
    var w := WindowOf(input, p);
    EventsByOwnRule(input, m);
    if input.kind == ItemSeries || input.kind == DatasetSeries {
      FoundAt(input, p, w, i);
    }
  }

  lemma FoundAt(input: ItemInput, p: Params, w: Window, i: nat)
    requires DistinctRuns(input) && (input.kind == ItemSeries || input.kind == DatasetSeries)
    requires w == WindowOf(input, p) && i < |w.rows|
    ensures forall f :: f in NewDataFindings(input, p) && f.runID == w.rows[i].id <==>
      RaisedAt(w, i, input.evaluateFrom) == Some(f)
  {
    hide RaisedAt;
    var all := RaisedRows(w, input.evaluateFrom);
    PresentHas(all);
    forall f | f in Present(all) && f.runID == w.rows[i].id ensures RaisedAt(w, i, input.evaluateFrom) == Some(f) {
      var k :| 0 <= k < |all| && all[k] == Some(f);
      RaisedIsEvent(w, k, input.evaluateFrom);
    }
    if RaisedAt(w, i, input.evaluateFrom).Some? {
      RaisedIsEvent(w, i, input.evaluateFrom);
      assert all[i] == RaisedAt(w, i, input.evaluateFrom);
    }
  }

  // ---- a source stored again ----------------------------------------------

  // Run g is the newest before run i a restore could start from, -1 when there
  // is none.
  predicate RestorableBefore(input: ItemInput, i: nat, g: int)
    requires i < |Runs(input)|
  {
    && -1 <= g < i && (g >= 0 ==> Restorable(Runs(input)[g]))
    && forall k :: g < k < i ==> !Restorable(Runs(input)[k])
  }

  predicate Restorable(run: SeriesRun) {
    run.snapshotID != "" && (run.sourceBytes.None? || run.sourceBytes.value > 0)
  }

  // What the source grew by since then; it may be new without being stored
  // again.
  function GrownSince(input: ItemInput, i: nat, g: int): int
    requires i < |Runs(input)| && g < i && Runs(input)[i].sourceBytes.Some?
  {
    if g < 0 || Runs(input)[g].sourceBytes.None?
       || Runs(input)[g].sourceBytes.value > Runs(input)[i].sourceBytes.value then 0
    else Runs(input)[i].sourceBytes.value - Runs(input)[g].sourceBytes.value
  }

  // The bytes of new data a user accepted for the series.
  function AcceptedBytes(input: ItemInput): real {
    if FamilyNewData in input.expectations then input.expectations[FamilyNewData].ceiling else 0.0
  }

  // Without what the source grew by, at least half of it and 64 MiB were stored
  // although an earlier backup was there to build on.
  predicate StoredAgain(input: ItemInput, i: nat, g: int)
    requires i < |Runs(input)| && g < i
  {
    var run := Runs(input)[i];
    && run.hasParent != Some(0) && run.sourceBytes.Some?
    && 2 * (run.bytes - GrownSince(input, i, g)) >= run.sourceBytes.value
    && run.bytes - GrownSince(input, i, g) >= 67108864
    && run.bytes as real > AcceptedBytes(input)
  }

  lemma {:induction false} LastBackupIs(rows: seq<SeriesRun>, g: int)
    requires -1 <= g < |rows| && (g >= 0 ==> Restorable(rows[g]))
    requires forall k :: g < k < |rows| ==> !Restorable(rows[k])
    ensures LastBackupWithData(rows) == if g >= 0 then Some(rows[g]) else None
  {
    if rows != [] && g < |rows| - 1 {
      LastBackupIs(rows[..|rows| - 1], g);
    }
  }

  lemma RewroteIs(input: ItemInput, i: nat, g: int)
    requires 0 < i < |Runs(input)| && RestorableBefore(input, i, g)
    ensures var w := WindowOf(input, ParamsFor(input.sens));
      var lastGood := LastBackupWithData(w.rows[..i]);
      && lastGood == (if g >= 0 then Some(Runs(input)[g]) else None)
      && (Rewrote(w.rows[i], lastGood, w.ceiling) <==> StoredAgain(input, i, g))
  {
    LastBackupIs(Runs(input)[..i], g);
  }

  predicate DatesGood(f: Finding, good: SeriesRun) {
    "lastGoodAt" in f.details
    && f.details["lastGoodAt"] == Num((if good.finishedAt > 0 then good.finishedAt else good.startedAt) as real)
  }

  // A rewrite is raised about exactly these runs, always critical, naming that
  // backup as the last good one.
  lemma RewriteExactly(input: ItemInput, i: nat, g: int)
    requires DistinctRuns(input) && i < |Runs(input)| && RestorableBefore(input, i, g)
    ensures Says(input, i, NewDataRewrite) <==> JudgedNow(input, i) && StoredAgain(input, i, g)
    ensures forall f ::
      f in EvaluateItem(input).found && f.metric == NewDataRewrite && f.runID == Runs(input)[i].id ==>
        f.severity == Critical && f.lastGoodRunID == (if g >= 0 then Runs(input)[g].id else "")
        && f.observed == Runs(input)[i].bytes as real && f.runAt == Runs(input)[i].startedAt && f.event
        && Runs(input)[i].sourceBytes.Some? && f.expected == Runs(input)[i].sourceBytes.value as real
        && f.threshold == f.expected / 2.0 && f.onsetRunID == ""
        && (g >= 0 ==> DatesGood(f, Runs(input)[g]))
  {
    hide EvaluateItem, Says, JudgedNow, DistinctRuns;
    SaidOf(input, i, NewDataRewrite);
    if JudgedNow(input, i) {
      IsAfterAnother(input, i);
      RewroteIs(input, i, g);
      RewriteSaid(input, i, g);
    }
  }

  lemma IsAfterAnother(input: ItemInput, i: nat)
    requires JudgedNow(input, i)
    ensures 0 < i < |Runs(input)|
  {
  }

  lemma RewriteSaid(input: ItemInput, i: nat, g: int)
    requires 0 < i < |Runs(input)| && RestorableBefore(input, i, g)
    requires var w := WindowOf(input, ParamsFor(input.sens));
      var lastGood := LastBackupWithData(w.rows[..i]);
      && lastGood == (if g >= 0 then Some(Runs(input)[g]) else None)
      && (Rewrote(w.rows[i], lastGood, w.ceiling) <==> StoredAgain(input, i, g))
    ensures var said := JudgeRun(WindowOf(input, ParamsFor(input.sens)), i);
      && (said.Some? && said.value.metric == NewDataRewrite <==> StoredAgain(input, i, g))
      && (StoredAgain(input, i, g) ==>
           && said.value.severity == Critical && said.value.event
           && said.value.lastGoodRunID == (if g >= 0 then Runs(input)[g].id else "")
           && said.value.observed == Runs(input)[i].bytes as real && said.value.runAt == Runs(input)[i].startedAt
           && said.value.expected == Runs(input)[i].sourceBytes.value as real
           && said.value.threshold == said.value.expected / 2.0 && said.value.onsetRunID == ""
           && (g >= 0 ==> DatesGood(said.value, Runs(input)[g])))
  {
    hide Rewrote, StoredAgain, LastBackupWithData, SamplesFor, FarOver, Reference, RestorableBefore;
  }

  // ---- a backup without a parent ------------------------------------------

  // It found no parent and stored every file as new.
  predicate UploadedAfresh(run: SeriesRun) {
    && run.hasParent == Some(0) && run.sourceFiles.Some? && run.filesNew.Some?
    && run.filesNew.value == run.sourceFiles.value > 0
  }

  // Such a backup is only noted.
  lemma FullUploadExactly(input: ItemInput, i: nat)
    requires DistinctRuns(input) && i < |Runs(input)|
    ensures Says(input, i, NewDataFull) <==> JudgedNow(input, i) && UploadedAfresh(Runs(input)[i])
    ensures forall f :: f in EvaluateItem(input).found && f.metric == NewDataFull && f.runID == Runs(input)[i].id ==>
      f.severity == Info && f.event && f.observed == Runs(input)[i].bytes as real && f.details == map[]
        && f.expected == 0.0 && f.threshold == 0.0 && f.lastGoodRunID == "" && f.onsetRunID == ""
  {
    hide EvaluateItem, Says, JudgedNow, DistinctRuns;
    SaidOf(input, i, NewDataFull);
    if JudgedNow(input, i) {
      IsAfterAnother(input, i);
      FullSaid(WindowOf(input, ParamsFor(input.sens)), i);
    }
  }

  lemma FullSaid(w: Window, i: nat)
    requires 0 < i < |w.rows|
    ensures var said, run := JudgeRun(w, i), w.rows[i];
      && (said.Some? && said.value.metric == NewDataFull <==> UploadedAfresh(run))
      && (said.Some? && said.value.metric == NewDataFull ==>
           said.value.severity == Info && said.value.event && said.value.observed == run.bytes as real
           && said.value.details == map[] && said.value.expected == 0.0 && said.value.threshold == 0.0
           && said.value.lastGoodRunID == "" && said.value.onsetRunID == "")
  {
    hide SamplesFor, FarOver, Reference, LastBackupWithData;
  }

  // ---- far more than the series ever adds ---------------------------------

  // Run k tells what a backup of the series usually adds.
  predicate Comparable(input: ItemInput, k: nat) {
    && 0 < k < |Runs(input)| && Runs(input)[k].hasParent != Some(0) && !CoversOther(input, k)
    && (input.isVM ==> Runs(input)[k].sourceBytes.Some?)
  }

  ghost function AllBefore(input: ItemInput, i: nat): set<nat> {
    set k: nat | k < i && Comparable(input, k)
  }

  // Those of the thirty days before run i.
  ghost function MonthBefore(input: ItemInput, i: nat): set<nat>
    requires i < |Runs(input)|
  {
    set k: nat | k < i && Comparable(input, k) && Runs(input)[k].startedAt >= Runs(input)[i].startedAt - 2592000
  }

  // The seconds run k had to collect its data, five minutes at least and thirty
  // days at most.
  function SecondsOf(input: ItemInput, k: nat): (t: int)
    requires 0 < k < |Runs(input)|
    ensures t > 0
  {
    var gap := Runs(input)[k].startedAt - Runs(input)[k - 1].startedAt;
    if gap < 300 then 300 else if gap > 2592000 then 2592000 else gap
  }

  function Rate(input: ItemInput, k: nat): real
    requires 0 < k < |Runs(input)|
  {
    Runs(input)[k].bytes as real / SecondsOf(input, k) as real
  }

  function Multiple(s: Sensitivity): real { match s case Strict => 3.0 case Balanced => 5.0 case Permissive => 10.0 }

  // Run i added enough for the preset, enough times the amount b and enough
  // times the rate r, and more than a user accepted.
  predicate Outdoes(input: ItemInput, i: nat, b: real, r: real)
    requires 0 < i < |Runs(input)|
  {
    var bytes := Runs(input)[i].bytes as real;
    && bytes >= (match input.sens
                 case Strict => 268435456.0 case Balanced => 1073741824.0 case Permissive => 4294967296.0)
    && bytes >= Multiple(input.sens) * MaxReal(b, 67108864.0)
    && Rate(input, i) >= Multiple(input.sens) * MaxReal(r, 67108864.0 / 86400.0)
    && bytes > AcceptedBytes(input)
  }

  // The list holds each of those positions once.
  ghost predicate Enumerates(s: seq<nat>, at: set<nat>) {
    && |s| == |at| && (forall k :: k in s <==> k in at)
    && forall a, b :: 0 <= a < b < |s| ==> s[a] != s[b]
  }

  lemma EnumeratesMore(s: seq<nat>, at: set<nat>, k: nat)
    requires Enumerates(s, at) && k !in at
    ensures Enumerates(s + [k], at + {k})
  {
  }

  ghost function Before(input: ItemInput, i: nat, from: int): set<nat> {
    set k: nat | k < i && Comparable(input, k) && Runs(input)[k].startedAt >= from
  }

  lemma {:induction false} MonthSamples(input: ItemInput, i: nat, from: int)
    requires i <= |Runs(input)|
    ensures var w := WindowOf(input, ParamsFor(input.sens));
      |w.rows| == |Runs(input)| && Enumerates(SamplesBefore(w, i, from), Before(input, i, from))
  {
    hide Enumerates;
    var w := WindowOf(input, ParamsFor(input.sens));
    if i > 0 {
      MonthSamples(input, i - 1, from);
      assert IsSample(w, i - 1) <==> Comparable(input, i - 1);
      var more := Comparable(input, i - 1) && Runs(input)[i - 1].startedAt >= from;
      if more {
        assert Before(input, i, from) == Before(input, i - 1, from) + {i - 1};
        EnumeratesMore(SamplesBefore(w, i - 1, from), Before(input, i - 1, from), i - 1);
      } else {
        assert Before(input, i, from) == Before(input, i - 1, from);
        assert SamplesBefore(w, i, from) == SamplesBefore(w, i - 1, from);
      }
    } else {
      NoneEnumerated(input, from);
    }
  }

  lemma NoneEnumerated(input: ItemInput, from: int)
    ensures Enumerates([], Before(input, 0, from)) && Enumerates([], AllBefore(input, 0))
  {
  }

  lemma {:induction false} EverySample(input: ItemInput, i: nat)
    requires i <= |Runs(input)|
    ensures var w := WindowOf(input, ParamsFor(input.sens));
      |w.rows| == |Runs(input)| && Enumerates(AllSamplesBefore(w, i), AllBefore(input, i))
  {
    hide Enumerates;
    var w := WindowOf(input, ParamsFor(input.sens));
    if i > 0 {
      EverySample(input, i - 1);
      assert IsSample(w, i - 1) <==> Comparable(input, i - 1);
      if Comparable(input, i - 1) {
        assert AllBefore(input, i) == AllBefore(input, i - 1) + {i - 1};
        EnumeratesMore(AllSamplesBefore(w, i - 1), AllBefore(input, i - 1), i - 1);
      } else {
        assert AllBefore(input, i) == AllBefore(input, i - 1);
        assert AllSamplesBefore(w, i) == AllSamplesBefore(w, i - 1);
      }
    } else {
      NoneEnumerated(input, 0);
    }
  }

  // What run i is compared with: the month before it, or the newest ten.
  lemma ComparedWith(input: ItemInput, i: nat) returns (s: seq<nat>)
    requires 0 < i < |Runs(input)|
    ensures var w := WindowOf(input, ParamsFor(input.sens));
      |w.rows| == |Runs(input)| && s == SamplesFor(w, i)
    ensures |MonthBefore(input, i)| >= 10 ==> Enumerates(s, MonthBefore(input, i))
    ensures |MonthBefore(input, i)| < 10 ==>
      |s| == Min(|AllBefore(input, i)|, 10) && forall k :: k in s ==> k in AllBefore(input, i)
    ensures forall x, y :: 0 <= x < y < |s| ==> s[x] != s[y]
  {
    var w := WindowOf(input, ParamsFor(input.sens));
    var from := w.rows[i].startedAt - NEW_DATA_DAYS * DAY;
    MonthSamples(input, i, from);
    EverySample(input, i);
    assert Before(input, i, from) == MonthBefore(input, i);
    s := SamplesFor(w, i);
    var all := AllSamplesBefore(w, i);
    forall k | k in s && |MonthBefore(input, i)| < 10 ensures k in AllBefore(input, i) {
      assert k in all;
    }
  }

  // The runs run i is held against: the month before it when it has ten, else
  // everything before it.
  ghost function Usual(input: ItemInput, i: nat): set<nat>
    requires i < |Runs(input)|
  {
    if |MonthBefore(input, i)| >= 10 then MonthBefore(input, i) else AllBefore(input, i)
  }

  lemma SpikeIs(input: ItemInput, i: nat, s: seq<nat>)
    requires 0 < i < |Runs(input)|
    requires var w := WindowOf(input, ParamsFor(input.sens)); |w.rows| == |Runs(input)| && s == SamplesFor(w, i)
    ensures var w := WindowOf(input, ParamsFor(input.sens));
      && (Spike(w, i).Some? <==>
           |s| >= 10 && Outdoes(input, i, Reference(BytesOf(w, s)), Reference(RatesOf(w, s))))
      && (Spike(w, i).Some? ==>
           Spike(w, i).value.metric == NewData && IsSpike(input, i, Spike(w, i).value)
           && Spike(w, i).value.expected == Reference(BytesOf(w, s)))
      && (forall k :: 0 <= k < |s| ==> 0 < s[k] < |w.rows|)
      && (forall k :: 0 <= k < |s| ==> RatesOf(w, s)[k] == Rate(input, s[k]))
      && (forall k :: 0 <= k < |s| ==> BytesOf(w, s)[k] == Runs(input)[s[k]].bytes as real)
  {
    hide SamplesFor, Reference;
  }

  // One earlier spike, or one in a hundred, does not lift the level.
  ghost predicate FewOf(input: ItemInput, i: nat, few: set<nat>)
    requires i < |Runs(input)|
  {
    |few| <= 1 || (|MonthBefore(input, i)| >= 10 && 100 * |few| < |MonthBefore(input, i)|)
  }

  // A run that adds more than the preset's multiple of what the series usually
  // adds, in total and by rate, is reported, whatever a few runs added before.
  lemma SpikeIsRaised(input: ItemInput, i: nat, g: int, b: real, r: real, few: set<nat>)
    requires DistinctRuns(input) && JudgedNow(input, i) && RestorableBefore(input, i, g) && !StoredAgain(input, i, g)
    requires !UploadedAfresh(Runs(input)[i])
    requires |Usual(input, i)| >= 10 && Outdoes(input, i, b, r) && FewOf(input, i, few)
    requires forall k :: k in Usual(input, i) && k !in few ==>
      Runs(input)[k].bytes as real <= b && Rate(input, k) <= r
    ensures Says(input, i, NewData)
  {
    hide EvaluateItem, Says, JudgedNow, DistinctRuns, Outdoes, Comparable, StoredAgain, Rewrote, LastBackupWithData,
      SamplesFor, Spike, RestorableBefore, Rate, Reference;
    IsAfterAnother(input, i);
    SaidOf(input, i, NewData);
    RewroteIs(input, i, g);
    var w := WindowOf(input, ParamsFor(input.sens));
    var s := ComparedWith(input, i);
    SpikeIs(input, i, s);
    UsualBounds(input, i, s, b, r, few);
    OutdoesLess(input, i, b, r, Reference(BytesOf(w, s)), Reference(RatesOf(w, s)));
  }

  lemma UsualBounds(input: ItemInput, i: nat, s: seq<nat>, b: real, r: real, few: set<nat>)
    requires 0 < i < |Runs(input)| && |s| >= 10 && forall x, y :: 0 <= x < y < |s| ==> s[x] != s[y]
    requires |few| <= 1 || 100 * |few| < |s|
    requires forall k :: 0 <= k < |s| ==> 0 < s[k] < |Runs(input)|
    requires forall k :: 0 <= k < |s| && s[k] !in few ==>
      Runs(input)[s[k]].bytes as real <= b && Rate(input, s[k]) <= r
    requires var w := WindowOf(input, ParamsFor(input.sens));
      && |w.rows| == |Runs(input)|
      && (forall k :: 0 <= k < |s| ==> RatesOf(w, s)[k] == Rate(input, s[k]))
      && (forall k :: 0 <= k < |s| ==> BytesOf(w, s)[k] == Runs(input)[s[k]].bytes as real)
    ensures var w := WindowOf(input, ParamsFor(input.sens));
      Reference(BytesOf(w, s)) <= b && Reference(RatesOf(w, s)) <= r
  {
    hide Reference, Rate;
    var w := WindowOf(input, ParamsFor(input.sens));
    var at := PlacesIn(s, few, |s|);
    ReferenceIgnoresFewSpikes(BytesOf(w, s), at, b);
    ReferenceIgnoresFewSpikes(RatesOf(w, s), at, r);
  }

  // Where the list holds elements of the set; no more places than elements.
  lemma {:induction false} PlacesIn(s: seq<nat>, few: set<nat>, n: nat) returns (at: set<int>)
    requires n <= |s| && forall x, y :: 0 <= x < y < |s| ==> s[x] != s[y]
    ensures |at| <= |few| && forall k :: 0 <= k < n && s[k] in few ==> k in at
    ensures forall k :: k in at ==> 0 <= k < n
  {
    if n == 0 {
      at := {};
    } else {
      at := PlacesIn(s, few - {s[n - 1]}, n - 1);
      if s[n - 1] in few {
        at := at + {n - 1};
      }
    }
  }

  lemma OutdoesLess(input: ItemInput, i: nat, b: real, r: real, less: real, slower: real)
    requires 0 < i < |Runs(input)| && Outdoes(input, i, b, r) && less <= b && slower <= r
    ensures Outdoes(input, i, less, slower)
  {
    hide Rate;
  }

  // At least as many runs of the set added y as it takes to lift the level: two
  // of fewer than two hundred, one in a hundred beyond.
  ghost predicate OftenAdds(input: ItemInput, at: set<nat>, many: set<nat>, y: real) {
    && many <= at && |many| >= 2 && 100 * |many| >= |at|
    && forall k :: k in many ==> 0 <= k < |Runs(input)| && Runs(input)[k].bytes as real >= y
  }

  // The finding is a warning about the run with the threshold it was held
  // against.
  predicate IsSpike(input: ItemInput, i: nat, f: Finding)
    requires i < |Runs(input)|
  {
    && f.severity == Warning && f.event && f.observed == Runs(input)[i].bytes as real
    && f.runAt == Runs(input)[i].startedAt && f.lastGoodRunID == "" && f.onsetRunID == ""
    && f.threshold == Multiple(input.sens) * MaxReal(f.expected, 67108864.0)
  }

  // What is reported added the preset's multiple of whatever the month before
  // it often adds, and of 64 MiB at least, and had ten runs to compare with.
  lemma SpikeIsFar(input: ItemInput, i: nat, many: set<nat>, y: real)
    requires DistinctRuns(input) && i < |Runs(input)| && Says(input, i, NewData)
    ensures JudgedNow(input, i) && |AllBefore(input, i)| >= 10
    ensures Runs(input)[i].bytes as real >= Multiple(input.sens) * 67108864.0
      && Runs(input)[i].bytes as real > AcceptedBytes(input)
    ensures |MonthBefore(input, i)| >= 10 && OftenAdds(input, MonthBefore(input, i), many, y) ==>
      Runs(input)[i].bytes as real >= Multiple(input.sens) * y
    ensures forall f :: f in EvaluateItem(input).found && f.metric == NewData && f.runID == Runs(input)[i].id ==>
      IsSpike(input, i, f)
      && (|MonthBefore(input, i)| >= 10 && OftenAdds(input, MonthBefore(input, i), many, y) ==> f.expected >= y)
  {
    hide EvaluateItem, Says, JudgedNow, DistinctRuns, Comparable, Rewrote, LastBackupWithData, SamplesFor, Spike, Rate,
      Reference, Outdoes, OftenAdds;
    SaidOf(input, i, NewData);
    IsAfterAnother(input, i);
    var w := WindowOf(input, ParamsFor(input.sens));
    var s := ComparedWith(input, i);
    SpikeIs(input, i, s);
    assert Spike(w, i).Some?;
    OutdoesBoth(input, i, Reference(BytesOf(w, s)), Reference(RatesOf(w, s)), y);
    MonthIsBefore(input, i);
    if |MonthBefore(input, i)| >= 10 && OftenAdds(input, MonthBefore(input, i), many, y) {
      OftenLifts(input, MonthBefore(input, i), many, y, s, BytesOf(w, s));
    }
  }

  lemma OutdoesBoth(input: ItemInput, i: nat, b: real, r: real, y: real)
    requires 0 < i < |Runs(input)| && Outdoes(input, i, b, r)
    ensures var bytes := Runs(input)[i].bytes as real;
      && bytes >= Multiple(input.sens) * 67108864.0 && bytes > AcceptedBytes(input)
      && (y <= b ==> bytes >= Multiple(input.sens) * y)
  {
  }

  lemma MonthIsBefore(input: ItemInput, i: nat)
    requires i < |Runs(input)|
    ensures |MonthBefore(input, i)| <= |AllBefore(input, i)|
  {
    var month, all := MonthBefore(input, i), AllBefore(input, i);
    assert month <= all;
    assert all == month + (all - month);
  }

  lemma OftenLifts(input: ItemInput, at: set<nat>, many: set<nat>, y: real, s: seq<nat>, xs: seq<real>)
    requires OftenAdds(input, at, many, y) && Enumerates(s, at) && |s| >= 10 && |xs| == |s|
    requires forall k :: 0 <= k < |s| ==> s[k] < |Runs(input)| && xs[k] == Runs(input)[s[k]].bytes as real
    ensures Reference(xs) >= y
  {
    hide Reference, Count;
    var p := (v: real) => v >= y;
    forall k | 0 <= k < |s| && s[k] in many ensures p(xs[k]) {}
    CountsMany(s, xs, many, p);
    ReferenceReaches(xs, y);
  }

  lemma {:induction false} CountsMany(s: seq<nat>, xs: seq<real>, many: set<nat>, p: real -> bool)
    requires |xs| == |s| && forall k :: k in many ==> k in s
    requires forall k :: 0 <= k < |s| && s[k] in many ==> p(xs[k])
    ensures Count(xs, p) >= |many|
  {
    if s == [] {
      assert many == {};
    } else {
      CountsMany(s[1..], xs[1..], many - {s[0]}, p);
      if s[0] in many {
        assert |many| == |many - {s[0]}| + 1;
      } else {
        assert many - {s[0]} == many;
      }
    }
  }
}
