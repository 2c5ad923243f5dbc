// Two promises about whole histories of passes: a drifting baseline cannot
// clear an alarm, and every flagged run counts once (anomaly_detect.go,
// anomaly_lifecycle.go, anomaly_engine.go).
module AnomalyHistories {
  import opened Wrappers
  import opened AnomalyTypes
  import opened AnomalyRules
  import opened AnomalyNewData
  import opened AnomalyLifecycle
  import opened AnomalyStore
  import opened AnomalyPass
  import opened AnomalyEpisodes
  import opened AnomalyVerdicts
  import AnomalyEngine
  import ScopeLocks

  // ---- a drifting baseline cannot clear an alarm --------------------------

  ghost predicate Standing(rows: Rows, id: string, m: Metric, expected: real) {
    id in rows && rows[id].id == id && rows[id].fp.metric == m && rows[id].state == StateOpen
      && rows[id].recoveredAt == 0 && rows[id].expected == expected
  }

  predicate PassOver(e: Event, fp: Fingerprint) { e.Pass? && e.sc.kind == fp.kind && e.sc.id == fp.id }

  // A pass over a series: what the rules made of the input, which carries the
  // open row.
  ghost predicate JudgedFrom(e: Event, input: ItemInput, m: Metric, row: Row)
    requires e.Pass?
  {
    && e.found == EvaluateItem(input).found && e.absent == EvaluateItem(input).absent
    && m in input.open && input.open[m] == row
  }

  // The pass measured the series and the value is back at the row's level.
  ghost predicate MeasuredBack(input: ItemInput, m: Metric, expected: real) {
    NewestFor(input, m).Some? && BackAt(m, NewestFor(input, m).value.value, expected)
  }

  // One pass over the scope keeps the row standing exactly when the newest
  // measurement has not come back to the level the row opened with. What the
  // window's median has become makes no difference.
  lemma StandsUntilBack(rows: Rows, e: Event, rows': Rows, id: string, m: Metric, input: ItemInput)
    requires Keyed(rows) && OneOpenEach(rows) && Step(rows, e, rows') && LevelMetric(m)
    requires id in rows && Standing(rows, id, m, rows[id].expected) && PassOver(e, rows[id].fp)
      && JudgedFrom(e, input, m, rows[id])
    requires e.now > 0
    ensures id in rows'
    ensures Standing(rows', id, m, rows[id].expected) <==> !MeasuredBack(input, m, rows[id].expected)
  {
    hide Step, EffectOn, DecidedOn, Reads;
    var st, g, gone, d := PassAbout(rows, e, rows', m);
    GoneWhenBack(e, input, m, rows[id], st);
    ReadsTheOpenRow(rows, e.sc, st, id);
    StandsOrEnds(rows, e, rows', st, g, gone, d, id, m);
  }

  // A pass over the series reports the condition gone exactly when it measured
  // it back, and then it does not raise it.
  lemma GoneWhenBack(e: Event, input: ItemInput, m: Metric, row: Row, st: ScopeState)
    requires e.Pass? && LevelMetric(m) && JudgedFrom(e, input, m, row)
    ensures Gone(e.absent, m) <==> MeasuredBack(input, m, row.expected)
    ensures Gone(e.absent, m) ==> Raised(e.sc, e.found, st, m) == []
  {
    hide EvaluateItem, NewestFor;
    ItemSays(input, m);
    RaisedCondition(e.sc, e.found, e.absent, st, m);
    GroupHas(e.found, m);
    if Raises(EvaluateItem(input), m) {
      var i :| 0 <= i < |e.found| && e.found[i].metric == m;
      assert e.found[i] in e.found;
    }
    assert Gone(e.absent, m) <==> Ends(EvaluateItem(input), m);
  }

  lemma StandsOrEnds(rows: Rows, e: Event, rows': Rows, st: ScopeState, g: seq<Finding>, gone: bool, d: Decision,
      id: string, m: Metric)
    requires e.Pass? && !IsEvent(m) && id in rows && Standing(rows, id, m, rows[id].expected)
    requires FingerprintOf(e.sc, m) in st.open && st.open[FingerprintOf(e.sc, m)] == rows[id]
    requires DecidedOn(e, st, m, g, gone, d) && EffectOn(rows, e, rows', m, d)
    requires (g == [] || !gone) && e.now > 0
    ensures id in rows' && (Standing(rows', id, m, rows[id].expected) <==> !gone)
  {
    hide EffectOn;
    EffectOnRow(rows, e, rows', m, d, id);
    if g != [] {
      assert d.Keep?;
    } else if gone {
      assert d == DecideGone(e.sc, st, m);
    } else {
      assert d == Leave;
    }
  }

  lemma EffectOnRow(rows: Rows, e: Event, rows': Rows, m: Metric, d: Decision, id: string)
    requires e.Pass? && EffectOn(rows, e, rows', m, d) && id in rows && rows[id].fp.metric == m
    ensures id in rows' && rows'[id] == RowAfter(rows[id], d, e.now)
  {
  }

  // What a history has to keep to for the row to stand: no pass over its
  // series measured it back at that level, and no user settled it.
  ghost predicate NotBack(rows: Rows, e: Event, input: ItemInput, id: string, fp: Fingerprint, expected: real) {
    && (PassOver(e, fp) ==>
         e.now > 0 && id in rows && JudgedFrom(e, input, fp.metric, rows[id])
         && !MeasuredBack(input, fp.metric, expected))
    && (e.Settle? ==> id !in e.rowIDs)
  }

  lemma StepKeepsStanding(rows: Rows, e: Event, rows': Rows, id: string, fp: Fingerprint, expected: real,
      input: ItemInput)
    requires Keyed(rows) && OneOpenEach(rows) && Step(rows, e, rows') && LevelMetric(fp.metric)
    requires Standing(rows, id, fp.metric, expected) && rows[id].fp == fp && NotBack(rows, e, input, id, fp, expected)
    ensures Standing(rows', id, fp.metric, expected) && rows'[id].fp == fp
  {
    if PassOver(e, fp) {
      StandsUntilBack(rows, e, rows', id, fp.metric, input);
      var st, g, gone, d := PassAbout(rows, e, rows', fp.metric);
    } else if e.Pass? {
      ElsewherePassed(rows, e, rows', id);
    }
  }

  // A pass over another scope leaves the row alone.
  lemma ElsewherePassed(rows: Rows, e: Event, rows': Rows, id: string)
    requires Keyed(rows) && e.Pass? && Step(rows, e, rows') && id in rows && !PassOver(e, rows[id].fp)
    ensures id in rows' && rows'[id] == rows[id]
  {
    var st, g, gone, d := PassAbout(rows, e, rows', rows[id].fp.metric);
    UntouchedElsewhere(rows, e, rows', rows[id].fp.metric, d, id);
  }

  lemma UntouchedElsewhere(rows: Rows, e: Event, rows': Rows, m: Metric, d: Decision, id: string)
    requires e.Pass? && id in rows && rows[id].fp.metric == m && rows[id].id == id && !PassOver(e, rows[id].fp)
    requires EffectOn(rows, e, rows', m, d)
    ensures id in rows' && rows'[id] == rows[id]
  {
  }

  // Over any history: while no newest measurement of the series reaches the
  // clearing fraction of the level the row opened with, the same row stays
  // open with the same level, whatever the medians of the windows become.
  lemma {:induction false} DriftCannotClear(events: seq<Event>, tables: seq<Rows>, inputs: seq<ItemInput>, id: string,
      fp: Fingerprint, expected: real, n: nat)
    requires History(events, tables) && n <= |events| == |inputs| && LevelMetric(fp.metric)
    requires Standing(tables[0], id, fp.metric, expected) && tables[0][id].fp == fp
    requires forall i :: 0 <= i < n ==> NotBack(tables[i], events[i], inputs[i], id, fp, expected)
    ensures Standing(tables[n], id, fp.metric, expected) && tables[n][id].fp == fp
  {
    if n > 0 {
      DriftCannotClear(events, tables, inputs, id, fp, expected, n - 1);
      HistoryKeepsTable(events, tables, n - 1);
      StepKeepsStanding(tables[n - 1], events[n - 1], tables[n], id, fp, expected, inputs[n - 1]);
    }
  }

  // ---- every flagged run counts once --------------------------------------

  // Findings of one event metric in run order, one per run, about runs that
  // have started.
  ghost predicate InRunOrder(found: seq<Finding>, m: Metric, now: int) {
    && (forall i, j :: 0 <= i < j < |found| && found[i].metric == m && found[j].metric == m ==>
          found[i].runAt <= found[j].runAt && found[i].runID != found[j].runID)
    && (forall i :: 0 <= i < |found| && found[i].metric == m ==> found[i].event && found[i].runAt <= now)
  }

  ghost predicate Ordered(g: seq<Finding>) {
    forall i, j :: 0 <= i < j < |g| ==> g[i].runAt <= g[j].runAt && g[i].runID != g[j].runID
  }

  lemma {:induction false} GroupOrdered(found: seq<Finding>, m: Metric, now: int)
    requires InRunOrder(found, m, now)
    ensures Ordered(Group(found, m))
    ensures forall i :: 0 <= i < |Group(found, m)| ==> Group(found, m)[i].event && Group(found, m)[i].runAt <= now
  {
    if found != [] {
      var n := |found| - 1;
      GroupOrdered(found[..n], m, now);
      var g := Group(found[..n], m);
      forall i | 0 <= i < |g| && found[n].metric == m
        ensures g[i].runAt <= found[n].runAt && g[i].runID != found[n].runID {
        assert g[i] in found[..n];
      }
    }
  }

  lemma {:induction false} SinceOrdered(g: seq<Finding>, at: int)
    requires Ordered(g)
    ensures Ordered(Since(g, at))
    ensures forall f :: f in g && f.runAt > at ==> f in Since(g, at)
  {
    if g != [] {
      var n := |g| - 1;
      SinceOrdered(g[..n], at);
      var s := Since(g[..n], at);
      forall i | 0 <= i < |s| ensures s[i].runAt <= g[n].runAt && s[i].runID != g[n].runID {
        assert s[i] in g[..n];
      }
      assert g == g[..n] + [g[n]];
    }
  }

  lemma {:induction false} SinceAll(g: seq<Finding>, at: int)
    requires forall i :: 0 <= i < |g| ==> g[i].runAt > at
    ensures Since(g, at) == g
  {
    if g != [] {
      SinceAll(g[..|g| - 1], at);
    }
  }

  // What a step added to a row's occurrences.
  function Added(rows: Rows, rows': Rows, id: string): int
    requires id in rows'
  {
    rows'[id].occurrences - (if id in rows then rows[id].occurrences else 0)
  }

  // Row id got every counted run and remembers the newest of them.
  ghost predicate CountedOn(rows: Rows, rows': Rows, fp: Fingerprint, counted: seq<Finding>, id: string) {
    id in rows' && rows'[id].fp == fp && Added(rows, rows', id) == |counted| && forall i :: 0 <= i < |counted| ==>
      counted[i].runAt <= rows'[id].lastRunAt
  }

  // The runs one step counted on rows of fp: each newer than any row of it had
  // seen, all on one row, while no other row's count moves.
  ghost predicate Counts(rows: Rows, e: Event, rows': Rows, fp: Fingerprint, counted: seq<Finding>) {
    && (counted != [] ==> PassOver(e, fp) && forall i :: 0 <= i < |counted| ==>
         counted[i] in e.found && counted[i].metric == fp.metric)
    && Ordered(counted)
    && (forall i, id :: 0 <= i < |counted| && id in rows && rows[id].fp == fp ==> rows[id].lastRunAt < counted[i].runAt)
    && (counted != [] ==> exists id :: CountedOn(rows, rows', fp, counted, id))
    && (forall a, b ::
         (a in rows' && b in rows' && rows'[a].fp == fp && rows'[b].fp == fp
          && Added(rows, rows', a) != 0 && Added(rows, rows', b) != 0) ==> a == b)
    && (counted == [] ==> forall id :: id in rows' && rows'[id].fp == fp ==> Added(rows, rows', id) == 0)
  }

  ghost predicate SeenByNow(rows: Rows, fp: Fingerprint) {
    forall id :: id in rows && rows[id].fp == fp ==> rows[id].lastRunAt <= rows[id].lastSeenAt
  }

  // No row forgets the newest run it saw; only the pruning drops a row, and
  // then one that saw nothing since its cutoff.
  ghost predicate Remembers(rows: Rows, e: Event, rows': Rows, fp: Fingerprint) {
    forall id :: id in rows && rows[id].fp == fp ==>
      if id in rows' then rows'[id].fp == fp && rows'[id].lastRunAt >= rows[id].lastRunAt
      else e.Prune? && rows[id].lastSeenAt < e.before
  }

  lemma EventDecided(e: Event, st: ScopeState, fp: Fingerprint, g: seq<Finding>)
    requires PassOver(e, fp) && IsEvent(fp.metric) && fp == FingerprintOf(e.sc, fp.metric)
    requires InRunOrder(e.found, fp.metric, e.now) && g == Raised(e.sc, e.found, st, fp.metric)
    ensures Ordered(g) && forall i :: 0 <= i < |g| ==>
      g[i].event && g[i].runAt <= e.now && g[i].runAt > st.LastRunAt(fp) && g[i] in e.found && g[i].metric == fp.metric
    ensures forall f :: f in e.found && f.metric == fp.metric && f.runAt > st.LastRunAt(fp) ==> f in g
  {
    var all := Group(e.found, fp.metric);
    GroupOrdered(e.found, fp.metric, e.now);
    SinceOrdered(all, st.LastRunAt(fp));
    GroupComplete(e.found, fp.metric);
  }

  lemma {:induction false} GroupComplete(found: seq<Finding>, m: Metric)
    ensures forall f :: f in found && f.metric == m ==> f in Group(found, m)
  {
    if found != [] {
      GroupComplete(found[..|found| - 1], m);
      assert found == found[..|found| - 1] + [found[|found| - 1]];
    }
  }

  // Runs of one event metric that no row of the fingerprint has seen.
  ghost predicate Unseen(e: Event, fp: Fingerprint, st: ScopeState, g: seq<Finding>)
    requires e.Pass?
  {
    Ordered(g) && forall i :: 0 <= i < |g| ==>
      g[i].event && g[i].runAt <= e.now && g[i].runAt > st.LastRunAt(fp) && g[i] in e.found && g[i].metric == fp.metric
  }

  // Only a refresh touches a row's count or the newest run it saw.
  lemma FiguresKept(row: Row, d: Decision, now: int)
    requires !d.Keep? && !d.TouchSettled?
    ensures var after := RowAfter(row, d, now);
            after.occurrences == row.occurrences && after.lastRunAt == row.lastRunAt
              && after.lastSeenAt == row.lastSeenAt && after.fp == row.fp
  {
  }

  // The three ways a pass can go for an event metric, on the rows of its
  // fingerprint: nothing new, a refresh, or a new row.
  lemma QuietCounts(rows: Rows, e: Event, rows': Rows, fp: Fingerprint, d: Decision)
    requires PassOver(e, fp) && EffectOn(rows, e, rows', fp.metric, d)
    requires !d.Keep? && !d.TouchSettled? && OpenedBy(d).None?
    ensures Counts(rows, e, rows', fp, []) && Remembers(rows, e, rows', fp)
      && (SeenByNow(rows, fp) ==> SeenByNow(rows', fp))
  {
    forall id | id in rows' && rows'[id].fp == fp
      ensures id in rows && rows[id].fp == fp && Added(rows, rows', id) == 0
      ensures rows'[id].lastRunAt == rows[id].lastRunAt && rows'[id].lastSeenAt == rows[id].lastSeenAt
    {
      FiguresKept(rows[id], d, e.now);
    }
    forall id | id in rows && rows[id].fp == fp ensures rows'[id].lastRunAt == rows[id].lastRunAt {
      FiguresKept(rows[id], d, e.now);
    }
  }

  lemma OpenedCounts(rows: Rows, e: Event, rows': Rows, fp: Fingerprint, st: ScopeState, g: seq<Finding>, d: Decision)
    requires PassOver(e, fp) && EffectOn(rows, e, rows', fp.metric, d) && Unseen(e, fp, st, g) && g != []
    requires !d.Keep? && !d.TouchSettled? && OpenedBy(d) == Some(NewRow(e.sc, g[|g| - 1], |g|, e.now))
      && fp == FingerprintOf(e.sc, fp.metric)
    requires forall id :: id in rows && rows[id].fp == fp ==> rows[id].lastRunAt <= st.LastRunAt(fp)
    ensures Counts(rows, e, rows', fp, g) && Remembers(rows, e, rows', fp)
      && (SeenByNow(rows, fp) ==> SeenByNow(rows', fp))
  {
    var added :| added in rows' && added !in rows && rows'[added] == Stored(OpenedBy(d).value, added);
    assert CountedOn(rows, rows', fp, g, added);
    forall id | id in rows && rows[id].fp == fp
      ensures rows'[id].lastRunAt == rows[id].lastRunAt && rows'[id].lastSeenAt == rows[id].lastSeenAt
        && Added(rows, rows', id) == 0
    {
      FiguresKept(rows[id], d, e.now);
    }
    forall id | id in rows' && rows'[id].fp == fp && id !in rows ensures id == added {}
  }

  lemma AddedBy(rows: Rows, rows': Rows, k: string)
    requires k in rows && k in rows'
    ensures Added(rows, rows', k) == rows'[k].occurrences - rows[k].occurrences
  {
  }

  // A refresh with runs none of which the row saw counts them all.
  lemma RefreshedFigures(row: Row, e: Event, st: ScopeState, fp: Fingerprint, g: seq<Finding>, r: Refresh, after: Row)
    requires e.Pass? && Unseen(e, fp, st, g) && g != [] && row.lastRunAt <= st.LastRunAt(fp)
    requires CarriesNewest(r, g, row, e.now) && row.state == StateOpen && after == Edited(row, DoRefresh(r), e.now)
    ensures after.occurrences - row.occurrences == |g| && after.lastRunAt == g[|g| - 1].runAt
    ensures after.lastSeenAt == e.now && after.fp == row.fp
  {
    SinceAll(g, row.lastRunAt);
  }

  // A refresh changes its own row of the fingerprint and opens none.
  lemma OnlyRefreshed(rows: Rows, e: Event, rows': Rows, fp: Fingerprint, d: Decision)
    requires PassOver(e, fp) && EffectOn(rows, e, rows', fp.metric, d) && d.Keep? && Keyed(rows)
    requires d.refresh.id in rows
    ensures d.refresh.id in rows' && (rows[d.refresh.id].fp == fp ==>
      rows'[d.refresh.id] == Edited(rows[d.refresh.id], DoRefresh(d.refresh), e.now))
    ensures forall id :: id in rows' && rows'[id].fp == fp && id != d.refresh.id ==> id in rows && rows'[id] == rows[id]
    ensures forall id :: id in rows && rows[id].fp == fp ==> id in rows' && rows'[id].fp == fp
  {
  }

  lemma KeptCounts(rows: Rows, e: Event, rows': Rows, fp: Fingerprint, st: ScopeState, g: seq<Finding>, d: Decision)
    requires PassOver(e, fp) && EffectOn(rows, e, rows', fp.metric, d) && Unseen(e, fp, st, g) && g != [] && Keyed(rows)
    requires d.Keep? && fp in st.open && st.open[fp].id == d.refresh.id && d.refresh.id in rows
      && rows[d.refresh.id] == st.open[fp]
    requires st.open[fp].state == StateOpen && st.open[fp].fp == fp && CarriesNewest(d.refresh, g, st.open[fp], e.now)
    requires forall id :: id in rows && rows[id].fp == fp ==> rows[id].lastRunAt <= st.LastRunAt(fp)
    ensures Counts(rows, e, rows', fp, g) && Remembers(rows, e, rows', fp)
      && (SeenByNow(rows, fp) ==> SeenByNow(rows', fp))
  {
    hide Counts, Remembers, SeenByNow, EffectOn, CarriesNewest, Edited, Added, Keyed;
    var k := d.refresh.id;
    OnlyRefreshed(rows, e, rows', fp, d);
    assert rows[k].fp == fp && rows[k].lastRunAt <= st.LastRunAt(fp);
    RefreshedFigures(rows[k], e, st, fp, g, d.refresh, rows'[k]);
    AddedBy(rows, rows', k);
    OneRowCounts(rows, e, rows', fp, g, k);
  }

  lemma OneRowCounts(rows: Rows, e: Event, rows': Rows, fp: Fingerprint, g: seq<Finding>, k: string)
    requires PassOver(e, fp) && g != [] && Ordered(g)
    requires forall i :: 0 <= i < |g| ==> g[i] in e.found && g[i].metric == fp.metric && g[i].runAt <= e.now
    requires forall i, id :: 0 <= i < |g| && id in rows && rows[id].fp == fp ==> rows[id].lastRunAt < g[i].runAt
    requires k in rows && k in rows' && rows[k].fp == fp && rows'[k].fp == fp && Added(rows, rows', k) == |g|
    requires rows'[k].lastRunAt == g[|g| - 1].runAt && rows'[k].lastSeenAt == e.now
    requires forall id :: id in rows' && rows'[id].fp == fp && id != k ==> id in rows && rows'[id] == rows[id]
    requires forall id :: id in rows && rows[id].fp == fp ==> id in rows' && rows'[id].fp == fp
    ensures Counts(rows, e, rows', fp, g) && Remembers(rows, e, rows', fp)
      && (SeenByNow(rows, fp) ==> SeenByNow(rows', fp))
  {
    assert CountedOn(rows, rows', fp, g, k);
    assert rows[k].lastRunAt < g[|g| - 1].runAt;
  }

  // A pass counts the runs no row of the fingerprint has seen yet, and no
  // others.
  lemma PassCounts(rows: Rows, e: Event, rows': Rows, fp: Fingerprint) returns (counted: seq<Finding>)
    requires Keyed(rows) && Step(rows, e, rows') && PassOver(e, fp) && IsEvent(fp.metric)
      && fp == FingerprintOf(e.sc, fp.metric)
    requires InRunOrder(e.found, fp.metric, e.now) && SoundFindings(e.found, e.absent)
    ensures Counts(rows, e, rows', fp, counted) && Remembers(rows, e, rows', fp)
      && (SeenByNow(rows, fp) ==> SeenByNow(rows', fp))
    ensures forall f ::
      (f in e.found && f.metric == fp.metric && f.runAt > 0
       && forall id :: id in rows && rows[id].fp == fp ==> rows[id].lastRunAt < f.runAt) ==> f in counted
  {
    var st, g, gone, d := PassAbout(rows, e, rows', fp.metric);
    EventDecided(e, st, fp, g);
    NewestSeen(rows, e.sc, st, fp);
    CountsOne(rows, e, rows', fp, st, g, gone, d);
    counted := g;
  }

  lemma NewestSeen(rows: Rows, sc: ScopeRef, st: ScopeState, fp: Fingerprint)
    requires Reads(rows, sc.kind, sc.id, st) && fp.kind == sc.kind && fp.id == sc.id
    ensures forall id :: id in rows && rows[id].fp == fp ==> rows[id].lastRunAt <= st.LastRunAt(fp)
    ensures st.LastRunAt(fp) == 0 || exists id ::
      id in rows && rows[id].fp == fp && rows[id].lastRunAt == st.LastRunAt(fp)
    ensures fp in st.open ==>
      st.open[fp].id in rows && rows[st.open[fp].id] == st.open[fp] && st.open[fp].state == StateOpen
      && st.open[fp].fp == fp
  {
    forall id | id in rows && rows[id].fp == fp ensures rows[id].lastRunAt <= st.LastRunAt(fp) {
      assert InScope(rows[id], sc.kind, sc.id);
    }
  }

  lemma CountsOne(rows: Rows, e: Event, rows': Rows, fp: Fingerprint, st: ScopeState, g: seq<Finding>, gone: bool,
      d: Decision)
    requires PassOver(e, fp) && IsEvent(fp.metric) && fp == FingerprintOf(e.sc, fp.metric) && Keyed(rows)
    requires DecidedOn(e, st, fp.metric, g, gone, d) && EffectOn(rows, e, rows', fp.metric, d) && Unseen(e, fp, st, g)
    requires forall id :: id in rows && rows[id].fp == fp ==> rows[id].lastRunAt <= st.LastRunAt(fp)
    requires fp in st.open ==>
      st.open[fp].id in rows && rows[st.open[fp].id] == st.open[fp] && st.open[fp].state == StateOpen
      && st.open[fp].fp == fp
    ensures Counts(rows, e, rows', fp, g) && Remembers(rows, e, rows', fp)
      && (SeenByNow(rows, fp) ==> SeenByNow(rows', fp))
  {
    if g == [] {
      QuietCounts(rows, e, rows', fp, d);
    } else if d.Keep? {
      KeptCounts(rows, e, rows', fp, st, g, d);
    } else {
      OpenedCounts(rows, e, rows', fp, st, g, d);
    }
  }

  // ---- over a whole history -----------------------------------------------

  // What the rules keep to for one fingerprint: event findings in run order
  // about started runs.
  ghost predicate JudgedInOrder(events: seq<Event>, fp: Fingerprint, k: nat)
    requires k < |events|
  {
    PassOver(events[k], fp) ==>
      && fp == FingerprintOf(events[k].sc, fp.metric) && InRunOrder(events[k].found, fp.metric, events[k].now)
      && SoundFindings(events[k].found, events[k].absent)
  }

  lemma StepRemembers(rows: Rows, e: Event, rows': Rows, fp: Fingerprint)
    requires Keyed(rows) && OneOpenEach(rows) && Step(rows, e, rows') && IsEvent(fp.metric)
    requires PassOver(e, fp) ==>
      fp == FingerprintOf(e.sc, fp.metric) && InRunOrder(e.found, fp.metric, e.now) && SoundFindings(e.found, e.absent)
    ensures Remembers(rows, e, rows', fp) && (SeenByNow(rows, fp) ==> SeenByNow(rows', fp))
  {
    if PassOver(e, fp) {
      var counted := PassCounts(rows, e, rows', fp);
    } else if e.Pass? {
      forall id | id in rows && rows[id].fp == fp ensures id in rows' && rows'[id] == rows[id] {
        ElsewherePassed(rows, e, rows', id);
      }
      forall id | id in rows' && rows'[id].fp == fp ensures id in rows && rows[id].fp == fp && rows'[id] == rows[id] {
        NoneOpenedElsewhere(rows, e, rows', id, fp);
      }
    }
  }

  lemma NoneOpenedElsewhere(rows: Rows, e: Event, rows': Rows, id: string, fp: Fingerprint)
    requires Keyed(rows) && e.Pass? && Step(rows, e, rows') && !PassOver(e, fp) && id in rows' && rows'[id].fp == fp
    ensures id in rows && rows[id].fp == fp && rows'[id] == rows[id]
  {
    var st, g, gone, d := PassAbout(rows, e, rows', fp.metric);
    if id in rows {
      UntouchedElsewhere(rows, e, rows', fp.metric, d, id);
    }
  }

  // A counted run stays remembered: by a row that saw a run as new, or because
  // a pruning dropped everything as old as it.
  ghost predicate Remembered(events: seq<Event>, rows: Rows, fp: Fingerprint, at: int, k: nat)
    requires k <= |events|
  {
    || (exists id :: id in rows && rows[id].fp == fp && rows[id].lastRunAt >= at)
    || (exists p :: 0 <= p < k && events[p].Prune? && at < events[p].before)
  }

  lemma StepKeepsMemory(events: seq<Event>, rows: Rows, rows': Rows, fp: Fingerprint, at: int, k: nat)
    requires k < |events| && SeenByNow(rows, fp) && Remembers(rows, events[k], rows', fp)
    requires Remembered(events, rows, fp, at, k)
    ensures Remembered(events, rows', fp, at, k + 1)
  {
    if exists id :: id in rows && rows[id].fp == fp && rows[id].lastRunAt >= at {
      var id :| id in rows && rows[id].fp == fp && rows[id].lastRunAt >= at;
      if id !in rows' {
        assert events[k].Prune? && at < events[k].before;
      }
    }
  }

  lemma HistoryStepRemembers(events: seq<Event>, tables: seq<Rows>, fp: Fingerprint, k: nat)
    requires History(events, tables) && k < |events| && IsEvent(fp.metric) && JudgedInOrder(events, fp, k)
    ensures Remembers(tables[k], events[k], tables[k + 1], fp)
      && (SeenByNow(tables[k], fp) ==> SeenByNow(tables[k + 1], fp))
  {
    HistoryKeepsTable(events, tables, k);
    StepRemembers(tables[k], events[k], tables[k + 1], fp);
  }

  lemma {:induction false} SeenAlong(events: seq<Event>, tables: seq<Rows>, fp: Fingerprint, n: nat)
    requires History(events, tables) && n <= |events| && IsEvent(fp.metric) && SeenByNow(tables[0], fp)
    requires forall k :: 0 <= k < n ==> JudgedInOrder(events, fp, k)
    ensures SeenByNow(tables[n], fp)
  {
    if n > 0 {
      SeenAlong(events, tables, fp, n - 1);
      HistoryStepRemembers(events, tables, fp, n - 1);
    }
  }

  lemma MemoryStep(events: seq<Event>, tables: seq<Rows>, fp: Fingerprint, at: int, k: nat)
    requires History(events, tables) && k < |events| && IsEvent(fp.metric) && SeenByNow(tables[0], fp)
    requires forall l :: 0 <= l <= k ==> JudgedInOrder(events, fp, l)
    requires Remembered(events, tables[k], fp, at, k)
    ensures Remembered(events, tables[k + 1], fp, at, k + 1)
  {
    SeenAlong(events, tables, fp, k);
    HistoryStepRemembers(events, tables, fp, k);
    StepKeepsMemory(events, tables[k], tables[k + 1], fp, at, k);
  }

  lemma {:induction false} MemoryLasts(events: seq<Event>, tables: seq<Rows>, fp: Fingerprint, at: int, i: nat, j: nat)
    requires History(events, tables) && i <= j <= |events| && IsEvent(fp.metric) && SeenByNow(tables[0], fp)
    requires forall k :: 0 <= k < j ==> JudgedInOrder(events, fp, k)
    requires Remembered(events, tables[i], fp, at, i)
    ensures Remembered(events, tables[j], fp, at, j)
  {
    if i < j {
      MemoryLasts(events, tables, fp, at, i, j - 1);
      MemoryStep(events, tables, fp, at, j - 1);
    }
  }

  // ---- from where a pass judges ---------------------------------------------

  // What a pruning leaves.
  const KEEP_SECONDS := 90 * 86400

  // Passes may overlap, and one asked for in between may judge by a later clock
  // than one that finishes after it. No pass writes more than eighty-three days
  // after its clock was read, so a pruning before it leaves what it judges.
  ghost predicate PrunedBehind(events: seq<Event>) {
    forall p, k :: 0 <= p < k < |events| && events[p].Prune? && events[k].Pass? ==>
      PrunedAt(events[p]) <= events[k].now + (KEEP_SECONDS - AnomalyEngine.OPEN_SECONDS)
  }

  // When a pruning reads the clock; it reaches ninety days back.
  function PrunedAt(e: Event): int
    requires e.Prune?
  {
    e.before + KEEP_SECONDS
  }

  type Memory = map<AnomalyEngine.Scope, int>

  function SeriesOf(fp: Fingerprint): AnomalyEngine.Scope { ScopeLocks.Scope(fp.kind, fp.id) }

  // memory is what the process remembers of the series it judged: a pass
  // records the newest run it saw, and a restart, which may come at any time,
  // forgets everything. newest is the newest run of the series at each pass.
  ghost predicate Remembering(events: seq<Event>, memory: seq<Memory>, newest: seq<int>, fp: Fingerprint, k: nat)
    requires k < |events| && |memory| == |events| + 1 && |newest| == |events|
  {
    || SeriesOf(fp) !in memory[k + 1]
    || memory[k + 1]
       == (if PassOver(events[k], fp) then AnomalyEngine.Recorded(memory[k], SeriesOf(fp), newest[k]) else memory[k])
  }

  // A pass judges the runs of the series from where the process had come to.
  ghost predicate JudgedSince(events: seq<Event>, memory: seq<Memory>, newest: seq<int>, fp: Fingerprint, k: nat)
    requires k < |events| && |memory| == |events| + 1 && |newest| == |events|
  {
    PassOver(events[k], fp) ==> forall i :: 0 <= i < |events[k].found| && events[k].found[i].metric == fp.metric ==>
      AnomalyEngine.FromOf(memory[k], SeriesOf(fp), events[k].now) < events[k].found[i].runAt <= newest[k]
  }

  // The process forgot the series between two events.
  ghost predicate Forgot(memory: seq<Memory>, fp: Fingerprint, a: nat, b: nat)
    requires b < |memory|
  {
    exists r: nat :: a < r <= b && SeriesOf(fp) !in memory[r]
  }

  // The engine over a history: the rules' order, the memory, and a series
  // whose newest run has not moved back after a restart.
  ghost predicate Engine(events: seq<Event>, memory: seq<Memory>, newest: seq<int>, fp: Fingerprint) {
    && |memory| == |events| + 1 && |newest| == |events| && PrunedBehind(events)
    && (forall k :: 0 <= k < |events| ==> JudgedInOrder(events, fp, k))
    && (forall k :: 0 <= k < |events| ==> Remembering(events, memory, newest, fp, k))
    && (forall k :: 0 <= k < |events| ==> JudgedSince(events, memory, newest, fp, k))
    && forall a: nat, b: nat ::
         (a < b < |events| && PassOver(events[a], fp) && PassOver(events[b], fp) && Forgot(memory, fp, a, b))
         ==> newest[a] <= newest[b]
  }

  ghost predicate Covers(events: seq<Event>, memory: seq<Memory>, newest: seq<int>, fp: Fingerprint, k: nat)
    requires k <= |events| && |memory| == |events| + 1 && |newest| == |events|
  {
    SeriesOf(fp) in memory[k] ==> forall m :: 0 <= m < k && PassOver(events[m], fp) ==>
      newest[m] <= memory[k][SeriesOf(fp)]
  }

  // What the process remembers of a series covers every run an earlier pass
  // saw of it, before a restart or after.
  lemma {:induction false} MemoryCovers(events: seq<Event>, memory: seq<Memory>, newest: seq<int>, fp: Fingerprint,
      k: nat)
    requires Engine(events, memory, newest, fp) && k <= |events|
    requires SeriesOf(fp) !in memory[0]
    ensures Covers(events, memory, newest, fp, k)
  {
    if k > 0 {
      MemoryCovers(events, memory, newest, fp, k - 1);
      assert Remembering(events, memory, newest, fp, k - 1);
      if SeriesOf(fp) !in memory[k - 1] {
        var last := k - 1;
        forall m: nat | m < last ensures Forgot(memory, fp, m, last) {}
      }
    }
  }

  // A run a pass judges is newer than every run an earlier pass saw, or no
  // pruning has reached it: after a restart a pass goes back seven days, and a
  // pruning leaves ninety.
  lemma NewerOrRecent(events: seq<Event>, memory: seq<Memory>, newest: seq<int>, fp: Fingerprint, k: nat, f: Finding)
    requires Engine(events, memory, newest, fp) && k < |events| && SeriesOf(fp) !in memory[0]
    requires PassOver(events[k], fp) && f in events[k].found && f.metric == fp.metric
    ensures
      || (forall m :: 0 <= m < k && PassOver(events[m], fp) ==> newest[m] < f.runAt)
      || (forall p :: 0 <= p < k && events[p].Prune? ==> events[p].before <= f.runAt)
  {
    MemoryCovers(events, memory, newest, fp, k);
    assert JudgedSince(events, memory, newest, fp, k);
    var i :| 0 <= i < |events[k].found| && events[k].found[i] == f;
    forall p | 0 <= p < k && events[p].Prune?
      ensures events[p].before + AnomalyEngine.OPEN_SECONDS <= events[k].now {
      assert PrunedAt(events[p]) <= events[k].now + (KEEP_SECONDS - AnomalyEngine.OPEN_SECONDS);
    }
  }

  // Whatever windows later passes judge again, restarts included, a run that
  // was counted is older than every run counted after it: no run adds to the
  // occurrences of a second row, or to the same row twice.
  lemma NeverCountedTwice(events: seq<Event>, tables: seq<Rows>, memory: seq<Memory>, newest: seq<int>, fp: Fingerprint,
                          i: nat, j: nat, first: seq<Finding>, second: seq<Finding>)
    requires History(events, tables) && i < j < |events| && IsEvent(fp.metric) && SeenByNow(tables[0], fp)
    requires Engine(events, memory, newest, fp) && SeriesOf(fp) !in memory[0]
    requires Counts(tables[i], events[i], tables[i + 1], fp, first)
      && Counts(tables[j], events[j], tables[j + 1], fp, second)
    ensures forall a, b :: 0 <= a < |first| && 0 <= b < |second| ==> first[a].runAt < second[b].runAt
  {
    hide Step, Counts, Engine;
    RulesOf(events, memory, newest, fp);
    forall a, b | 0 <= a < |first| && 0 <= b < |second| ensures first[a].runAt < second[b].runAt {
      CountedIsJudged(tables[i], events[i], tables[i + 1], fp, first, a);
      CountedIsJudged(tables[j], events[j], tables[j + 1], fp, second, b);
      CountedWasSeen(events, memory, newest, fp, i, first[a]);
      NewerOrRecent(events, memory, newest, fp, j, second[b]);
      if newest[i] >= second[b].runAt {
        CountedIsRemembered(events, tables, fp, i, first, a);
        MemoryLasts(events, tables, fp, first[a].runAt, i + 1, j);
        CountedIsNewer(events, tables, fp, j, second, b, first[a].runAt);
      }
    }
  }

  lemma RulesOf(events: seq<Event>, memory: seq<Memory>, newest: seq<int>, fp: Fingerprint)
    requires Engine(events, memory, newest, fp)
    ensures |memory| == |events| + 1 && |newest| == |events| && forall k :: 0 <= k < |events| ==>
      JudgedInOrder(events, fp, k)
  {
  }

  lemma CountedIsJudged(rows: Rows, e: Event, rows': Rows, fp: Fingerprint, counted: seq<Finding>, a: nat)
    requires Counts(rows, e, rows', fp, counted) && a < |counted|
    ensures PassOver(e, fp) && counted[a] in e.found && counted[a].metric == fp.metric
  {
  }

  lemma CountedWasSeen(events: seq<Event>, memory: seq<Memory>, newest: seq<int>, fp: Fingerprint, i: nat, f: Finding)
    requires Engine(events, memory, newest, fp) && i < |events| && PassOver(events[i], fp) && f in events[i].found
      && f.metric == fp.metric
    ensures f.runAt <= newest[i]
  {
    assert JudgedSince(events, memory, newest, fp, i);
  }

  lemma CountedIsRemembered(events: seq<Event>, tables: seq<Rows>, fp: Fingerprint, i: nat, first: seq<Finding>, a: nat)
    requires i < |events| && |tables| == |events| + 1 && a < |first|
    requires Counts(tables[i], events[i], tables[i + 1], fp, first)
    ensures Remembered(events, tables[i + 1], fp, first[a].runAt, i + 1)
  {
    var id :| CountedOn(tables[i], tables[i + 1], fp, first, id);
  }

  lemma CountedIsNewer(events: seq<Event>, tables: seq<Rows>, fp: Fingerprint, j: nat, second: seq<Finding>, b: nat,
      at: int)
    requires j < |events| && |tables| == |events| + 1 && b < |second|
    requires Counts(tables[j], events[j], tables[j + 1], fp, second) && Remembered(events, tables[j], fp, at, j)
    requires forall p :: 0 <= p < j && events[p].Prune? ==> events[p].before <= second[b].runAt
    ensures at < second[b].runAt
  {
  }

  // What one series raises meets that order: its event findings are the
  // new-data findings, in run order and one per run.
  lemma ItemInRunOrder(input: ItemInput, m: Metric, now: int)
    requires IsEvent(m) && NewestFirst(input.newData) && forall r :: r in input.newData ==> r.startedAt <= now
    ensures InRunOrder(EvaluateItem(input).found, m, now)
    ensures forall f :: f in EvaluateItem(input).found && f.metric == m ==> f.runAt > input.evaluateFrom
  {
    hide DetectSource, DetectDuration, DetectReliability, NewDataFindings, Sound;
    var p := ParamsFor(input.sens);
    var fs, found := NewDataFindings(input, p), EvaluateItem(input).found;
    SourceSays(input, p, m);
    DurationSays(input, p, m);
    ReliabilitySays(input, p, m);
    NewDataInRunOrder(input, p);
    NewDataStarted(input, p, now);
    EventsLead(fs, DetectSource(input, p), DetectDuration(input, p), DetectReliability(input, p), m);
    assert found == fs + DetectSource(input, p).found + DetectDuration(input, p).found
      + DetectReliability(input, p).found;
    forall i | 0 <= i < |found| && found[i].metric == m ensures i < |fs| && found[i] == fs[i] {}
  }

  lemma NewDataStarted(input: ItemInput, p: Params, now: int)
    requires forall r :: r in input.newData ==> r.startedAt <= now
    ensures forall i :: 0 <= i < |NewDataFindings(input, p)| ==>
      var f := NewDataFindings(input, p)[i]; f.event && f.runAt <= now && f.runAt > input.evaluateFrom
  {
    var at := NewDataFrom(input, p);
    var rows := Reversed(input.newData);
    forall i | 0 <= i < |rows| ensures rows[i] in input.newData {}
  }

  lemma EventsLead(fs: seq<Finding>, a: Decided, b: Decided, c: Decided, m: Metric)
    requires !Raises(a, m) && !Raises(b, m) && !Raises(c, m)
    ensures var found := fs + a.found + b.found + c.found;
            forall i :: 0 <= i < |found| && found[i].metric == m ==> i < |fs| && found[i] == fs[i]
  {
  }

  // ---- what the rules raise, over whole histories ---------------------------

  // What a pass decided about: a series, a volume or the restore checks of one
  // key.
  datatype Judged = OfItem(input: ItemInput) | OfVolume(volume: VolumeInput) | OfChecks(key: DrillKey,
    checks: seq<Drill>)

  function Decision(j: Judged): Decided {
    match j
    case OfItem(input) => EvaluateItem(input)
    case OfVolume(volume) => DetectCapacity(volume)
    case OfChecks(key, checks) => DetectIntegrity(key, checks)
  }

  // The rules decided the pass.
  ghost predicate ByTheRules(e: Event, j: Judged) {
    e.Pass? ==> e.found == Decision(j).found && e.absent == Decision(j).absent
  }

  lemma RulesAreSound(e: Event, j: Judged)
    requires ByTheRules(e, j) && e.Pass?
    ensures SoundFindings(e.found, e.absent)
  {
    match j
    case OfItem(input) => ItemSays(input, SourceBytesShrink);
    case OfVolume(volume) => CapacityIsSound(volume);
    case OfChecks(key, checks) => IntegrityIsSound(key, checks);
  }

  // Over every history of passes the rules decided, prunings and actions on
  // other rows, an open rewrite keeps its hold.
  lemma RewriteHoldSurvivesTheRules(events: seq<Event>, tables: seq<Rows>, judged: seq<Judged>, id: string, n: nat)
    requires History(events, tables) && n <= |events| && HoldingRewrite(tables[0], id) && |judged| == |events|
    requires forall i :: 0 <= i < n ==> ByTheRules(events[i], judged[i])
    requires forall i :: 0 <= i < n && events[i].Settle? ==> id !in events[i].rowIDs
    ensures HoldingRewrite(tables[n], id)
  {
    hide ByTheRules, SoundFindings, HoldingRewrite, History;
    AllSound(events, judged, n);
    RewriteHoldSurvives(events, tables, id, n);
  }

  // And no open row of a condition stands beside a settled one.
  lemma SettledStaysClosedUnderTheRules(events: seq<Event>, tables: seq<Rows>, judged: seq<Judged>, n: nat)
    requires History(events, tables) && n <= |events| && SettledStaysSettled(tables[0]) && |judged| == |events|
    requires forall i :: 0 <= i < n ==> ByTheRules(events[i], judged[i])
    ensures SettledStaysSettled(tables[n])
  {
    hide ByTheRules, SoundFindings, SettledStaysSettled, History;
    AllSound(events, judged, n);
    SettledConditionsStayClosed(events, tables, n);
  }

  lemma AllSound(events: seq<Event>, judged: seq<Judged>, n: nat)
    requires n <= |events| == |judged| && forall i :: 0 <= i < n ==> ByTheRules(events[i], judged[i])
    ensures forall i :: 0 <= i < n && events[i].Pass? ==> SoundFindings(events[i].found, events[i].absent)
  {
    hide SoundFindings;
    forall i | 0 <= i < n && events[i].Pass? ensures SoundFindings(events[i].found, events[i].absent) {
      RulesAreSound(events[i], judged[i]);
    }
  }
}
