// Whole histories of passes, user actions and prunings over the table of
// episodes, and what no sequence of them can break (anomaly_lifecycle.go,
// anomaly_engine.go, anomaly.go, internal/store/anomalies.go).
module AnomalyEpisodes {
  import opened Wrappers
  import opened AnomalyTypes
  import opened AnomalyLifecycle
  import opened AnomalyStore
  import opened AnomalyPass

  // One thing that happens to the table: a pass over a scope with what the
  // rules found, a user settling rows, or the daily pruning.
  datatype Event =
    | Pass(sc: ScopeRef, found: seq<Finding>, absent: seq<Absence>, now: int, ids: seq<string>)
    | Settle(rowIDs: seq<string>, expected: bool, at: int)
    | Prune(before: int)

  ghost function DecisionsOf(e: Event, st: ScopeState): Metric -> Decision
    requires e.Pass?
  {
    Decisions(e.sc, e.found, e.absent, st, e.now)
  }

  ghost predicate PassStep(rows: Rows, e: Event, rows': Rows, st: ScopeState, ch: Changes, ms: seq<Metric>)
    requires e.Pass?
  {
    Reads(rows, e.sc.kind, e.sc.id, st) && Writes(rows, DecisionsOf(e, st), ch, ms, e.ids, e.now, rows')
  }

  ghost predicate Step(rows: Rows, e: Event, rows': Rows) {
    match e
    case Pass(_, _, _, _, _) => exists st, ch, ms :: PassStep(rows, e, rows', st, ch, ms)
    case Settle(rowIDs, expected, at) =>
      rows' == SettledRows(rows, rowIDs, if expected then StateExpected else StateAcknowledged, at)
    case Prune(before) => rows' == Pruned(rows, before)
  }

  // The decision d about metric m, raised by the findings g or gone, in what it
  // can mean for the rows of the fingerprint.
  ghost predicate DecidedOn(e: Event, st: ScopeState, m: Metric, g: seq<Finding>, gone: bool, d: Decision)
    requires e.Pass?
  {
    var fp := FingerprintOf(e.sc, m);
    && Plausible(d, e.sc, st, m)
    && (g != [] && fp in st.open ==> if st.open[fp].recoveredAt > 0 then d.Reopen? else d.Keep?)
    && (g != [] && fp !in st.open ==> if fp in st.closed && !g[|g| - 1].event then d.TouchSettled? else d.Open?)
    && (g == [] && gone ==> d == DecideGone(e.sc, st, m))
    && (g == [] && !gone ==> d == DecideAge(e.sc, st, m, e.now))
    && (d.Keep? ==> g != [] && CarriesNewest(d.refresh, g, st.open[fp], e.now))
    && (OpenedBy(d).Some? ==> g != [] && OpenedBy(d).value == NewRow(e.sc, g[|g| - 1], |g|, e.now))
  }

  ghost predicate CarriesNewest(r: Refresh, g: seq<Finding>, open: Row, now: int)
    requires g != []
  {
    var newest := g[|g| - 1];
    && r.lastRunAt == newest.runAt && r.lastRunID == newest.runID && r.severity == newest.severity
       && r.lastSeenAt == now
    && r.occurrencesDelta == |Since(g, open.lastRunAt)|
    && r.details == KeepLastGood(newest.details, open.details)
  }

  lemma FoundDecided(e: Event, st: ScopeState, m: Metric, g: seq<Finding>)
    requires e.Pass? && g != [] && g[0].metric == m && g[|g| - 1].metric == m
    ensures DecidedOn(e, st, m, g, true, DecideFound(e.sc, g, st, e.now))
      && DecidedOn(e, st, m, g, false, DecideFound(e.sc, g, st, e.now))
  {
    FoundIsPlausible(e.sc, g, st, e.now, m);
  }

  lemma GoneDecided(e: Event, st: ScopeState, m: Metric)
    requires e.Pass?
    ensures DecidedOn(e, st, m, [], true, DecideGone(e.sc, st, m))
  {
    GoneIsPlausible(e.sc, st, m);
  }

  lemma AgeDecided(e: Event, st: ScopeState, m: Metric)
    requires e.Pass?
    ensures DecidedOn(e, st, m, [], false, DecideAge(e.sc, st, m, e.now))
  {
    AgeIsPlausible(e.sc, st, m, e.now);
  }

  lemma DecisionDecided(e: Event, st: ScopeState, m: Metric)
    requires e.Pass?
    ensures DecidedOn(e, st, m, Raised(e.sc, e.found, st, m), Gone(e.absent, m),
      Decide(e.sc, e.found, e.absent, st, e.now, m))
  {
    var g := Raised(e.sc, e.found, st, m);
    if g != [] {
      FoundDecided(e, st, m, g);
    } else if Gone(e.absent, m) {
      GoneDecided(e, st, m);
    } else {
      AgeDecided(e, st, m);
    }
  }

  // What a pass does to the rows of one metric: every old one is left or gets
  // the decision, and the decision opens at most one new one.
  ghost predicate EffectOn(rows: Rows, e: Event, rows': Rows, m: Metric, d: Decision)
    requires e.Pass?
  {
    && (forall id :: id in rows ==> id in rows' && rows'[id].fp == rows[id].fp && rows'[id].id == rows[id].id)
    && (forall id :: id in rows && rows[id].fp.metric == m ==> rows'[id] == RowAfter(rows[id], d, e.now))
    && (forall id :: id in rows' && id !in rows && rows'[id].fp.metric == m ==>
          OpenedBy(d).Some? && rows'[id] == Stored(OpenedBy(d).value, id) && rows'[id].fp == FingerprintOf(e.sc, m))
    && (forall a, b :: a in rows' && b in rows' && a !in rows && b !in rows && rows'[a].fp == rows'[b].fp ==> a == b)
    && (OpenedBy(d).Some? ==> exists id :: id in rows' && id !in rows && rows'[id] == Stored(OpenedBy(d).value, id))
    && (TargetOf(d).Some? ==> TargetOf(d).value in rows && rows[TargetOf(d).value].fp == FingerprintOf(e.sc, m))
  }

  lemma RowAfterKeepsKey(row: Row, d: Decision, now: int)
    ensures RowAfter(row, d, now).fp == row.fp && RowAfter(row, d, now).id == row.id
  {
  }

  lemma OldRowsOfOne(rows: Rows, e: Event, rows': Rows, m: Metric, decide: Metric -> Decision)
    requires e.Pass? && PassEffect(rows, e.sc, decide, e.now, rows')
    ensures forall id :: id in rows ==> id in rows' && rows'[id].fp == rows[id].fp && rows'[id].id == rows[id].id
    ensures forall id :: id in rows && rows[id].fp.metric == m ==> rows'[id] == RowAfter(rows[id], decide(m), e.now)
  {
    hide RowAfter, OpenedFor;
    forall id | id in rows ensures id in rows' && rows'[id].fp == rows[id].fp && rows'[id].id == rows[id].id {
      RowAfterKeepsKey(rows[id], decide(rows[id].fp.metric), e.now);
    }
  }

  lemma NewRowsOfOne(rows: Rows, e: Event, rows': Rows, m: Metric, decide: Metric -> Decision)
    requires e.Pass? && PassEffect(rows, e.sc, decide, e.now, rows')
    ensures forall id :: id in rows' && id !in rows && rows'[id].fp.metric == m ==>
      OpenedBy(decide(m)).Some? && rows'[id] == Stored(OpenedBy(decide(m)).value, id)
        && rows'[id].fp == FingerprintOf(e.sc, m)
    ensures OpenedBy(decide(m)).Some? ==>
      exists id :: id in rows' && id !in rows && rows'[id] == Stored(OpenedBy(decide(m)).value, id)
  {
    hide RowAfter, Stored;
    forall id | id in rows' && id !in rows && rows'[id].fp.metric == m
      ensures OpenedBy(decide(m)).Some? && rows'[id] == Stored(OpenedBy(decide(m)).value, id)
        && rows'[id].fp == FingerprintOf(e.sc, m)
    {
      assert OpenedFor(rows, e.sc, decide, rows', id, m);
    }
    if OpenedBy(decide(m)).Some? {
      var id :| OpenedFor(rows, e.sc, decide, rows', id, m);
    }
  }

  lemma EffectOfOne(rows: Rows, e: Event, rows': Rows, m: Metric, decide: Metric -> Decision)
    requires e.Pass? && PassEffect(rows, e.sc, decide, e.now, rows') && StaysHome(rows, e.sc, decide)
    ensures EffectOn(rows, e, rows', m, decide(m))
  {
    hide RowAfter, Stored, OpenedFor;
    OldRowsOfOne(rows, e, rows', m, decide);
    NewRowsOfOne(rows, e, rows', m, decide);
  }

  // What a pass decided about one metric reaches the rows of that metric.
  lemma PassDecides(rows: Rows, e: Event, rows': Rows, m: Metric) returns (st: ScopeState)
    requires e.Pass? && Keyed(rows) && Step(rows, e, rows')
    ensures Reads(rows, e.sc.kind, e.sc.id, st)
    ensures EffectOn(rows, e, rows', m, Decide(e.sc, e.found, e.absent, st, e.now, m))
  {
    hide Decide;
    var ch, ms;
    st, ch, ms :| PassStep(rows, e, rows', st, ch, ms);
    var decide := DecisionsOf(e, st);
    DecisionsStayHome(rows, e.sc, e.found, e.absent, st, e.now);
    PassHasEffect(rows, e.sc, decide, ch, ms, e.ids, e.now, rows');
    EffectOfOne(rows, e, rows', m, decide);
  }

  // A pass, looked at one metric at a time.
  lemma PassAbout(rows: Rows, e: Event, rows': Rows, m: Metric)
      returns (st: ScopeState, g: seq<Finding>, gone: bool, d: Decision)
    requires e.Pass? && Keyed(rows) && Step(rows, e, rows')
    ensures Reads(rows, e.sc.kind, e.sc.id, st)
    ensures g == Raised(e.sc, e.found, st, m) && (gone <==> Gone(e.absent, m))
    ensures DecidedOn(e, st, m, g, gone, d) && EffectOn(rows, e, rows', m, d)
  {
    hide Decide, Step;
    st := PassDecides(rows, e, rows', m);
    DecisionDecided(e, st, m);
    g, gone, d := Raised(e.sc, e.found, st, m), Gone(e.absent, m), Decide(e.sc, e.found, e.absent, st, e.now, m);
  }

  // The open row of a fingerprint is the one the pass reads.
  lemma ReadsTheOpenRow(rows: Rows, sc: ScopeRef, st: ScopeState, id: string)
    requires OneOpenEach(rows) && Reads(rows, sc.kind, sc.id, st)
    requires id in rows && rows[id].state == StateOpen && rows[id].id == id && rows[id].fp.kind == sc.kind
      && rows[id].fp.id == sc.id
    ensures rows[id].fp in st.open && st.open[rows[id].fp] == rows[id]
  {
    assert InScope(rows[id], sc.kind, sc.id);
  }

  // ---- at most one open row -----------------------------------------------

  // Where a pass opens a row, the row that was open closes.
  lemma OpenRowMakesWay(rows: Rows, e: Event, rows': Rows, st: ScopeState, d: Decision, a: string, b: string)
    requires e.Pass? && Keyed(rows) && OneOpenEach(rows) && Reads(rows, e.sc.kind, e.sc.id, st)
    requires a in rows && b in rows' && b !in rows && a in rows' && rows'[a].fp == rows'[b].fp
    requires Plausible(d, e.sc, st, rows'[b].fp.metric) && EffectOn(rows, e, rows', rows'[b].fp.metric, d)
    ensures rows'[a].state != StateOpen
  {
    if rows[a].state == StateOpen {
      ReadsTheOpenRow(rows, e.sc, st, a);
    }
  }

  lemma OneOpenAfter(rows: Rows, e: Event, rows': Rows, st: ScopeState, d: Decision, a: string, b: string)
    requires e.Pass? && Keyed(rows) && OneOpenEach(rows) && Reads(rows, e.sc.kind, e.sc.id, st)
    requires a in rows' && b in rows' && rows'[a].fp == rows'[b].fp && rows'[a].state == StateOpen
      && rows'[b].state == StateOpen
    requires Plausible(d, e.sc, st, rows'[a].fp.metric) && EffectOn(rows, e, rows', rows'[a].fp.metric, d)
    ensures a == b
  {
    hide Reads, Plausible;
    if a in rows && b in rows {
      WasOpen(rows, e, rows', d, a);
      WasOpen(rows, e, rows', d, b);
    } else if a in rows {
      OpenRowMakesWay(rows, e, rows', st, d, a, b);
    } else if b in rows {
      OpenRowMakesWay(rows, e, rows', st, d, b, a);
    }
  }

  // No decision opens a row again.
  lemma WasOpen(rows: Rows, e: Event, rows': Rows, d: Decision, a: string)
    requires e.Pass? && a in rows && a in rows' && rows'[a].state == StateOpen
    requires EffectOn(rows, e, rows', rows'[a].fp.metric, d)
    ensures rows[a].state == StateOpen && rows[a].fp == rows'[a].fp
  {
  }

  lemma StaysKeyed(rows: Rows, e: Event, rows': Rows, d: Decision, id: string)
    requires e.Pass? && Keyed(rows) && id in rows' && EffectOn(rows, e, rows', rows'[id].fp.metric, d)
    ensures rows'[id].id == id && rows'[id].fp.detector == DetectorOf(rows'[id].fp.metric)
  {
  }

  lemma PlausibleWhenDecided(e: Event, st: ScopeState, m: Metric, g: seq<Finding>, gone: bool, d: Decision)
    requires e.Pass? && DecidedOn(e, st, m, g, gone, d)
    ensures Plausible(d, e.sc, st, m)
  {
  }

  lemma PassKeepsTable(rows: Rows, e: Event, rows': Rows)
    requires e.Pass? && Keyed(rows) && OneOpenEach(rows) && Step(rows, e, rows')
    ensures Keyed(rows') && OneOpenEach(rows')
  {
    hide Step, DecidedOn, EffectOn, Reads, Plausible;
    forall id | id in rows' ensures rows'[id].id == id && rows'[id].fp.detector == DetectorOf(rows'[id].fp.metric) {
      var st, g, gone, d := PassAbout(rows, e, rows', rows'[id].fp.metric);
      StaysKeyed(rows, e, rows', d, id);
    }
    forall a, b | a in rows' && b in rows' && rows'[a].fp == rows'[b].fp && rows'[a].state == StateOpen
      && rows'[b].state == StateOpen
      ensures a == b
    {
      var st, g, gone, d := PassAbout(rows, e, rows', rows'[a].fp.metric);
      PlausibleWhenDecided(e, st, rows'[a].fp.metric, g, gone, d);
      OneOpenAfter(rows, e, rows', st, d, a, b);
    }
  }

  // What every step keeps: rows under their ids, one open row a fingerprint.
  lemma StepKeepsTable(rows: Rows, e: Event, rows': Rows)
    requires Keyed(rows) && OneOpenEach(rows) && Step(rows, e, rows')
    ensures Keyed(rows') && OneOpenEach(rows')
  {
    if e.Pass? {
      PassKeepsTable(rows, e, rows');
    }
  }

  // The pass as the engine runs it: read the scope, decide, write. It is a
  // step of the history when the statements of its transaction go through, the
  // unique index never stops it, and it is no step at all when they do not.
  method RunPass(repo: AnomalyRepo, sc: ScopeRef, ordered: seq<Row>, found: seq<Finding>, absent: seq<Absence>,
      now: int, ids: seq<string>, good: bool)
    returns (ok: bool, used: seq<string>, stale: seq<string>)
    requires OneOpenEach(repo.rows) && Keyed(repo.rows) && Lists(repo.rows, sc.kind, sc.id, ordered)
    requires FreshIds(repo.rows, ids, 18)
    modifies repo
    ensures ok == good && used <= ids
    ensures if ok then Step(old(repo.rows), Pass(sc, found, absent, now, used), repo.rows)
      else repo.rows == old(repo.rows)
    ensures Keyed(repo.rows) && OneOpenEach(repo.rows)
  {
    hide Step, Keyed, OneOpenEach, Applied, WritesDecisions, Reads, Lists, FreshIds, OfScope;
    var st := repo.ScopeStateOf(sc.kind, sc.id, ordered);
    ReadsItsScope(repo.rows, sc, st);
    var ch := ApplyFindings(sc, found, absent, st, now);
    ghost var ms: seq<Metric> :| WritesDecisions(Decisions(sc, found, absent, st, now), ch, ms);
    used := UsedIds(sc, found, absent, st, now, ch, ms, repo.rows, ids);
    WritesAreAStep(repo.rows, sc, found, absent, now, used, st, ch, ms);
    ok, stale := repo.ApplyAnomalyChanges(ch, used, now, good);
  }

  lemma ReadsItsScope(rows: Rows, sc: ScopeRef, st: ScopeState)
    requires Keyed(rows) && Reads(rows, sc.kind, sc.id, st)
    ensures OfScope(sc, st)
  {
  }

  // One new id for every row a pass inserts, which are few.
  method UsedIds(sc: ScopeRef, found: seq<Finding>, absent: seq<Absence>, st: ScopeState, now: int, ch: Changes,
      ghost ms: seq<Metric>, rows: Rows, ids: seq<string>)
    returns (used: seq<string>)
    requires WritesDecisions(Decisions(sc, found, absent, st, now), ch, ms) && FreshIds(rows, ids, 18)
    ensures used <= ids && FreshIds(rows, used, |ch.insert|)
  {
    InsertsAreFew(Decisions(sc, found, absent, st, now), ms);
    used := ids[..|ch.insert|];
  }

  // Writing what the lifecycle decided is a step of the history.
  lemma WritesAreAStep(rows: Rows, sc: ScopeRef, found: seq<Finding>, absent: seq<Absence>, now: int,
      used: seq<string>, st: ScopeState, ch: Changes, ms: seq<Metric>)
    requires Keyed(rows) && OneOpenEach(rows) && Reads(rows, sc.kind, sc.id, st)
    requires WritesDecisions(Decisions(sc, found, absent, st, now), ch, ms) && FreshIds(rows, used, |ch.insert|)
    ensures Step(rows, Pass(sc, found, absent, now, used), Applied(rows, ch, used, now))
    ensures Keyed(Applied(rows, ch, used, now)) && OneOpenEach(Applied(rows, ch, used, now))
  {
    var e, after := Pass(sc, found, absent, now, used), Applied(rows, ch, used, now);
    assert PassStep(rows, e, after, st, ch, ms);
    StepKeepsTable(rows, e, after);
  }

  // ---- histories ----------------------------------------------------------

  ghost predicate History(events: seq<Event>, tables: seq<Rows>) {
    && |tables| == |events| + 1
    && Keyed(tables[0]) && OneOpenEach(tables[0])
    && forall i :: 0 <= i < |events| ==> Step(tables[i], events[i], tables[i + 1])
  }

  lemma {:induction false} HistoryKeepsTable(events: seq<Event>, tables: seq<Rows>, i: nat)
    requires History(events, tables) && i <= |events|
    ensures Keyed(tables[i]) && OneOpenEach(tables[i])
  {
    hide Step, Keyed, OneOpenEach;
    if i > 0 {
      HistoryKeepsTable(events, tables, i - 1);
      StepKeepsTable(tables[i - 1], events[i - 1], tables[i]);
    }
  }

  // ---- what an episode never loses ----------------------------------------

  // What no step ever changes about an episode, and what only grows. The last
  // good backup is among it: its run as recorded when the episode opened, its
  // time from the moment the figures carry one.
  ghost predicate SameEpisode(before: Row, after: Row) {
    && after.id == before.id && after.fp == before.fp && after.firstSeenAt == before.firstSeenAt
    && after.runID == before.runID && after.lastGoodRunID == before.lastGoodRunID
    && after.expected == before.expected && after.threshold == before.threshold && after.samples == before.samples
    && ("lastGoodAt" in before.details ==>
         "lastGoodAt" in after.details && after.details["lastGoodAt"] == before.details["lastGoodAt"])
    && after.severity.Rank() >= before.severity.Rank() && after.occurrences >= before.occurrences
    && (before.state != StateOpen ==> after.state == before.state)
  }

  lemma DecisionKeepsEpisode(rows: Rows, e: Event, st: ScopeState, g: seq<Finding>, gone: bool, d: Decision, id: string)
    requires e.Pass? && Keyed(rows) && Reads(rows, e.sc.kind, e.sc.id, st) && id in rows
    requires DecidedOn(e, st, rows[id].fp.metric, g, gone, d)
    requires TargetOf(d).Some? ==>
      TargetOf(d).value in rows && rows[TargetOf(d).value].fp == FingerprintOf(e.sc, rows[id].fp.metric)
    ensures SameEpisode(rows[id], RowAfter(rows[id], d, e.now))
  {
    hide Reads, Keyed;
    if d.Keep? && TargetOf(d) == Some(rows[id].id) {
      TargetIsTheOpenRow(rows, e, st, d, id);
      RefreshKeepsEpisode(rows[id], d.refresh, e.now);
    }
  }

  lemma TargetIsTheOpenRow(rows: Rows, e: Event, st: ScopeState, d: Decision, id: string)
    requires e.Pass? && Keyed(rows) && Reads(rows, e.sc.kind, e.sc.id, st) && id in rows && d.Keep?
      && TargetOf(d) == Some(rows[id].id)
    requires Plausible(d, e.sc, st, rows[id].fp.metric)
    ensures st.open[FingerprintOf(e.sc, rows[id].fp.metric)] == rows[id]
  {
  }

  lemma RefreshKeepsEpisode(row: Row, r: Refresh, now: int)
    requires r.occurrencesDelta >= 0 && exists figures: Details :: r.details == KeepLastGood(figures, row.details)
    ensures SameEpisode(row, Edited(row, DoRefresh(r), now))
  {
  }

  lemma StepKeepsEpisode(rows: Rows, e: Event, rows': Rows, id: string)
    requires Keyed(rows) && OneOpenEach(rows) && Step(rows, e, rows') && id in rows && id in rows'
    ensures SameEpisode(rows[id], rows'[id])
  {
    if e.Pass? {
      var st, g, gone, d := PassAbout(rows, e, rows', rows[id].fp.metric);
      DecisionKeepsEpisode(rows, e, st, g, gone, d, id);
    }
  }

  lemma SameEpisodeChain(a: Row, b: Row, c: Row)
    requires SameEpisode(a, b) && SameEpisode(b, c)
    ensures SameEpisode(a, c)
  {
  }

  lemma HistoryStepKeepsEpisode(events: seq<Event>, tables: seq<Rows>, id: string, i: nat)
    requires History(events, tables) && i < |events| && id in tables[i] && id in tables[i + 1]
    ensures SameEpisode(tables[i][id], tables[i + 1][id])
  {
    HistoryKeepsTable(events, tables, i);
    StepKeepsEpisode(tables[i], events[i], tables[i + 1], id);
  }

  // Over any history, as long as the row is not pruned.
  lemma {:induction false} LastGoodNeverMoves(events: seq<Event>, tables: seq<Rows>, id: string, n: nat)
    requires History(events, tables) && n <= |events| && forall i :: 0 <= i <= n ==> id in tables[i]
    ensures SameEpisode(tables[0][id], tables[n][id])
  {
    if n > 0 {
      LastGoodNeverMoves(events, tables, id, n - 1);
      assert id in tables[n - 1] && id in tables[n];
      HistoryStepKeepsEpisode(events, tables, id, n - 1);
      SameEpisodeChain(tables[0][id], tables[n - 1][id], tables[n][id]);
    }
  }

  // The pass refreshes the row with figures that have a last good time.
  ghost predicate RefreshedWithLastGood(e: Event, row: Row)
    requires e.Pass?
  {
    && row.state == StateOpen && row.recoveredAt <= 0 && row.fp == FingerprintOf(e.sc, row.fp.metric)
    && var g := Group(e.found, row.fp.metric); g != [] && "lastGoodAt" in g[|g| - 1].details
  }

  // An episode that opened without a last good time gets one in exactly such a
  // pass.
  lemma GainsLastGood(rows: Rows, e: Event, rows': Rows, id: string)
    requires e.Pass? && Keyed(rows) && OneOpenEach(rows) && Step(rows, e, rows') && SoundFindings(e.found, e.absent)
    requires id in rows && !IsEvent(rows[id].fp.metric) && "lastGoodAt" !in rows[id].details
    ensures id in rows' && ("lastGoodAt" in rows'[id].details <==> RefreshedWithLastGood(e, rows[id]))
  {
    hide OneOpenEach, Step;
    var m := rows[id].fp.metric;
    var st, g, gone, d := PassAbout(rows, e, rows', m);
    assert g == Group(e.found, m);
    if rows[id].state == StateOpen && rows[id].fp == FingerprintOf(e.sc, m) {
      ReadsTheOpenRow(rows, e.sc, st, id);
    }
    OnlyKeepGains(rows, e, st, g, gone, d, id);
  }

  lemma OnlyKeepGains(rows: Rows, e: Event, st: ScopeState, g: seq<Finding>, gone: bool, d: Decision, id: string)
    requires e.Pass? && Keyed(rows) && Reads(rows, e.sc.kind, e.sc.id, st) && id in rows
      && "lastGoodAt" !in rows[id].details
    requires DecidedOn(e, st, rows[id].fp.metric, g, gone, d) && g == Group(e.found, rows[id].fp.metric)
    requires rows[id].state == StateOpen && rows[id].fp == FingerprintOf(e.sc, rows[id].fp.metric) ==>
      rows[id].fp in st.open && st.open[rows[id].fp] == rows[id]
    requires TargetOf(d).Some? ==>
      TargetOf(d).value in rows && rows[TargetOf(d).value].fp == FingerprintOf(e.sc, rows[id].fp.metric)
    ensures "lastGoodAt" in RowAfter(rows[id], d, e.now).details <==> RefreshedWithLastGood(e, rows[id])
  {
  }

  // And there is such a pass: a shrink that opened with no good backup behind
  // it is found again with one.
  method LastGoodIsAdded(ids: seq<string>) returns (before: Row, after: Row)
    requires FreshIds(map["r" := OLD_SHRINK], ids, 18)
    ensures before == OLD_SHRINK && "lastGoodAt" !in before.details && after.id == before.id
      && "lastGoodAt" in after.details
  {
    hide Keyed, OneOpenEach, Lists, Step, FreshIds, RefreshedWithLastGood, SoundFindings, Group;
    before := OLD_SHRINK;
    OldShrinkAlone();
    var repo := new AnomalyRepo(map["r" := before]);
    ghost var rows := repo.rows;
    var ok, used, _ := RunPass(repo, SHRINK_SCOPE, [before], [SHRINK_AGAIN], [], 400, ids, true);
    ShrinkIsRefreshed(used);
    GainsLastGood(rows, Pass(SHRINK_SCOPE, [SHRINK_AGAIN], [], 400, used), repo.rows, "r");
    RowKeepsId(repo.rows, "r");
    after := repo.rows["r"];
  }

  lemma OldShrinkAlone()
    ensures var rows := map["r" := OLD_SHRINK];
      Keyed(rows) && OneOpenEach(rows) && Lists(rows, "item", "a", [OLD_SHRINK])
  {
  }

  lemma ShrinkIsRefreshed(used: seq<string>)
    ensures RefreshedWithLastGood(Pass(SHRINK_SCOPE, [SHRINK_AGAIN], [], 400, used), OLD_SHRINK)
      && SoundFindings([SHRINK_AGAIN], [])
  {
    GroupOfOne(SHRINK_AGAIN);
    hide Group;
    var g := Group([SHRINK_AGAIN], SourceBytesShrink);
    assert g[|g| - 1].details == map["lastGoodAt" := Num(100.0)];
  }

  lemma GroupOfOne(f: Finding)
    ensures Group([f], f.metric) == [f]
  {
    assert [f][..0] == [];
  }

  lemma RowKeepsId(rows: Rows, id: string)
    requires Keyed(rows) && id in rows
    ensures rows[id].id == id
  {
  }

  const SHRINK_SCOPE := ScopeRef("item", "a", "a", "container", "normal")

  const SHRINK_AGAIN := Finding(
    SourceBytesShrink, Warning, "run3", "run1", "run2", 300, 5.0, 10.0, 8.0, 10, map["lastGoodAt" := Num(100.0)], false)

  const OLD_SHRINK := Row(
    "r", Fingerprint(SourceRule, "item", "a", SourceBytesShrink), Warning, StateOpen, "a", "container",
    "run2", "run2", "", 200, 5.0, 10.0, 8.0, 10, "normal", map["ratio" := Num(0.5)], 1, 200, 200, 0, 0, 0, 0)

  // ---- a rewrite hold -----------------------------------------------------

  // The predicate behind a retention hold.
  predicate AnomalyHolds(row: Row, enabled: bool, retentionHold: bool) {
    enabled && retentionHold && row.state == StateOpen && row.severity == Critical && row.recoveredAt == 0
      && Holding(row.fp.metric)
  }

  ghost predicate HoldingRewrite(rows: Rows, id: string) {
    id in rows && rows[id].fp.metric == NewDataRewrite && AnomalyHolds(rows[id], true, true)
  }

  // A pass can only leave or refresh the row of a standing rewrite.
  lemma RewriteOnlyRefreshed(rows: Rows, e: Event, st: ScopeState, g: seq<Finding>, d: Decision, id: string)
    requires e.Pass? && Reads(rows, e.sc.kind, e.sc.id, st) && DecidedOn(e, st, NewDataRewrite, g, false, d)
    requires HoldingRewrite(rows, id) && rows[id].id == id
    ensures HoldingRewrite(rows[id := RowAfter(rows[id], d, e.now)], id)
  {
  }

  lemma StepKeepsRewriteHold(rows: Rows, e: Event, rows': Rows, id: string)
    requires Keyed(rows) && OneOpenEach(rows) && Step(rows, e, rows') && HoldingRewrite(rows, id)
    requires e.Pass? ==> SoundFindings(e.found, e.absent)
    requires e.Settle? ==> id !in e.rowIDs
    ensures HoldingRewrite(rows', id)
  {
    if e.Pass? {
      var st, g, gone, d := PassAbout(rows, e, rows', NewDataRewrite);
      assert !gone;
      RewriteOnlyRefreshed(rows, e, st, g, d, id);
    }
  }

  // Over any sequence of passes, prunings and actions on other rows, the hold
  // stands; only an action that names the row ends it.
  lemma {:induction false} RewriteHoldSurvives(events: seq<Event>, tables: seq<Rows>, id: string, n: nat)
    requires History(events, tables) && n <= |events| && HoldingRewrite(tables[0], id)
    requires forall i :: 0 <= i < n && events[i].Pass? ==> SoundFindings(events[i].found, events[i].absent)
    requires forall i :: 0 <= i < n && events[i].Settle? ==> id !in events[i].rowIDs
    ensures HoldingRewrite(tables[n], id)
  {
    if n > 0 {
      RewriteHoldSurvives(events, tables, id, n - 1);
      HistoryKeepsTable(events, tables, n - 1);
      StepKeepsRewriteHold(tables[n - 1], events[n - 1], tables[n], id);
    }
  }

  // Naming the row is what releases it, and releases no other.
  lemma SettlingEndsHold(rows: Rows, e: Event, rows': Rows, id: string, enabled: bool, hold: bool)
    requires e.Settle? && Step(rows, e, rows') && id in rows
    ensures AnomalyHolds(rows'[id], enabled, hold) <==> AnomalyHolds(rows[id], enabled, hold) && id !in e.rowIDs
  {
  }

  // ---- a settled condition ------------------------------------------------

  // No condition has an open row next to a settled, uncleared one.
  ghost predicate SettledStaysSettled(rows: Rows) {
    forall a, b ::
      a in rows && b in rows && rows[a].fp == rows[b].fp && !IsEvent(rows[a].fp.metric) && Settled(rows[b]) ==>
      rows[a].state != StateOpen
  }

  lemma {:induction false} RaisedCondition(sc: ScopeRef, found: seq<Finding>, absent: seq<Absence>, st: ScopeState,
      m: Metric)
    requires SoundFindings(found, absent) && !IsEvent(m)
    ensures var g := Raised(sc, found, st, m); g == Group(found, m) && (g != [] ==> !g[|g| - 1].event)
  {
    var g := Group(found, m);
    if g != [] {
      assert g[0] in found && g[|g| - 1] in found;
    }
  }

  // While a condition is settled, a pass touches the settled row, clears it the
  // first time the condition is gone, and otherwise does nothing.
  lemma SettledOnlyTouched(rows: Rows, e: Event, rows': Rows, m: Metric) returns (st: ScopeState, d: Decision)
    requires e.Pass? && Keyed(rows) && Step(rows, e, rows') && SoundFindings(e.found, e.absent) && !IsEvent(m)
    ensures Reads(rows, e.sc.kind, e.sc.id, st) && EffectOn(rows, e, rows', m, d) && Plausible(d, e.sc, st, m)
    ensures FingerprintOf(e.sc, m) !in st.open && FingerprintOf(e.sc, m) in st.closed ==>
              if Group(e.found, m) != [] then d.TouchSettled? else if Gone(e.absent, m) then d.Clear? else d.Leave?
  {
    var g, gone;
    st, g, gone, d := PassAbout(rows, e, rows', m);
    RaisedCondition(e.sc, e.found, e.absent, st, m);
  }

  lemma StepKeepsSettled(rows: Rows, e: Event, rows': Rows)
    requires Keyed(rows) && OneOpenEach(rows) && SettledStaysSettled(rows) && Step(rows, e, rows')
    requires e.Pass? ==> SoundFindings(e.found, e.absent)
    ensures SettledStaysSettled(rows')
  {
    if e.Pass? {
      forall a, b | a in rows' && b in rows' && rows'[a].fp == rows'[b].fp && !IsEvent(rows'[a].fp.metric)
        && Settled(rows'[b])
        ensures rows'[a].state != StateOpen
      {
        PassKeepsSettled(rows, e, rows', a, b);
      }
    }
  }

  lemma PassKeepsSettled(rows: Rows, e: Event, rows': Rows, a: string, b: string)
    requires e.Pass? && Keyed(rows) && SettledStaysSettled(rows) && Step(rows, e, rows')
      && SoundFindings(e.found, e.absent)
    requires a in rows' && b in rows' && rows'[a].fp == rows'[b].fp && !IsEvent(rows'[a].fp.metric) && Settled(rows'[b])
    ensures rows'[a].state != StateOpen
  {
    var st, d := SettledOnlyTouched(rows, e, rows', rows'[a].fp.metric);
    OpensOnlyUnsettled(rows, e, rows', st, d, a, b);
  }

  lemma SettledIsRead(rows: Rows, sc: ScopeRef, st: ScopeState, b: string)
    requires Reads(rows, sc.kind, sc.id, st) && b in rows && Settled(rows[b])
    requires rows[b].fp.kind == sc.kind && rows[b].fp.id == sc.id
    ensures rows[b].fp in st.closed
  {
    assert InScope(rows[b], sc.kind, sc.id);
  }

  lemma OpensOnlyUnsettled(rows: Rows, e: Event, rows': Rows, st: ScopeState, d: Decision, a: string, b: string)
    requires e.Pass? && Keyed(rows) && SettledStaysSettled(rows) && Reads(rows, e.sc.kind, e.sc.id, st)
    requires a in rows' && b in rows' && rows'[a].fp == rows'[b].fp && !IsEvent(rows'[a].fp.metric) && Settled(rows'[b])
    requires (a in rows ==> rows[a].fp.metric == rows'[a].fp.metric) && (b in rows ==> rows[b].fp == rows'[b].fp)
    requires EffectOn(rows, e, rows', rows'[a].fp.metric, d) && Plausible(d, e.sc, st, rows'[a].fp.metric)
    requires
      var fp := FingerprintOf(e.sc, rows'[a].fp.metric);
      fp !in st.open && fp in st.closed ==> OpenedBy(d).None?
    ensures rows'[a].state != StateOpen
  {
    hide Reads, Plausible, SettledStaysSettled, Settled, EffectOn;
    SettledWas(rows, e, rows', st, d, b);
    if a in rows {
      if rows'[a].state == StateOpen {
        WasOpen(rows, e, rows', d, a);
        SettledBarsOpen(rows, a, b);
      }
    } else {
      NewRowsAreOpened(rows, e, rows', d, a);
      OpensNothing(rows, e, st, d, b);
    }
  }

  // A settled row was settled before the pass.
  lemma SettledWas(rows: Rows, e: Event, rows': Rows, st: ScopeState, d: Decision, b: string)
    requires e.Pass? && b in rows' && Settled(rows'[b]) && EffectOn(rows, e, rows', rows'[b].fp.metric, d)
    requires Plausible(d, e.sc, st, rows'[b].fp.metric)
    requires b in rows ==> rows[b].fp == rows'[b].fp
    ensures b in rows && Settled(rows[b])
  {
  }

  // Where a condition is settled no row of it is open and none is opened.
  lemma OpensNothing(rows: Rows, e: Event, st: ScopeState, d: Decision, b: string)
    requires e.Pass? && SettledStaysSettled(rows) && Reads(rows, e.sc.kind, e.sc.id, st) && b in rows
      && Settled(rows[b])
    requires rows[b].fp == FingerprintOf(e.sc, rows[b].fp.metric) && !IsEvent(rows[b].fp.metric)
    requires Plausible(d, e.sc, st, rows[b].fp.metric)
      && (rows[b].fp !in st.open && rows[b].fp in st.closed ==> OpenedBy(d).None?)
    ensures OpenedBy(d).None?
  {
    hide Plausible;
    SettledIsRead(rows, e.sc, st, b);
    NoneOpenBesideSettled(rows, e, st, b);
  }

  lemma NoneOpenBesideSettled(rows: Rows, e: Event, st: ScopeState, b: string)
    requires e.Pass? && SettledStaysSettled(rows) && Reads(rows, e.sc.kind, e.sc.id, st) && b in rows
      && Settled(rows[b])
    requires !IsEvent(rows[b].fp.metric)
    ensures rows[b].fp !in st.open
  {
    if rows[b].fp in st.open {
      SettledBarsOpen(rows, st.open[rows[b].fp].id, b);
    }
  }

  lemma NewRowsAreOpened(rows: Rows, e: Event, rows': Rows, d: Decision, a: string)
    requires e.Pass? && a in rows' && a !in rows && EffectOn(rows, e, rows', rows'[a].fp.metric, d)
    ensures OpenedBy(d).Some? && rows'[a].fp == FingerprintOf(e.sc, rows'[a].fp.metric)
  {
  }

  lemma SettledBarsOpen(rows: Rows, a: string, b: string)
    requires SettledStaysSettled(rows) && a in rows && b in rows && rows[a].fp == rows[b].fp
      && !IsEvent(rows[a].fp.metric)
    requires Settled(rows[b])
    ensures rows[a].state != StateOpen
  {
  }

  // A condition a user settled is not raised again while it is there: along
  // every history no open row of it stands beside the settled one.
  lemma {:induction false} SettledConditionsStayClosed(events: seq<Event>, tables: seq<Rows>, n: nat)
    requires History(events, tables) && n <= |events| && SettledStaysSettled(tables[0])
    requires forall i :: 0 <= i < n && events[i].Pass? ==> SoundFindings(events[i].found, events[i].absent)
    ensures SettledStaysSettled(tables[n])
  {
    if n > 0 {
      SettledConditionsStayClosed(events, tables, n - 1);
      HistoryKeepsTable(events, tables, n - 1);
      StepKeepsSettled(tables[n - 1], events[n - 1], tables[n]);
    }
  }
}
