// What one pass does to the table, row by row: the lists of changes it writes
// and the statements the store runs amount to each row's own decision
// (anomaly_lifecycle.go, internal/store/anomalies.go).
module AnomalyPass {
  import opened Wrappers
  import opened Ordering
  import opened AnomalyTypes
  import opened AnomalyLifecycle
  import opened AnomalyStore

  function TargetOf(d: Decision): Option<string> {
    match d
    case Leave => None
    case Open(_) => None
    case Keep(r) => Some(r.id)
    case Reopen(previous, _) => Some(previous)
    case TouchSettled(t) => Some(t.id)
    case Recover(id) => Some(id)
    case Resolve(id) => Some(id)
    case Clear(id) => Some(id)
  }

  function EditOf(d: Decision): (e: Edit)
    requires TargetOf(d).Some?
    ensures e.Target() == TargetOf(d).value
  {
    match d
    case Keep(r) => DoRefresh(r)
    case Reopen(previous, _) => DoResolve(previous)
    case TouchSettled(t) => DoTouch(t)
    case Recover(id) => DoRecover(id)
    case Resolve(id) => DoResolve(id)
    case Clear(id) => DoClear(id)
  }

  function OpenedBy(d: Decision): Option<Row> {
    match d
    case Open(row) => Some(row)
    case Reopen(_, row) => Some(row)
    case _ => None
  }

  // What one decision makes of one row.
  function RowAfter(row: Row, d: Decision, now: int): Row {
    if TargetOf(d) == Some(row.id) then Edited(row, EditOf(d), now) else row
  }

  // ---- the statements that reach one row ----------------------------------

  function EditsFor(es: seq<Edit>, id: string): seq<Edit> {
    if es == [] then []
    else EditsFor(es[..|es| - 1], id) + (if es[|es| - 1].Target() == id then [es[|es| - 1]] else [])
  }

  lemma {:induction false} EditsForSum(a: seq<Edit>, b: seq<Edit>, id: string)
    ensures EditsFor(a + b, id) == EditsFor(a, id) + EditsFor(b, id)
  {
    if b == [] {
      assert a + b == a;
    } else {
      var n := |b| - 1;
      assert (a + b)[..|a + b| - 1] == a + b[..n];
      EditsForSum(a, b[..n], id);
    }
  }

  lemma EditsForMore(a: seq<Edit>, e: Edit, id: string)
    ensures EditsFor(a + [e], id) == EditsFor(a, id) + (if e.Target() == id then [e] else [])
  {
    assert (a + [e])[..|a|] == a;
  }

  lemma {:induction false} UntouchedRow(row: Row, id: string, es: seq<Edit>, now: int)
    requires EditsFor(es, id) == []
    ensures EditedBy(row, id, es, now) == row
  {
    if es != [] {
      UntouchedRow(row, id, es[..|es| - 1], now);
    }
  }

  lemma {:induction false} RowTouchedOnce(row: Row, id: string, es: seq<Edit>, e: Edit, now: int)
    requires EditsFor(es, id) == [e]
    ensures EditedBy(row, id, es, now) == Edited(row, e, now)
  {
    var n := |es| - 1;
    if es[n].Target() == id {
      assert |EditsFor(es[..n], id)| == 0;
      UntouchedRow(row, id, es[..n], now);
      assert EditsFor(es, id)[0] == es[n];
    } else {
      RowTouchedOnce(row, id, es[..n], e, now);
    }
  }

  // The statements of a pass that aim at one row, list by list.
  ghost function EditsOn(ch: Changes, id: string): seq<Edit> {
    Joined(EditsFor(Resolves(ch.resolve), id), EditsFor(Recovers(ch.recover), id), EditsFor(Clears(ch.clear), id),
           EditsFor(Touches(ch.touchClosed), id), EditsFor(Refreshes(ch.refresh), id))
  }

  ghost function Joined(a: seq<Edit>, b: seq<Edit>, c: seq<Edit>, d: seq<Edit>, e: seq<Edit>): (all: seq<Edit>)
    ensures all == [] ==> a == [] && b == [] && c == [] && d == [] && e == []
  {
    a + b + c + d + e
  }

  lemma EditsOnIs(ch: Changes, id: string)
    ensures EditsFor(EditsOf(ch), id) == EditsOn(ch, id)
  {
    var a, b, c, d, e :=
      Resolves(ch.resolve), Recovers(ch.recover), Clears(ch.clear), Touches(ch.touchClosed), Refreshes(ch.refresh);
    EditsForSum(a, b, id);
    EditsForSum(a + b, c, id);
    EditsForSum(a + b + c, d, id);
    EditsForSum(a + b + c + d, e, id);
  }

  lemma ResolvesMore(xs: seq<string>, x: string, id: string)
    ensures EditsFor(Resolves(xs + [x]), id) == EditsFor(Resolves(xs), id)
      + (if DoResolve(x).Target() == id then [DoResolve(x)] else [])
  {
    assert Resolves(xs + [x]) == Resolves(xs) + [DoResolve(x)];
    EditsForMore(Resolves(xs), DoResolve(x), id);
  }

  lemma RecoversMore(xs: seq<string>, x: string, id: string)
    ensures EditsFor(Recovers(xs + [x]), id) == EditsFor(Recovers(xs), id)
      + (if DoRecover(x).Target() == id then [DoRecover(x)] else [])
  {
    assert Recovers(xs + [x]) == Recovers(xs) + [DoRecover(x)];
    EditsForMore(Recovers(xs), DoRecover(x), id);
  }

  lemma ClearsMore(xs: seq<string>, x: string, id: string)
    ensures EditsFor(Clears(xs + [x]), id) == EditsFor(Clears(xs), id)
      + (if DoClear(x).Target() == id then [DoClear(x)] else [])
  {
    assert Clears(xs + [x]) == Clears(xs) + [DoClear(x)];
    EditsForMore(Clears(xs), DoClear(x), id);
  }

  lemma TouchesMore(xs: seq<Touch>, x: Touch, id: string)
    ensures EditsFor(Touches(xs + [x]), id) == EditsFor(Touches(xs), id)
      + (if DoTouch(x).Target() == id then [DoTouch(x)] else [])
  {
    assert Touches(xs + [x]) == Touches(xs) + [DoTouch(x)];
    EditsForMore(Touches(xs), DoTouch(x), id);
  }

  lemma RefreshesMore(xs: seq<Refresh>, x: Refresh, id: string)
    ensures EditsFor(Refreshes(xs + [x]), id) == EditsFor(Refreshes(xs), id)
      + (if DoRefresh(x).Target() == id then [DoRefresh(x)] else [])
  {
    assert Refreshes(xs + [x]) == Refreshes(xs) + [DoRefresh(x)];
    EditsForMore(Refreshes(xs), DoRefresh(x), id);
  }

  // Writing one more decision adds its statement for its row and none for any
  // other.
  ghost predicate AddsOwnEdit(on: Changes -> seq<Edit>, id: string, ch: Changes, d: Decision) {
    && (TargetOf(d) != Some(id) ==> on(Put(ch, d)) == on(ch))
    && (TargetOf(d) == Some(id) && on(ch) == [] ==> on(Put(ch, d)) == [EditOf(d)])
  }

  lemma PutResolve(ch: Changes, x: string, id: string)
    ensures AddsOwnEdit((c: Changes) => EditsOn(c, id), id, ch, Resolve(x))
  {
    ResolvesMore(ch.resolve, x, id);
    var more := ch.(resolve := ch.resolve + [x]);
    assert EditsOn(Put(ch, Resolve(x)), id) == EditsOn(more, id);
    if x != id {
      assert EditsFor(Resolves(more.resolve), id) == EditsFor(Resolves(ch.resolve), id);
    } else if EditsOn(ch, id) == [] {
      assert EditsFor(Resolves(more.resolve), id) == [DoResolve(x)];
    }
  }

  lemma PutRecover(ch: Changes, x: string, id: string)
    ensures AddsOwnEdit((c: Changes) => EditsOn(c, id), id, ch, Recover(x))
  {
    RecoversMore(ch.recover, x, id);
    var more := ch.(recover := ch.recover + [x]);
    assert EditsOn(Put(ch, Recover(x)), id) == EditsOn(more, id);
    if x != id {
      assert EditsFor(Recovers(more.recover), id) == EditsFor(Recovers(ch.recover), id);
    } else if EditsOn(ch, id) == [] {
      assert EditsFor(Recovers(more.recover), id) == [DoRecover(x)];
    }
  }

  lemma PutClear(ch: Changes, x: string, id: string)
    ensures AddsOwnEdit((c: Changes) => EditsOn(c, id), id, ch, Clear(x))
  {
    ClearsMore(ch.clear, x, id);
    var more := ch.(clear := ch.clear + [x]);
    assert EditsOn(Put(ch, Clear(x)), id) == EditsOn(more, id);
    if x != id {
      assert EditsFor(Clears(more.clear), id) == EditsFor(Clears(ch.clear), id);
    } else if EditsOn(ch, id) == [] {
      assert EditsFor(Clears(more.clear), id) == [DoClear(x)];
    }
  }

  lemma PutTouchSettled(ch: Changes, x: Touch, id: string)
    ensures AddsOwnEdit((c: Changes) => EditsOn(c, id), id, ch, TouchSettled(x))
  {
    TouchesMore(ch.touchClosed, x, id);
    var more := ch.(touchClosed := ch.touchClosed + [x]);
    assert EditsOn(Put(ch, TouchSettled(x)), id) == EditsOn(more, id);
    if x.id != id {
      assert EditsFor(Touches(more.touchClosed), id) == EditsFor(Touches(ch.touchClosed), id);
    } else if EditsOn(ch, id) == [] {
      assert EditsFor(Touches(more.touchClosed), id) == [DoTouch(x)];
    }
  }

  lemma PutKeep(ch: Changes, x: Refresh, id: string)
    ensures AddsOwnEdit((c: Changes) => EditsOn(c, id), id, ch, Keep(x))
  {
    RefreshesMore(ch.refresh, x, id);
    var more := ch.(refresh := ch.refresh + [x]);
    assert EditsOn(Put(ch, Keep(x)), id) == EditsOn(more, id);
    if x.id != id {
      assert EditsFor(Refreshes(more.refresh), id) == EditsFor(Refreshes(ch.refresh), id);
    } else if EditsOn(ch, id) == [] {
      assert EditsFor(Refreshes(more.refresh), id) == [DoRefresh(x)];
    }
  }

  lemma PutEdits(ch: Changes, d: Decision, id: string)
    ensures AddsOwnEdit((c: Changes) => EditsOn(c, id), id, ch, d)
  {
    match d
    case Leave =>
    case Open(_) =>
    case Keep(r) => PutKeep(ch, r, id);
    case Reopen(previous, row) =>
      PutResolve(ch, previous, id);
      assert EditsOn(Put(ch, d), id) == EditsOn(Put(ch, Resolve(previous)), id);
    case TouchSettled(t) => PutTouchSettled(ch, t, id);
    case Recover(k) => PutRecover(ch, k, id);
    case Resolve(k) => PutResolve(ch, k, id);
    case Clear(k) => PutClear(ch, k, id);
  }

  // Of everything a pass writes, one decision at most reaches a row.
  lemma {:induction false} OneEditEach(decide: Metric -> Decision, ms: seq<Metric>, id: string, m: Metric,
      on: Changes -> seq<Edit>)
    requires Distinct(ms) && on(NO_CHANGES) == []
    requires forall k :: TargetOf(decide(k)) == Some(id) ==> k == m
    requires forall ch, k :: AddsOwnEdit(on, id, ch, decide(k))
    ensures on(PutAll(decide, ms)) == if m in ms && TargetOf(decide(m)) == Some(id) then [EditOf(decide(m))] else []
  {
    if ms != [] {
      var n := |ms| - 1;
      OneEditEach(decide, ms[..n], id, m, on);
      assert AddsOwnEdit(on, id, PutAll(decide, ms[..n]), decide(ms[n]));
      assert ms == ms[..n] + [ms[n]];
    }
  }

  // ---- the rows a pass opens ----------------------------------------------

  lemma {:induction false} Openers(decide: Metric -> Decision, ms: seq<Metric>) returns (origin: seq<Metric>)
    requires Distinct(ms)
    ensures |origin| == |PutAll(decide, ms).insert| && Distinct(origin)
    ensures forall i :: 0 <= i < |origin| ==>
      origin[i] in ms && OpenedBy(decide(origin[i])) == Some(PutAll(decide, ms).insert[i])
    ensures forall m :: m in ms && OpenedBy(decide(m)).Some? ==> m in origin
  {
    origin := [];
    if ms != [] {
      var n := |ms| - 1;
      origin := Openers(decide, ms[..n]);
      assert ms == ms[..n] + [ms[n]];
      if OpenedBy(decide(ms[n])).Some? {
        origin := origin + [ms[n]];
      }
    }
  }

  lemma InsertsAreFew(decide: Metric -> Decision, ms: seq<Metric>)
    requires Distinct(ms)
    ensures |PutAll(decide, ms).insert| <= 18
  {
    var origin := Openers(decide, ms);
    forall i | 0 <= i < |origin| ensures origin[i] in Catalogue() {
      InCatalogue(origin[i]);
    }
    DistinctFits(origin, Catalogue());
  }

  function Catalogue(): (all: set<Metric>)
    ensures |all| <= 18
  {
    {NewData, NewDataRewrite, NewDataFull, SourceBytesShrink, SourceBytesGrowth, SourceFilesShrink, DumpBytesShrink,
      DumpBytesGrowth, DurationSlower}
    + {DumpDurationSlower, FailureStreak, Flaky, DumpFailureStreak, DumpFlaky, DrillSubset, DrillDR, CapacityEta,
      CapacityLow}
  }

  lemma InCatalogue(m: Metric)
    ensures m in Catalogue()
  {
    match m
    case NewData | NewDataRewrite | NewDataFull | SourceBytesShrink | SourceBytesGrowth | SourceFilesShrink
      | DumpBytesShrink | DumpBytesGrowth | DurationSlower =>
    case DumpDurationSlower | FailureStreak | Flaky | DumpFailureStreak | DumpFlaky | DrillSubset | DrillDR
      | CapacityEta | CapacityLow =>
  }

  lemma {:induction false} DistinctFits(xs: seq<Metric>, all: set<Metric>)
    requires Distinct(xs) && forall i :: 0 <= i < |xs| ==> xs[i] in all
    ensures |xs| <= |all|
  {
    if xs != [] {
      var n := |xs| - 1;
      DistinctFits(xs[..n], all - {xs[n]});
    }
  }

  // ---- the whole pass -----------------------------------------------------

  // Decisions that concern only rows of their own fingerprint.
  ghost predicate StaysHome(rows: Rows, sc: ScopeRef, decide: Metric -> Decision) {
    && (forall m :: TargetOf(decide(m)).Some? ==>
         TargetOf(decide(m)).value in rows && rows[TargetOf(decide(m)).value].fp == FingerprintOf(sc, m))
    && (forall m :: OpenedBy(decide(m)).Some? ==> OpenedBy(decide(m)).value.fp == FingerprintOf(sc, m))
  }

  ghost predicate Writes(rows: Rows, decide: Metric -> Decision, ch: Changes, ms: seq<Metric>, ids: seq<string>,
      now: int, rows': Rows) {
    WritesDecisions(decide, ch, ms) && FreshIds(rows, ids, |ch.insert|) && rows' == Applied(rows, ch, ids, now)
  }

  lemma OldRowAfter(rows: Rows, sc: ScopeRef, decide: Metric -> Decision, ch: Changes, ms: seq<Metric>,
      ids: seq<string>, now: int, rows': Rows, id: string)
    requires Keyed(rows) && StaysHome(rows, sc, decide) && Writes(rows, decide, ch, ms, ids, now, rows') && id in rows
    ensures id in rows' && rows'[id] == RowAfter(rows[id], decide(rows[id].fp.metric), now)
  {
    var m := rows[id].fp.metric;
    var on := (c: Changes) => EditsOn(c, id);
    forall c, k ensures AddsOwnEdit(on, id, c, decide(k)) {
      PutEdits(c, decide(k), id);
    }
    OneEditEach(decide, ms, id, m, on);
    assert EditsOn(ch, id) == on(ch);
    EditsOnIs(ch, id);
    if m in ms && TargetOf(decide(m)) == Some(id) {
      RowTouchedOnce(rows[id], id, EditsOf(ch), EditOf(decide(m)), now);
    } else {
      UntouchedRow(rows[id], id, EditsOf(ch), now);
    }
    InsertedRows(AfterEdits(rows, EditsOf(ch), now), ch.insert, ids);
  }

  // id is a row the pass opened for metric m.
  ghost predicate OpenedFor(rows: Rows, sc: ScopeRef, decide: Metric -> Decision, rows': Rows, id: string, m: Metric) {
    && id in rows' && id !in rows && OpenedBy(decide(m)).Some?
    && rows'[id] == Stored(OpenedBy(decide(m)).value, id) && rows'[id].fp == FingerprintOf(sc, m)
  }

  lemma NewRowsAfter(rows: Rows, sc: ScopeRef, decide: Metric -> Decision, ch: Changes, ms: seq<Metric>,
      ids: seq<string>, now: int, rows': Rows)
    returns (origin: seq<Metric>)
    requires StaysHome(rows, sc, decide) && Writes(rows, decide, ch, ms, ids, now, rows')
    ensures |origin| == |ids| && Distinct(origin)
    ensures forall i :: 0 <= i < |ids| ==> OpenedFor(rows, sc, decide, rows', ids[i], origin[i])
    ensures forall id :: id in rows' && id !in rows ==> id in ids
    ensures forall m :: OpenedBy(decide(m)).Some? ==> m in origin
  {
    origin := Openers(decide, ms);
    var edited := AfterEdits(rows, EditsOf(ch), now);
    InsertedRows(edited, ch.insert, ids);
    forall i | 0 <= i < |ids| ensures OpenedFor(rows, sc, decide, rows', ids[i], origin[i]) {
      assert rows'[ids[i]] == Stored(ch.insert[i], ids[i]);
    }
  }

  // The effect of a pass on the whole table: every row is left or gets its own
  // decision, and the new rows are the ones the decisions open, one each.
  ghost predicate PassEffect(rows: Rows, sc: ScopeRef, decide: Metric -> Decision, now: int, rows': Rows) {
    && (forall id :: id in rows ==> id in rows' && rows'[id] == RowAfter(rows[id], decide(rows[id].fp.metric), now))
    && (forall id :: id in rows' && id !in rows ==> OpenedFor(rows, sc, decide, rows', id, rows'[id].fp.metric))
    && (forall a, b :: a in rows' && b in rows' && a !in rows && b !in rows && rows'[a].fp == rows'[b].fp ==> a == b)
    && (forall m :: OpenedBy(decide(m)).Some? ==> exists id :: OpenedFor(rows, sc, decide, rows', id, m))
  }

  lemma PassHasEffect(rows: Rows, sc: ScopeRef, decide: Metric -> Decision, ch: Changes, ms: seq<Metric>,
      ids: seq<string>, now: int, rows': Rows)
    requires Keyed(rows) && StaysHome(rows, sc, decide) && Writes(rows, decide, ch, ms, ids, now, rows')
    ensures PassEffect(rows, sc, decide, now, rows')
  {
    hide RowAfter, Writes, Keyed, StaysHome, OpenedFor;
    forall id | id in rows ensures id in rows' && rows'[id] == RowAfter(rows[id], decide(rows[id].fp.metric), now) {
      OldRowAfter(rows, sc, decide, ch, ms, ids, now, rows', id);
    }
    var origin := NewRowsAfter(rows, sc, decide, ch, ms, ids, now, rows');
    NewRowsAreOwn(rows, sc, decide, rows', ids, origin);
  }

  // Every new row belongs to the metric whose decision opened it.
  lemma NewRowsAreOwn(rows: Rows, sc: ScopeRef, decide: Metric -> Decision, rows': Rows, ids: seq<string>,
      origin: seq<Metric>)
    requires |origin| == |ids| && Distinct(origin)
    requires forall i :: 0 <= i < |ids| ==> OpenedFor(rows, sc, decide, rows', ids[i], origin[i])
    requires forall id :: id in rows' && id !in rows ==> id in ids
    requires forall m :: OpenedBy(decide(m)).Some? ==> m in origin
    ensures forall id :: id in rows' && id !in rows ==> OpenedFor(rows, sc, decide, rows', id, rows'[id].fp.metric)
    ensures forall a, b :: a in rows' && b in rows' && a !in rows && b !in rows && rows'[a].fp == rows'[b].fp ==> a == b
    ensures forall m :: OpenedBy(decide(m)).Some? ==> exists id :: OpenedFor(rows, sc, decide, rows', id, m)
  {
    forall id | id in rows' && id !in rows ensures OpenedFor(rows, sc, decide, rows', id, rows'[id].fp.metric) {
      var i :| 0 <= i < |ids| && ids[i] == id;
      assert OpenedFor(rows, sc, decide, rows', ids[i], origin[i]);
    }
    forall a, b | a in rows' && b in rows' && a !in rows && b !in rows && rows'[a].fp == rows'[b].fp ensures a == b {
      var i :| 0 <= i < |ids| && ids[i] == a;
      var j :| 0 <= j < |ids| && ids[j] == b;
      assert OpenedFor(rows, sc, decide, rows', ids[i], origin[i])
        && OpenedFor(rows, sc, decide, rows', ids[j], origin[j]);
    }
    forall m | OpenedBy(decide(m)).Some? ensures exists id :: OpenedFor(rows, sc, decide, rows', id, m) {
      var i :| 0 <= i < |origin| && origin[i] == m;
      assert OpenedFor(rows, sc, decide, rows', ids[i], m);
    }
  }

  // ---- where decisions can aim --------------------------------------------

  // What the decision about m can be, by what is known of m's fingerprint.
  ghost predicate Plausible(d: Decision, sc: ScopeRef, st: ScopeState, m: Metric) {
    var fp := FingerprintOf(sc, m);
    && (TargetOf(d).Some? ==>
          if d.TouchSettled? || d.Clear? then fp !in st.open && fp in st.closed && TargetOf(d).value == st.closed[fp].id
          else fp in st.open && TargetOf(d).value == st.open[fp].id)
    && (OpenedBy(d).Some? ==>
         OpenedBy(d).value.fp == fp && OpenedBy(d).value.state == StateOpen && OpenedBy(d).value.recoveredAt == 0)
    && (d.Open? ==> fp !in st.open)
    && (d.Reopen? ==> st.open[fp].recoveredAt > 0)
    && (d.Keep? ==> st.open[fp].recoveredAt <= 0)
  }

  lemma FoundIsPlausible(sc: ScopeRef, g: seq<Finding>, st: ScopeState, now: int, m: Metric)
    requires g != [] && g[0].metric == m && g[|g| - 1].metric == m
    ensures Plausible(DecideFound(sc, g, st, now), sc, st, m)
  {
  }

  lemma GoneIsPlausible(sc: ScopeRef, st: ScopeState, m: Metric)
    ensures Plausible(DecideGone(sc, st, m), sc, st, m)
  {
  }

  lemma AgeIsPlausible(sc: ScopeRef, st: ScopeState, m: Metric, now: int)
    ensures Plausible(DecideAge(sc, st, m, now), sc, st, m)
  {
  }

  lemma DecisionIsPlausible(sc: ScopeRef, found: seq<Finding>, absent: seq<Absence>, st: ScopeState, now: int,
      m: Metric)
    ensures Plausible(Decide(sc, found, absent, st, now, m), sc, st, m)
  {
    var g := Raised(sc, found, st, m);
    if g != [] {
      FoundIsPlausible(sc, g, st, now, m);
    } else if Gone(absent, m) {
      GoneIsPlausible(sc, st, m);
    } else {
      AgeIsPlausible(sc, st, m, now);
    }
  }

  lemma DecisionsStayHome(rows: Rows, sc: ScopeRef, found: seq<Finding>, absent: seq<Absence>, st: ScopeState, now: int)
    requires Keyed(rows) && Reads(rows, sc.kind, sc.id, st)
    ensures StaysHome(rows, sc, Decisions(sc, found, absent, st, now))
  {
    var decide := Decisions(sc, found, absent, st, now);
    forall m ensures Plausible(decide(m), sc, st, m) {
      DecisionIsPlausible(sc, found, absent, st, now, m);
    }
    ReadRowsHome(rows, sc, st, decide);
  }

  lemma ReadRowsHome(rows: Rows, sc: ScopeRef, st: ScopeState, decide: Metric -> Decision)
    requires Reads(rows, sc.kind, sc.id, st) && forall m :: Plausible(decide(m), sc, st, m)
    ensures StaysHome(rows, sc, decide)
  {
    forall m | TargetOf(decide(m)).Some?
      ensures TargetOf(decide(m)).value in rows && rows[TargetOf(decide(m)).value].fp == FingerprintOf(sc, m)
    {
      assert Plausible(decide(m), sc, st, m);
    }
    forall m | OpenedBy(decide(m)).Some? ensures OpenedBy(decide(m)).value.fp == FingerprintOf(sc, m) {
      assert Plausible(decide(m), sc, st, m);
    }
  }
}
