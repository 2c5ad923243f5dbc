// The table the episodes live in (internal/store/anomalies.go): what a pass
// reads about a scope, how its changes are written, how a user settles rows
// and how old ones are pruned.
module AnomalyStore {
  import opened Wrappers
  import opened Ordering
  import opened AnomalyTypes
  import opened AnomalyLifecycle

  type Rows = map<string, Row>

  // ---- what a statement does to one row -----------------------------------

  datatype Edit =
    | DoResolve(id: string)
    | DoRecover(id: string)
    | DoClear(id: string)
    | DoTouch(touch: Touch)
    | DoRefresh(refresh: Refresh)
  {
    function Target(): string {
      match this
      case DoResolve(id) => id
      case DoRecover(id) => id
      case DoClear(id) => id
      case DoTouch(t) => t.id
      case DoRefresh(r) => r.id
    }
  }

  // The guard of each statement: a row a user closed in between is left alone.
  predicate Matches(row: Row, e: Edit) {
    match e
    case DoResolve(_) => row.state == StateOpen
    case DoRecover(_) => row.state == StateOpen
    case DoClear(_) => row.clearedAt == 0
    case DoTouch(_) => row.clearedAt == 0
    case DoRefresh(_) => row.state == StateOpen
  }

  // A severity only ever rises, and empty figures keep the stored ones.
  function Edited(row: Row, e: Edit, now: int): Row {
    if !Matches(row, e) then row
    else
      match e
      case DoResolve(_) => row.(state := StateResolved, resolvedAt := now, clearedAt := now)
      case DoRecover(_) => row.(recoveredAt := now)
      case DoClear(_) => row.(clearedAt := now)
      case DoTouch(t) => row.(lastSeenAt := t.lastSeenAt, observed := t.observed)
      case DoRefresh(r) =>
        row.(lastSeenAt := r.lastSeenAt, observed := r.observed, lastRunID := r.lastRunID, lastRunAt := r.lastRunAt,
             occurrences := row.occurrences + r.occurrencesDelta,
             details := if r.details == map[] then row.details else r.details,
             severity := if r.severity.Rank() > row.severity.Rank() then r.severity else row.severity)
  }

  function EditedBy(row: Row, id: string, es: seq<Edit>, now: int): Row {
    if es == [] then row
    else
      var before := EditedBy(row, id, es[..|es| - 1], now);
      if es[|es| - 1].Target() == id then Edited(before, es[|es| - 1], now) else before
  }

  // ---- one transaction ----------------------------------------------------

  function Resolves(ids: seq<string>): (es: seq<Edit>) ensures |es| == |ids| {
    seq(|ids|, i requires 0 <= i < |ids| => DoResolve(ids[i]))
  }
  function Recovers(ids: seq<string>): (es: seq<Edit>) ensures |es| == |ids| {
    seq(|ids|, i requires 0 <= i < |ids| => DoRecover(ids[i]))
  }
  function Clears(ids: seq<string>): (es: seq<Edit>) ensures |es| == |ids| {
    seq(|ids|, i requires 0 <= i < |ids| => DoClear(ids[i]))
  }
  function Touches(ts: seq<Touch>): (es: seq<Edit>) ensures |es| == |ts| {
    seq(|ts|, i requires 0 <= i < |ts| => DoTouch(ts[i]))
  }
  function Refreshes(rs: seq<Refresh>): (es: seq<Edit>) ensures |es| == |rs| {
    seq(|rs|, i requires 0 <= i < |rs| => DoRefresh(rs[i]))
  }

  // The statements of one pass in the order they run.
  function EditsOf(ch: Changes): seq<Edit> {
    Resolves(ch.resolve) + Recovers(ch.recover) + Clears(ch.clear) + Touches(ch.touchClosed) + Refreshes(ch.refresh)
  }

  function AfterEdits(rows: Rows, es: seq<Edit>, now: int): Rows {
    map id | id in rows :: EditedBy(rows[id], id, es, now)
  }

  // A new row under its new id; it starts with at least one occurrence.
  function Stored(row: Row, id: string): Row {
    row.(id := id, occurrences := if row.occurrences == 0 then 1 else row.occurrences)
  }

  ghost predicate FreshIds(rows: Rows, ids: seq<string>, n: nat) {
    |ids| == n && Distinct(ids) && forall i :: 0 <= i < |ids| ==> ids[i] !in rows
  }

  function Inserted(rows: Rows, inserts: seq<Row>, ids: seq<string>): Rows
    requires |inserts| == |ids|
  {
    if inserts == [] then rows
    else
      var n := |inserts| - 1;
      Inserted(rows, inserts[..n], ids[..n])[ids[n] := Stored(inserts[n], ids[n])]
  }

  function Applied(rows: Rows, ch: Changes, ids: seq<string>, now: int): Rows
    requires |ids| == |ch.insert|
  {
    Inserted(AfterEdits(rows, EditsOf(ch), now), ch.insert, ids)
  }

  // The partial unique index: at most one open row of a fingerprint.
  ghost predicate OneOpenEach(rows: Rows) {
    forall a, b ::
      (a in rows && b in rows && rows[a].state == StateOpen && rows[b].state == StateOpen && rows[a].fp == rows[b].fp)
      ==> a == b
  }

  lemma {:induction false} InsertedRows(rows: Rows, inserts: seq<Row>, ids: seq<string>)
    requires FreshIds(rows, ids, |inserts|)
    ensures forall id :: id in rows ==>
      id in Inserted(rows, inserts, ids) && Inserted(rows, inserts, ids)[id] == rows[id]
    ensures forall i :: 0 <= i < |ids| ==>
      ids[i] in Inserted(rows, inserts, ids) && Inserted(rows, inserts, ids)[ids[i]] == Stored(inserts[i], ids[i])
    ensures forall id :: id in Inserted(rows, inserts, ids) ==> id in rows || exists i :: 0 <= i < |ids| && ids[i] == id
  {
    if inserts != [] {
      var n := |inserts| - 1;
      InsertedRows(rows, inserts[..n], ids[..n]);
      forall i | 0 <= i < n ensures ids[..n][i] == ids[i] && inserts[..n][i] == inserts[i] {}
    }
  }

  // ---- what a pass reads --------------------------------------------------

  predicate InScope(row: Row, kind: string, id: string) { row.fp.kind == kind && row.fp.id == id }

  predicate Settled(row: Row) { (row.state == StateAcknowledged || row.state == StateExpected) && row.clearedAt == 0 }

  // st is what the table says about one scope.
  ghost predicate Reads(rows: Rows, kind: string, id: string, st: ScopeState) {
    && (forall fp :: fp in st.open ==>
          st.open[fp].id in rows && rows[st.open[fp].id] == st.open[fp] && st.open[fp].state == StateOpen
          && st.open[fp].fp == fp && InScope(st.open[fp], kind, id))
    && (forall k :: k in rows && InScope(rows[k], kind, id) && rows[k].state == StateOpen ==> rows[k].fp in st.open)
    && (forall fp :: fp in st.closed ==>
          st.closed[fp].id in rows && rows[st.closed[fp].id] == st.closed[fp] && Settled(st.closed[fp])
          && st.closed[fp].fp == fp && InScope(st.closed[fp], kind, id))
    && (forall k :: k in rows && InScope(rows[k], kind, id) && Settled(rows[k]) ==>
          rows[k].fp in st.closed && st.closed[rows[k].fp].lastSeenAt >= rows[k].lastSeenAt)
    && (forall k :: k in rows && InScope(rows[k], kind, id) ==> rows[k].lastRunAt <= st.LastRunAt(rows[k].fp))
    && (forall fp :: fp in st.lastRunAt ==>
          exists k ::
            k in rows && rows[k].fp == fp && InScope(rows[k], kind, id) && rows[k].lastRunAt == st.lastRunAt[fp])
    && (forall fp :: fp in st.lastRunAt ==> st.lastRunAt[fp] > 0)
  }

  // Every row stands under its own id and its detector follows its metric.
  ghost predicate Keyed(rows: Rows) {
    forall id :: id in rows ==> rows[id].id == id && rows[id].fp.detector == DetectorOf(rows[id].fp.metric)
  }

  // The query's answer: the scope's rows, the newest seen first.
  ghost predicate Lists(rows: Rows, kind: string, id: string, ordered: seq<Row>) {
    && (forall i :: 0 <= i < |ordered| ==>
         ordered[i].id in rows && rows[ordered[i].id] == ordered[i] && InScope(ordered[i], kind, id))
    && (forall k :: k in rows && InScope(rows[k], kind, id) ==> rows[k] in ordered)
    && (forall i, j :: 0 <= i < j < |ordered| ==> ordered[i].lastSeenAt >= ordered[j].lastSeenAt)
  }

  function ScanOne(st: ScopeState, a: Row): ScopeState {
    ScopeState(
      if a.state == StateOpen then st.open[a.fp := a] else st.open,
      if a.state != StateOpen && Settled(a) && a.fp !in st.closed then st.closed[a.fp := a] else st.closed,
      if a.lastRunAt > st.LastRunAt(a.fp) then st.lastRunAt[a.fp := a.lastRunAt] else st.lastRunAt)
  }

  function Scanned(xs: seq<Row>): ScopeState {
    if xs == [] then ScopeState(map[], map[], map[]) else ScanOne(Scanned(xs[..|xs| - 1]), xs[|xs| - 1])
  }

  lemma {:induction false} ScannedOpen(xs: seq<Row>)
    ensures var st := Scanned(xs);
            && (forall fp :: fp in st.open ==>
                 st.open[fp] in xs && st.open[fp].state == StateOpen && st.open[fp].fp == fp)
            && (forall r :: r in xs && r.state == StateOpen ==> r.fp in st.open)
  {
    if xs != [] {
      ScannedOpen(xs[..|xs| - 1]);
      assert xs == xs[..|xs| - 1] + [xs[|xs| - 1]];
    }
  }

  // The settled rows a scan of xs keeps: of each fingerprint the newest seen.
  ghost predicate NewestSettled(closed: map<Fingerprint, Row>, xs: seq<Row>) {
    && (forall fp :: fp in closed ==> closed[fp] in xs && Settled(closed[fp]) && closed[fp].fp == fp)
    && (forall r :: r in xs && Settled(r) ==> r.fp in closed && closed[r.fp].lastSeenAt >= r.lastSeenAt)
  }

  lemma {:induction false} ScannedClosed(xs: seq<Row>)
    requires forall i, j :: 0 <= i < j < |xs| ==> xs[i].lastSeenAt >= xs[j].lastSeenAt
    ensures NewestSettled(Scanned(xs).closed, xs)
  {
    hide NewestSettled, ScanOne;
    if xs == [] {
      NothingSettled();
    } else {
      var n := |xs| - 1;
      ScannedClosed(xs[..n]);
      assert xs == xs[..n] + [xs[n]];
      SettledOneMore(Scanned(xs[..n]), xs[..n], xs[n]);
    }
  }

  lemma NothingSettled()
    ensures NewestSettled(map[], [])
  {
  }

  lemma NoneSettled(rows: Rows, state: RowState, now: int)
    ensures SettledRows(rows, [], state, now) == rows
  {
  }

  lemma SettledOneMore(before: ScopeState, xs: seq<Row>, x: Row)
    requires NewestSettled(before.closed, xs) && forall i :: 0 <= i < |xs| ==> xs[i].lastSeenAt >= x.lastSeenAt
    ensures NewestSettled(ScanOne(before, x).closed, xs + [x])
  {
    forall r | r in xs + [x] ensures r in xs || r == x {}
  }

  lemma {:induction false} ScannedLastRun(xs: seq<Row>)
    ensures var st := Scanned(xs);
            && (forall fp :: fp in st.lastRunAt ==>
                 exists r :: r in xs && r.fp == fp && r.lastRunAt == st.lastRunAt[fp])
            && (forall r :: r in xs ==> r.lastRunAt <= st.LastRunAt(r.fp))
            && (forall fp :: fp in st.lastRunAt ==> st.lastRunAt[fp] > 0)
  {
    if xs != [] {
      var n := |xs| - 1;
      ScannedLastRun(xs[..n]);
      assert xs == xs[..n] + [xs[n]];
      var before, st := Scanned(xs[..n]), Scanned(xs);
      LastRunOfOne(before, xs[n]);
      forall fp | fp in st.lastRunAt ensures exists r :: r in xs && r.fp == fp && r.lastRunAt == st.lastRunAt[fp] {
        if fp == xs[n].fp && xs[n].lastRunAt > before.LastRunAt(fp) {
          assert xs[n] in xs;
        } else {
          var r :| r in xs[..n] && r.fp == fp && r.lastRunAt == before.lastRunAt[fp];
          assert r in xs;
        }
      }
      hide ScanOne;
    }
  }

  lemma LastRunOfOne(before: ScopeState, row: Row)
    requires forall fp :: fp in before.lastRunAt ==> before.lastRunAt[fp] > 0
    ensures var st := ScanOne(before, row);
      && (forall fp :: fp in st.lastRunAt ==> st.lastRunAt[fp] > 0)
      && st.LastRunAt(row.fp) >= row.lastRunAt
      && (forall fp :: st.LastRunAt(fp) >= before.LastRunAt(fp))
      && (forall fp :: fp != row.fp || row.lastRunAt <= before.LastRunAt(fp) ==>
           (fp in st.lastRunAt <==> fp in before.lastRunAt) && st.LastRunAt(fp) == before.LastRunAt(fp))
  {
  }

  lemma ScannedReads(rows: Rows, kind: string, id: string, ordered: seq<Row>)
    requires Lists(rows, kind, id, ordered)
    ensures Reads(rows, kind, id, Scanned(ordered))
  {
    ScannedOpen(ordered);
    ScannedClosed(ordered);
    ScannedLastRun(ordered);
    var st := Scanned(ordered);
    forall fp | fp in st.lastRunAt
      ensures exists k ::
        k in rows && rows[k].fp == fp && InScope(rows[k], kind, id) && rows[k].lastRunAt == st.lastRunAt[fp]
    {
      var r :| r in ordered && r.fp == fp && r.lastRunAt == st.lastRunAt[fp];
      assert rows[r.id] == r;
    }
  }

  class AnomalyRepo {
    var rows: Rows

    constructor (rows: Rows)
      ensures this.rows == rows
    {
      this.rows := rows;
    }

    // The loop over the scope's rows as the query returns them, the newest
    // seen first.
    method ScopeStateOf(kind: string, id: string, ordered: seq<Row>) returns (st: ScopeState)
      requires OneOpenEach(rows) && Keyed(rows) && Lists(rows, kind, id, ordered)
      ensures Reads(rows, kind, id, st)
    {
      st := ScopeState(map[], map[], map[]);
      for i := 0 to |ordered|
        invariant st == Scanned(ordered[..i])
      {
        assert ordered[..i + 1][..i] == ordered[..i];
        var a := ordered[i];
        if a.lastRunAt > st.LastRunAt(a.fp) {
          st := st.(lastRunAt := st.lastRunAt[a.fp := a.lastRunAt]);
        }
        if a.state == StateOpen {
          st := st.(open := st.open[a.fp := a]);
        } else if a.clearedAt == 0 && (a.state == StateAcknowledged || a.state == StateExpected) {
          if a.fp !in st.closed {
            st := st.(closed := st.closed[a.fp := a]);
          }
        }
      }
      assert ordered[..|ordered|] == ordered;
      ScannedReads(rows, kind, id, ordered);
    }

    // The statements of one kind, one after the other; the rows none of them
    // matched are stale.
    method RunEdits(es: seq<Edit>, now: int) returns (stale: seq<string>)
      modifies this
      ensures rows == AfterEdits(old(rows), es, now)
      ensures forall id :: id in stale ==> exists i :: 0 <= i < |es| && es[i].Target() == id
    {
      stale := [];
      assert rows == AfterEdits(old(rows), [], now);
      for i := 0 to |es|
        invariant rows == AfterEdits(old(rows), es[..i], now)
        invariant forall id :: id in stale ==> exists j :: 0 <= j < i && es[j].Target() == id
      {
        assert es[..i + 1][..i] == es[..i];
        var id := es[i].Target();
        if id in rows && Matches(rows[id], es[i]) {
          rows := rows[id := Edited(rows[id], es[i], now)];
        } else {
          stale := stale + [id];
        }
        assert rows == AfterEdits(old(rows), es[..i + 1], now);
      }
      assert es[..|es|] == es;
    }

    // One scope's whole pass in one transaction: resolve, recover, clear, touch,
    // refresh, insert. It is rolled back when a statement or the commit fails,
    // for which good is false, or when a second open row of a fingerprint
    // breaks the index.
    method ApplyAnomalyChanges(ch: Changes, ids: seq<string>, now: int, good: bool)
        returns (ok: bool, stale: seq<string>)
      requires FreshIds(rows, ids, |ch.insert|)
      modifies this
      ensures ok ==> good && rows == Applied(old(rows), ch, ids, now)
      ensures !ok ==> rows == old(rows) && (!good || !OneOpenEach(Applied(old(rows), ch, ids, now)))
    {
      hide AfterEdits, OneOpenEach, Inserted, EditsOf, FreshIds;
      var before := rows;
      var s1 := RunEdits(Resolves(ch.resolve), now);
      var s2 := RunEdits(Recovers(ch.recover), now);
      var s3 := RunEdits(Clears(ch.clear), now);
      var s4 := RunEdits(Touches(ch.touchClosed), now);
      var s5 := RunEdits(Refreshes(ch.refresh), now);
      stale := s1 + s2 + s3 + s4 + s5;
      FiveRuns(before, ch, now);
      SameIds(before, EditsOf(ch), now, ids, |ch.insert|);
      ok := InsertRows(ch.insert, ids);
      ok := ok && good;
      if !ok {
        rows := before;
        stale := [];
      }
    }

    method InsertRows(inserts: seq<Row>, ids: seq<string>) returns (ok: bool)
      requires FreshIds(rows, ids, |inserts|)
      modifies this
      ensures ok ==> rows == Inserted(old(rows), inserts, ids)
      ensures !ok ==> !OneOpenEach(Inserted(old(rows), inserts, ids))
    {
      hide OneOpenEach;
      ghost var edited := rows;
      for i := 0 to |inserts|
        invariant rows == Inserted(edited, inserts[..i], ids[..i])
      {
        assert inserts[..i + 1][..i] == inserts[..i] && ids[..i + 1][..i] == ids[..i];
        var a := Stored(inserts[i], ids[i]);
        if a.state == StateOpen && exists id :: id in rows && rows[id].state == StateOpen && rows[id].fp == a.fp {
          ghost var other :| other in rows && rows[other].state == StateOpen && rows[other].fp == a.fp;
          Clash(edited, inserts, ids, i, other);
          return false;
        }
        rows := rows[ids[i] := a];
      }
      assert inserts[..|inserts|] == inserts && ids[..|ids|] == ids;
      ok := true;
    }

    // A user's acknowledge or mark-as-expected: only open rows change.
    method CloseAnomalies(ids: seq<string>, state: RowState, now: int) returns (closed: seq<string>)
      requires state == StateAcknowledged || state == StateExpected
      modifies this
      ensures rows == SettledRows(old(rows), ids, state, now)
      ensures forall id :: id in closed <==> id in ids && id in old(rows) && old(rows)[id].state == StateOpen
      ensures forall i, j :: 0 <= i < j < |closed| ==> closed[i] != closed[j]
    {
      hide SettledRows;
      NoneSettled(rows, state, now);
      closed := [];
      for i := 0 to |ids|
        invariant rows == SettledRows(old(rows), ids[..i], state, now)
        invariant forall id :: id in closed <==> id in ids[..i] && id in old(rows) && old(rows)[id].state == StateOpen
        invariant forall a, b :: 0 <= a < b < |closed| ==> closed[a] != closed[b]
      {
        var id := ids[i];
        ClosedOneMore(old(rows), ids, i, state, now);
        if id in rows && rows[id].state == StateOpen {
          rows := rows[id := rows[id].(state := state, ackedAt := now)];
          closed := closed + [id];
        }
      }
      assert ids[..|ids|] == ids;
    }

    // Drops the closed findings last touched before the cutoff.
    method PruneAnomalies(before: int)
      modifies this
      ensures rows == Pruned(old(rows), before)
    {
      rows := map id | id in rows && !Prunable(rows[id], before) :: rows[id];
    }
  }

  function SettledRows(rows: Rows, ids: seq<string>, state: RowState, now: int): Rows {
    map id | id in rows ::
      if id in ids && rows[id].state == StateOpen then rows[id].(state := state, ackedAt := now) else rows[id]
  }

  lemma ClosedOneMore(rows: Rows, ids: seq<string>, i: nat, state: RowState, now: int)
    requires i < |ids| && state != StateOpen
    ensures
      var so, id := SettledRows(rows, ids[..i], state, now), ids[i];
      && (id in so && so[id].state == StateOpen <==> id in rows && rows[id].state == StateOpen && id !in ids[..i])
      && SettledRows(rows, ids[..i + 1], state, now) ==
           if id in so && so[id].state == StateOpen then so[id := so[id].(state := state, ackedAt := now)] else so
    ensures forall id :: id in ids[..i + 1] <==> id in ids[..i] || id == ids[i]
  {
    assert ids[..i + 1] == ids[..i] + [ids[i]];
  }

  predicate Prunable(row: Row, before: int) {
    row.state != StateOpen && !Settled(row) && row.resolvedAt < before && row.ackedAt < before
      && row.lastSeenAt < before
  }

  function Pruned(rows: Rows, before: int): Rows {
    map id | id in rows && !Prunable(rows[id], before) :: rows[id]
  }

  lemma {:induction false} EditsInTurn(row: Row, id: string, a: seq<Edit>, b: seq<Edit>, now: int)
    ensures EditedBy(row, id, a + b, now) == EditedBy(EditedBy(row, id, a, now), id, b, now)
  {
    if b == [] {
      assert a + b == a;
    } else {
      var n := |b| - 1;
      assert (a + b)[..|a + b| - 1] == a + b[..n];
      EditsInTurn(row, id, a, b[..n], now);
    }
  }

  lemma RunsInTurn(rows: Rows, a: seq<Edit>, b: seq<Edit>, now: int)
    ensures AfterEdits(AfterEdits(rows, a, now), b, now) == AfterEdits(rows, a + b, now)
  {
    forall id | id in rows
      ensures EditedBy(rows[id], id, a + b, now) == EditedBy(EditedBy(rows[id], id, a, now), id, b, now) {
      EditsInTurn(rows[id], id, a, b, now);
    }
  }

  lemma FiveRuns(rows: Rows, ch: Changes, now: int)
    ensures
      var resolved := AfterEdits(rows, Resolves(ch.resolve), now);
      var recovered := AfterEdits(resolved, Recovers(ch.recover), now);
      var cleared := AfterEdits(recovered, Clears(ch.clear), now);
      var touched := AfterEdits(cleared, Touches(ch.touchClosed), now);
      AfterEdits(touched, Refreshes(ch.refresh), now) == AfterEdits(rows, EditsOf(ch), now)
  {
    var a, b, c, d, e :=
      Resolves(ch.resolve), Recovers(ch.recover), Clears(ch.clear), Touches(ch.touchClosed), Refreshes(ch.refresh);
    RunsInTurn(rows, a, b, now);
    RunsInTurn(rows, a + b, c, now);
    RunsInTurn(rows, a + b + c, d, now);
    RunsInTurn(rows, a + b + c + d, e, now);
  }

  lemma SameIds(rows: Rows, es: seq<Edit>, now: int, ids: seq<string>, n: nat)
    requires FreshIds(rows, ids, n)
    ensures FreshIds(AfterEdits(rows, es, now), ids, n)
  {
  }

  lemma Clash(rows: Rows, inserts: seq<Row>, ids: seq<string>, i: nat, id: string)
    requires FreshIds(rows, ids, |inserts|) && i < |inserts| && inserts[i].state == StateOpen
    requires var so := Inserted(rows, inserts[..i], ids[..i]);
      id in so && so[id].state == StateOpen && so[id].fp == inserts[i].fp
    ensures !OneOpenEach(Inserted(rows, inserts, ids))
  {
    var so, all := Inserted(rows, inserts[..i], ids[..i]), Inserted(rows, inserts, ids);
    InsertedRows(rows, inserts[..i], ids[..i]);
    InsertedRows(rows, inserts, ids);
    var k := ids[i];
    assert all[k] == Stored(inserts[i], k);
    assert id in all && all[id] == so[id] && id != k by {
      if id !in rows {
        var j :| 0 <= j < i && ids[..i][j] == id;
        assert ids[j] == id && all[ids[j]] == Stored(inserts[j], ids[j])
          && so[ids[..i][j]] == Stored(inserts[..i][j], ids[..i][j]);
      }
    }
  }
}
