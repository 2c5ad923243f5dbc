// A user's acknowledge or mark-as-expected over a list of findings
// (anomaly.go): which of them it closes, what it reports, and which retention
// holds it releases while passes change the table in between.
module AnomalyActions {
  import opened Wrappers
  import opened Ordering
  import opened AnomalyTypes
  import opened AnomalyStore
  import opened AnomalyEpisodes

  const ACTION_LIMIT := 500

  // The ids of a request, each once, in the order they first came.
  function Deduped(ids: seq<string>): (r: seq<string>)
    ensures Distinct(r)
    ensures forall id :: id in r <==> id in ids && id != ""
  {
    if ids == [] then []
    else
      var last := ids[|ids| - 1];
      var rest := Deduped(ids[..|ids| - 1]);
      assert forall id :: id in ids <==> id in ids[..|ids| - 1] || id == last;
      if last != "" && last !in rest then rest + [last] else rest
  }

  method DedupedIDs(ids: seq<string>) returns (out: seq<string>)
    ensures out == Deduped(ids)
  {
    out := [];
    for i := 0 to |ids|
      invariant out == Deduped(ids[..i])
    {
      assert ids[..i + 1][..i] == ids[..i];
      if ids[i] != "" && ids[i] !in out {
        out := out + [ids[i]];
      }
    }
    assert ids[..|ids|] == ids;
  }

  // Only the rules with a family can be marked as the new normal.
  predicate Expectable(m: Metric) {
    m in {NewData, NewDataRewrite, NewDataFull, SourceBytesShrink, SourceBytesGrowth, SourceFilesShrink,
          DumpBytesShrink, DumpBytesGrowth, DurationSlower, DumpDurationSlower}
  }

  predicate Closable(rows: Rows, id: string, expected: bool) {
    id in rows && rows[id].state == StateOpen && (expected ==> Expectable(rows[id].fp.metric))
  }

  function Wanted(ids: seq<string>): seq<string> {
    if |Deduped(ids)| > ACTION_LIMIT then Deduped(ids)[..ACTION_LIMIT] else Deduped(ids)
  }

  // The rows as they were read, each from the table of its own moment.
  function AsRead(tables: seq<Rows>, ids: seq<string>): Rows
    requires |tables| == |ids|
  {
    if ids == [] then map[]
    else
      var n := |ids| - 1;
      var rest := AsRead(tables[..n], ids[..n]);
      if ids[n] in tables[n] then rest[ids[n] := tables[n][ids[n]]] else rest
  }

  lemma {:induction false} AsReadAt(tables: seq<Rows>, ids: seq<string>, i: nat)
    requires |tables| == |ids| && i < |ids| && Distinct(ids)
    ensures ids[i] in AsRead(tables, ids) <==> ids[i] in tables[i]
    ensures ids[i] in tables[i] ==> AsRead(tables, ids)[ids[i]] == tables[i][ids[i]]
  {
    var n := |ids| - 1;
    if i < n {
      AsReadAt(tables[..n], ids[..n], i);
    } else {
      AsReadOnly(tables[..n], ids[..n]);
    }
  }

  lemma {:induction false} AsReadOnly(tables: seq<Rows>, ids: seq<string>)
    requires |tables| == |ids|
    ensures forall id :: id in AsRead(tables, ids) ==> id in ids
  {
    if ids != [] {
      var n := |ids| - 1;
      AsReadOnly(tables[..n], ids[..n]);
      assert ids == ids[..n] + [ids[n]];
    }
  }

  // The closed findings that were holding retention when they were read.
  function Released(read: Rows, closed: set<string>, enabled: bool, hold: bool): set<string> {
    set id | id in closed && id in read && AnomalyHolds(read[id], enabled, hold)
  }

  method HeldAmong(read: Rows, closable: seq<string>, closed: seq<string>, enabled: bool, hold: bool) returns (n: nat)
    requires Distinct(closable) && (forall id :: id in closable ==> id in read)
      && (forall id :: id in closed ==> id in closable)
    ensures n == |Released(read, (set id | id in closed), enabled, hold)|
  {
    n := 0;
    ghost var all := Released(read, (set id | id in closed), enabled, hold);
    ghost var counted: set<string> := {};
    for i := 0 to |closable|
      invariant n == |counted|
      invariant forall id :: id in counted <==> id in closable[..i] && id in all
    {
      assert closable[..i + 1] == closable[..i] + [closable[i]];
      if AnomalyHolds(read[closable[i]], enabled, hold) && closable[i] in closed {
        n := n + 1;
        forall k | 0 <= k < i ensures closable[..i][k] != closable[i] { assert closable[..i][k] == closable[k]; }
        counted := counted + {closable[i]};
      }
    }
    assert closable[..|closable|] == closable;
    assert counted == all;
  }

  // ---- what a mark as expected records ---------------------------------------------

  datatype Key = Key(kind: string, id: string, family: Family)

  // A first full upload can be marked, with nothing to record.
  function FamilyOf(m: Metric): Option<Family> {
    match m
    case NewData => Some(FamilyNewData)
    case NewDataRewrite => Some(FamilyNewData)
    case SourceBytesShrink => Some(FamilySourceBytesDown)
    case SourceBytesGrowth => Some(FamilySourceBytesUp)
    case SourceFilesShrink => Some(FamilySourceFilesDown)
    case DumpBytesShrink => Some(FamilyDumpBytesDown)
    case DumpBytesGrowth => Some(FamilyDumpBytesUp)
    case DurationSlower => Some(FamilyDuration)
    case DumpDurationSlower => Some(FamilyDumpDuration)
    case _ => None
  }

  predicate Marks(row: Row, k: Key) {
    FamilyOf(row.fp.metric) == Some(k.family) && row.fp.kind == k.kind && row.fp.id == k.id
  }

  // An amount of new data gets a ceiling, every other rule the run from which
  // the new level counts.
  function Recorded(row: Row): Expectation {
    if FamilyOf(row.fp.metric) == Some(FamilyNewData) then Expectation(0, 1.25 * row.observed)
      else Expectation(row.lastRunAt, 0.0)
  }

  type Expectations = map<Key, Expectation>

  // Each expectation is the highest of the one before and of what the rows
  // named record, and those are all there are.
  ghost predicate Raised(before: Expectations, after: Expectations, rows: Rows, ids: seq<string>)
    requires forall id :: id in ids ==> id in rows
  {
    forall k :: RaisedAt(before, after, rows, ids, k)
  }

  ghost predicate RaisedAt(before: Expectations, after: Expectations, rows: Rows, ids: seq<string>, k: Key)
    requires forall id :: id in ids ==> id in rows
  {
    && (k in after <==> k in before || exists id :: id in ids && Marks(rows[id], k))
    && (k in before ==> AtLeast(after[k], before[k]))
    && (forall id :: id in ids && Marks(rows[id], k) ==> AtLeast(after[k], Recorded(rows[id])))
    && (k in after ==>
         SinceFrom(before, rows, ids, k, after[k].sinceAt) && CeilingFrom(before, rows, ids, k, after[k].ceiling))
  }

  predicate AtLeast(a: Expectation, b: Expectation) { a.sinceAt >= b.sinceAt && a.ceiling >= b.ceiling }

  ghost predicate SinceFrom(before: Expectations, rows: Rows, ids: seq<string>, k: Key, since: int)
    requires forall id :: id in ids ==> id in rows
  {
    (k in before && before[k].sinceAt == since) || exists id ::
      id in ids && Marks(rows[id], k) && Recorded(rows[id]).sinceAt == since
  }

  ghost predicate CeilingFrom(before: Expectations, rows: Rows, ids: seq<string>, k: Key, ceiling: real)
    requires forall id :: id in ids ==> id in rows
  {
    (k in before && before[k].ceiling == ceiling) || exists id ::
      id in ids && Marks(rows[id], k) && Recorded(rows[id]).ceiling == ceiling
  }

  function Upserted(before: Expectations, row: Row): Expectations {
    match FamilyOf(row.fp.metric)
    case None => before
    case Some(family) =>
      var k, e := Key(row.fp.kind, row.fp.id, family), Recorded(row);
      if k !in before then before[k := e]
      else before[k := Expectation(if e.sinceAt > before[k].sinceAt then e.sinceAt else before[k].sinceAt,
                                   if e.ceiling > before[k].ceiling then e.ceiling else before[k].ceiling)]
  }

  lemma NoneRaised(before: Expectations, rows: Rows)
    ensures Raised(before, before, rows, [])
  {
  }

  lemma RaisedOneMore(before: Expectations, now: Expectations, rows: Rows, ids: seq<string>, id: string)
    requires (forall i :: i in ids ==> i in rows) && id in rows && Raised(before, now, rows, ids)
    ensures Raised(before, Upserted(now, rows[id]), rows, ids + [id])
  {
    hide RaisedAt;
    forall k ensures RaisedAt(before, Upserted(now, rows[id]), rows, ids + [id], k) {
      assert RaisedAt(before, now, rows, ids, k);
      if Marks(rows[id], k) {
        RaisedThere(before, now, rows, ids, id, k);
      } else {
        RaisedElsewhere(before, now, rows, ids, id, k);
      }
    }
  }

  lemma RaisedElsewhere(before: Expectations, now: Expectations, rows: Rows, ids: seq<string>, id: string, k: Key)
    requires (forall i :: i in ids ==> i in rows) && id in rows && RaisedAt(before, now, rows, ids, k)
      && !Marks(rows[id], k)
    ensures RaisedAt(before, Upserted(now, rows[id]), rows, ids + [id], k)
  {
    hide Marks, Recorded;
    UpsertedElsewhere(now, rows[id], k);
  }

  lemma UpsertedElsewhere(now: Expectations, row: Row, k: Key)
    requires !Marks(row, k)
    ensures k in Upserted(now, row) <==> k in now
    ensures k in now ==> Upserted(now, row)[k] == now[k]
  {
  }

  lemma RaisedThere(before: Expectations, now: Expectations, rows: Rows, ids: seq<string>, id: string, k: Key)
    requires (forall i :: i in ids ==> i in rows) && id in rows && RaisedAt(before, now, rows, ids, k)
      && Marks(rows[id], k)
    ensures RaisedAt(before, Upserted(now, rows[id]), rows, ids + [id], k)
  {
    hide Marks, Recorded, Upserted;
    var after, more := Upserted(now, rows[id]), ids + [id];
    UpsertedThere(now, rows[id], k);
    assert id in more;
    if k in now && after[k].sinceAt != Recorded(rows[id]).sinceAt {
      assert SinceFrom(before, rows, more, k, now[k].sinceAt);
    }
    if k in now && after[k].ceiling != Recorded(rows[id]).ceiling {
      assert CeilingFrom(before, rows, more, k, now[k].ceiling);
    }
  }

  lemma UpsertedThere(now: Expectations, row: Row, k: Key)
    requires Marks(row, k)
    ensures k in Upserted(now, row) && AtLeast(Upserted(now, row)[k], Recorded(row))
    ensures k in now ==> AtLeast(Upserted(now, row)[k], now[k])
    ensures Upserted(now, row)[k].sinceAt == Recorded(row).sinceAt
      || (k in now && Upserted(now, row)[k].sinceAt == now[k].sinceAt)
    ensures Upserted(now, row)[k].ceiling == Recorded(row).ceiling
      || (k in now && Upserted(now, row)[k].ceiling == now[k].ceiling)
  {
  }

  // How the store answers: the settings, each row, the closing transaction, and
  // each expectation.
  datatype ActionCalls = ActionCalls(settings: bool, read: string -> bool, close: bool, record: string -> bool)

  class Actions {
    const repo: AnomalyRepo
    var expectations: Expectations

    constructor (repo: AnomalyRepo)
      ensures this.repo == repo && expectations == map[]
    {
      this.repo, expectations := repo, map[];
    }

    // Passes and other actions may run before the locks are held.
    method Others()
      modifies repo
    {
      var rows: Rows := *;
      repo.rows := rows;
    }

    // The rows that can be closed, read one by one before any lock is taken.
    method ReadClosable(ids: seq<string>, expected: bool, calls: ActionCalls)
      returns (ok: bool, read: Rows, closable: seq<string>, skipped: nat, ghost tables: seq<Rows>)
      modifies repo
      ensures ok <==> forall id :: id in Wanted(ids) ==> calls.read(id)
      ensures ok ==> |tables| == |Wanted(ids)| && read == AsRead(tables, Wanted(ids)) && Distinct(closable)
      ensures ok ==> forall id :: id in closable <==> id in Wanted(ids) && Closable(read, id, expected)
      ensures ok ==> |closable| + skipped == |Deduped(ids)|
    {
      hide AsRead, Picked, Closable, Deduped;
      var wanted := DedupedIDs(ids);
      skipped := 0;
      if |wanted| > ACTION_LIMIT {
        skipped := |wanted| - ACTION_LIMIT;
        wanted := wanted[..ACTION_LIMIT];
      }
      read, closable, tables := map[], [], [];
      NonePicked(wanted, expected);
      ghost var beyond := skipped;
      for i := 0 to |wanted|
        invariant |tables| == i && read == AsRead(tables, wanted[..i])
        invariant Picked(closable, wanted[..i], read, expected)
        invariant forall id :: id in wanted[..i] ==> calls.read(id)
        invariant |closable| + skipped == beyond + i
      {
        var id := wanted[i];
        assert wanted[..i + 1] == wanted[..i] + [id] && id !in wanted[..i];
        Others();
        if !calls.read(id) {
          assert id in wanted;
          return false, read, closable, skipped, tables;
        }
        ReadOneMore(tables, wanted, i, repo.rows);
        PickedOneMore(closable, wanted[..i], read, if id in repo.rows then read[id := repo.rows[id]] else read,
          expected, id);
        tables := tables + [repo.rows];
        if id in repo.rows {
          read := read[id := repo.rows[id]];
        }
        if Closable(read, id, expected) {
          closable := closable + [id];
        } else {
          skipped := skipped + 1;
        }
      }
      assert wanted[..|wanted|] == wanted;
      AllPicked(closable, wanted, read, expected);
      ok := true;
    }

    // Records what each closed row declares normal, until one write fails.
    method WriteExpectations(closed: seq<string>, rows: Rows, calls: ActionCalls) returns (ok: bool, ghost n: nat)
      requires forall id :: id in closed ==> id in rows
      modifies this`expectations
      ensures n <= |closed| && Raised(old(expectations), expectations, rows, closed[..n])
      ensures ok <==> forall id :: id in closed ==> calls.record(id)
      ensures ok ==> n == |closed|
    {
      hide Raised, Upserted;
      NoneRaised(expectations, rows);
      for i := 0 to |closed|
        invariant Raised(old(expectations), expectations, rows, closed[..i])
        invariant forall id :: id in closed[..i] ==> calls.record(id)
      {
        var id := closed[i];
        assert closed[..i + 1] == closed[..i] + [id];
        if !calls.record(id) {
          return false, i;
        }
        RaisedOneMore(old(expectations), expectations, rows, closed[..i], id);
        expectations := Upserted(expectations, rows[id]);
      }
      assert closed[..|closed|] == closed;
      return true, |closed|;
    }

    // Closes what is open of the findings named. read is each row as it was
    // read, locked the table when the locks were held. A call that fails is
    // reported; a mark whose record fails has closed its rows all the same.
    method CloseEpisodes(ids: seq<string>, expected: bool, enabled: bool, hold: bool, now: int, calls: ActionCalls)
      returns (ok: bool, changed: nat, skipped: nat, released: nat, ghost read: Rows, ghost tables: seq<Rows>,
               ghost closed: set<string>, ghost locked: Rows, ghost recorded: seq<string>)
      modifies repo, this`expectations
      ensures !ok ==> changed == skipped == released == 0
      ensures ok ==> changed + skipped == |Deduped(ids)| && changed == |closed|
      ensures ok || closed != {} ==> |tables| == |Wanted(ids)| && read == AsRead(tables, Wanted(ids))
      ensures ok || closed != {} ==> forall id :: id in closed <==>
        id in Wanted(ids) && Closable(read, id, expected) && id in locked && locked[id].state == StateOpen
      ensures ok ==> released == |Released(read, closed, enabled, hold)|
      ensures closed != {} ==> repo.rows == AfterClose(locked, closed, expected, now)
      ensures (forall id :: id in recorded ==> id in closed && id in locked) && (!expected ==> recorded == [])
      ensures Raised(old(expectations), expectations, locked, recorded)
      ensures ok && expected ==> forall id :: id in closed ==> id in recorded
    {
      hide Raised, Released, AfterClose;
      ok, changed, skipped, released := false, 0, 0, 0;
      read, tables, closed, locked, recorded := map[], [], {}, repo.rows, [];
      NoneRaised(expectations, locked);
      if !calls.settings { return; }
      var got, found, closable, passed;
      got, found, closable, passed, tables := ReadClosable(ids, expected, calls);
      read, locked := found, repo.rows;
      NoneRaised(expectations, locked);
      if !got { return; }
      if |closable| == 0 {
        NoneReleased(read, enabled, hold);
        return true, 0, passed, 0, read, tables, closed, locked, recorded;
      }
      Others();
      locked := repo.rows;
      NoneRaised(expectations, locked);
      if !calls.close { return; }
      var state := if expected then StateExpected else StateAcknowledged;
      var done := repo.CloseAnomalies(closable, state, now);
      closed := set id | id in done;
      ClosedAsAsked(locked, closable, done, closed, expected, now);
      DistinctCounts(done);
      FewerDone(closable, done);
      if expected {
        ClosedKeepFigures(locked, closed, expected, now);
        var written;
        ghost var n;
        written, n := WriteExpectations(done, repo.rows, calls);
        recorded := done[..n];
        SameRaised(old(expectations), expectations, repo.rows, locked, recorded);
        if !written { return; }
      }
      released := HeldAmong(found, closable, done, enabled, hold);
      ok, changed, skipped := true, |done|, passed + |closable| - |done|;
    }
  }

  // What of the head of a list can be closed, each once.
  ghost predicate Picked(closable: seq<string>, head: seq<string>, read: Rows, expected: bool) {
    Distinct(closable) && forall id :: id in closable <==> id in head && Closable(read, id, expected)
  }

  lemma NonePicked(wanted: seq<string>, expected: bool)
    ensures Picked([], wanted[..0], map[], expected) && AsRead([], wanted[..0]) == map[]
  {
  }

  lemma PickedOneMore(closable: seq<string>, head: seq<string>, read: Rows, more: Rows, expected: bool, id: string)
    requires Picked(closable, head, read, expected) && id !in head
    requires forall k :: k != id ==> (k in more <==> k in read) && (k in more ==> more[k] == read[k])
    ensures Picked(if Closable(more, id, expected) then closable + [id] else closable, head + [id], more, expected)
  {
    forall j | 0 <= j < |closable| ensures closable[j] != id { assert closable[j] in closable; }
    forall k | k != id ensures Closable(more, k, expected) == Closable(read, k, expected) {}
  }

  lemma AllPicked(closable: seq<string>, wanted: seq<string>, read: Rows, expected: bool)
    requires Picked(closable, wanted, read, expected)
    ensures Distinct(closable) && forall id :: id in closable <==> id in wanted && Closable(read, id, expected)
  {
  }

  lemma ReadOneMore(tables: seq<Rows>, wanted: seq<string>, i: nat, rows: Rows)
    requires |tables| == i < |wanted| && Distinct(wanted)
    ensures
      var so, id := AsRead(tables, wanted[..i]), wanted[i];
      id !in so && AsRead(tables + [rows], wanted[..i + 1]) == if id in rows then so[id := rows[id]] else so
  {
    AsReadOnly(tables, wanted[..i]);
    assert (tables + [rows])[..i] == tables && wanted[..i + 1][..i] == wanted[..i];
  }

  lemma NoneReleased(read: Rows, enabled: bool, hold: bool)
    ensures |Released(read, {}, enabled, hold)| == 0
  {
    assert Released(read, {}, enabled, hold) == {};
  }

  lemma ClosedAsAsked(locked: Rows, closable: seq<string>, done: seq<string>, closed: set<string>, expected: bool,
      now: int)
    requires forall id :: id in done <==> id in closable && id in locked && locked[id].state == StateOpen
    requires closed == set id | id in done
    ensures SettledRows(locked, closable, if expected then StateExpected else StateAcknowledged, now)
      == AfterClose(locked, closed, expected, now)
  {
  }

  // Closing a row changes nothing a record is made of.
  lemma ClosedKeepFigures(locked: Rows, closed: set<string>, expected: bool, now: int)
    requires forall id :: id in closed ==> id in locked
    ensures forall id :: id in closed ==>
      id in AfterClose(locked, closed, expected, now)
        && SameFigures(AfterClose(locked, closed, expected, now)[id], locked[id])
  {
  }

  predicate SameFigures(a: Row, b: Row) { a.fp == b.fp && a.observed == b.observed && a.lastRunAt == b.lastRunAt }

  lemma SameRaised(before: Expectations, after: Expectations, a: Rows, b: Rows, ids: seq<string>)
    requires forall id :: id in ids ==> id in a && id in b && SameFigures(a[id], b[id])
    requires Raised(before, after, a, ids)
    ensures Raised(before, after, b, ids)
  {
    forall id, k | id in ids ensures Marks(a[id], k) == Marks(b[id], k) && Recorded(a[id]) == Recorded(b[id]) {}
    forall k ensures RaisedAt(before, after, b, ids, k) {
      assert RaisedAt(before, after, a, ids, k);
    }
  }

  function AfterClose(locked: Rows, closed: set<string>, expected: bool, now: int): Rows {
    map id | id in locked ::
      if id in closed then locked[id].(state := if expected then StateExpected else StateAcknowledged, ackedAt := now)
        else locked[id]
  }

  lemma {:induction false} DistinctCounts(ids: seq<string>)
    requires Distinct(ids)
    ensures |set id | id in ids| == |ids|
  {
    var all := set id | id in ids;
    if ids == [] {
      assert all == {};
    } else {
      var rest := ids[..|ids| - 1];
      DistinctCounts(rest);
      assert all == (set id | id in rest) + {ids[|ids| - 1]};
      assert ids[|ids| - 1] !in rest;
    }
  }

  lemma FewerDone(closable: seq<string>, done: seq<string>)
    requires Distinct(closable) && Distinct(done) && forall id :: id in done ==> id in closable
    ensures |done| <= |closable|
  {
    DistinctCounts(closable);
    DistinctCounts(done);
    var a, b := set id | id in done, set id | id in closable;
    assert b == a + (b - a);
  }

  // ---- what is reported as released -----------------------------------------------

  // The holds the action really ended.
  function HoldsEnded(locked: Rows, after: Rows, enabled: bool, hold: bool): set<string> {
    set id | id in locked && id in after && AnomalyHolds(locked[id], enabled, hold)
      && !AnomalyHolds(after[id], enabled, hold)
  }

  // A closed finding holds nothing any more and every other one is untouched,
  // so exactly the holds of the closed rows end.
  lemma ClosingEndsHolds(locked: Rows, closed: set<string>, expected: bool, now: int, enabled: bool, hold: bool)
    ensures HoldsEnded(locked, AfterClose(locked, closed, expected, now), enabled, hold)
      == Released(locked, closed, enabled, hold)
  {
  }

  // The findings reported as released are the holds that ended if and only if
  // no pass changed, between the reading and the locks, whether a closed row
  // holds.
  lemma ReleasedIsExact(read: Rows, locked: Rows, closed: set<string>, expected: bool, now: int, enabled: bool,
      hold: bool)
    requires forall id :: id in closed ==> id in read && id in locked
    ensures (Released(read, closed, enabled, hold)
             == HoldsEnded(locked, AfterClose(locked, closed, expected, now), enabled, hold)) <==>
      forall id :: id in closed ==> AnomalyHolds(read[id], enabled, hold) == AnomalyHolds(locked[id], enabled, hold)
  {
    ClosingEndsHolds(locked, closed, expected, now, enabled, hold);
    var said, ended := Released(read, closed, enabled, hold), Released(locked, closed, enabled, hold);
    if said == ended {
      forall id | id in closed
        ensures AnomalyHolds(read[id], enabled, hold) == AnomalyHolds(locked[id], enabled, hold) {
        assert id in said <==> id in ended;
      }
    }
  }

  // ---- which findings an action settles -------------------------------------------

  function NamedIn(ids: seq<string>): set<string> { set i | 0 <= i < |ids| && ids[i] != "" :: ids[i] }

  // The id first comes at this place of the request, behind fewer than five
  // hundred others.
  predicate AskedAt(ids: seq<string>, i: int) {
    0 <= i < |ids| && ids[i] != "" && ids[i] !in ids[..i] && |NamedIn(ids[..i])| < 500
  }

  lemma NamedOneMore(ids: seq<string>)
    requires ids != []
    ensures var n := |ids| - 1;
      NamedIn(ids) == NamedIn(ids[..n]) + (if ids[n] != "" then {ids[n]} else {})
  {
    var n := |ids| - 1;
    assert forall k :: 0 <= k < n ==> ids[..n][k] == ids[k];
    forall x | x in NamedIn(ids) && x != ids[n] ensures x in NamedIn(ids[..n]) {
      var k :| 0 <= k < |ids| && ids[k] == x;
      assert ids[..n][k] == x;
    }
    forall x | x in NamedIn(ids[..n]) ensures x in NamedIn(ids) {
      var k :| 0 <= k < n && ids[..n][k] == x;
      assert ids[k] == x;
    }
  }

  lemma {:induction false} DedupedCounts(ids: seq<string>)
    ensures |Deduped(ids)| == |NamedIn(ids)| && forall id :: id in NamedIn(ids) <==> id in Deduped(ids)
  {
    if ids != [] {
      var n := |ids| - 1;
      var rest, named := Deduped(ids[..n]), NamedIn(ids[..n]);
      DedupedCounts(ids[..n]);
      NamedOneMore(ids);
      if ids[n] != "" && ids[n] !in rest {
        OneMoreNamed(named, rest, ids[n]);
      } else if ids[n] != "" {
        assert named + {ids[n]} == named;
      } else {
        assert named + {} == named;
      }
    }
  }

  lemma OneMoreNamed(named: set<string>, rest: seq<string>, id: string)
    requires |rest| == |named| && (forall x :: x in named <==> x in rest) && id !in rest
    ensures |rest + [id]| == |named + {id}| && forall x :: x in named + {id} <==> x in rest + [id]
  {
  }

  lemma {:induction false} DedupedGrows(ids: seq<string>, n: nat)
    requires n <= |ids|
    ensures Deduped(ids[..n]) <= Deduped(ids)
  {
    if n < |ids| {
      var head := ids[..|ids| - 1];
      assert head[..n] == ids[..n];
      DedupedGrows(head, n);
    } else {
      assert ids[..n] == ids;
    }
  }

  // The k-th of the deduplicated ids is the one whose first place has k others
  // in front of it.
  lemma DedupedInOrder(ids: seq<string>, i: nat)
    requires i < |ids| && ids[i] != "" && ids[i] !in ids[..i]
    ensures var k := |NamedIn(ids[..i])|; k < |Deduped(ids)| && Deduped(ids)[k] == ids[i]
  {
    DedupedCounts(ids[..i]);
    var more := ids[..i + 1];
    assert more[..|more| - 1] == ids[..i];
    assert Deduped(more) == Deduped(ids[..i]) + [ids[i]];
    DedupedGrows(ids, i + 1);
  }

  lemma FirstPlace(ids: seq<string>, id: string) returns (i: nat)
    requires id in ids
    ensures i < |ids| && ids[i] == id && id !in ids[..i]
  {
    i :| i < |ids| && ids[i] == id;
    if id in ids[..i] {
      i := FirstPlace(ids[..i], id);
      assert ids[..|ids|][..i] == ids[..i];
    }
  }

  lemma OneFirstPlace(ids: seq<string>, i: nat, j: nat)
    requires i < |ids| && j < |ids| && ids[i] == ids[j] && ids[i] !in ids[..i] && ids[j] !in ids[..j]
    ensures i == j
  {
    assert forall k :: 0 <= k < i ==> ids[..i][k] == ids[k];
    assert forall k :: 0 <= k < j ==> ids[..j][k] == ids[k];
  }

  lemma WantedIsAsked(ids: seq<string>, id: string)
    ensures id in Wanted(ids) <==> exists i :: AskedAt(ids, i) && ids[i] == id
  {
    if id in ids && id != "" {
      var i := FirstPlace(ids, id);
      DedupedInOrder(ids, i);
      var k, all := |NamedIn(ids[..i])|, Deduped(ids);
      forall j | AskedAt(ids, j) && ids[j] == id ensures j == i { OneFirstPlace(ids, i, j); }
      if k < 500 {
        assert AskedAt(ids, i);
        assert Wanted(ids)[k] == id;
      } else {
        forall j | 0 <= j < |Wanted(ids)| ensures Wanted(ids)[j] != id { assert all[j] != all[k]; }
      }
    } else {
      forall j | 0 <= j < |Wanted(ids)| ensures Wanted(ids)[j] != id { assert Deduped(ids)[j] in Deduped(ids); }
    }
  }

  // Failing series, restore checks and capacity have no new normal.
  predicate HasNormal(m: Metric) {
    && m != FailureStreak && m != Flaky && m != DumpFailureStreak && m != DumpFlaky
    && m != DrillSubset && m != DrillDR && m != CapacityEta && m != CapacityLow
  }

  // What an action makes of a row: it settles the ones asked for that were open
  // both when they were read and under the locks, and touches no other.
  lemma ActionSettles(ids: seq<string>, expected: bool, read: Rows, locked: Rows, closed: set<string>, now: int,
      id: string)
    requires forall x :: x in closed <==>
      x in Wanted(ids) && Closable(read, x, expected) && x in locked && locked[x].state == StateOpen
    requires id in locked
    ensures var after := AfterClose(locked, closed, expected, now);
      && id in after
      && after[id] ==
           if (exists i :: AskedAt(ids, i) && ids[i] == id) && id in read && read[id].state == StateOpen
              && locked[id].state == StateOpen && (expected ==> HasNormal(read[id].fp.metric))
           then locked[id].(ackedAt := now, state := if expected then StateExpected else StateAcknowledged)
           else locked[id]
  {
    WantedIsAsked(ids, id);
  }
}
