// The series of one dataset of a ZFS tree (anomaly_detect.go): its recorded
// rows and the tree's runs that no longer had it, with a measured zero where a
// readable dataset stopped being readable.
module DatasetRuns {
  import opened Wrappers
  import opened AnomalyTypes
  import opened AnomalyRules

  const BACKED_UP := "backed-up"
  const EMPTY := "empty"
  const GONE := "gone"

  predicate Readable(run: SeriesRun) { run.outcome == BACKED_UP || run.outcome == EMPTY }

  // Outcomes that say nothing about what the dataset holds.
  predicate NeverSample(run: SeriesRun) {
    run.outcome in {"excluded", "backup-failed", "snapshot-not-visible", "snapshot-loop", "not-reached", "stalled"}
  }

  predicate Reselected(row: SeriesRun, previous: SeriesRun) {
    row.selectionFP.Some? && previous.selectionFP.Some? && row.selectionFP != previous.selectionFP
  }

  // One row as a rule sees it, given the row before it in time.
  function DatasetSample(row: SeriesRun, previous: Option<SeriesRun>): SeriesRun {
    if row.outcome == BACKED_UP then row.(status := Success)
    else if row.outcome == EMPTY then row.(status := Success, resticMS := None)
    else if NeverSample(row) then row.(status := Skipped)
    else if previous.None? || !Readable(previous.value) || Reselected(row, previous.value) then row.(status := Skipped)
    else SeriesRun(row.id, Success, "", row.outcome, row.startedAt, row.finishedAt, 0, Some(0), Some(0), None, None,
      None, row.selectionFP)
  }

  function GoneRow(run: SeriesRun): SeriesRun {
    SeriesRun(run.id, run.status, "", GONE, run.startedAt, run.finishedAt, 0, None, None, None, None, None,
      run.selectionFP)
  }

  // ---- a stable sort, newest first ----------------------------------------

  ghost predicate NewestFirstOrder(xs: seq<SeriesRun>) {
    forall i, j :: 0 <= i < j < |xs| ==> xs[i].startedAt >= xs[j].startedAt
  }

  // x goes after everything at least as new.
  function InsertStable(xs: seq<SeriesRun>, x: SeriesRun): (r: seq<SeriesRun>)
    requires NewestFirstOrder(xs)
    ensures NewestFirstOrder(r) && |r| == |xs| + 1
    ensures forall y :: y in r ==> y == x || y in xs
  {
    if xs == [] || xs[|xs| - 1].startedAt >= x.startedAt then xs + [x]
    else
      var rest := InsertStable(xs[..|xs| - 1], x);
      assert forall i :: 0 <= i < |rest| ==> rest[i].startedAt >= xs[|xs| - 1].startedAt by {
        forall i | 0 <= i < |rest| ensures rest[i].startedAt >= xs[|xs| - 1].startedAt {
          assert rest[i] in rest;
        }
      }
      rest + [xs[|xs| - 1]]
  }

  function StableSorted(xs: seq<SeriesRun>): (r: seq<SeriesRun>)
    ensures NewestFirstOrder(r) && |r| == |xs|
  {
    if xs == [] then [] else InsertStable(StableSorted(xs[..|xs| - 1]), xs[|xs| - 1])
  }

  function Select(xs: seq<SeriesRun>, ids: set<string>): seq<SeriesRun> {
    if xs == [] then []
    else Select(xs[..|xs| - 1], ids) + (if xs[|xs| - 1].id in ids then [xs[|xs| - 1]] else [])
  }

  lemma {:induction false} SelectSum(a: seq<SeriesRun>, b: seq<SeriesRun>, ids: set<string>)
    ensures Select(a + b, ids) == Select(a, ids) + Select(b, ids)
  {
    if b == [] {
      assert a + b == a;
    } else {
      assert (a + b)[..|a + b| - 1] == a + b[..|b| - 1];
      SelectSum(a, b[..|b| - 1], ids);
    }
  }

  lemma {:induction false} SelectAll(xs: seq<SeriesRun>, ids: set<string>)
    requires forall i :: 0 <= i < |xs| ==> xs[i].id in ids
    ensures Select(xs, ids) == xs
  {
    if xs != [] {
      SelectAll(xs[..|xs| - 1], ids);
    }
  }

  lemma {:induction false} SelectNone(xs: seq<SeriesRun>, ids: set<string>)
    requires forall i :: 0 <= i < |xs| ==> xs[i].id !in ids
    ensures Select(xs, ids) == []
  {
    if xs != [] {
      SelectNone(xs[..|xs| - 1], ids);
    }
  }

  lemma {:induction false} SelectInOrder(xs: seq<SeriesRun>, ids: set<string>)
    requires NewestFirstOrder(xs)
    ensures NewestFirstOrder(Select(xs, ids)) && forall y :: y in Select(xs, ids) ==> y in xs
  {
    if xs != [] {
      var n := |xs| - 1;
      SelectInOrder(xs[..n], ids);
      var s := Select(xs[..n], ids);
      forall i | 0 <= i < |s| ensures s[i].startedAt >= xs[n].startedAt {
        assert s[i] in xs[..n];
      }
    }
  }

  lemma {:induction false} InsertOfOther(xs: seq<SeriesRun>, x: SeriesRun, ids: set<string>)
    requires NewestFirstOrder(xs) && x.id !in ids
    ensures Select(InsertStable(xs, x), ids) == Select(xs, ids)
  {
    if xs == [] || xs[|xs| - 1].startedAt >= x.startedAt {
      assert (xs + [x])[..|xs|] == xs;
    } else {
      var n := |xs| - 1;
      assert NewestFirstOrder(xs[..n]);
      InsertOfOther(xs[..n], x, ids);
      var r := InsertStable(xs[..n], x);
      assert (r + [xs[n]])[..|r|] == r;
    }
  }

  lemma {:induction false} InsertOfSelected(xs: seq<SeriesRun>, x: SeriesRun, ids: set<string>)
    requires NewestFirstOrder(xs) && x.id in ids
    ensures NewestFirstOrder(Select(xs, ids))
    ensures Select(InsertStable(xs, x), ids) == InsertStable(Select(xs, ids), x)
  {
    SelectInOrder(xs, ids);
    var s := Select(xs, ids);
    if xs == [] {
    } else if xs[|xs| - 1].startedAt >= x.startedAt {
      assert (xs + [x])[..|xs|] == xs;
      if s != [] {
        assert s[|s| - 1] in xs;
      }
    } else {
      var n := |xs| - 1;
      InsertOfSelected(xs[..n], x, ids);
      var r := InsertStable(xs[..n], x);
      assert (r + [xs[n]])[..|r|] == r;
      if xs[n].id in ids {
        assert s[..|s| - 1] == Select(xs[..n], ids);
      } else {
        assert s == Select(xs[..n], ids);
      }
    }
  }

  // Sorting and selecting commute: the sort keeps the selected rows in the
  // order sorting them alone gives.
  lemma {:induction false} SortThenSelect(xs: seq<SeriesRun>, ids: set<string>)
    ensures Select(StableSorted(xs), ids) == StableSorted(Select(xs, ids))
  {
    if xs != [] {
      var n := |xs| - 1;
      SortThenSelect(xs[..n], ids);
      if xs[n].id in ids {
        InsertOfSelected(StableSorted(xs[..n]), xs[n], ids);
        var s := Select(xs[..n], ids);
        assert (s + [xs[n]])[..|s|] == s;
      } else {
        InsertOfOther(StableSorted(xs[..n]), xs[n], ids);
        assert Select(xs, ids) == Select(xs[..n], ids);
      }
    }
  }

  lemma {:induction false} SortedAlready(xs: seq<SeriesRun>)
    requires NewestFirstOrder(xs)
    ensures StableSorted(xs) == xs
  {
    if xs != [] {
      SortedAlready(xs[..|xs| - 1]);
    }
  }

  // ---- the series ---------------------------------------------------------

  function GoneRows(itemRuns: seq<SeriesRun>, oldest: int, recorded: set<string>): (r: seq<SeriesRun>)
    ensures forall i :: 0 <= i < |r| ==> r[i].id !in recorded
  {
    if itemRuns == [] then []
    else
      var run := itemRuns[|itemRuns| - 1];
      GoneRows(itemRuns[..|itemRuns| - 1], oldest, recorded)
      + (if run.status == Success && run.startedAt >= oldest && run.id !in recorded then [GoneRow(run)] else [])
  }

  function RecordedIds(members: seq<SeriesRun>): set<string> { set i | 0 <= i < |members| :: members[i].id }

  function MergedRows(members: seq<SeriesRun>, itemRuns: seq<SeriesRun>): seq<SeriesRun>
    requires members != []
  {
    StableSorted(members + GoneRows(itemRuns, members[|members| - 1].startedAt, RecordedIds(members)))
  }

  function Previous(rows: seq<SeriesRun>, i: nat): Option<SeriesRun>
    requires i < |rows|
  {
    if i + 1 < |rows| then Some(rows[i + 1]) else None
  }

  // out is what the rows read as, each judged by the row before it in time.
  ghost predicate Sampled(rows: seq<SeriesRun>, out: seq<SeriesRun>) {
    |out| == |rows| && forall i :: 0 <= i < |rows| ==> out[i] == DatasetSample(rows[i], Previous(rows, i))
  }

  method DatasetRunsOf(members: seq<SeriesRun>, itemRuns: seq<SeriesRun>) returns (out: seq<SeriesRun>)
    ensures members == [] ==> out == []
    ensures members != [] ==> Sampled(MergedRows(members, itemRuns), out)
  {
    if |members| == 0 {
      return [];
    }
    var recorded: set<string> := {};
    for i := 0 to |members|
      invariant recorded == set j | 0 <= j < i :: members[j].id
    {
      recorded := recorded + {members[i].id};
    }
    var oldest := members[|members| - 1].startedAt;
    var rows := members;
    for i := 0 to |itemRuns|
      invariant rows == members + GoneRows(itemRuns[..i], oldest, recorded)
    {
      assert itemRuns[..i + 1][..i] == itemRuns[..i];
      var run := itemRuns[i];
      if run.status == Success && run.startedAt >= oldest && run.id !in recorded {
        rows := rows + [GoneRow(run)];
      }
    }
    assert itemRuns[..|itemRuns|] == itemRuns;
    rows := StableSorted(rows);
    out := [];
    for i := 0 to |rows|
      invariant |out| == i
      invariant forall j :: 0 <= j < i ==> out[j] == DatasetSample(rows[j], Previous(rows, j))
    {
      out := out + [DatasetSample(rows[i], Previous(rows, i))];
    }
  }

  // A zero nobody measured: a success the run could not read.
  predicate SynthesizedZero(run: SeriesRun) { run.status == Success && !Readable(run) }

  // The run backed the dataset up or found it empty.
  predicate WasRead(run: SeriesRun) { run.outcome == "backed-up" || run.outcome == "empty" }

  // It did neither, and not because the user left the dataset out or the backup
  // failed.
  predicate LeftUnread(run: SeriesRun) {
    && !WasRead(run) && run.outcome != "excluded" && run.outcome != "backup-failed"
    && run.outcome != "snapshot-not-visible" && run.outcome != "snapshot-loop" && run.outcome != "not-reached"
    && run.outcome != "stalled"
  }

  predicate OtherSelection(row: SeriesRun, previous: SeriesRun) {
    row.selectionFP.Some? && previous.selectionFP.Some? && row.selectionFP.value != previous.selectionFP.value
  }

  // A zero stands only directly after a readable run under an unchanged
  // selection, it measures nothing there, and every place the rules could put
  // one gets one.
  lemma ZeroFollowsReadable(rows: seq<SeriesRun>, out: seq<SeriesRun>, i: nat)
    requires Sampled(rows, out) && i < |out|
    ensures out[i].id == rows[i].id && out[i].startedAt == rows[i].startedAt && out[i].outcome == rows[i].outcome
    ensures SynthesizedZero(out[i]) <==>
      i + 1 < |out| && Readable(out[i + 1]) && !Readable(out[i]) && !NeverSample(out[i])
        && !Reselected(out[i], out[i + 1])
    ensures out[i].status == Success && !WasRead(rows[i]) <==>
      i + 1 < |rows| && WasRead(rows[i + 1]) && LeftUnread(rows[i]) && !OtherSelection(rows[i], rows[i + 1])
    ensures WasRead(rows[i]) ==>
      out[i] == rows[i].(status := Success, resticMS := if rows[i].outcome == "empty" then None else rows[i].resticMS)
    ensures SynthesizedZero(out[i]) ==>
      out[i].sourceBytes == Some(0) && out[i].sourceFiles == Some(0) && out[i].resticMS.None?
  {
    if i + 1 < |rows| {
      assert out[i + 1] == DatasetSample(rows[i + 1], Previous(rows, i + 1));
    }
  }

  lemma ReadableBehindZero(rows: seq<SeriesRun>, out: seq<SeriesRun>, i: nat)
    requires Sampled(rows, out) && i < |out| && SynthesizedZero(out[i])
    ensures i + 1 < |out| && Readable(out[i + 1])
  {
    ZeroFollowsReadable(rows, out, i);
  }

  lemma ZeroIsNotReadable(run: SeriesRun)
    requires SynthesizedZero(run)
    ensures !Readable(run)
  {
  }

  lemma ReadableSampleSucceeds(rows: seq<SeriesRun>, out: seq<SeriesRun>, k: nat)
    requires Sampled(rows, out) && k < |out| && Readable(out[k])
    ensures out[k].status == Success
  {
    assert out[k] == DatasetSample(rows[k], Previous(rows, k));
  }

  // So a vanished dataset yields one zero per gap: between any two of them lies
  // a readable run.
  lemma OneZeroPerGap(rows: seq<SeriesRun>, out: seq<SeriesRun>, i: nat, j: nat)
    requires Sampled(rows, out) && i < j < |out| && SynthesizedZero(out[i]) && SynthesizedZero(out[j])
    ensures exists k :: i < k < j && Readable(out[k]) && out[k].status == Success
  {
    hide Readable, NeverSample, Reselected, SynthesizedZero, DatasetSample, Previous, Sampled;
    var k := i + 1;
    ReadableBehindZero(rows, out, i);
    ZeroIsNotReadable(out[j]);
    ReadableSampleSucceeds(rows, out, k);
    assert i < k < j && Readable(out[k]) && out[k].status == Success;
  }

  // As long as the dataset stays unreadable, the zero is the newest value any
  // rule sees.
  lemma ZeroStaysNewest(rows: seq<SeriesRun>, out: seq<SeriesRun>, i: nat)
    requires Sampled(rows, out) && i < |out| && SynthesizedZero(out[i])
    requires forall k :: 0 <= k < i ==> !Readable(out[k])
    ensures EligibleRuns(out) != [] && EligibleRuns(out)[0] == out[i]
    ensures Column(EligibleRuns(out)[0], SourceBytesOf) == Some(0)
  {
    forall k | 0 <= k < i ensures out[k].status != Success {
      UnreadableBeforeZero(rows, out, i, k);
    }
    ZeroFollowsReadable(rows, out, i);
    FirstSuccessIsNewest(out, i);
  }

  // An unreadable run in front of an unreadable one is no success: a zero would
  // follow a readable one.
  lemma UnreadableBeforeZero(rows: seq<SeriesRun>, out: seq<SeriesRun>, i: nat, k: nat)
    requires Sampled(rows, out) && k < i < |out| && SynthesizedZero(out[i])
    requires forall j :: 0 <= j < i ==> !Readable(out[j])
    ensures out[k].status != Success
  {
    ZeroFollowsReadable(rows, out, k);
    assert !Readable(out[k + 1]);
  }

  lemma {:induction false} FirstSuccessIsNewest(out: seq<SeriesRun>, i: nat)
    requires i < |out| && SynthesizedZero(out[i]) && out[i].sourceBytes == Some(0)
    requires forall k :: 0 <= k < i ==> out[k].status != Success
    ensures EligibleRuns(out) != [] && EligibleRuns(out)[0] == out[i]
    ensures Column(EligibleRuns(out)[0], SourceBytesOf) == Some(0)
    decreases i
  {
    if i > 0 {
      FirstSuccessIsNewest(out[1..], i - 1);
    }
  }

  function IdsOf(runs: seq<SeriesRun>): (ids: seq<string>)
    ensures |ids| == |runs| && forall i :: 0 <= i < |ids| ==> ids[i] == runs[i].id
  {
    seq(|runs|, i requires 0 <= i < |runs| => runs[i].id)
  }

  lemma {:induction false} SelectByIds(a: seq<SeriesRun>, b: seq<SeriesRun>, ids: set<string>)
    requires |a| == |b| && forall i :: 0 <= i < |a| ==> a[i].id == b[i].id
    ensures IdsOf(Select(a, ids)) == IdsOf(Select(b, ids))
  {
    if a != [] {
      SelectByIds(a[..|a| - 1], b[..|b| - 1], ids);
    }
  }

  lemma MergedMembers(members: seq<SeriesRun>, itemRuns: seq<SeriesRun>)
    requires members != [] && NewestFirstOrder(members)
    ensures Select(MergedRows(members, itemRuns), RecordedIds(members)) == members
  {
    var ids := RecordedIds(members);
    var gone := GoneRows(itemRuns, members[|members| - 1].startedAt, ids);
    SelectSum(members, gone, ids);
    SelectAll(members, ids);
    SelectNone(gone, ids);
    assert Select(members + gone, ids) == members;
    SortThenSelect(members + gone, ids);
    SortedAlready(members);
  }

  // Every recorded member keeps its place exactly once: leaving out the tree's
  // other runs, the series lists the members in their own order.
  lemma MembersKeepTheirPlaces(members: seq<SeriesRun>, itemRuns: seq<SeriesRun>, out: seq<SeriesRun>)
    requires members != [] && NewestFirstOrder(members) && Sampled(MergedRows(members, itemRuns), out)
    ensures IdsOf(Select(out, RecordedIds(members))) == IdsOf(members)
  {
    var rows := MergedRows(members, itemRuns);
    MergedMembers(members, itemRuns);
    SampledIds(rows, out);
    SelectByIds(out, rows, RecordedIds(members));
  }

  lemma SampledIds(rows: seq<SeriesRun>, out: seq<SeriesRun>)
    requires Sampled(rows, out)
    ensures forall i :: 0 <= i < |out| ==> out[i].id == rows[i].id
  {
  }

  lemma {:induction false} InsertHas(xs: seq<SeriesRun>, x: SeriesRun)
    requires NewestFirstOrder(xs)
    ensures forall y :: y in InsertStable(xs, x) <==> y == x || y in xs
  {
    if xs != [] && xs[|xs| - 1].startedAt < x.startedAt {
      InsertHas(xs[..|xs| - 1], x);
      assert xs == xs[..|xs| - 1] + [xs[|xs| - 1]];
    }
  }

  lemma {:induction false} SortedHas(xs: seq<SeriesRun>)
    ensures forall y :: y in StableSorted(xs) <==> y in xs
  {
    if xs != [] {
      var n := |xs| - 1;
      SortedHas(xs[..n]);
      InsertHas(StableSorted(xs[..n]), xs[n]);
      assert xs == xs[..n] + [xs[n]];
    }
  }

  // A run of the tree that succeeded since the dataset was first recorded and
  // has no row of it: the tree no longer had it.
  predicate Lacks(members: seq<SeriesRun>, run: SeriesRun)
    requires members != []
  {
    && run.status == Success && run.startedAt >= members[|members| - 1].startedAt
    && forall k :: 0 <= k < |members| ==> members[k].id != run.id
  }

  // The row such a run leaves: gone, with nothing measured.
  predicate IsGone(row: SeriesRun, run: SeriesRun) {
    && row.id == run.id && row.status == run.status && row.startedAt == run.startedAt
    && row.finishedAt == run.finishedAt && row.selectionFP == run.selectionFP
    && row.outcome == "gone" && row.snapshotID == "" && row.bytes == 0
    && row.sourceBytes.None? && row.sourceFiles.None? && row.filesNew.None? && row.resticMS.None? && row.hasParent.None?
  }

  // There is such a row for each run of the tree that lacks the dataset, and no
  // other.
  ghost predicate GoneFor(members: seq<SeriesRun>, itemRuns: seq<SeriesRun>, rows: seq<SeriesRun>)
    requires members != []
  {
    && (forall r :: r in rows ==> exists run :: run in itemRuns && Lacks(members, run) && IsGone(r, run))
    && (forall run :: run in itemRuns && Lacks(members, run) ==> exists r :: r in rows && IsGone(r, run))
  }

  lemma {:induction false} GoneRowsAre(members: seq<SeriesRun>, itemRuns: seq<SeriesRun>)
    requires members != []
    ensures GoneFor(members, itemRuns, GoneRows(itemRuns, members[|members| - 1].startedAt, RecordedIds(members)))
  {
    hide Lacks, IsGone, GoneRow, GoneFor;
    var oldest, ids := members[|members| - 1].startedAt, RecordedIds(members);
    if itemRuns != [] {
      var n := |itemRuns| - 1;
      GoneRowsAre(members, itemRuns[..n]);
      LacksNoRow(members, itemRuns[n]);
      GoneOneMore(members, itemRuns, GoneRows(itemRuns[..n], oldest, ids), GoneRows(itemRuns, oldest, ids));
    } else {
      NoneGone(members);
    }
  }

  lemma NoneGone(members: seq<SeriesRun>)
    requires members != []
    ensures GoneFor(members, [], [])
  {
  }

  lemma LacksNoRow(members: seq<SeriesRun>, run: SeriesRun)
    requires members != []
    ensures Lacks(members, run) <==>
      run.status == Success && run.startedAt >= members[|members| - 1].startedAt && run.id !in RecordedIds(members)
  {
    assert run.id in RecordedIds(members) <==> exists k :: 0 <= k < |members| && members[k].id == run.id;
  }

  lemma GoneOneMore(members: seq<SeriesRun>, itemRuns: seq<SeriesRun>, before: seq<SeriesRun>, now: seq<SeriesRun>)
    requires members != [] && itemRuns != []
    requires var run := itemRuns[|itemRuns| - 1];
      now == before + if Lacks(members, run) then [GoneRow(run)] else []
    requires GoneFor(members, itemRuns[..|itemRuns| - 1], before)
    ensures GoneFor(members, itemRuns, now)
  {
    hide Lacks;
    var n := |itemRuns| - 1;
    assert itemRuns == itemRuns[..n] + [itemRuns[n]];
    assert IsGone(GoneRow(itemRuns[n]), itemRuns[n]);
    forall r | r in now ensures exists run :: run in itemRuns && Lacks(members, run) && IsGone(r, run) {
      if r in before {
        var run :| run in itemRuns[..n] && Lacks(members, run) && IsGone(r, run);
        assert run in itemRuns;
      } else {
        assert itemRuns[n] in itemRuns;
      }
    }
    forall run | run in itemRuns && Lacks(members, run) ensures exists r :: r in now && IsGone(r, run) {
      if run in itemRuns[..n] {
        var r :| r in before && IsGone(r, run);
        assert r in now;
      } else {
        assert GoneRow(run) in now;
      }
    }
  }

  // The rows of the series are those the dataset has itself and one for each
  // run of the tree that lacks it, newest first.
  lemma RowsAre(members: seq<SeriesRun>, itemRuns: seq<SeriesRun>)
    requires members != []
    ensures var rows := MergedRows(members, itemRuns);
      && NewestFirstOrder(rows)
      && (forall m :: m in members ==> m in rows)
      && (forall run :: run in itemRuns && Lacks(members, run) ==> exists r :: r in rows && IsGone(r, run))
      && (forall r :: r in rows ==>
           r in members || exists run :: run in itemRuns && Lacks(members, run) && IsGone(r, run))
  {
    hide Lacks, IsGone, StableSorted, GoneRows;
    var gone := GoneRows(itemRuns, members[|members| - 1].startedAt, RecordedIds(members));
    GoneRowsAre(members, itemRuns);
    SortedHas(members + gone);
    assert forall r :: r in members + gone <==> r in members || r in gone;
  }
}
