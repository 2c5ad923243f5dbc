// Pairing the runs that carry no figures with the snapshots they wrote
// (anomaly_backfill.go), from a repository's listing in any order and with
// any repetitions.
module SnapshotMatching {
  import opened Wrappers
  import opened Sums

  const VM_RUN_TAG := "vmrun:"
  const MAX_INT64 := 0x7fff_ffff_ffff_ffff

  // A run waiting for its figures, or one dataset of a ZFS run.
  datatype Run = Run(id: string, snapshotID: string, dataset: string)

  // What restic says a backup did. Times are milliseconds.
  datatype Summary = Summary(processedBytes: nat, processedFiles: nat, filesNew: nat, added: nat, start: int, end: int)

  datatype Snap = Snap(id: string, parent: string, tags: seq<string>, summary: Option<Summary>)

  // A listing names a snapshot by its id.
  ghost predicate Consistent(snaps: seq<Snap>) {
    forall i, j :: 0 <= i < |snaps| && 0 <= j < |snaps| && snaps[i].id == snaps[j].id ==> snaps[i] == snaps[j]
  }

  function Clamp(v: nat): nat { if v > MAX_INT64 then MAX_INT64 else v }

  function Took(s: Summary): nat { if s.end - s.start > 0 then s.end - s.start else 0 }

  // ---- whose snapshot it is ------------------------------------------------------

  // The last run in the list that recorded the snapshot.
  function BySnapshot(runs: seq<Run>): map<string, string> {
    if runs == [] then map[]
    else
      var last := runs[|runs| - 1];
      var rest := BySnapshot(runs[..|runs| - 1]);
      if last.dataset == "" && last.snapshotID != "" then rest[last.snapshotID := last.id] else rest
  }

  function RunIDs(runs: seq<Run>): set<string> {
    set i | 0 <= i < |runs| && runs[i].dataset == "" :: runs[i].id
  }

  // The id in the first tag that names a known run.
  function VmRun(tags: seq<string>, ids: set<string>): string {
    if tags == [] then ""
    else if VM_RUN_TAG <= tags[0] && tags[0][|VM_RUN_TAG|..] in ids then tags[0][|VM_RUN_TAG|..]
    else VmRun(tags[1..], ids)
  }

  method VmRunOf(snap: Snap, ids: set<string>) returns (run: string)
    ensures run == VmRun(snap.tags, ids)
  {
    var tags := snap.tags;
    assert tags[0..] == tags;
    for i := 0 to |tags|
      invariant VmRun(snap.tags, ids) == VmRun(tags[i..], ids)
    {
      assert tags[i..][1..] == tags[i + 1..];
      if VM_RUN_TAG <= tags[i] && tags[i][|VM_RUN_TAG|..] in ids {
        return tags[i][|VM_RUN_TAG|..];
      }
    }
    return "";
  }

  // The run a snapshot belongs to, empty for none, and whether it only shares
  // the run with others, which its tag says.
  datatype Owner = Owner(run: string, summed: bool)

  function OwnerIn(bySnapshot: map<string, string>, ids: set<string>, snap: Snap): Owner {
    var recorded := if snap.id in bySnapshot then bySnapshot[snap.id] else "";
    if recorded != "" then Owner(recorded, false) else Owner(VmRun(snap.tags, ids), true)
  }

  function OwnerOf(runs: seq<Run>, snap: Snap): Owner {
    OwnerIn(BySnapshot(runs), RunIDs(runs), snap)
  }

  // ---- what each run gets --------------------------------------------------------

  // The distinct snapshots of a run that carry a summary.
  function Tallied(of: Snap -> Owner, snaps: set<Snap>, run: string): set<Snap> {
    set sn | sn in snaps && of(sn).run == run && sn.summary.Some?
  }

  function Unsummarized(of: Snap -> Owner, snaps: set<Snap>): set<Snap> {
    set sn | sn in snaps && of(sn).run != "" && sn.summary.None?
  }

  function Matched(of: Snap -> Owner, snaps: set<Snap>): set<Snap> {
    set sn | sn in snaps && of(sn).run != ""
  }

  datatype Tally = Tally(bytes: int, files: int, filesNew: int, millis: int, added: int, snapshots: nat,
    withParent: nat, summed: bool)

  const EMPTY := Tally(0, 0, 0, 0, 0, 0, 0, false)

  function BytesOf(sn: Snap): int { if sn.summary.Some? then Clamp(sn.summary.value.processedBytes) else 0 }
  function FilesOf(sn: Snap): int { if sn.summary.Some? then Clamp(sn.summary.value.processedFiles) else 0 }
  function NewOf(sn: Snap): int { if sn.summary.Some? then Clamp(sn.summary.value.filesNew) else 0 }
  function MillisOf(sn: Snap): int { if sn.summary.Some? then Took(sn.summary.value) else 0 }
  function AddedOf(sn: Snap): int { if sn.summary.Some? then Clamp(sn.summary.value.added) else 0 }

  // A tally is that of a set of snapshots: sums, counts, and whether any of
  // them was found by its tag.
  ghost predicate TallyOf(of: Snap -> Owner, own: set<Snap>, t: Tally) {
    && t.bytes == SumOf(BytesOf, own) && t.files == SumOf(FilesOf, own) && t.filesNew == SumOf(NewOf, own)
    && t.millis == SumOf(MillisOf, own) && t.added == SumOf(AddedOf, own)
    && t.snapshots == |own| && t.withParent == |WithParent(own)|
    && (t.summed <==> exists sn :: sn in own && of(sn).summed)
  }

  function WithParent(own: set<Snap>): set<Snap> { set sn | sn in own && sn.parent != "" }

  ghost predicate Tallies(of: Snap -> Owner, snaps: set<Snap>, tallies: map<string, Tally>, without: nat) {
    && (forall r :: r in tallies <==> r != "" && Tallied(of, snaps, r) != {})
    && (forall r :: r in tallies ==> TallyOf(of, Tallied(of, snaps, r), tallies[r]))
    && without == |Unsummarized(of, snaps)|
  }

  function AddSnap(t: Tally, sn: Snap, summed: bool): Tally
    requires sn.summary.Some?
  {
    Tally(t.bytes + BytesOf(sn), t.files + FilesOf(sn), t.filesNew + NewOf(sn), t.millis + MillisOf(sn),
      t.added + AddedOf(sn),
          t.snapshots + 1, t.withParent + (if sn.parent != "" then 1 else 0), t.summed || summed)
  }

  lemma AddSnapTallies(of: Snap -> Owner, own: set<Snap>, t: Tally, sn: Snap)
    requires TallyOf(of, own, t) && sn !in own && sn.summary.Some?
    ensures TallyOf(of, own + {sn}, AddSnap(t, sn, of(sn).summed))
  {
    hide SumOf, WithParent, BytesOf, FilesOf, NewOf, MillisOf, AddedOf;
    SumAdds(BytesOf, own, sn);
    SumAdds(FilesOf, own, sn);
    SumAdds(NewOf, own, sn);
    SumAdds(MillisOf, own, sn);
    SumAdds(AddedOf, own, sn);
    WithParentGrows(own, sn);
  }

  lemma WithParentGrows(own: set<Snap>, sn: Snap)
    requires sn !in own
    ensures |WithParent(own + {sn})| == |WithParent(own)| + if sn.parent != "" then 1 else 0
  {
    assert WithParent(own + {sn}) == WithParent(own) + if sn.parent != "" then {sn} else {};
  }

  lemma TalliedGrows(of: Snap -> Owner, snaps: set<Snap>, sn: Snap, run: string)
    ensures Tallied(of, snaps + {sn}, run) == Tallied(of, snaps, run) + if of(sn).run == run && sn.summary.Some? then
      {sn} else {}
  {
  }

  lemma UnsummarizedGrows(of: Snap -> Owner, snaps: set<Snap>, sn: Snap)
    ensures Unsummarized(of, snaps + {sn}) == Unsummarized(of, snaps) + if of(sn).run != "" && sn.summary.None? then
      {sn} else {}
  {
  }

  lemma CountKeepsTallies(of: Snap -> Owner, snaps: set<Snap>, sn: Snap, tallies: map<string, Tally>, without: nat)
    requires Tallies(of, snaps, tallies, without) && of(sn).run != "" && sn !in snaps && sn.summary.None?
    ensures Tallies(of, snaps + {sn}, tallies, without + 1)
  {
    forall r ensures Tallied(of, snaps + {sn}, r) == Tallied(of, snaps, r) { TalliedGrows(of, snaps, sn, r); }
    UnsummarizedGrows(of, snaps, sn);
  }

  function Entry(tallies: map<string, Tally>, run: string): Tally {
    if run in tallies then tallies[run] else EMPTY
  }

  lemma AddKeepsTallies(of: Snap -> Owner, snaps: set<Snap>, sn: Snap, tallies: map<string, Tally>, without: nat,
      run: string, t: Tally)
    requires Tallies(of, snaps, tallies, without) && run != "" && of(sn).run == run && sn !in snaps && sn.summary.Some?
    requires t == AddSnap(Entry(tallies, run), sn, of(sn).summed)
    ensures Tallies(of, snaps + {sn}, tallies[run := t], without)
  {
    hide TallyOf, AddSnap, Unsummarized, Entry, Tallied;
    var next := snaps + {sn};
    TalliedGrows(of, snaps, sn, run);
    OwnTallyGrows(of, snaps, sn, tallies, without, run);
    forall r | r != run ensures Tallied(of, next, r) == Tallied(of, snaps, r) { TalliedGrows(of, snaps, sn, r); }
    assert sn in Tallied(of, snaps, run) + {sn};
    UnsummarizedGrows(of, snaps, sn);
  }

  lemma OwnTallyGrows(of: Snap -> Owner, snaps: set<Snap>, sn: Snap, tallies: map<string, Tally>, without: nat,
      run: string)
    requires Tallies(of, snaps, tallies, without) && run != "" && of(sn).run == run && sn !in snaps && sn.summary.Some?
    ensures TallyOf(of, Tallied(of, snaps, run) + {sn}, AddSnap(Entry(tallies, run), sn, of(sn).summed))
  {
    if run !in tallies { EmptyTally(of); }
    AddSnapTallies(of, Tallied(of, snaps, run), Entry(tallies, run), sn);
  }

  lemma EmptyTally(of: Snap -> Owner)
    ensures TallyOf(of, {}, EMPTY)
  {
    assert WithParent({}) == {};
  }

  // What a run is filled with. bytes is given only where several snapshots
  // make up the run.
  datatype Metrics = Metrics(sourceBytes: int, sourceFiles: int, filesNew: int, resticMS: int, hasParent: bool,
    bytes: Option<int>)

  function MetricsOf(t: Tally): Metrics {
    Metrics(t.bytes, t.files, t.filesNew, t.millis, t.withParent == t.snapshots,
      if t.summed then Some(t.added) else None)
  }

  ghost predicate Fills(of: Snap -> Owner, snaps: set<Snap>, r: string, m: Metrics) {
    var own := Tallied(of, snaps, r);
    && own != {}
    && m.sourceBytes == SumOf(BytesOf, own) && m.sourceFiles == SumOf(FilesOf, own)
    && m.filesNew == SumOf(NewOf, own) && m.resticMS == SumOf(MillisOf, own)
    && (m.hasParent <==> forall sn :: sn in own ==> sn.parent != "")
    && m.bytes == if (exists sn :: sn in own && of(sn).summed) then Some(SumOf(AddedOf, own)) else None
  }

  // The result for a set of snapshots: the runs one of them fills, each with
  // the sums over its own ones, and how many are too old to carry a summary.
  ghost predicate Matches(of: Snap -> Owner, snaps: set<Snap>, out: map<string, Metrics>, without: nat) {
    && (forall r :: r in out <==> r != "" && Tallied(of, snaps, r) != {})
    && (forall r :: r in out ==> Fills(of, snaps, r, out[r]))
    && without == |Unsummarized(of, snaps)|
  }

  lemma MetricsFill(of: Snap -> Owner, snaps: set<Snap>, r: string, t: Tally)
    requires Tallied(of, snaps, r) != {} && TallyOf(of, Tallied(of, snaps, r), t)
    ensures Fills(of, snaps, r, MetricsOf(t))
  {
    var own := Tallied(of, snaps, r);
    var parents := WithParent(own);
    if |parents| == |own| {
      assert own == parents + (own - parents);
      assert own - parents == {};
      forall sn | sn in own ensures sn.parent != "" { assert sn in parents; }
    } else {
      assert own - parents != {} by { assert own == parents + (own - parents); }
      var sn :| sn in own - parents;
    }
  }

  function Members(snaps: seq<Snap>): set<Snap> { set i | 0 <= i < |snaps| :: snaps[i] }

  // A snapshot of the run and the id is among them.
  ghost predicate Keyed(of: Snap -> Owner, met: set<Snap>, run: string, id: string) {
    exists sn :: sn in met && sn.id == id && of(sn).run == run
  }

  // The entries of a listing that count: of each run and snapshot id the first.
  ghost function Firsts(of: Snap -> Owner, snaps: seq<Snap>): set<Snap> {
    if snaps == [] then {}
    else
      var last := snaps[|snaps| - 1];
      var rest := Firsts(of, snaps[..|snaps| - 1]);
      if of(last).run == "" || Keyed(of, rest, of(last).run, last.id) then rest else rest + {last}
  }

  // Entry i is the first of its run and id.
  ghost predicate IsFirst(of: Snap -> Owner, snaps: seq<Snap>, i: int) {
    && 0 <= i < |snaps| && of(snaps[i]).run != ""
    && forall j :: 0 <= j < i ==> !(snaps[j].id == snaps[i].id && of(snaps[j]).run == of(snaps[i]).run)
  }

  lemma {:induction false} FirstsAreFirst(of: Snap -> Owner, snaps: seq<Snap>, sn: Snap)
    ensures sn in Firsts(of, snaps) <==> exists i :: IsFirst(of, snaps, i) && snaps[i] == sn
  {
    if snaps != [] {
      var n := |snaps| - 1;
      FirstsAreFirst(of, snaps[..n], sn);
      LastIsFirst(of, snaps);
      hide Keyed;
      forall i | 0 <= i < n
        ensures IsFirst(of, snaps[..n], i) == IsFirst(of, snaps, i) { FirstInPrefix(of, snaps, n, i); }
    }
  }

  lemma FirstInPrefix(of: Snap -> Owner, snaps: seq<Snap>, n: nat, i: nat)
    requires i < n <= |snaps|
    ensures IsFirst(of, snaps[..n], i) == IsFirst(of, snaps, i)
  {
    assert forall j :: 0 <= j <= i ==> snaps[..n][j] == snaps[j];
  }

  lemma LastIsFirst(of: Snap -> Owner, snaps: seq<Snap>)
    requires snaps != []
    ensures
      var n := |snaps| - 1;
      IsFirst(of, snaps, n) <==>
        of(snaps[n]).run != "" && !Keyed(of, Firsts(of, snaps[..n]), of(snaps[n]).run, snaps[n].id)
  {
    hide Firsts, Keyed;
    var n := |snaps| - 1;
    assert forall j :: 0 <= j < n ==> snaps[..n][j] == snaps[j];
    if of(snaps[n]).run != "" {
      KeyedIsListed(of, snaps[..n], of(snaps[n]).run, snaps[n].id);
    }
  }

  lemma {:induction false} KeyedIsListed(of: Snap -> Owner, snaps: seq<Snap>, run: string, id: string)
    requires run != ""
    ensures Keyed(of, Firsts(of, snaps), run, id) <==>
      exists j :: 0 <= j < |snaps| && snaps[j].id == id && of(snaps[j]).run == run
  {
    if snaps != [] {
      var n := |snaps| - 1;
      KeyedIsListed(of, snaps[..n], run, id);
      assert forall j :: 0 <= j < n ==> snaps[..n][j] == snaps[j];
      var rest, all := Firsts(of, snaps[..n]), Firsts(of, snaps);
      if Keyed(of, rest, run, id) {
        var sn :| sn in rest && sn.id == id && of(sn).run == run;
        assert sn in all;
      }
      if snaps[n].id == id && of(snaps[n]).run == run && !Keyed(of, rest, run, id) {
        assert snaps[n] in all;
      }
    }
  }

  // In a listing that names a snapshot by its id those are all of its
  // snapshots that belong to a run.
  lemma FirstsOfConsistent(of: Snap -> Owner, snaps: seq<Snap>)
    requires Consistent(snaps)
    ensures Firsts(of, snaps) == Matched(of, Members(snaps))
  {
    forall sn ensures sn in Firsts(of, snaps) <==> sn in Matched(of, Members(snaps)) {
      FirstsAreFirst(of, snaps, sn);
      if sn in Matched(of, Members(snaps)) {
        var i := FirstWithId(snaps, sn);
        assert IsFirst(of, snaps, i);
      }
    }
  }

  lemma {:induction false} FirstWithId(snaps: seq<Snap>, sn: Snap) returns (i: nat)
    requires Consistent(snaps) && sn in Members(snaps)
    ensures i < |snaps| && snaps[i] == sn && forall j :: 0 <= j < i ==> snaps[j].id != sn.id
  {
    i :| i < |snaps| && snaps[i] == sn;
    if j :| 0 <= j < i && snaps[j].id == sn.id {
      var rest := snaps[..i];
      assert rest[j] == sn;
      i := FirstWithId(rest, sn);
      assert forall k :: 0 <= k < i ==> rest[k] == snaps[k];
    }
  }

  lemma MatchedSuffices(of: Snap -> Owner, snaps: set<Snap>, out: map<string, Metrics>, without: nat)
    requires Matches(of, Matched(of, snaps), out, without)
    ensures Matches(of, snaps, out, without)
  {
    hide Fills;
    var some := Matched(of, snaps);
    assert Unsummarized(of, some) == Unsummarized(of, snaps);
    forall r | r != "" ensures Tallied(of, some, r) == Tallied(of, snaps, r) {}
    forall r | r in out ensures Fills(of, snaps, r, out[r]) { SameFill(of, some, snaps, r, out[r]); }
  }

  lemma SameFill(of: Snap -> Owner, a: set<Snap>, b: set<Snap>, r: string, m: Metrics)
    requires Fills(of, a, r, m) && Tallied(of, a, r) == Tallied(of, b, r)
    ensures Fills(of, b, r, m)
  {
  }

  // Of a listing that repeats an id with other contents the first entry counts.
  method MatchSnapshotSummaries(runs: seq<Run>, snaps: seq<Snap>) returns (out: map<string, Metrics>, without: nat)
    ensures Matches(sn => OwnerOf(runs, sn), Firsts(sn => OwnerOf(runs, sn), snaps), out, without)
    ensures Consistent(snaps) ==> Matches(sn => OwnerOf(runs, sn), Members(snaps), out, without)
  {
    hide Matches, Tallies, Firsts, Members;
    var bySnapshot, ids := IndexRuns(runs);
    ghost var of := (sn: Snap) => OwnerOf(runs, sn);
    var tallies: map<string, Tally>;
    tallies, without := TallySnaps(bySnapshot, ids, snaps, of);
    out := FillRuns(tallies);
    TalliesMatch(of, Firsts(of, snaps), tallies, out, without);
    if Consistent(snaps) {
      FirstsOfConsistent(of, snaps);
      MatchedSuffices(of, Members(snaps), out, without);
    }
  }

  method FillRuns(tallies: map<string, Tally>) returns (out: map<string, Metrics>)
    ensures out.Keys == tallies.Keys && forall r :: r in out ==> out[r] == MetricsOf(tallies[r])
  {
    out := map[];
    var rest := tallies.Keys;
    while rest != {}
      invariant rest <= tallies.Keys && out.Keys == tallies.Keys - rest
      invariant forall r :: r in out ==> out[r] == MetricsOf(tallies[r])
      decreases |rest|
    {
      var r :| r in rest;
      out := out[r := MetricsOf(tallies[r])];
      rest := rest - {r};
    }
  }

  lemma TalliesMatch(of: Snap -> Owner, snaps: set<Snap>, tallies: map<string, Tally>, out: map<string, Metrics>,
      without: nat)
    requires Tallies(of, snaps, tallies, without)
    requires out.Keys == tallies.Keys && forall r :: r in out ==> out[r] == MetricsOf(tallies[r])
    ensures Matches(of, snaps, out, without)
  {
    forall r | r in out ensures Fills(of, snaps, r, out[r]) {
      assert r in tallies;
      MetricsFill(of, snaps, r, tallies[r]);
    }
    forall r ensures r in out <==> r in tallies { assert r in out.Keys <==> r in tallies.Keys; }
  }

  method IndexRuns(runs: seq<Run>) returns (bySnapshot: map<string, string>, ids: set<string>)
    ensures bySnapshot == BySnapshot(runs) && ids == RunIDs(runs)
  {
    bySnapshot, ids := map[], {};
    for i := 0 to |runs|
      invariant bySnapshot == BySnapshot(runs[..i])
      invariant ids == set j | 0 <= j < i && runs[j].dataset == "" :: runs[j].id
    {
      assert runs[..i + 1][..i] == runs[..i];
      if runs[i].dataset != "" { continue; }
      ids := ids + {runs[i].id};
      if runs[i].snapshotID != "" {
        bySnapshot := bySnapshot[runs[i].snapshotID := runs[i].id];
      }
    }
    assert runs[..|runs|] == runs;
  }

  method TallySnaps(bySnapshot: map<string, string>, ids: set<string>, snaps: seq<Snap>, ghost of: Snap -> Owner)
    returns (tallies: map<string, Tally>, without: nat)
    requires forall sn :: of(sn) == OwnerIn(bySnapshot, ids, sn)
    ensures Tallies(of, Firsts(of, snaps), tallies, without)
  {
    hide Tallies, Firsts, Seen, AddSnap, Entry;
    tallies, without := map[], 0;
    var seen: set<(string, string)> := {};
    NothingTallied(of);
    for i := 0 to |snaps|
      invariant Tallies(of, Firsts(of, snaps[..i]), tallies, without)
      invariant Seen(of, Firsts(of, snaps[..i]), seen)
    {
      var sn := snaps[i];
      ghost var met := Firsts(of, snaps[..i]);
      var run, summed := if sn.id in bySnapshot then bySnapshot[sn.id] else "", false;
      if run == "" {
        run := VmRunOf(sn, ids);
        summed := true;
      }
      assert of(sn) == Owner(run, summed);
      FirstsGrow(of, snaps, i, seen);
      if run == "" || (run, sn.id) in seen {
        continue;
      }
      SeenGrows(of, met, sn, seen);
      seen := seen + {(run, sn.id)};
      if sn.summary.None? {
        CountKeepsTallies(of, met, sn, tallies, without);
        without := without + 1;
        continue;
      }
      var t := AddSnap(Entry(tallies, run), sn, summed);
      AddKeepsTallies(of, met, sn, tallies, without, run, t);
      tallies := tallies[run := t];
    }
    assert snaps[..|snaps|] == snaps;
  }

  // The keys met so far.
  ghost predicate Seen(of: Snap -> Owner, met: set<Snap>, seen: set<(string, string)>) {
    forall run, id :: (run, id) in seen <==> run != "" && Keyed(of, met, run, id)
  }

  lemma NothingTallied(of: Snap -> Owner)
    ensures Firsts(of, []) == {} && Tallies(of, {}, map[], 0) && Seen(of, {}, {})
  {
    assert Unsummarized(of, {}) == {};
  }

  lemma FirstsGrow(of: Snap -> Owner, snaps: seq<Snap>, i: nat, seen: set<(string, string)>)
    requires i < |snaps| && Seen(of, Firsts(of, snaps[..i]), seen)
    ensures
      var sn, met := snaps[i], Firsts(of, snaps[..i]);
      if of(sn).run == "" || (of(sn).run, sn.id) in seen then Firsts(of, snaps[..i + 1]) == met
      else Firsts(of, snaps[..i + 1]) == met + {sn} && sn !in met
  {
    assert snaps[..i + 1][..i] == snaps[..i];
  }

  lemma SeenGrows(of: Snap -> Owner, met: set<Snap>, sn: Snap, seen: set<(string, string)>)
    requires Seen(of, met, seen) && of(sn).run != ""
    ensures Seen(of, met + {sn}, seen + {(of(sn).run, sn.id)})
  {
    forall run, id ensures (run, id) in seen + {(of(sn).run, sn.id)} <==> run != "" && Keyed(of, met + {sn}, run, id) {
      if Keyed(of, met, run, id) {
        var k :| k in met && k.id == id && of(k).run == run;
        assert k in met + {sn};
      }
      if run == of(sn).run && id == sn.id {
        assert sn in met + {sn};
      }
    }
  }

  // ---- the listing is a set -----------------------------------------------------

  // Reordering a listing or repeating entries of it changes nothing.
  lemma ListingIsASet(runs: seq<Run>, snaps: seq<Snap>, other: seq<Snap>, out: map<string, Metrics>, without: nat,
      out1: map<string, Metrics>, without1: nat)
    requires forall sn :: sn in snaps <==> sn in other
    requires Matches(sn => OwnerOf(runs, sn), Members(snaps), out, without)
    requires Matches(sn => OwnerOf(runs, sn), Members(other), out1, without1)
    ensures out == out1 && without == without1
  {
    assert Members(snaps) == Members(other) by {
      forall sn ensures sn in Members(snaps) <==> sn in snaps {}
      forall sn ensures sn in Members(other) <==> sn in other {}
    }
    var of := (sn: Snap) => OwnerOf(runs, sn);
    forall r | r in out ensures r in out1 && out[r] == out1[r] {
      assert Fills(of, Members(snaps), r, out[r]) && Fills(of, Members(other), r, out1[r]);
    }
    assert out.Keys == out1.Keys;
  }

  // Every distinct snapshot that belongs to a run is tallied for exactly that
  // run, exactly once, or counted as having no summary.
  lemma MatchedAreCounted(of: Snap -> Owner, snaps: set<Snap>, out: map<string, Metrics>, without: nat)
    requires Matches(of, snaps, out, without)
    ensures SumOf(r => |Tallied(of, snaps, r)|, out.Keys) + without == |Matched(of, snaps)|
    ensures forall r, q :: r != q ==> Tallied(of, snaps, r) !! Tallied(of, snaps, q)
  {
    TalliedAddUp(of, snaps, out.Keys);
    MatchedSplits(of, snaps, out.Keys);
  }

  lemma MatchedSplits(of: Snap -> Owner, snaps: set<Snap>, runs: set<string>)
    requires forall r :: r in runs <==> r != "" && Tallied(of, snaps, r) != {}
    ensures |Matched(of, snaps)| == |TalliedFor(of, snaps, runs)| + |Unsummarized(of, snaps)|
  {
    var with, bare := TalliedFor(of, snaps, runs), Unsummarized(of, snaps);
    forall sn ensures sn in Matched(of, snaps) <==> sn in with || sn in bare {
      if sn in Matched(of, snaps) && sn.summary.Some? {
        assert sn in Tallied(of, snaps, of(sn).run);
      }
    }
    assert Matched(of, snaps) == with + bare && with !! bare;
  }

  function TalliedFor(of: Snap -> Owner, snaps: set<Snap>, runs: set<string>): set<Snap> {
    set sn | sn in snaps && of(sn).run in runs && sn.summary.Some?
  }

  lemma {:induction false} TalliedAddUp(of: Snap -> Owner, snaps: set<Snap>, runs: set<string>)
    ensures SumOf(r => |Tallied(of, snaps, r)|, runs) == |TalliedFor(of, snaps, runs)|
  {
    var size := r => |Tallied(of, snaps, r)|;
    if runs == {} {
      assert TalliedFor(of, snaps, runs) == {};
    } else {
      var r :| r in runs;
      TalliedAddUp(of, snaps, runs - {r});
      SumTakeOut(size, runs, r);
      var mine, others := Tallied(of, snaps, r), TalliedFor(of, snaps, runs - {r});
      assert TalliedFor(of, snaps, runs) == others + mine && others !! mine;
    }
  }

  // ---- what the figures are -----------------------------------------------

  // A counter of restic's as the signed column keeps it.
  function Capped(v: nat): int { if v < 9223372036854775808 then v else 9223372036854775807 }

  function Duration(s: Summary): int { if s.start <= s.end then s.end - s.start else 0 }

  // A run that wrote one snapshot is filled with what restic said of it; the
  // data it added is only given for a run found by its tag.
  lemma OneSnapshotFills(of: Snap -> Owner, snaps: set<Snap>, r: string, m: Metrics, sn: Snap)
    requires Fills(of, snaps, r, m) && Tallied(of, snaps, r) == {sn}
    ensures var s := sn.summary.value;
      && m.sourceBytes == Capped(s.processedBytes) && m.sourceFiles == Capped(s.processedFiles)
      && m.filesNew == Capped(s.filesNew) && m.resticMS == Duration(s)
      && (m.hasParent <==> sn.parent != "")
      && m.bytes == if of(sn).summed then Some(Capped(s.added)) else None
  {
    hide Fills;
    assert sn in Tallied(of, snaps, r);
    FillIs(of, snaps, r, m);
    SumOfOne(BytesOf, sn);
    SumOfOne(FilesOf, sn);
    SumOfOne(NewOf, sn);
    SumOfOne(MillisOf, sn);
    SumOfOne(AddedOf, sn);
  }

  lemma SumOfOne(v: Snap -> int, sn: Snap)
    ensures SumOf(v, {sn}) == v(sn)
  {
    SumAdds(v, {}, sn);
    assert {} + {sn} == {sn};
  }

  lemma FillIs(of: Snap -> Owner, snaps: set<Snap>, r: string, m: Metrics)
    requires Fills(of, snaps, r, m)
    ensures var own := Tallied(of, snaps, r);
      && m.sourceBytes == SumOf(BytesOf, own) && m.sourceFiles == SumOf(FilesOf, own)
      && m.filesNew == SumOf(NewOf, own) && m.resticMS == SumOf(MillisOf, own)
      && (m.hasParent <==> forall sn :: sn in own ==> sn.parent != "")
      && (m.bytes.Some? <==> exists sn :: sn in own && of(sn).summed)
      && (m.bytes.Some? ==> m.bytes.value == SumOf(AddedOf, own))
  {
  }

  // Each further snapshot of the run adds its own figures.
  lemma MoreSnapshotsAdd(of: Snap -> Owner, snaps: set<Snap>, sn: Snap, r: string, m: Metrics, more: Metrics)
    requires sn !in snaps && of(sn).run == r && sn.summary.Some?
    requires Fills(of, snaps, r, m) && Fills(of, snaps + {sn}, r, more)
    ensures var s := sn.summary.value;
      && more.sourceBytes == m.sourceBytes + Capped(s.processedBytes)
      && more.sourceFiles == m.sourceFiles + Capped(s.processedFiles)
      && more.filesNew == m.filesNew + Capped(s.filesNew)
      && more.resticMS == m.resticMS + Duration(s)
      && (more.hasParent <==> m.hasParent && sn.parent != "")
      && (more.bytes.Some? <==> m.bytes.Some? || of(sn).summed)
      && (m.bytes.Some? ==> more.bytes == Some(m.bytes.value + Capped(s.added)))
  {
    hide Fills;
    var own := Tallied(of, snaps, r);
    TalliedGrows(of, snaps, sn, r);
    FillIs(of, snaps, r, m);
    FillIs(of, snaps + {sn}, r, more);
    SumAdds(BytesOf, own, sn);
    SumAdds(FilesOf, own, sn);
    SumAdds(NewOf, own, sn);
    SumAdds(MillisOf, own, sn);
    SumAdds(AddedOf, own, sn);
    assert forall x :: x in own + {sn} <==> x in own || x == sn;
  }

  // The i-th run is the last that recorded the snapshot.
  predicate RecordedLast(runs: seq<Run>, id: string, i: int) {
    && 0 <= i < |runs| && Records(runs[i], id)
    && forall k :: i < k < |runs| ==> !Records(runs[k], id)
  }

  predicate Records(run: Run, id: string) { run.dataset == "" && run.snapshotID == id && id != "" }

  lemma {:induction false} RecordedIn(runs: seq<Run>, id: string, i: int)
    requires RecordedLast(runs, id, i)
    ensures id in BySnapshot(runs) && BySnapshot(runs)[id] == runs[i].id
  {
    var n := |runs| - 1;
    if i < n {
      assert forall k :: 0 <= k < n ==> runs[..n][k] == runs[k];
      assert !Records(runs[n], id);
      RecordedIn(runs[..n], id, i);
    }
  }

  lemma {:induction false} NotRecorded(runs: seq<Run>, id: string)
    requires forall i :: 0 <= i < |runs| ==> !Records(runs[i], id)
    ensures id !in BySnapshot(runs)
  {
    if runs != [] {
      NotRecorded(runs[..|runs| - 1], id);
    }
  }

  // Tag k is the first that names one of the runs, which are not datasets.
  ghost predicate NamesRun(runs: seq<Run>, tags: seq<string>, k: int, run: string) {
    && 0 <= k < |tags| && tags[k] == "vmrun:" + run && IsRun(runs, run)
    && forall j, other :: 0 <= j < k && IsRun(runs, other) ==> tags[j] != "vmrun:" + other
  }

  predicate IsRun(runs: seq<Run>, id: string) {
    exists i :: 0 <= i < |runs| && runs[i].dataset == "" && runs[i].id == id
  }

  lemma TagOf(tag: string, ids: set<string>, run: string)
    ensures tag == VM_RUN_TAG + run ==> VM_RUN_TAG <= tag && tag[|VM_RUN_TAG|..] == run
    ensures VM_RUN_TAG <= tag ==> tag == VM_RUN_TAG + tag[|VM_RUN_TAG|..]
  {
  }

  lemma {:induction false} TagDecides(runs: seq<Run>, tags: seq<string>, k: int, run: string)
    requires NamesRun(runs, tags, k, run)
    ensures VmRun(tags, RunIDs(runs)) == run
  {
    var ids := RunIDs(runs);
    TagOf(tags[0], ids, run);
    if k > 0 {
      assert NamesRun(runs, tags[1..], k - 1, run) by {
        assert forall j :: 0 <= j < k - 1 ==> tags[1..][j] == tags[j + 1];
      }
      TagDecides(runs, tags[1..], k - 1, run);
      if VM_RUN_TAG <= tags[0] {
        assert tags[0][|VM_RUN_TAG|..] in ids <==> IsRun(runs, tags[0][|VM_RUN_TAG|..]);
      }
    }
  }

  lemma {:induction false} NoTagDecides(runs: seq<Run>, tags: seq<string>)
    requires forall j, other :: 0 <= j < |tags| && IsRun(runs, other) ==> tags[j] != "vmrun:" + other
    ensures VmRun(tags, RunIDs(runs)) == ""
  {
    if tags != [] {
      var ids := RunIDs(runs);
      TagOf(tags[0], ids, "");
      assert forall j :: 0 <= j < |tags| - 1 ==> tags[1..][j] == tags[j + 1];
      NoTagDecides(runs, tags[1..]);
      if VM_RUN_TAG <= tags[0] {
        assert tags[0][|VM_RUN_TAG|..] in ids <==> IsRun(runs, tags[0][|VM_RUN_TAG|..]);
      }
    }
  }

  // A snapshot belongs to the last run that recorded it, and otherwise to the
  // one its first tag with a known run names, with others of that run.
  lemma OwnerExactly(runs: seq<Run>, sn: Snap)
    ensures forall i :: RecordedLast(runs, sn.id, i) && runs[i].id != "" ==>
      OwnerOf(runs, sn) == Owner(runs[i].id, false)
    ensures (forall i :: 0 <= i < |runs| ==> !Records(runs[i], sn.id)) ==>
      && (forall k, run :: NamesRun(runs, sn.tags, k, run) ==> OwnerOf(runs, sn) == Owner(run, true))
      && ((forall j, other :: 0 <= j < |sn.tags| && IsRun(runs, other) ==> sn.tags[j] != "vmrun:" + other) ==>
           OwnerOf(runs, sn) == Owner("", true))
  {
    hide NamesRun, IsRun, VmRun, RunIDs, BySnapshot;
    forall i | RecordedLast(runs, sn.id, i) ensures sn.id in BySnapshot(runs) && BySnapshot(runs)[sn.id] == runs[i].id {
      RecordedIn(runs, sn.id, i);
    }
    if forall i :: 0 <= i < |runs| ==> !Records(runs[i], sn.id) {
      NotRecorded(runs, sn.id);
      forall k, run | NamesRun(runs, sn.tags, k, run) ensures OwnerOf(runs, sn) == Owner(run, true) {
        TagDecides(runs, sn.tags, k, run);
      }
      if forall j, other :: 0 <= j < |sn.tags| && IsRun(runs, other) ==> sn.tags[j] != "vmrun:" + other {
        NoTagDecides(runs, sn.tags);
      }
    }
  }

  // ---- datasets of ZFS runs ------------------------------------------------------

  datatype MemberRef = MemberRef(run: string, dataset: string)

  function ByDataset(runs: seq<Run>): map<string, MemberRef> {
    if runs == [] then map[]
    else
      var last := runs[|runs| - 1];
      var rest := ByDataset(runs[..|runs| - 1]);
      if last.dataset != "" then rest[last.snapshotID := MemberRef(last.id, last.dataset)] else rest
  }

  function DatasetMetrics(sn: Snap): Metrics {
    Metrics(BytesOf(sn), FilesOf(sn), NewOf(sn), MillisOf(sn), sn.parent != "", None)
  }

  // The i-th entry of the listing is a dataset's snapshot without a summary.
  predicate Bare(refs: map<string, MemberRef>, snaps: seq<Snap>, i: int) {
    0 <= i < |snaps| && snaps[i].id in refs && snaps[i].summary.None?
  }

  function BareEntries(refs: map<string, MemberRef>, snaps: seq<Snap>): nat {
    if snaps == [] then 0
    else BareEntries(refs, snaps[..|snaps| - 1]) + if Bare(refs, snaps, |snaps| - 1) then 1 else 0
  }

  function BareSnaps(refs: map<string, MemberRef>, snaps: seq<Snap>): set<Snap> {
    set i | 0 <= i < |snaps| && Bare(refs, snaps, i) :: snaps[i]
  }

  // A dataset is filled by a listed snapshot of its own that has a summary.
  predicate FilledBy(refs: map<string, MemberRef>, sn: Snap, ref: MemberRef, m: Metrics) {
    sn.id in refs && refs[sn.id] == ref && sn.summary.Some? && m == DatasetMetrics(sn)
  }

  method MatchDatasetSummaries(runs: seq<Run>, snaps: seq<Snap>) returns (out: map<MemberRef, Metrics>, without: nat)
    ensures forall ref :: ref in out ==>
      exists i :: 0 <= i < |snaps| && FilledBy(ByDataset(runs), snaps[i], ref, out[ref])
    ensures forall i :: 0 <= i < |snaps| && snaps[i].id in ByDataset(runs) && snaps[i].summary.Some? ==>
      ByDataset(runs)[snaps[i].id] in out
    ensures without == BareEntries(ByDataset(runs), snaps)
  {
    var refs := IndexDatasets(runs);
    out, without := map[], 0;
    for i := 0 to |snaps|
      invariant forall ref :: ref in out ==> exists j :: 0 <= j < i && FilledBy(refs, snaps[j], ref, out[ref])
      invariant forall j :: 0 <= j < i && snaps[j].id in refs && snaps[j].summary.Some? ==> refs[snaps[j].id] in out
      invariant without == BareEntries(refs, snaps[..i])
    {
      assert snaps[..i + 1][..i] == snaps[..i];
      var sn := snaps[i];
      if sn.id !in refs { continue; }
      if sn.summary.None? {
        without := without + 1;
        continue;
      }
      assert FilledBy(refs, snaps[i], refs[sn.id], DatasetMetrics(sn));
      out := out[refs[sn.id] := DatasetMetrics(sn)];
    }
    assert snaps[..|snaps|] == snaps;
  }

  method IndexDatasets(runs: seq<Run>) returns (refs: map<string, MemberRef>)
    ensures refs == ByDataset(runs)
  {
    refs := map[];
    for i := 0 to |runs|
      invariant refs == ByDataset(runs[..i])
    {
      assert runs[..i + 1][..i] == runs[..i];
      if runs[i].dataset != "" {
        refs := refs[runs[i].snapshotID := MemberRef(runs[i].id, runs[i].dataset)];
      }
    }
    assert runs[..|runs|] == runs;
  }

  // Every dataset of a run is listed once, with one snapshot.
  ghost predicate OneEach(runs: seq<Run>) {
    forall i, j :: 0 <= i < j < |runs| && runs[i].dataset != "" && runs[j].dataset != "" ==>
      MemberRef(runs[i].id, runs[i].dataset) != MemberRef(runs[j].id, runs[j].dataset)
  }

  lemma {:induction false} ByDatasetFrom(runs: seq<Run>, id: string) returns (i: nat)
    requires id in ByDataset(runs)
    ensures i < |runs| && runs[i].dataset != "" && runs[i].snapshotID == id
      && ByDataset(runs)[id] == MemberRef(runs[i].id, runs[i].dataset)
  {
    var n := |runs| - 1;
    if runs[n].dataset != "" && runs[n].snapshotID == id {
      i := n;
    } else {
      i := ByDatasetFrom(runs[..n], id);
    }
  }

  // What a dataset is filled with does not depend on the order of the listing
  // or on repetitions in it.
  lemma DatasetListingIsASet(runs: seq<Run>, a: Snap, b: Snap, ref: MemberRef, m: Metrics, m1: Metrics)
    requires OneEach(runs) && (a.id == b.id ==> a == b)
    requires FilledBy(ByDataset(runs), a, ref, m) && FilledBy(ByDataset(runs), b, ref, m1)
    ensures m == m1
  {
    var i := ByDatasetFrom(runs, a.id);
    var j := ByDatasetFrom(runs, b.id);
    assert i == j;
  }

  // How many of them are too old does: a snapshot listed twice counts twice.
  lemma RepeatedBareCountsTwice(run: string, dataset: string, id: string)
    requires dataset != ""
    ensures var refs, sn := ByDataset([Run(run, id, dataset)]), Snap(id, "", [], None);
      BareEntries(refs, [sn]) == 1 && BareEntries(refs, [sn, sn]) == 2
  {
    var r := Run(run, id, dataset);
    assert [r][..0] == [];
    var refs, sn := ByDataset([r]), Snap(id, "", [], None);
    assert [sn, sn][..1] == [sn] && [sn][..0] == [];
  }

  ghost predicate BareOnce(refs: map<string, MemberRef>, snaps: seq<Snap>) {
    forall i, j :: 0 <= i < j < |snaps| && Bare(refs, snaps, i) && Bare(refs, snaps, j) ==> snaps[i] != snaps[j]
  }

  // The count is that of the distinct snapshots exactly when none of them is
  // listed twice.
  lemma {:induction false} BareCountedOnce(refs: map<string, MemberRef>, snaps: seq<Snap>)
    ensures |BareSnaps(refs, snaps)| <= BareEntries(refs, snaps)
    ensures BareEntries(refs, snaps) == |BareSnaps(refs, snaps)| <==> BareOnce(refs, snaps)
  {
    if snaps != [] {
      var n := |snaps| - 1;
      var rest := snaps[..n];
      BareCountedOnce(refs, rest);
      assert forall i :: 0 <= i < n ==> rest[i] == snaps[i] && Bare(refs, rest, i) == Bare(refs, snaps, i);
      var before, now := BareSnaps(refs, rest), BareSnaps(refs, snaps);
      BareSnapsGrow(refs, snaps);
      if Bare(refs, snaps, n) && snaps[n] in before {
        var i :| 0 <= i < n && Bare(refs, rest, i) && rest[i] == snaps[n];
        assert Bare(refs, snaps, i) && snaps[i] == snaps[n];
        assert !BareOnce(refs, snaps);
      } else {
        BareOnceGrows(refs, snaps);
      }
    } else {
      assert BareSnaps(refs, snaps) == {};
    }
  }

  lemma BareSnapsGrow(refs: map<string, MemberRef>, snaps: seq<Snap>)
    requires snaps != []
    ensures var n := |snaps| - 1;
      BareSnaps(refs, snaps) == BareSnaps(refs, snaps[..n]) + if Bare(refs, snaps, n) then {snaps[n]} else {}
  {
    var n := |snaps| - 1;
    var rest := snaps[..n];
    forall sn | sn in BareSnaps(refs, rest) ensures sn in BareSnaps(refs, snaps) {
      var i :| 0 <= i < n && Bare(refs, rest, i) && rest[i] == sn;
      assert Bare(refs, snaps, i);
    }
    forall sn | sn in BareSnaps(refs, snaps)
      ensures sn in BareSnaps(refs, rest) || (Bare(refs, snaps, n) && sn == snaps[n]) {
      var i :| 0 <= i <= n && Bare(refs, snaps, i) && snaps[i] == sn;
      assert i < n ==> Bare(refs, rest, i) && rest[i] == sn;
    }
  }

  lemma BareOnceGrows(refs: map<string, MemberRef>, snaps: seq<Snap>)
    requires snaps != []
    requires var n := |snaps| - 1; !(Bare(refs, snaps, n) && snaps[n] in BareSnaps(refs, snaps[..n]))
    ensures BareOnce(refs, snaps) <==> BareOnce(refs, snaps[..|snaps| - 1])
  {
    var n := |snaps| - 1;
    var rest := snaps[..n];
    assert forall i :: 0 <= i < n ==> rest[i] == snaps[i] && Bare(refs, rest, i) == Bare(refs, snaps, i);
    if BareOnce(refs, rest) {
      forall i, j | 0 <= i < j < |snaps| && Bare(refs, snaps, i) && Bare(refs, snaps, j) ensures snaps[i] != snaps[j] {
        if j == n { assert Bare(refs, rest, i); }
      }
    }
    if BareOnce(refs, snaps) {
      forall i, j | 0 <= i < j < |rest| && Bare(refs, rest, i) && Bare(refs, rest, j) ensures rest[i] != rest[j] {
        assert Bare(refs, snaps, i) && Bare(refs, snaps, j);
      }
    }
  }

  // A dataset is filled with what restic said of its one snapshot; the data it
  // added is on its row already.
  lemma DatasetFills(refs: map<string, MemberRef>, sn: Snap, ref: MemberRef, m: Metrics)
    requires FilledBy(refs, sn, ref, m)
    ensures var s := sn.summary.value;
      && m.sourceBytes == Capped(s.processedBytes) && m.sourceFiles == Capped(s.processedFiles)
      && m.filesNew == Capped(s.filesNew) && m.resticMS == Duration(s)
      && (m.hasParent <==> sn.parent != "") && m.bytes == None
  {
  }

  // It is the dataset of the last run that recorded the snapshot as one's.
  lemma {:induction false} DatasetOwner(runs: seq<Run>, i: nat)
    requires i < |runs| && runs[i].dataset != ""
    requires forall k :: i < k < |runs| && runs[k].dataset != "" ==> runs[k].snapshotID != runs[i].snapshotID
    ensures var refs := ByDataset(runs);
      runs[i].snapshotID in refs && refs[runs[i].snapshotID] == MemberRef(runs[i].id, runs[i].dataset)
  {
    var n := |runs| - 1;
    if i < n {
      assert forall k :: 0 <= k < n ==> runs[..n][k] == runs[k];
      DatasetOwner(runs[..n], i);
    }
  }
}
