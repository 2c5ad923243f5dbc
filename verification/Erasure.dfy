// Deleting the backups at a storage location (destination_erase.go): the plan
// is made again until it touches no domain that is not locked, a deletion
// that starts is checked against the request, and it stops at the first
// repository that cannot be emptied.
module Erasure {
  import opened Wrappers
  import opened StoragePlaces
  import opened HolderPlaces
  import opened ErasurePlan
  import opened ErasureSections
  import opened ErasureReasons

  // A plan as one attempt makes it. digest sums up what it takes, removal what
  // removing the location detaches.
  datatype Plan = Plan(sections: seq<Section>, removal: seq<string>, removalDomains: seq<string>, digest: string,
    last: seq<LastCopy>)

  // The plan for what an attempt read.
  ghost predicate IsPlan(v: View, p: Plan) {
    && p.sections == SectionsOf(v) && p.removal == v.removal && p.removalDomains == v.removalDomains
    && ListsLast(v.world, OutsideOf(v.world, v.dest.id, p.sections), p.sections, p.last)
    && p.digest == v.digest(OnlyThere(OutsideOf(v.world, v.dest.id, p.sections), p.sections, |p.sections|), p.sections)
  }

  method PlanErasure(v: View) returns (p: Plan)
    ensures IsPlan(v, p)
  {
    var sections := PlanSections(v);
    var totals := Count(v.world, v.dest.id, sections);
    p := Plan(sections, v.removal, v.removalDomains, v.digest(totals.onlyThere, sections), totals.last);
  }

  // The plan for what was read deletes from the domain or takes the location
  // from it.
  ghost predicate Touched(v: View, domain: string) {
    (exists i :: 0 <= i < |SectionsOf(v)| && SectionsOf(v)[i].domain == domain) || domain in v.removalDomains
  }

  predicate Touches(p: Plan, domain: string) {
    (exists i :: 0 <= i < |p.sections| && p.sections[i].domain == domain) || domain in p.removalDomains
  }

  function Domains(p: Plan): (r: seq<string>)
    ensures forall d :: d in r <==> Touches(p, d)
  {
    var named := seq(|p.sections|, i requires 0 <= i < |p.sections| => p.sections[i].domain);
    assert forall d :: d in named <==> exists i :: 0 <= i < |p.sections| && p.sections[i].domain == d by {
      forall i | 0 <= i < |p.sections|
        ensures p.sections[i].domain in named { assert named[i] == p.sections[i].domain; }
    }
    named + p.removalDomains
  }

  datatype Refusal = RemovalChanged | PlacementStale | NothingToErase | LastCopiesUnnamed

  // Nothing changed since it was shown, something is emptied, and every last
  // copy is named.
  ghost predicate MayStart(p: Plan, removal: seq<string>, digest: string, named: seq<string>) {
    && p.removal == removal && p.digest == digest
    && (exists i :: 0 <= i < |p.sections| && p.sections[i].Emptied())
    && (forall i :: 0 <= i < |p.last| ==> p.last[i].identity in named)
  }

  method RefusalOf(p: Plan, removal: seq<string>, digest: string, named: seq<string>) returns (r: Option<Refusal>)
    ensures r.None? <==> MayStart(p, removal, digest, named)
    ensures r == Some(LastCopiesUnnamed) ==> exists i :: 0 <= i < |p.last| && p.last[i].identity !in named
    ensures r == Some(NothingToErase) ==> forall i :: 0 <= i < |p.sections| ==> !p.sections[i].Emptied()
  {
    if p.removal != removal { return Some(RemovalChanged); }
    if p.digest != digest { return Some(PlacementStale); }
    var some := false;
    for i := 0 to |p.sections|
      invariant some <==> exists j :: 0 <= j < i && p.sections[j].Emptied()
    {
      if p.sections[i].kept == "" { some := true; }
    }
    if !some { return Some(NothingToErase); }
    for i := 0 to |p.last|
      invariant forall j :: 0 <= j < i ==> p.last[j].identity in named
    {
      if p.last[i].identity !in named { return Some(LastCopiesUnnamed); }
    }
    return None;
  }

  // Locks every domain the plan touches and makes the plan again, until an
  // attempt adds no lock. views is what the attempts read in turn, where one
  // that fails reads nothing, lockable says which domains come free in time,
  // and no plan reaches outside the finitely many domains there are.
  method LockAndPlan(views: nat -> Option<View>, lockable: string -> bool, ghost universe: set<string>)
    returns (plan: Option<Plan>, locked: set<string>, attempt: nat, under: set<string>)
    requires forall n: nat, d :: views(n).Some? && Touched(views(n).value, d) ==> d in universe
    ensures plan.Some? ==> views(attempt).Some? && IsPlan(views(attempt).value, plan.value) && under == locked
    ensures plan.Some? ==> forall d :: Touched(views(attempt).value, d) ==> d in under
    ensures plan.Some? ==> forall d :: d in locked ==>
      lockable(d) && exists n: nat :: n <= attempt && TouchedBy(views, n, d)
    ensures plan.None? ==> locked == {}
    ensures (forall n: nat :: views(n).Some?) && (forall d :: lockable(d)) ==> plan.Some?
    ensures attempt <= |universe|
  {
    hide IsPlan, Touched;
    locked, attempt := {}, 0;
    while true
      invariant locked <= universe && attempt <= |locked|
      invariant forall d :: d in locked ==> lockable(d) && exists n: nat :: n <= attempt && TouchedBy(views, n, d)
      decreases |universe| - |locked|
    {
      Fewer(locked, universe);
      // The plan is made under the locks held now.
      under := locked;
      plan := None;
      if views(attempt).None? { break; }
      var p := PlanErasure(views(attempt).value);
      plan := Some(p);
      TouchesAsRead(views(attempt).value, p);
      var domains := Domains(plan.value);
      var busy := false;
      for i := 0 to |domains|
        invariant under <= locked <= universe
        invariant forall j :: 0 <= j < i ==> domains[j] in locked
        invariant forall d :: d in locked && d !in under ==> TouchedBy(views, attempt, d)
        invariant forall d :: d in locked ==> lockable(d)
      {
        assert domains[i] in domains;
        assert TouchedBy(views, attempt, domains[i]);
        if domains[i] !in locked {
          if !lockable(domains[i]) {
            busy := true;
            break;
          }
          locked := locked + {domains[i]};
        }
      }
      if busy {
        plan := None;
        break;
      }
      Fewer(under, locked);
      if |locked| == |under| {
        SameSize(under, locked);
        return;
      }
      Fewer(locked, universe);
      attempt := attempt + 1;
    }
    // An attempt failed or a domain stayed busy: every lock is given back.
    locked := {};
  }

  ghost predicate TouchedBy(views: nat -> Option<View>, n: nat, d: string) {
    views(n).Some? && Touched(views(n).value, d)
  }

  lemma TouchesAsRead(v: View, p: Plan)
    requires IsPlan(v, p)
    ensures forall d :: Touches(p, d) <==> Touched(v, d)
  {
  }

  lemma Fewer<T>(a: set<T>, b: set<T>)
    requires a <= b
    ensures |a| <= |b|
  {
    assert b == a + (b - a);
  }

  lemma SameSize<T>(a: set<T>, b: set<T>)
    requires a <= b && |a| == |b|
    ensures a == b
  {
    assert b == a + (b - a);
    assert b - a == {};
  }

  // ---- the deletion -----------------------------------------------------------

  // What each repository holds. Two locations may lead to one repository.
  type Content = map<string, set<Snapshot>>

  // The deletion of a section takes the snapshot: the section is at the
  // repository and lists its id.
  predicate Doomed(at: Host, s: Section, repo: string, sn: Snapshot) {
    s.Emptied() && at(s.loc) == repo && exists k :: 0 <= k < |s.snaps| && s.snaps[k].id == sn.id
  }

  predicate Lost(before: Content, after: Content, repo: string, sn: Snapshot) {
    repo in before && sn in before[repo] && (repo in after ==> sn !in after[repo])
  }

  // Nothing is gone but what the first n sections take, and nothing is new.
  ghost predicate OnlyDoomedGone(at: Host, before: Content, after: Content, sections: seq<Section>, n: nat)
    requires n <= |sections|
  {
    && after.Keys == before.Keys
    && (forall repo :: repo in before ==> after[repo] <= before[repo])
    && (forall repo, sn :: Lost(before, after, repo, sn) ==>
         exists i :: 0 <= i < n && Doomed(at, sections[i], repo, sn))
  }

  // All of what the first n sections take is gone.
  ghost predicate AllDoomedGone(at: Host, after: Content, sections: seq<Section>, n: nat)
    requires n <= |sections|
  {
    forall i, repo, sn :: 0 <= i < n && repo in after && sn in after[repo] ==> !Doomed(at, sections[i], repo, sn)
  }

  const FORGET_CHUNK := 200

  class Repositories {
    const at: Host
    // Every call answers.
    const healthy: bool
    var content: Content

    constructor (at: Host, healthy: bool, content: Content)
      ensures this.at == at && this.healthy == healthy && this.content == content
    {
      this.at, this.healthy, this.content := at, healthy, content;
    }

    method CallFails() returns (failed: bool)
      ensures healthy ==> !failed
    {
      failed := false;
      if * {
        failed := !healthy;
      }
    }

    // Forgets a chunk of ids. A failure may have forgotten some of them.
    method Forget(loc: string, ids: seq<string>) returns (ok: bool)
      requires at(loc) in content
      modifies this
      ensures content.Keys == old(content.Keys)
      ensures forall repo :: repo in content && repo != at(loc) ==> content[repo] == old(content[repo])
      ensures content[at(loc)] <= old(content[at(loc)])
      ensures forall sn :: sn in old(content[at(loc)]) && sn !in content[at(loc)] ==> sn.id in ids
      ensures ok ==> forall sn :: sn in content[at(loc)] ==> sn.id !in ids
      ensures healthy ==> ok
    {
      var repo := at(loc);
      var chosen := set sn | sn in content[repo] && sn.id in ids;
      var failed := CallFails();
      if failed {
        var part: set<Snapshot> := *;
        chosen := chosen * part;
      }
      content := content[repo := content[repo] - chosen];
      ok := !failed;
    }

    // Forgets the section's backups in chunks and prunes once.
    method EmptyRepo(s: Section) returns (ok: bool)
      requires s.Emptied() && at(s.loc) in content
      modifies this
      ensures content.Keys == old(content.Keys)
      ensures forall repo :: repo in content && repo != at(s.loc) ==> content[repo] == old(content[repo])
      ensures content[at(s.loc)] <= old(content[at(s.loc)])
      ensures forall sn :: sn in old(content[at(s.loc)]) && sn !in content[at(s.loc)] ==> Doomed(at, s, at(s.loc), sn)
      ensures ok ==> forall sn :: sn in content[at(s.loc)] ==> !Doomed(at, s, at(s.loc), sn)
      ensures healthy ==> ok
    {
      var repo := at(s.loc);
      var ids := seq(|s.snaps|, k requires 0 <= k < |s.snaps| => s.snaps[k].id);
      var next := 0;
      while next < |ids|
        invariant next <= |ids|
        invariant content.Keys == old(content.Keys)
        invariant forall r :: r in content && r != repo ==> content[r] == old(content[r])
        invariant content[repo] <= old(content[repo])
        invariant forall sn :: sn in old(content[repo]) && sn !in content[repo] ==> Doomed(at, s, repo, sn)
        invariant forall sn :: sn in content[repo] ==> sn.id !in ids[..next]
      {
        var end := if next + FORGET_CHUNK < |ids| then next + FORGET_CHUNK else |ids|;
        assert ids[..end] == ids[..next] + ids[next..end];
        forall id | id in ids[next..end] ensures exists k :: 0 <= k < |s.snaps| && s.snaps[k].id == id {
          var j :| 0 <= j < end - next && ids[next..end][j] == id;
          assert s.snaps[next + j].id == id;
        }
        ok := Forget(s.loc, ids[next..end]);
        if !ok { return; }
        next := end;
      }
      assert ids[..next] == ids;
      forall sn | sn in content[repo] ensures !Doomed(at, s, repo, sn) {
        forall k | 0 <= k < |s.snaps| ensures s.snaps[k].id != sn.id {
          assert ids[k] in ids;
        }
      }
      if |s.snaps| == 0 { return true; }
      // The prune.
      var failed := CallFails();
      ok := !failed;
    }

    // Empties one repository after the other and stops at the first that
    // fails.
    method RunErasure(sections: seq<Section>) returns (ok: bool)
      requires forall i :: 0 <= i < |sections| && sections[i].Emptied() ==> at(sections[i].loc) in content
      modifies this
      ensures OnlyDoomedGone(at, old(content), content, sections, |sections|)
      ensures ok ==> AllDoomedGone(at, content, sections, |sections|)
      ensures healthy ==> ok
    {
      hide Doomed;
      ghost var before := content;
      for i := 0 to |sections|
        invariant OnlyDoomedGone(at, before, content, sections, i)
        invariant AllDoomedGone(at, content, sections, i)
      {
        ghost var now := content;
        NotEmptied(at, before, now, sections, i);
        if sections[i].kept == "" {
          var emptied := EmptyRepo(sections[i]);
          OneMoreSection(at, before, now, content, sections, i);
          if !emptied {
            return false;
          }
          OneMoreGone(at, now, content, sections, i);
        }
      }
      return true;
    }

    // The whole deletion: nothing is touched unless the plan was made under
    // its locks and passes the check, and the location is removed only once
    // all of its sections are empty. Where naming is truthful, what is gone then
    // is accounted for if every emptied location can be named, or each entry is
    // held widely enough, and every kept section that can be told apart from the
    // emptied ones has all it had.
    method Erase(views: nat -> Option<View>, lockable: string -> bool, ghost universe: set<string>, moving: bool,
        removal: seq<string>, digest: string, named: seq<string>)
      returns (plan: Option<Plan>, started: bool, removed: bool, under: set<string>, ghost attempt: nat)
      requires forall n: nat, d :: views(n).Some? && Touched(views(n).value, d) ==> d in universe
      requires forall n: nat :: views(n).Some? ==> Sound(views(n).value) && Reaches(views(n).value, at, content)
      modifies this
      ensures (forall n: nat :: views(n).Some?) && (forall d :: lockable(d)) ==> plan.Some?
      ensures plan.Some? ==>
        && views(attempt).Some? && IsPlan(views(attempt).value, plan.value)
        && (forall d :: Touched(views(attempt).value, d) ==> d in under)
      ensures started <==> plan.Some? && MayStart(plan.value, removal, digest, named) && !moving
      ensures !started ==> content == old(content) && !removed
      ensures started ==> OnlyDoomedGone(at, old(content), content, plan.value.sections, |plan.value.sections|)
      ensures started && Honest(views(attempt).value, at) ==>
        KeptAreWhole(views(attempt).value, at, old(content), content)
          && StaysWhole(views(attempt).value, at, old(content), content)
      ensures started && Honest(views(attempt).value, at) && Recoverable(views(attempt).value, named) ==>
        AllAccounted(views(attempt).value, at, named, old(content), content)
      ensures removed ==> started && AllDoomedGone(at, content, plan.value.sections, |plan.value.sections|)
      ensures started && healthy ==> removed
    {
      hide IsPlan, Sound, Touched, OnlyDoomedGone, AllDoomedGone, AllAccounted, KeptAreWhole, StaysWhole, Recoverable,
        Honest;
      started, removed := false, false;
      var locked, tries;
      plan, locked, tries, under := LockAndPlan(views, lockable, universe);
      attempt := tries;
      if plan.None? { return; }
      var refusal := RefusalOf(plan.value, removal, digest, named);
      if refusal.Some? { return; }
      // The location is part of a running move.
      if moving { return; }
      started := true;
      ghost var v, before := views(attempt).value, content;
      PlannedAsRead(v, plan.value);
      var ok := RunErasure(plan.value.sections);
      AllGoneAccounted(v, at, plan.value, named, before, content);
      AllKeptWhole(v, at, before, content);
      AllStay(v, at, before, content);
      removed := ok;
    }
  }

  // Every repository the plan empties is there.
  ghost predicate Reaches(v: View, at: Host, content: Content) {
    forall i :: 0 <= i < |SectionsOf(v)| && SectionsOf(v)[i].Emptied() ==> at(SectionsOf(v)[i].loc) in content
  }

  lemma PlannedAsRead(v: View, p: Plan)
    requires IsPlan(v, p)
    ensures p.sections == SectionsOf(v)
  {
  }

  lemma NotEmptied(at: Host, before: Content, now: Content, sections: seq<Section>, i: nat)
    requires i < |sections| && OnlyDoomedGone(at, before, now, sections, i) && AllDoomedGone(at, now, sections, i)
    ensures OnlyDoomedGone(at, before, now, sections, i + 1)
    ensures sections[i].kept != "" ==> AllDoomedGone(at, now, sections, i + 1)
  {
  }

  lemma OneMoreSection(at: Host, before: Content, now: Content, after: Content, sections: seq<Section>, i: nat)
    requires i < |sections| && OnlyDoomedGone(at, before, now, sections, i)
    requires after.Keys == now.Keys && at(sections[i].loc) in after
    requires forall r :: r in after && r != at(sections[i].loc) ==> after[r] == now[r]
    requires after[at(sections[i].loc)] <= now[at(sections[i].loc)]
    requires forall sn :: sn in now[at(sections[i].loc)] && sn !in after[at(sections[i].loc)] ==>
      Doomed(at, sections[i], at(sections[i].loc), sn)
    ensures OnlyDoomedGone(at, before, after, sections, i + 1)
    ensures OnlyDoomedGone(at, before, after, sections, |sections|)
  {
    hide Doomed;
    forall repo, sn | Lost(before, after, repo, sn)
      ensures exists j :: 0 <= j < i + 1 && Doomed(at, sections[j], repo, sn) {
      if sn in now[repo] {
        assert repo == at(sections[i].loc);
        assert Doomed(at, sections[i], repo, sn);
      } else {
        assert Lost(before, now, repo, sn);
      }
    }
  }

  lemma OneMoreGone(at: Host, now: Content, after: Content, sections: seq<Section>, i: nat)
    requires i < |sections| && AllDoomedGone(at, now, sections, i) && after.Keys == now.Keys
    requires forall r :: r in after ==> after[r] <= now[r]
    requires at(sections[i].loc) in after
    requires forall sn :: sn in after[at(sections[i].loc)] ==> !Doomed(at, sections[i], at(sections[i].loc), sn)
    ensures AllDoomedGone(at, after, sections, i + 1)
  {
  }

  // ---- what a deletion may take -------------------------------------------------

  // Naming is truthful, and a folder inside a target and the folders of two
  // domains are repositories of their own.
  ghost predicate Honest(v: View, at: Host) {
    && Truthful(v.world.places, at)
    && (forall a, b :: v.inside(a, b) && v.resolve(a).Some? && v.resolve(b).Some? ==>
          at(v.resolve(a).value) != at(v.resolve(b).value))
    && (forall c, d ::
         c != d && v.resolve(v.folder(v.dest.repo, c)).Some? && v.resolve(v.folder(v.dest.repo, d)).Some? ==>
          at(v.resolve(v.folder(v.dest.repo, c)).value) != at(v.resolve(v.folder(v.dest.repo, d)).value))
  }

  // Every location the deletion empties can be named.
  ghost predicate EmptiedNamed(v: View) {
    forall i :: 0 <= i < |SectionsOf(v)| && SectionsOf(v)[i].Emptied() ==> Named(v.world.places, SectionsOf(v)[i].loc)
  }

  // The candidate is a place outside that counts and lists a backup of the
  // entry.
  ghost predicate Holds(v: View, domain: string, e: string, c: Candidate) {
    || (c in v.world.homes(domain) && HoldsEntry(v.world, domain, "", EmptiedLocs(SectionsOf(v)), c, e))
    || (c in v.world.targets(domain) && HoldsEntry(v.world, domain, v.dest.id, EmptiedLocs(SectionsOf(v)), c, e))
  }

  ghost function Holders(v: View, domain: string, e: string): (r: set<string>)
    ensures forall loc :: loc in r <==> exists c :: Holds(v, domain, e, c) && c.loc == Some(loc)
  {
    (set c | c in v.world.homes(domain) && Holds(v, domain, e, c) :: c.loc.value)
    + (set c | c in v.world.targets(domain) && Holds(v, domain, e, c) :: c.loc.value)
  }

  function EntryAt(w: World, s: Section, k: nat): string
    requires k < |s.snaps|
  {
    w.name(s.domain, s.snaps, s.snaps[k])
  }

  // Section i is emptied and lists a backup k.
  predicate Takes(sections: seq<Section>, i: int, k: int) {
    0 <= i < |sections| && sections[i].Emptied() && 0 <= k < |sections[i].snaps|
  }

  // Every entry that is not named is held at more places that are apart from
  // each other than there are emptied locations nobody can name.
  ghost predicate WidelyHeld(v: View, named: seq<string>) {
    forall i: nat, k: nat :: Takes(SectionsOf(v), i, k) ==>
      || EntryAt(v.world, SectionsOf(v)[i], k) in named
      || Spread(v.world.places, Holders(v, SectionsOf(v)[i].domain, EntryAt(v.world, SectionsOf(v)[i], k)),
                EmptiedLocs(SectionsOf(v)))
  }

  ghost predicate Recoverable(v: View, named: seq<string>) { EmptiedNamed(v) || WidelyHeld(v, named) }

  // On this host every entry that is not named is held in a repository the
  // deletion does not touch.
  ghost predicate HeldOn(v: View, named: seq<string>, at: Host) {
    forall i: nat, k: nat :: Takes(SectionsOf(v), i, k) ==>
      || EntryAt(v.world, SectionsOf(v)[i], k) in named
      || Untouched(at, Holders(v, SectionsOf(v)[i].domain, EntryAt(v.world, SectionsOf(v)[i], k)),
                   EmptiedLocs(SectionsOf(v)))
  }

  lemma HoldersCount(v: View, domain: string, e: string)
    ensures forall loc :: loc in Holders(v, domain, e) ==> ApartFromAll(v.world.places, loc, EmptiedLocs(SectionsOf(v)))
  {
    forall loc | loc in Holders(v, domain, e) ensures ApartFromAll(v.world.places, loc, EmptiedLocs(SectionsOf(v))) {
      var c :| Holds(v, domain, e, c) && c.loc == Some(loc);
    }
  }

  // Whatever the host, no entry is lost unnamed: exactly when each is held
  // widely enough.
  lemma HeldOnEveryHostExactly(v: View, named: seq<string>)
    requires Equivalence(v.world.places)
    ensures (forall at: Host :: Truthful(v.world.places, at) ==> HeldOn(v, named, at)) <==> WidelyHeld(v, named)
  {
    hide Holders, EmptiedLocs, Spread, Untouched, SectionsOf, Truthful, Equivalence;
    var p, sections := v.world.places, SectionsOf(v);
    forall i: nat, k: nat | Takes(sections, i, k)
      ensures (forall at: Host :: Truthful(p, at) ==>
                 Untouched(at, Holders(v, sections[i].domain, EntryAt(v.world, sections[i], k)), EmptiedLocs(sections)))
        <==> Spread(p, Holders(v, sections[i].domain, EntryAt(v.world, sections[i], k)), EmptiedLocs(sections))
    {
      HoldersCount(v, sections[i].domain, EntryAt(v.world, sections[i], k));
      UntouchedOnEveryHost(p, Holders(v, sections[i].domain, EntryAt(v.world, sections[i], k)), EmptiedLocs(sections));
    }
    if forall at: Host :: Truthful(p, at) ==> HeldOn(v, named, at) {
      forall i: nat, k: nat | Takes(sections, i, k) && EntryAt(v.world, sections[i], k) !in named
        ensures Spread(p, Holders(v, sections[i].domain, EntryAt(v.world, sections[i], k)), EmptiedLocs(sections)) {
        forall at: Host | Truthful(p, at)
          ensures Untouched(at, Holders(v, sections[i].domain, EntryAt(v.world, sections[i], k)),
            EmptiedLocs(sections)) {
          assert HeldOn(v, named, at);
        }
      }
    }
  }

  // Where every emptied location can be named, what the check lets through is
  // held widely enough.
  lemma NamedIsWidelyHeld(v: View, p: Plan, named: seq<string>)
    requires IsPlan(v, p) && EmptiedNamed(v)
    requires forall i :: 0 <= i < |p.last| ==> p.last[i].identity in named
    ensures WidelyHeld(v, named)
  {
    var w, dest, sections := v.world, v.dest.id, SectionsOf(v);
    var emptied, outside := EmptiedLocs(sections), OutsideOf(w, dest, sections);
    NoneUnnamed(v);
    forall i: nat, k: nat | Takes(sections, i, k)
      ensures EntryAt(w, sections[i], k) in named
        || Spread(w.places, Holders(v, sections[i].domain, EntryAt(w, sections[i], k)), emptied) {
      var e, domain := EntryAt(w, sections[i], k), sections[i].domain;
      UnheldIsLast(w, outside, sections, |sections|, i, k);
      if LastOf(w, outside, sections, |sections|, e) > 0 {
        var j :| 0 <= j < |p.last| && p.last[j].identity == e;
        assert p.last[j].identity in named;
      } else {
        HeldHasHolder(v, domain, e);
        HoldersCount(v, domain, e);
        OneIsSpread(w.places, Holders(v, domain, e), emptied);
      }
    }
  }

  lemma NoneUnnamed(v: View)
    requires EmptiedNamed(v)
    ensures UnnamedOf(v.world.places, EmptiedLocs(SectionsOf(v))) == {}
  {
    EmptiedLocsAre(SectionsOf(v));
  }

  lemma HeldHasHolder(v: View, domain: string, e: string)
    requires e in OutsideOf(v.world, v.dest.id, SectionsOf(v))(domain).entries
    ensures Holders(v, domain, e) != {}
  {
    var w, dest, emptied := v.world, v.dest.id, EmptiedLocs(SectionsOf(v));
    OutsideMeans(w, domain, dest, emptied, e);
    if i :| 0 <= i < |w.homes(domain)| && HoldsEntry(w, domain, "", emptied, w.homes(domain)[i], e) {
      assert Holds(v, domain, e, w.homes(domain)[i]);
      assert w.homes(domain)[i].loc.value in Holders(v, domain, e);
    } else {
      var i :| 0 <= i < |w.targets(domain)| && HoldsEntry(w, domain, dest, emptied, w.targets(domain)[i], e);
      assert Holds(v, domain, e, w.targets(domain)[i]);
      assert w.targets(domain)[i].loc.value in Holders(v, domain, e);
    }
  }

  // A place outside lists a backup of the entry, and the deletion left its
  // repository exactly as it was.
  ghost predicate StillHeld(v: View, at: Host, domain: string, e: string, before: Content, after: Content,
      c: Candidate) {
    && Holds(v, domain, e, c) && c.loc.Some?
    && (at(c.loc.value) in before ==> at(c.loc.value) in after && after[at(c.loc.value)] == before[at(c.loc.value)])
  }

  ghost predicate NamedOrHeld(v: View, at: Host, named: seq<string>, before: Content, after: Content, s: Section,
      k: nat)
    requires k < |s.snaps|
  {
    EntryAt(v.world, s, k) in named || exists c :: StillHeld(v, at, s.domain, EntryAt(v.world, s, k), before, after, c)
  }

  // Section i lists, as backup k, the id of a snapshot that is gone from its
  // repository.
  predicate Listed(at: Host, sections: seq<Section>, i: int, k: int, repo: string, id: string) {
    Takes(sections, i, k) && at(sections[i].loc) == repo && sections[i].snaps[k].id == id
  }

  // A snapshot that is gone was listed in a section that was emptied, and its
  // entry was named in the request or is held in another listed repository that
  // the deletion did not touch.
  ghost predicate Accounted(v: View, at: Host, named: seq<string>, before: Content, after: Content, repo: string,
      sn: Snapshot) {
    exists i: nat, k: nat ::
      Listed(at, SectionsOf(v), i, k, repo, sn.id) && NamedOrHeld(v, at, named, before, after, SectionsOf(v)[i], k)
  }

  ghost predicate AllAccounted(v: View, at: Host, named: seq<string>, before: Content, after: Content) {
    forall repo, sn :: Lost(before, after, repo, sn) ==> Accounted(v, at, named, before, after, repo, sn)
  }

  lemma DeletedIsHeldOrNamed(v: View, at: Host, named: seq<string>, before: Content, after: Content, repo: string,
      sn: Snapshot)
    requires HeldOn(v, named, at) && OnlyDoomedGone(at, before, after, SectionsOf(v), |SectionsOf(v)|)
    requires Lost(before, after, repo, sn)
    ensures Accounted(v, at, named, before, after, repo, sn)
  {
    var sections := SectionsOf(v);
    var i: nat :| i < |sections| && Doomed(at, sections[i], repo, sn);
    var k: nat :| k < |sections[i].snaps| && sections[i].snaps[k].id == sn.id;
    assert Listed(at, sections, i, k, repo, sn.id);
    var e, domain := EntryAt(v.world, sections[i], k), sections[i].domain;
    if e !in named {
      var loc :| loc in Holders(v, domain, e) && AwayFrom(at, loc, EmptiedLocs(sections));
      var c :| Holds(v, domain, e, c) && c.loc == Some(loc);
      AwayIsUntouched(at, sections, before, after, loc);
      assert StillHeld(v, at, domain, e, before, after, c);
    }
    assert NamedOrHeld(v, at, named, before, after, sections[i], k);
  }

  lemma AwayIsUntouched(at: Host, sections: seq<Section>, before: Content, after: Content, loc: string)
    requires OnlyDoomedGone(at, before, after, sections, |sections|) && AwayFrom(at, loc, EmptiedLocs(sections))
    ensures at(loc) in before ==> at(loc) in after && after[at(loc)] == before[at(loc)]
  {
    NotEmptiedIsUntouched(at, sections, before, after, at(loc));
  }

  lemma AllGoneAccounted(v: View, at: Host, p: Plan, named: seq<string>, before: Content, after: Content)
    requires IsPlan(v, p) && forall i :: 0 <= i < |p.last| ==> p.last[i].identity in named
    requires OnlyDoomedGone(at, before, after, p.sections, |p.sections|)
    ensures Honest(v, at) && Recoverable(v, named) ==> AllAccounted(v, at, named, before, after)
  {
    if Honest(v, at) && Recoverable(v, named) {
      if EmptiedNamed(v) {
        NamedIsWidelyHeld(v, p, named);
      }
      WideIsHeldOn(v, named, at);
      forall repo, sn | Lost(before, after, repo, sn) ensures Accounted(v, at, named, before, after, repo, sn) {
        DeletedIsHeldOrNamed(v, at, named, before, after, repo, sn);
      }
    }
  }

  lemma WideIsHeldOn(v: View, named: seq<string>, at: Host)
    requires Truthful(v.world.places, at) && WidelyHeld(v, named)
    ensures HeldOn(v, named, at)
  {
    hide Holders, EmptiedLocs, Untouched, SectionsOf, Truthful;
    var p, sections := v.world.places, SectionsOf(v);
    forall i: nat, k: nat | Takes(sections, i, k) && EntryAt(v.world, sections[i], k) !in named
      ensures Untouched(at, Holders(v, sections[i].domain, EntryAt(v.world, sections[i], k)), EmptiedLocs(sections)) {
      HoldersCount(v, sections[i].domain, EntryAt(v.world, sections[i], k));
      SpreadIsUntouched(p, at, Holders(v, sections[i].domain, EntryAt(v.world, sections[i], k)), EmptiedLocs(sections));
    }
  }

  // What the places outside were read to hold is in their repositories.
  ghost predicate Accurate(cs: seq<Candidate>, at: Host, content: Content) {
    forall c :: c in cs && c.loc.Some? && c.listing.Some? ==>
      at(c.loc.value) in content && forall sn :: sn in c.listing.value ==> sn in content[at(c.loc.value)]
  }

  // A backup of the entry is in a repository after the deletion.
  ghost predicate HasBackup(w: World, at: Host, domain: string, c: Candidate, after: Content, e: string) {
    && c.loc.Some? && c.listing.Some? && at(c.loc.value) in after
    && var snaps := OfSection(c.listing.value, domain);
       exists k :: 0 <= k < |snaps| && w.name(domain, snaps, snaps[k]) == e && snaps[k] in after[at(c.loc.value)]
  }

  ghost predicate NamedOrThere(v: View, at: Host, named: seq<string>, after: Content, s: Section, k: nat)
    requires k < |s.snaps|
  {
    var e := EntryAt(v.world, s, k);
    e in named || exists c ::
      (c in v.world.homes(s.domain) || c in v.world.targets(s.domain)) && HasBackup(v.world, at, s.domain, c, after, e)
  }

  // So, with accurate listings, of every backup that is gone the entry was
  // named, or there is another.
  lemma NothingLostUnnamed(v: View, at: Host, named: seq<string>, before: Content, after: Content, repo: string,
      sn: Snapshot)
    requires AllAccounted(v, at, named, before, after) && Lost(before, after, repo, sn)
    requires forall domain ::
      Accurate(v.world.homes(domain), at, before) && Accurate(v.world.targets(domain), at, before)
    ensures exists i: nat, k: nat ::
      Listed(at, SectionsOf(v), i, k, repo, sn.id) && NamedOrThere(v, at, named, after, SectionsOf(v)[i], k)
  {
    var i: nat, k: nat :|
      Listed(at, SectionsOf(v), i, k, repo, sn.id) && NamedOrHeld(v, at, named, before, after, SectionsOf(v)[i], k);
    var s := SectionsOf(v)[i];
    var e := EntryAt(v.world, s, k);
    if e !in named {
      var c :| StillHeld(v, at, s.domain, e, before, after, c);
      HolderHasBackup(v, at, s.domain, e, before, after, c);
    }
    assert NamedOrThere(v, at, named, after, s, k);
  }

  lemma HolderHasBackup(v: View, at: Host, domain: string, e: string, before: Content, after: Content, c: Candidate)
    requires StillHeld(v, at, domain, e, before, after, c)
    requires Accurate(v.world.homes(domain), at, before) && Accurate(v.world.targets(domain), at, before)
    ensures (c in v.world.homes(domain) || c in v.world.targets(domain)) && HasBackup(v.world, at, domain, c, after, e)
  {
    var snaps := OfSection(c.listing.value, domain);
    var k :| 0 <= k < |snaps| && v.world.name(domain, snaps, snaps[k]) == e;
    assert snaps[k] in snaps;
  }

  // ---- what a deletion leaves alone ---------------------------------------------

  // The kept section b can be told apart from the emptied one: both can be
  // named, or they are two folders of one destination or target.
  ghost predicate ToldApart(v: View, a: Origin, b: Origin, la: string, lb: string) {
    OwnFolder(v, a, b) || (a.LeftBy? && b.LeftBy?) || (Named(v.world.places, la) && Named(v.world.places, lb))
  }

  ghost predicate KeptToldApart(v: View, i: nat, loc: string)
    requires i < |SectionsOf(v)|
  {
    forall j :: 0 <= j < |SectionsOf(v)| && SectionsOf(v)[j].Emptied() ==>
      ToldApart(v, OriginsOf(v)[j], OriginsOf(v)[i], SectionsOf(v)[j].loc, loc)
  }

  // Every kept section that can be told apart from the emptied ones has all it
  // had.
  ghost predicate KeptAreWhole(v: View, at: Host, before: Content, after: Content) {
    forall i :: 0 <= i < |SectionsOf(v)| && !SectionsOf(v)[i].Emptied() ==> KeptIsWhole(v, at, before, after, i)
  }

  ghost predicate KeptIsWhole(v: View, at: Host, before: Content, after: Content, i: nat)
    requires i < |SectionsOf(v)|
  {
    match v.resolve(RawOf(v, OriginsOf(v)[i]))
    case None => true
    case Some(loc) =>
      KeptToldApart(v, i, loc) && at(loc) in before ==> at(loc) in after && after[at(loc)] == before[at(loc)]
  }

  lemma KeptSectionStays(v: View, at: Host, before: Content, after: Content, i: nat)
    requires Sound(v) && Honest(v, at) && OnlyDoomedGone(at, before, after, SectionsOf(v), |SectionsOf(v)|)
    requires i < |SectionsOf(v)| && !SectionsOf(v)[i].Emptied()
    ensures KeptIsWhole(v, at, before, after, i)
  {
    hide OriginsOf, SectionFor, Honest, Sound, OnlyDoomedGone;
    var b := OriginsOf(v)[i];
    if v.resolve(RawOf(v, b)).Some? && KeptToldApart(v, i, v.resolve(RawOf(v, b)).value) {
      var loc := v.resolve(RawOf(v, b)).value;
      forall j | 0 <= j < |SectionsOf(v)| && SectionsOf(v)[j].Emptied() ensures at(SectionsOf(v)[j].loc) != at(loc) {
        EmptiedResolves(v, OriginsOf(v)[j]);
        KeptIsElsewhere(v, at, OriginsOf(v)[j], b, SectionsOf(v)[j].loc, loc);
      }
      NotEmptiedIsUntouched(at, SectionsOf(v), before, after, at(loc));
    }
  }

  lemma EmptiedResolves(v: View, a: Origin)
    requires SectionFor(v, a).Emptied()
    ensures v.resolve(RawOf(v, a)) == Some(SectionFor(v, a).loc)
  {
  }

  lemma NotEmptiedIsUntouched(at: Host, sections: seq<Section>, before: Content, after: Content, repo: string)
    requires OnlyDoomedGone(at, before, after, sections, |sections|)
    requires forall j :: 0 <= j < |sections| && sections[j].Emptied() ==> at(sections[j].loc) != repo
    ensures repo in before ==> repo in after && after[repo] == before[repo]
  {
    if repo in before {
      forall sn | sn in before[repo] ensures sn in after[repo] {
        if sn !in after[repo] {
          assert Lost(before, after, repo, sn);
        }
      }
    }
  }

  // Told apart, they are two repositories.
  lemma KeptIsElsewhere(v: View, at: Host, a: Origin, b: Origin, la: string, lb: string)
    requires Sound(v) && Honest(v, at) && a in OriginsOf(v) && b in OriginsOf(v)
    requires SectionFor(v, a).Emptied() && !SectionFor(v, b).Emptied()
    requires v.resolve(RawOf(v, a)) == Some(la) && v.resolve(RawOf(v, b)) == Some(lb)
    requires ToldApart(v, a, b, la, lb)
    ensures at(la) != at(lb)
  {
    hide SectionFor, OriginsOf, Sound;
    KeptIsApart(v, a, b, la, lb);
    if !OwnFolder(v, a, b) && !(a.LeftBy? && b.LeftBy?) {
      assert !Overlap(v.world.places, la, lb);
    }
  }

  // But for such folders, a kept section and an emptied one are two repositories
  // on every truthful host exactly when both can be named.
  lemma KeptIsElsewhereExactly(v: View, a: Origin, b: Origin, la: string, lb: string)
    requires Sound(v) && a in OriginsOf(v) && b in OriginsOf(v)
    requires SectionFor(v, a).Emptied() && !SectionFor(v, b).Emptied()
    requires v.resolve(RawOf(v, a)) == Some(la) && v.resolve(RawOf(v, b)) == Some(lb)
    requires !OwnFolder(v, a, b) && !(a.LeftBy? && b.LeftBy?)
    ensures (forall at: Host :: Truthful(v.world.places, at) ==> at(la) != at(lb)) <==>
      Named(v.world.places, la) && Named(v.world.places, lb)
  {
    KeptIsApart(v, a, b, la, lb);
    NotOverlappingOnEveryHost(v.world.places, la, lb);
  }

  lemma AllKeptWhole(v: View, at: Host, before: Content, after: Content)
    requires Sound(v) && OnlyDoomedGone(at, before, after, SectionsOf(v), |SectionsOf(v)|)
    ensures Honest(v, at) ==> KeptAreWhole(v, at, before, after)
  {
    if Honest(v, at) {
      forall i | 0 <= i < |SectionsOf(v)| && !SectionsOf(v)[i].Emptied() ensures KeptIsWhole(v, at, before, after, i) {
        KeptSectionStays(v, at, before, after, i);
      }
    }
  }

  // The repository can be told apart from everything the deletion empties.
  ghost predicate ApartFromEmptied(v: View, o: Origin, loc: string) {
    forall a, la :: OnPlan(v, a) && Goes(v, a) && At(v, a) == Some(la) ==> ToldApart(v, a, o, la, loc)
  }

  // The same in the terms of what was read: a repository that is used,
  // immutable, shared or otherwise does not go has all it had.
  ghost predicate StaysWhole(v: View, at: Host, before: Content, after: Content) {
    forall o, loc ::
      OnPlan(v, o) && !Goes(v, o) && At(v, o) == Some(loc) && ApartFromEmptied(v, o, loc) && at(loc) in before ==>
        at(loc) in after && after[at(loc)] == before[at(loc)]
  }

  lemma AllStay(v: View, at: Host, before: Content, after: Content)
    ensures KeptAreWhole(v, at, before, after) ==> StaysWhole(v, at, before, after)
  {
    hide KeptAreWhole, OnPlan, Goes, ApartFromEmptied, OriginsOf;
    if KeptAreWhole(v, at, before, after) {
      forall o, loc | OnPlan(v, o) && !Goes(v, o) && At(v, o) == Some(loc) && ApartFromEmptied(v, o, loc)
        && at(loc) in before
        ensures at(loc) in after && after[at(loc)] == before[at(loc)]
      {
        Stays(v, at, before, after, o, loc);
      }
    }
  }

  lemma Stays(v: View, at: Host, before: Content, after: Content, o: Origin, loc: string)
    requires KeptAreWhole(v, at, before, after) && OnPlan(v, o) && !Goes(v, o)
    requires At(v, o) == Some(loc) && ApartFromEmptied(v, o, loc) && at(loc) in before
    ensures at(loc) in after && after[at(loc)] == before[at(loc)]
  {
    hide OnPlan, Goes, OriginsOf, SectionFor, ToldApart;
    PlannedExactly(v, o);
    EmptiedExactly(v, o);
    var i :| 0 <= i < |OriginsOf(v)| && OriginsOf(v)[i] == o;
    forall j | 0 <= j < |SectionsOf(v)| && SectionsOf(v)[j].Emptied()
      ensures ToldApart(v, OriginsOf(v)[j], o, SectionsOf(v)[j].loc, loc)
    {
      PlannedExactly(v, OriginsOf(v)[j]);
      EmptiedExactly(v, OriginsOf(v)[j]);
      EmptiedResolves(v, OriginsOf(v)[j]);
    }
    assert KeptIsWhole(v, at, before, after, i);
  }

  // So a direct repository that entries back up to, or that is immutable, keeps
  // every backup wherever it can be told apart from what is emptied.
  lemma UsedRepositoryStays(v: View, at: Host, before: Content, after: Content, t: Target, d: NamedRepo, loc: string)
    requires StaysWhole(v, at, before, after)
    requires t in v.targets && t.destination == v.dest.id && DirectRepo(v, t, d) && (d.used || d.immutable)
    requires v.resolve(d.repo) == Some(loc) && ApartFromEmptied(v, DirectOf(t, d), loc) && at(loc) in before
    ensures at(loc) in after && after[at(loc)] == before[at(loc)]
  {
    hide ApartFromEmptied, DirectRepo, HomeMeets, PlaceMeets;
    assert OnPlan(v, DirectOf(t, d)) && !Goes(v, DirectOf(t, d));
  }
}
