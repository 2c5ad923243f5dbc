// Which repositories a deletion at a destination empties and why it keeps the
// others, told by what was read about them alone (destination_erase.go).
module ErasureReasons {
  import opened Wrappers
  import opened StoragePlaces
  import opened ErasurePlan
  import opened ErasureSections

  // ---- the sections -------------------------------------------------------

  // Position i is the first whose repository belongs to target id.
  predicate FirstNaming(named: seq<NamedRepo>, id: string, i: int) {
    0 <= i < |named| && named[i].companionOf == id && forall k :: 0 <= k < i ==> named[k].companionOf != id
  }

  // The repository is the direct one of target t.
  ghost predicate DirectRepo(v: View, t: Target, d: NamedRepo) {
    t.id != "" && exists i :: FirstNaming(v.named, t.id, i) && v.named[i] == d
  }

  lemma {:induction false} FirstIsCompanion(named: seq<NamedRepo>, id: string, i: int)
    requires id != "" && FirstNaming(named, id, i)
    ensures Companion(named, id) == Some(named[i])
  {
    if i > 0 {
      assert named[0].companionOf != id;
      assert forall k :: 0 <= k < i - 1 ==> named[1..][k] == named[k + 1];
      FirstIsCompanion(named[1..], id, i - 1);
    }
  }

  lemma {:induction false} CompanionIsFirst(named: seq<NamedRepo>, id: string) returns (i: int)
    requires Companion(named, id).Some?
    ensures id != "" && FirstNaming(named, id, i) && Companion(named, id) == Some(named[i])
  {
    i := 0;
    if !(named[0].companionOf == id && id != "") {
      var rest := CompanionIsFirst(named[1..], id);
      i := rest + 1;
      assert forall k :: 0 < k < i ==> named[k] == named[1..][k - 1];
    }
  }

  lemma CompanionIsDirect(v: View, t: Target)
    ensures forall d :: Companion(v.named, t.id) == Some(d) <==> DirectRepo(v, t, d)
  {
    if Companion(v.named, t.id).Some? {
      var i := CompanionIsFirst(v.named, t.id);
    }
    forall d | DirectRepo(v, t, d) ensures Companion(v.named, t.id) == Some(d) {
      var i :| FirstNaming(v.named, t.id, i) && v.named[i] == d;
      FirstIsCompanion(v.named, t.id, i);
    }
  }

  // ---- the repositories in use --------------------------------------------

  // The section's own rows: itself, the destination, and the direct repository
  // in a folder inside its target, or that target.
  ghost predicate OwnRow(v: View, o: Origin, id: string) {
    match o
    case CopyOf(t) =>
      id == t.id || id == v.dest.id || exists d :: DirectRepo(v, t, d) && v.inside(t.repo, d.repo) && id == d.id
    case DirectOf(t, d) => id == d.id || id == v.dest.id || (v.inside(t.repo, d.repo) && id == t.id)
    case LeftBy(_) => id == v.dest.id
  }

  lemma SelfIsOwn(v: View, o: Origin)
    ensures forall id :: id in SelfOf(v, o) <==> OwnRow(v, o, id)
  {
    hide DirectRepo;
    if o.CopyOf? {
      CompanionIsDirect(v, o.target);
    }
  }

  // The repository at other, which is not one of the section's own rows, shares
  // the location: the same, inside it or around it.
  ghost predicate Shares(v: View, loc: string, other: Option<string>, id: string, o: Origin) {
    other.Some? && Overlap(v.world.places, loc, other.value) && (id == "" || !OwnRow(v, o, id))
  }

  // A domain's own repository or a named one shares the location.
  ghost predicate HomeMeets(v: View, loc: string, o: Origin) {
    || (exists h :: h in v.homes && Shares(v, loc, h.loc, h.id, o))
    || (exists n :: n in v.named && Shares(v, loc, v.resolve(n.repo), n.id, o))
  }

  // A listed target or a destination shares it.
  ghost predicate PlaceMeets(v: View, loc: string, o: Origin) {
    || (exists t :: t in v.targets && ShownTarget(v, t) && Shares(v, loc, v.resolve(t.repo), t.id, o))
    || (exists d :: d in v.destinations && Shares(v, loc, v.resolve(d.repo), d.id, o))
  }

  // The storage page lists the target: its destination is there, or it has none
  // and is not only kept for its id.
  ghost predicate ShownTarget(v: View, t: Target) {
    if t.destination == "" then !t.dormant else exists d :: d in v.destinations && d.id == t.destination
  }

  lemma HomesMeet(v: View, loc: string, o: Origin)
    ensures MeetsLive(v, loc, true, SelfOf(v, o)) <==> HomeMeets(v, loc, o)
  {
    hide Overlap, OwnRow, SelfOf;
    var p := v.world.places;
    SelfIsOwn(v, o);
    if h :| h in v.homes && Shares(v, loc, h.loc, h.id, o) {
      assert IsLive(v, LiveRepo(h.id, h.loc.value, true))
        && Meets(p, loc, LiveRepo(h.id, h.loc.value, true), SelfOf(v, o));
    }
    if n :| n in v.named && Shares(v, loc, v.resolve(n.repo), n.id, o) {
      var r := LiveRepo(n.id, v.resolve(n.repo).value, true);
      assert IsLive(v, r) && Meets(p, loc, r, SelfOf(v, o));
    }
  }

  lemma AnyMeets(v: View, loc: string, o: Origin)
    ensures MeetsLive(v, loc, false, SelfOf(v, o)) <==> HomeMeets(v, loc, o) || PlaceMeets(v, loc, o)
  {
    hide Overlap, OwnRow, SelfOf;
    var p := v.world.places;
    SelfIsOwn(v, o);
    HomesMeet(v, loc, o);
    if HomeMeets(v, loc, o) {
      var r :| IsLive(v, r) && r.home && Meets(p, loc, r, SelfOf(v, o));
    }
    if t :| t in v.targets && ShownTarget(v, t) && Shares(v, loc, v.resolve(t.repo), t.id, o) {
      var r := LiveRepo(t.id, v.resolve(t.repo).value, false);
      assert IsLive(v, r) && Meets(p, loc, r, SelfOf(v, o));
    }
    if d :| d in v.destinations && Shares(v, loc, v.resolve(d.repo), d.id, o) {
      var r := LiveRepo(d.id, v.resolve(d.repo).value, false);
      assert IsLive(v, r) && Meets(p, loc, r, SelfOf(v, o));
    }
    if r :| IsLive(v, r) && Meets(p, loc, r, SelfOf(v, o)) {
      LiveIsRead(v, loc, o, r);
    }
  }

  lemma LiveIsRead(v: View, loc: string, o: Origin, r: LiveRepo)
    requires IsLive(v, r) && Meets(v.world.places, loc, r, SelfOf(v, o))
    ensures if r.home then HomeMeets(v, loc, o) else PlaceMeets(v, loc, o)
  {
    hide Overlap, OwnRow, SelfOf;
    SelfIsOwn(v, o);
  }

  // ---- what is on the plan ------------------------------------------------

  // The plan has a section for the copy of each of the destination's targets,
  // for each one's direct repository, and for what a domain that has no target
  // here any more left behind.
  ghost predicate OnPlan(v: View, o: Origin) {
    match o
    case CopyOf(t) => t in v.targets && t.destination == v.dest.id
    case DirectOf(t, d) => t in v.targets && t.destination == v.dest.id && DirectRepo(v, t, d)
    case LeftBy(domain) =>
      && (domain == "containers" || domain == "vms" || domain == "flash" || domain == "config" || domain == "files"
          || domain == "zfs")
      && (forall t :: t in v.targets && t.destination == v.dest.id ==> t.domain != domain)
      && HasLeft(v, domain)
  }

  // There is a repository with backups of the domain in its folder, and no
  // other repository in use shares that place.
  ghost predicate HasLeft(v: View, domain: string) {
    var raw := v.folder(v.dest.repo, domain);
    && v.resolve(raw).Some? && v.opens(v.resolve(raw).value) && v.listing(v.resolve(raw).value).Some?
    && (exists sn :: sn in v.listing(v.resolve(raw).value).value && domain in sn.domains)
    && !HomeMeets(v, v.resolve(raw).value, LeftBy(domain))
    && !PlaceMeets(v, v.resolve(raw).value, LeftBy(domain))
  }

  lemma LeftIs(v: View, domain: string)
    ensures LeftBehind(v, domain) <==>
      HasLeft(v, domain) && forall t :: t in v.targets && t.destination == v.dest.id ==> t.domain != domain
  {
    hide MeetsLive, HomeMeets, PlaceMeets;
    var raw := v.folder(v.dest.repo, domain);
    if v.resolve(raw).Some? {
      HomesMeet(v, v.resolve(raw).value, LeftBy(domain));
      AnyMeets(v, v.resolve(raw).value, LeftBy(domain));
      var snaps := SectionFor(v, LeftBy(domain)).snaps;
      if snaps != [] {
        assert snaps[0] in snaps;
      }
    }
  }

  lemma {:induction false} TargetsAre(v: View, targets: seq<Target>)
    ensures forall o :: o in OfTargets(v, targets) <==>
      !o.LeftBy? && o.target in targets && (o.DirectOf? ==> DirectRepo(v, o.target, o.repo))
  {
    hide DirectRepo;
    if targets != [] {
      var n := |targets| - 1;
      TargetsAre(v, targets[..n]);
      CompanionIsDirect(v, targets[n]);
      assert targets == targets[..n] + [targets[n]];
    }
  }

  lemma {:induction false} MovedAre(v: View, domains: seq<string>)
    ensures forall o :: o in OfMoved(v, domains) <==> o.LeftBy? && o.domain in domains && LeftBehind(v, o.domain)
  {
    hide LeftBehind;
    if domains != [] {
      var n := |domains| - 1;
      MovedAre(v, domains[..n]);
      assert domains == domains[..n] + [domains[n]];
    }
  }

  lemma PlannedExactly(v: View, o: Origin)
    ensures o in OriginsOf(v) <==> OnPlan(v, o)
  {
    hide DirectRepo, OfTargets, OfMoved, LeftBehind, HasLeft;
    TargetsAre(v, AtDestination(v, v.targets));
    MovedAre(v, DOMAINS);
    if o.LeftBy? {
      LeftIs(v, o.domain);
    }
  }

  // ---- what is emptied ----------------------------------------------------

  function At(v: View, o: Origin): Option<string> {
    match o
    case CopyOf(t) => v.resolve(t.repo)
    case DirectOf(_, d) => v.resolve(d.repo)
    case LeftBy(domain) => v.resolve(v.folder(v.dest.repo, domain))
  }

  // Nothing that was read speaks for keeping it.
  ghost predicate MayGo(v: View, o: Origin) {
    match o
    case CopyOf(t) => !t.refuses
    case DirectOf(_, d) => !d.used && !d.immutable
    case LeftBy(_) => !v.dest.immutable
  }

  // Its location resolves and can be listed, no other repository in use shares
  // it, and its own row lets go of it.
  ghost predicate Goes(v: View, o: Origin) {
    && At(v, o).Some? && v.listing(At(v, o).value).Some? && MayGo(v, o)
    && !HomeMeets(v, At(v, o).value, o) && !PlaceMeets(v, At(v, o).value, o)
  }

  // Exactly these sections are emptied.
  lemma EmptiedExactly(v: View, o: Origin)
    requires OnPlan(v, o)
    ensures SectionFor(v, o).Emptied() <==> Goes(v, o)
  {
    hide MeetsLive, HomeMeets, PlaceMeets, DirectRepo;
    if At(v, o).Some? {
      HomesMeet(v, At(v, o).value, o);
      AnyMeets(v, At(v, o).value, o);
    }
  }

  // And a kept one says why: a used repository or one a home shares is in use,
  // any other shared one is shared, what refuses deletes is append-only, and
  // what is left cannot be read.
  lemma KeptReason(v: View, o: Origin)
    requires OnPlan(v, o) && !SectionFor(v, o).Emptied()
    ensures var home, place :=
        At(v, o).Some? && HomeMeets(v, At(v, o).value, o), At(v, o).Some? && PlaceMeets(v, At(v, o).value, o);
      SectionFor(v, o).kept ==
        if o.DirectOf? && o.repo.used then "in-use"
        else if !o.DirectOf? && !MayGo(v, o) then "append-only"
        else if home then "in-use"
        else if place then "shared"
        else if !MayGo(v, o) then "append-only"
        else "unreadable"
  {
    hide MeetsLive, HomeMeets, PlaceMeets, DirectRepo;
    if At(v, o).Some? {
      HomesMeet(v, At(v, o).value, o);
      AnyMeets(v, At(v, o).value, o);
    }
  }

  // It lists the backups of its own domain and no others.
  lemma SectionLists(v: View, o: Origin)
    requires OnPlan(v, o) && At(v, o).Some? && v.listing(At(v, o).value).Some?
    ensures var s := SectionFor(v, o);
      && s.loc == At(v, o).value
      && s.domain == (if o.LeftBy? then o.domain else o.target.domain)
      && forall sn :: sn in s.snaps <==> sn in v.listing(At(v, o).value).value && s.domain in sn.domains
  {
  }
}
