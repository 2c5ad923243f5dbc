// A destination under a remote that spreads over several others
// (place_identity.go, destination_erase.go): its place cannot be named, so a
// home on one of those remotes counts as another place, although it is the
// repository that is emptied.
module HiddenUnion {
  import opened Wrappers
  import opened StoragePlaces
  import opened ErasurePlan
  import opened ErasureSections
  import opened Erasure

  const BASE := "rclone:both:bv"
  const COPY := "rclone:both:bv/containers"
  const HOME := "rclone:box:bv/containers"
  const CONTAINERS := "containers"

  const BACKUP := Snapshot("s1", "", {CONTAINERS})

  // Only the plain remote can be named.
  function UnionPlaces(): Places {
    Places(loc => if loc == HOME then Some(Place("rclone:box", ["bv", CONTAINERS], "")) else None,
           loc => if loc == HOME then Parts("rclone:box", ["bv", CONTAINERS])
             else Parts("rclone:both", ["bv", CONTAINERS]),
           (a, b) => a == b, (a, b) => a == b)
  }

  function HomesOf(domain: string): seq<Candidate> {
    if domain == CONTAINERS then [Candidate(Some(HOME), "", Some([BACKUP]))] else []
  }

  function TargetsOf(domain: string): seq<Candidate> {
    if domain == CONTAINERS then [Candidate(Some(COPY), "d", Some([BACKUP]))] else []
  }

  const ROW := Target("t", CONTAINERS, COPY, "d", false, false)

  function UnionView(): View {
    View(Destination("d", BASE, false), [Home("home", Some(HOME))], [], [ROW], [Destination("d", BASE, false)],
         raw => Some(raw), (a, b) => false, (base, domain) => base + "/" + domain, loc => false,
         loc => if loc == COPY || loc == HOME then Some([BACKUP]) else None,
         World(UnionPlaces(), HomesOf, TargetsOf, (domain, snaps, sn) => "container:plex"),
         [], [], (n, sections) => "digest")
  }

  // Both locations lead to one repository.
  function OneRepository(loc: string): string { if loc == HOME then COPY else loc }

  lemma SpelledApart()
    ensures HOME != COPY && HOME != BASE && "rclone:box" != "rclone:both"
  {
    assert HOME[9] == 'x' && COPY[9] == 't' && BASE[9] == 't';
    assert "rclone:box"[9] == 'x' && "rclone:both"[9] == 't';
  }

  lemma FoldersDiffer(base: string, c: string, d: string)
    requires c != d
    ensures base + "/" + c != base + "/" + d
  {
    assert (base + "/" + c)[|base| + 1..] == c;
    assert (base + "/" + d)[|base| + 1..] == d;
  }

  lemma OneDestination()
    ensures Sound(UnionView())
  {
  }

  // Nothing is wrong with the host but that the two remotes share a folder.
  lemma TheHostIsHonest()
    requires forall domain :: BASE + "/" + domain != HOME
    ensures Honest(UnionView(), OneRepository) && Equivalence(UnionPlaces())
  {
    var v := UnionView();
    forall c, d: string | c != d
      ensures OneRepository(v.folder(v.dest.repo, c)) != OneRepository(v.folder(v.dest.repo, d)) {
      FoldersDiffer(BASE, c, d);
    }
  }

  lemma NotBelowBase(domain: string)
    ensures BASE + "/" + domain != HOME
  {
    SpelledApart();
    assert (BASE + "/" + domain)[9] == 't' && HOME[9] == 'x';
  }

  // No repository in use shares the copy's place, as far as it can be told.
  lemma CopyIsNotShared()
    ensures SharedBy(UnionView(), COPY, ["t", "d"]) == ""
  {
    var v, self := UnionView(), ["t", "d"];
    SpelledApart();
    forall r | IsLive(v, r) ensures !Meets(v.world.places, COPY, r, self) {
      if r.home {
        assert r.loc == HOME;
        assert !Overlap(v.world.places, COPY, HOME);
      } else {
        assert self[0] == "t" && self[1] == "d";
      }
    }
  }

  lemma {:induction false} NothingMoved(domains: seq<string>)
    ensures OfMoved(UnionView(), domains) == []
  {
    if domains != [] {
      NothingMoved(domains[..|domains| - 1]);
    }
  }

  function Emptied(): Section { Section(CONTAINERS, COPY, "", [BACKUP]) }

  // The plan has the one section, which is emptied.
  lemma TheSections()
    ensures SectionsOf(UnionView()) == [Emptied()]
  {
    var v := UnionView();
    NothingMoved(DOMAINS);
    assert [ROW][1..] == [] && AtDestination(v, [ROW]) == [ROW];
    assert OfTarget(v, ROW) == [CopyOf(ROW)];
    assert [ROW][..0] == [] && OfTargets(v, [ROW]) == OfTargets(v, []) + [CopyOf(ROW)];
    assert OriginsOf(v) == [CopyOf(ROW)];
    CopyIsNotShared();
    assert SelfOf(v, CopyOf(ROW)) == ["t", "d"];
    assert KeptFor(v, CopyOf(ROW)) == "";
    OnlyBackup();
    assert SectionFor(v, CopyOf(ROW)) == Emptied();
  }

  lemma OnlyBackup()
    ensures OfSection([BACKUP], CONTAINERS) == [BACKUP]
  {
    assert [BACKUP][..0] == [];
  }

  // The home counts as another place, so the entry is no last copy.
  lemma NoLastCopy(e: string)
    ensures LastOf(UnionView().world, OutsideOf(UnionView().world, "d", [Emptied()]), [Emptied()], 1, e) == 0
  {
    var w, s := UnionView().world, Emptied();
    var outside := OutsideOf(w, "d", [s]);
    assert [s][..0] == [] && EmptiedLocs([s]) == [COPY];
    SpelledApart();
    OnlyBackup();
    assert HoldsEntry(w, CONTAINERS, "", [COPY], HomesOf(CONTAINERS)[0], "container:plex") by {
      assert ApartFromAll(w.places, HOME, [COPY]);
    }
    OutsideMeans(w, CONTAINERS, "d", [COPY], "container:plex");
    assert "container:plex" in outside(CONTAINERS).entries;
    var held := outside(CONTAINERS).entries;
    assert LastIn(w, held, s, 0, e) == 0 && LastIn(w, held, s, 1, e) == 0;
    assert LastOf(w, outside, [s], 0, e) == 0;
  }

  lemma NothingToName(p: Plan)
    requires IsPlan(UnionView(), p)
    ensures p.last == [] && MayStart(p, [], "digest", [])
  {
    hide SectionsOf;
    TheSections();
    assert p.sections[0].Emptied();
    if p.last != [] {
      NoLastCopy(p.last[0].identity);
    }
  }

  lemma OnlyDomain(domain: string)
    ensures Touched(UnionView(), domain) ==> domain == CONTAINERS
  {
    TheSections();
  }

  lemma CopyIsReached()
    ensures Reaches(UnionView(), OneRepository, map[COPY := {BACKUP}])
  {
    TheSections();
    SpelledApart();
  }

  lemma AllIsGone(after: Content)
    requires OnlyDoomedGone(OneRepository, map[COPY := {BACKUP}], after, [Emptied()], 1)
    requires AllDoomedGone(OneRepository, after, [Emptied()], 1)
    ensures after == map[COPY := {}]
  {
    SpelledApart();
    assert Emptied().snaps[0].id == BACKUP.id;
    assert Doomed(OneRepository, [Emptied()][0], COPY, BACKUP);
    assert after[COPY] <= {BACKUP} && BACKUP !in after[COPY];
    assert after[COPY] == {};
  }

  lemma ListingsAreAccurate(domain: string)
    ensures Accurate(HomesOf(domain), OneRepository, map[COPY := {BACKUP}])
    ensures Accurate(TargetsOf(domain), OneRepository, map[COPY := {BACKUP}])
  {
  }

  // The deletion runs through, with nothing named in the request and every
  // listing accurate, and no backup of the entry is left anywhere.
  method TakenForAnother() returns (plan: Option<Plan>, removed: bool, ghost before: Content, ghost after: Content)
    ensures Sound(UnionView()) && Honest(UnionView(), OneRepository)
    ensures before == map[COPY := {BACKUP}] && after == map[COPY := {}]
    ensures plan.Some? && IsPlan(UnionView(), plan.value) && plan.value.last == [] && removed
    ensures forall domain ::
      Accurate(HomesOf(domain), OneRepository, before) && Accurate(TargetsOf(domain), OneRepository, before)
  {
    hide IsPlan, Sound, Honest, Touched, OnlyDoomedGone, AllDoomedGone, SectionsOf, Accurate, MayStart, UnionView,
      KeptAreWhole, AllAccounted, Recoverable;
    var v := UnionView();
    OneDestination();
    forall domain ensures BASE + "/" + domain != HOME { NotBelowBase(domain); }
    TheHostIsHonest();
    forall p: Plan | IsPlan(v, p) ensures p.sections == [Emptied()] && p.last == [] && MayStart(p, [], "digest", []) {
      PlannedAsRead(v, p);
      TheSections();
      NothingToName(p);
    }
    forall domain ensures Touched(v, domain) ==> domain == CONTAINERS { OnlyDomain(domain); }
    forall domain
      ensures Accurate(HomesOf(domain), OneRepository, map[COPY := {BACKUP}])
      ensures Accurate(TargetsOf(domain), OneRepository, map[COPY := {BACKUP}])
    {
      ListingsAreAccurate(domain);
    }
    CopyIsReached();
    var repos := new Repositories(OneRepository, true, map[COPY := {BACKUP}]);
    before := repos.content;
    var started, under;
    ghost var attempt;
    plan, started, removed, under, attempt :=
      repos.Erase(n => Some(v), domain => true, {CONTAINERS}, false, [], "digest", []);
    after := repos.content;
    AllIsGone(after);
  }
}
