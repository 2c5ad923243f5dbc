// Which repositories a deletion at a destination empties and which it keeps
// (destination_erase.go, place_identity.go): the copies of the destination's
// targets, their direct repositories, and what sections that moved elsewhere
// left behind.
module ErasureSections {
  import opened Wrappers
  import opened StoragePlaces
  import opened ErasurePlan

  const IN_USE := "in-use"
  const SHARED := "shared"
  const APPEND_ONLY := "append-only"

  // A domain's own repository; one whose location does not resolve has none.
  datatype Home = Home(id: string, loc: Option<string>)

  // A named repository, which is a target's direct one when companionOf names
  // it. used says that entries or a default back up to it.
  datatype NamedRepo = NamedRepo(id: string, repo: string, companionOf: string, immutable: bool, used: bool)

  // refuses says the target is append-only or refused its last delete test,
  // dormant that it is only kept for its id.
  datatype Target = Target(id: string, domain: string, repo: string, destination: string, dormant: bool, refuses: bool)

  datatype Destination = Destination(id: string, repo: string, immutable: bool)

  // What one attempt to plan reads. resolve gives the location of a repository
  // as written, inside says that a direct repository is the folder inside its
  // target, opens that a repository is at a location.
  datatype View = View(
    dest: Destination, homes: seq<Home>, named: seq<NamedRepo>, targets: seq<Target>, destinations: seq<Destination>,
    resolve: string -> Option<string>, inside: (string, string) -> bool, folder: (string, string) -> string,
    opens: string -> bool, listing: string -> Option<seq<Snapshot>>, world: World,
    removal: seq<string>, removalDomains: seq<string>, digest: (nat, seq<Section>) -> string)

  const DOMAINS := ["containers", "vms", "flash", "config", "files", "zfs"]

  // The rows have an id each, the destination is one of them, and a folder
  // inside a target is another location than the target's.
  ghost predicate Sound(v: View) {
    && Sane(v.world.places)
    && v.dest in v.destinations && v.dest.id != ""
    && (forall a, b :: a in v.named && b in v.named && a.id == b.id ==> a == b)
    && (forall a, b :: a in v.targets && b in v.targets && a.id == b.id ==> a == b)
    && (forall a, b :: a in v.named && b in v.targets ==> a.id != b.id)
    && (forall a :: a in v.named ==> a.id != v.dest.id)
    && (forall a :: a in v.targets ==> a.id != v.dest.id)
    && (forall a, b :: v.inside(a, b) && v.resolve(a).Some? ==> v.resolve(a) != v.resolve(b))
  }

  // ---- the repositories in use --------------------------------------------------

  datatype LiveRepo = LiveRepo(id: string, loc: string, home: bool)

  // A target the storage page does not list.
  predicate Hidden(v: View, t: Target) {
    if t.destination != "" then forall d :: d in v.destinations ==> d.id != t.destination else t.dormant
  }

  ghost predicate IsLive(v: View, r: LiveRepo) {
    || (r.home && exists h :: h in v.homes && h.id == r.id && h.loc == Some(r.loc))
    || (r.home && exists n :: n in v.named && n.id == r.id && v.resolve(n.repo) == Some(r.loc))
    || (!r.home && exists t :: t in v.targets && !Hidden(v, t) && t.id == r.id && v.resolve(t.repo) == Some(r.loc))
    || (!r.home && exists d :: d in v.destinations && d.id == r.id && v.resolve(d.repo) == Some(r.loc))
  }

  method LiveRepos(v: View) returns (live: seq<LiveRepo>)
    ensures forall r :: r in live <==> IsLive(v, r)
  {
    live := [];
    for i := 0 to |v.homes|
      invariant forall r :: r in live <==>
        r.home && exists h :: h in v.homes[..i] && h.id == r.id && h.loc == Some(r.loc)
    {
      var h := v.homes[i];
      if h.loc.Some? {
        live := live + [LiveRepo(h.id, h.loc.value, true)];
      }
    }
    assert v.homes[..|v.homes|] == v.homes;
    ghost var before := live;
    for i := 0 to |v.named|
      invariant forall r :: r in live <==>
        r in before || (r.home && exists n :: n in v.named[..i] && n.id == r.id && v.resolve(n.repo) == Some(r.loc))
    {
      var loc := v.resolve(v.named[i].repo);
      if loc.Some? {
        live := live + [LiveRepo(v.named[i].id, loc.value, true)];
      }
    }
    assert v.named[..|v.named|] == v.named;
    before := live;
    for i := 0 to |v.targets|
      invariant forall r :: r in live <==>
        r in before
          || (!r.home && exists t ::
          t in v.targets[..i] && !Hidden(v, t) && t.id == r.id && v.resolve(t.repo) == Some(r.loc))
    {
      var loc := v.resolve(v.targets[i].repo);
      if loc.Some? && !Hidden(v, v.targets[i]) {
        live := live + [LiveRepo(v.targets[i].id, loc.value, false)];
      }
    }
    assert v.targets[..|v.targets|] == v.targets;
    before := live;
    for i := 0 to |v.destinations|
      invariant forall r :: r in live <==>
        r in before
        || (!r.home && exists d :: d in v.destinations[..i] && d.id == r.id && v.resolve(d.repo) == Some(r.loc))
    {
      var loc := v.resolve(v.destinations[i].repo);
      if loc.Some? {
        live := live + [LiveRepo(v.destinations[i].id, loc.value, false)];
      }
    }
    assert v.destinations[..|v.destinations|] == v.destinations;
  }

  predicate Meets(p: Places, loc: string, r: LiveRepo, self: seq<string>) {
    !(r.id != "" && r.id in self) && Overlap(p, loc, r.loc)
  }

  method OverlapsLive(p: Places, loc: string, live: seq<LiveRepo>, homesOnly: bool, self: seq<string>)
      returns (found: bool)
    ensures found <==> exists r :: r in live && (homesOnly ==> r.home) && Meets(p, loc, r, self)
  {
    for i := 0 to |live|
      invariant forall r :: r in live[..i] ==> !((homesOnly ==> r.home) && Meets(p, loc, r, self))
    {
      if homesOnly && !live[i].home { continue; }
      if Meets(p, loc, live[i], self) {
        return true;
      }
    }
    assert live[..|live|] == live;
    return false;
  }

  ghost predicate MeetsLive(v: View, loc: string, homesOnly: bool, self: seq<string>) {
    exists r :: IsLive(v, r) && (homesOnly ==> r.home) && Meets(v.world.places, loc, r, self)
  }

  // Why the repository stays when it is, holds or lies inside a repository in
  // use other than the rows named in self.
  ghost function SharedBy(v: View, raw: string, self: seq<string>): string {
    match v.resolve(raw)
    case None => ""
    case Some(loc) =>
      if MeetsLive(v, loc, true, self) then IN_USE else if MeetsLive(v, loc, false, self) then SHARED else ""
  }

  method SharedWith(v: View, live: seq<LiveRepo>, raw: string, self: seq<string>) returns (why: string)
    requires forall r :: r in live <==> IsLive(v, r)
    ensures why == SharedBy(v, raw, self)
  {
    var loc := v.resolve(raw);
    if loc.None? { return ""; }
    var home := OverlapsLive(v.world.places, loc.value, live, true, self);
    if home { return IN_USE; }
    var any := OverlapsLive(v.world.places, loc.value, live, false, self);
    if any { return SHARED; }
    return "";
  }

  // ---- the sections of the plan ---------------------------------------------------

  // A target's copy, its direct repository, or what a domain that moved left.
  datatype Origin = CopyOf(target: Target) | DirectOf(target: Target, repo: NamedRepo) | LeftBy(domain: string)

  // The first named repository that is the target's direct one.
  function Companion(named: seq<NamedRepo>, id: string): (r: Option<NamedRepo>)
    ensures r.Some? ==> r.value in named && r.value.companionOf == id
  {
    if named == [] then None
    else if named[0].companionOf == id && id != "" then Some(named[0])
    else Companion(named[1..], id)
  }

  function RawOf(v: View, o: Origin): string {
    match o
    case CopyOf(t) => t.repo
    case DirectOf(_, d) => d.repo
    case LeftBy(domain) => v.folder(v.dest.repo, domain)
  }

  function DomainOf(o: Origin): string {
    match o
    case CopyOf(t) => t.domain
    case DirectOf(t, _) => t.domain
    case LeftBy(domain) => domain
  }

  // The rows a section does not count as sharing its place with.
  function SelfOf(v: View, o: Origin): seq<string> {
    match o
    case CopyOf(t) =>
      var direct := Companion(v.named, t.id);
      [t.id, v.dest.id] + if direct.Some? && v.inside(t.repo, direct.value.repo) then [direct.value.id] else []
    case DirectOf(t, d) => [d.id, v.dest.id] + if v.inside(t.repo, d.repo) then [t.id] else []
    case LeftBy(_) => [v.dest.id]
  }

  ghost function KeptFor(v: View, o: Origin): string {
    var shared := SharedBy(v, RawOf(v, o), SelfOf(v, o));
    match o
    case CopyOf(t) => if t.refuses then APPEND_ONLY else shared
    case DirectOf(_, d) => if d.used then IN_USE else if shared == "" && d.immutable then APPEND_ONLY else shared
    case LeftBy(_) => if v.dest.immutable then APPEND_ONLY else ""
  }

  ghost function SectionFor(v: View, o: Origin): Section {
    SectionAt(v.listing, DomainOf(o), v.resolve(RawOf(v, o)), KeptFor(v, o))
  }

  function AtDestination(v: View, targets: seq<Target>): (r: seq<Target>)
    ensures forall t :: t in r <==> t in targets && t.destination == v.dest.id
  {
    if targets == [] then []
    else
      assert forall t :: t in targets <==> t == targets[0] || t in targets[1..];
      (if targets[0].destination == v.dest.id then [targets[0]] else []) + AtDestination(v, targets[1..])
  }

  ghost function OriginsOf(v: View): seq<Origin> {
    OfTargets(v, AtDestination(v, v.targets)) + OfMoved(v, DOMAINS)
  }

  ghost function OfTarget(v: View, t: Target): seq<Origin> {
    match Companion(v.named, t.id)
    case None => [CopyOf(t)]
    case Some(d) => [CopyOf(t), DirectOf(t, d)]
  }

  ghost function OfTargets(v: View, targets: seq<Target>): (r: seq<Origin>)
    ensures forall o :: o in r ==>
      !o.LeftBy? && o.target in targets && (o.DirectOf? ==> Companion(v.named, o.target.id) == Some(o.repo))
  {
    if targets == [] then [] else OfTargets(v, targets[..|targets| - 1]) + OfTarget(v, targets[|targets| - 1])
  }

  // A domain without a target here has left a repository behind when there is
  // one at its folder that no repository in use shares and that holds backups
  // of the domain.
  ghost predicate LeftBehind(v: View, domain: string) {
    && (forall t :: t in AtDestination(v, v.targets) ==> t.domain != domain)
    && SharedBy(v, v.folder(v.dest.repo, domain), [v.dest.id]) == ""
    && v.resolve(v.folder(v.dest.repo, domain)).Some?
    && v.opens(v.resolve(v.folder(v.dest.repo, domain)).value)
    && SectionFor(v, LeftBy(domain)).snaps != []
  }

  ghost function OfMoved(v: View, domains: seq<string>): (r: seq<Origin>)
    ensures forall o :: o in r ==> o.LeftBy? && LeftBehind(v, o.domain)
  {
    if domains == [] then []
    else
      var last := domains[|domains| - 1];
      OfMoved(v, domains[..|domains| - 1]) + if LeftBehind(v, last) then [LeftBy(last)] else []
  }

  ghost function SectionsFor(v: View, origins: seq<Origin>): (r: seq<Section>)
    ensures |r| == |origins| && forall i :: 0 <= i < |r| ==> r[i] == SectionFor(v, origins[i])
  {
    seq(|origins|, i requires 0 <= i < |origins| => SectionFor(v, origins[i]))
  }

  ghost function SectionsOf(v: View): seq<Section> { SectionsFor(v, OriginsOf(v)) }

  // Appends a target's copy and, when it has one, its direct repository.
  method AddTarget(v: View, live: seq<LiveRepo>, sections: seq<Section>, t: Target) returns (r: seq<Section>)
    requires forall r :: r in live <==> IsLive(v, r)
    ensures r == sections + SectionsFor(v, OfTarget(v, t))
  {
    var direct := Companion(v.named, t.id);
    var kept := SharedWith(v, live, t.repo, SelfOf(v, CopyOf(t)));
    if t.refuses {
      kept := APPEND_ONLY;
    }
    r := AddSection(sections, v.listing, t.domain, v.resolve(t.repo), kept);
    if direct.None? { return; }
    var d := direct.value;
    kept := SharedWith(v, live, d.repo, SelfOf(v, DirectOf(t, d)));
    if d.used {
      kept := IN_USE;
    } else if kept == "" && d.immutable {
      kept := APPEND_ONLY;
    }
    r := AddSection(r, v.listing, t.domain, v.resolve(d.repo), kept);
  }

  // Appends what a domain that moved elsewhere left behind.
  method AddLeft(v: View, live: seq<LiveRepo>, sections: seq<Section>, domain: string) returns (r: seq<Section>)
    requires forall r :: r in live <==> IsLive(v, r)
    ensures r == sections + SectionsFor(v, OfMoved(v, [domain]))
  {
    r := sections;
    var raw := v.folder(v.dest.repo, domain);
    var shared := SharedWith(v, live, raw, [v.dest.id]);
    if (exists t :: t in AtDestination(v, v.targets) && t.domain == domain) || shared != "" { return; }
    var loc := v.resolve(raw);
    if loc.None? || !v.opens(loc.value) { return; }
    r := AddSection(sections, v.listing, domain, loc, if v.dest.immutable then APPEND_ONLY else "");
    if r[|sections|].snaps == [] {
      r := r[..|sections|];
    }
  }

  lemma SectionsAppend(v: View, a: seq<Origin>, b: seq<Origin>)
    ensures SectionsFor(v, a + b) == SectionsFor(v, a) + SectionsFor(v, b)
  {
    hide SectionFor;
    var all := SectionsFor(v, a + b);
    forall i | 0 <= i < |a + b| ensures all[i] == (SectionsFor(v, a) + SectionsFor(v, b))[i] {
      assert (a + b)[i] == if i < |a| then a[i] else b[i - |a|];
    }
  }

  method PlanSections(v: View) returns (sections: seq<Section>)
    ensures sections == SectionsOf(v)
  {
    hide IsLive, OfTargets, OfMoved, SectionsFor;
    var live := LiveRepos(v);
    sections := AddTargets(v, live, AtDestination(v, v.targets));
    var left := AddMoved(v, live, DOMAINS);
    sections := sections + left;
    SectionsAppend(v, OfTargets(v, AtDestination(v, v.targets)), OfMoved(v, DOMAINS));
  }

  method AddTargets(v: View, live: seq<LiveRepo>, targets: seq<Target>) returns (sections: seq<Section>)
    requires forall r :: r in live <==> IsLive(v, r)
    ensures sections == SectionsFor(v, OfTargets(v, targets))
  {
    hide IsLive, OfTargets, SectionsFor;
    NoTargets(v);
    sections := [];
    for i := 0 to |targets|
      invariant sections == SectionsFor(v, OfTargets(v, targets[..i]))
    {
      sections := AddTarget(v, live, sections, targets[i]);
      TargetsOneMore(v, targets, i);
      SectionsAppend(v, OfTargets(v, targets[..i]), OfTarget(v, targets[i]));
    }
    assert targets[..|targets|] == targets;
  }

  method AddMoved(v: View, live: seq<LiveRepo>, domains: seq<string>) returns (left: seq<Section>)
    requires forall r :: r in live <==> IsLive(v, r)
    ensures left == SectionsFor(v, OfMoved(v, domains))
  {
    hide IsLive, OfMoved, SectionsFor;
    NoTargets(v);
    left := [];
    for i := 0 to |domains|
      invariant left == SectionsFor(v, OfMoved(v, domains[..i]))
    {
      left := AddLeft(v, live, left, domains[i]);
      MovedOneMore(v, domains, i);
      SectionsAppend(v, OfMoved(v, domains[..i]), OfMoved(v, [domains[i]]));
    }
    assert domains[..|domains|] == domains;
  }

  lemma NoTargets(v: View)
    ensures OfTargets(v, []) == [] && OfMoved(v, []) == [] && SectionsFor(v, []) == []
  {
  }

  lemma TargetsOneMore(v: View, targets: seq<Target>, i: nat)
    requires i < |targets|
    ensures OfTargets(v, targets[..i + 1]) == OfTargets(v, targets[..i]) + OfTarget(v, targets[i])
  {
    assert targets[..i + 1][..i] == targets[..i];
  }

  lemma MovedOneMore(v: View, domains: seq<string>, i: nat)
    requires i < |domains|
    ensures OfMoved(v, domains[..i + 1]) == OfMoved(v, domains[..i]) + OfMoved(v, [domains[i]])
  {
    assert domains[..i + 1][..i] == domains[..i];
    assert [domains[i]][..0] == [];
  }

  // ---- nothing kept shares its place with anything emptied --------------------------

  function RowId(o: Origin): string
    requires !o.LeftBy?
  {
    if o.CopyOf? then o.target.id else o.repo.id
  }

  // The section's row is one of the repositories in use.
  lemma RowIsLive(v: View, o: Origin, loc: string)
    requires Sound(v) && o in OriginsOf(v) && !o.LeftBy? && v.resolve(RawOf(v, o)) == Some(loc)
    ensures IsLive(v, LiveRepo(RowId(o), loc, o.DirectOf?))
  {
    assert o.target in v.targets && !Hidden(v, o.target);
  }

  // An emptied section meets no repository in use but its own rows, and what
  // was left behind meets none even when it is kept.
  lemma MeetsNoOther(v: View, o: Origin, loc: string, r: LiveRepo)
    requires o in OriginsOf(v) && v.resolve(RawOf(v, o)) == Some(loc)
    requires SectionFor(v, o).Emptied() || o.LeftBy?
    requires IsLive(v, r) && r.id !in SelfOf(v, o)
    ensures !Overlap(v.world.places, loc, r.loc)
  {
    assert SharedBy(v, RawOf(v, o), SelfOf(v, o)) == "";
    if Overlap(v.world.places, loc, r.loc) {
      assert Meets(v.world.places, loc, r, SelfOf(v, o));
      assert MeetsLive(v, loc, false, SelfOf(v, o));
    }
  }

  // A target and the direct repository in a folder of its own inside it, which
  // a deletion in the target does not reach.
  ghost predicate OwnFolder(v: View, a: Origin, b: Origin) {
    match (a, b)
    case (CopyOf(t), DirectOf(u, d)) => t == u && v.inside(t.repo, d.repo)
    case (DirectOf(u, d), CopyOf(t)) => t == u && v.inside(t.repo, d.repo)
    case _ => false
  }

  lemma RowsOf(v: View, o: Origin)
    requires o in OriginsOf(v) && !o.LeftBy?
    ensures o.target in v.targets && (o.DirectOf? ==> o.repo in v.named && o.repo.companionOf == o.target.id)
  {
  }

  lemma OwnRowsOnly(v: View, a: Origin, b: Origin)
    requires Sound(v) && a in OriginsOf(v) && b in OriginsOf(v) && a != b && !b.LeftBy?
    ensures RowId(b) !in SelfOf(v, a) || OwnFolder(v, a, b)
  {
    hide OriginsOf;
    RowsOf(v, b);
    if !a.LeftBy? {
      RowsOf(v, a);
      if a.CopyOf? {
        assert Companion(v.named, a.target.id).Some? ==> Companion(v.named, a.target.id).value in v.named;
      }
    }
  }

  // A kept section at a location of its own never shares its place with an
  // emptied one, but for a direct repository inside its own target. Two left
  // behind are in different folders.
  lemma KeptIsApart(v: View, a: Origin, b: Origin, la: string, lb: string)
    requires Sound(v) && a in OriginsOf(v) && b in OriginsOf(v)
    requires SectionFor(v, a).Emptied() && !SectionFor(v, b).Emptied()
    requires v.resolve(RawOf(v, a)) == Some(la) && v.resolve(RawOf(v, b)) == Some(lb)
    ensures la != lb
    ensures Overlap(v.world.places, la, lb) ==> OwnFolder(v, a, b) || (a.LeftBy? && b.LeftBy?)
  {
    var p := v.world.places;
    OverlapsItself(p, la);
    OverlapBothWays(p, la, lb);
    if b.LeftBy? {
      if !a.LeftBy? {
        RowIsLive(v, a, la);
        assert a.target in v.targets && (a.DirectOf? ==> a.repo in v.named);
        MeetsNoOther(v, b, lb, LiveRepo(RowId(a), la, a.DirectOf?));
      }
    } else {
      OwnRowsOnly(v, a, b);
      RowIsLive(v, b, lb);
      if !OwnFolder(v, a, b) {
        MeetsNoOther(v, a, la, LiveRepo(RowId(b), lb, b.DirectOf?));
      }
    }
  }
}
