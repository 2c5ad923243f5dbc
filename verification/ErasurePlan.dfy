// What deleting the backups at a storage location takes away
// (destination_erase.go): the sections it empties, what other places hold of
// their entries, and which entries would lose their only backup.
module ErasurePlan {
  import opened Wrappers
  import opened Ordering
  import opened StoragePlaces

  // domains are the domains the snapshot's identity tags belong to.
  datatype Snapshot = Snapshot(id: string, original: string, domains: set<string>)

  // What a copy keeps of the backup it was made from.
  function Identity(sn: Snapshot): string {
    if sn.original != "" then sn.original else sn.id
  }

  // The backups that were written for the domain.
  function OfSection(snaps: seq<Snapshot>, domain: string): (r: seq<Snapshot>)
    ensures forall sn :: sn in r <==> sn in snaps && domain in sn.domains
  {
    if snaps == [] then []
    else
      var last := snaps[|snaps| - 1];
      assert forall sn :: sn in snaps <==> sn in snaps[..|snaps| - 1] || sn == last;
      OfSection(snaps[..|snaps| - 1], domain) + if domain in last.domains then [last] else []
  }

  // A repository or target of a domain that may hold further copies. A
  // location that does not resolve and one that cannot be listed have none.
  datatype Candidate = Candidate(loc: Option<string>, destination: string, listing: Option<seq<Snapshot>>)

  // What a plan reads. name says which entry a backup of a domain's listing
  // belongs to.
  datatype World = World(
    places: Places, homes: string -> seq<Candidate>, targets: string -> seq<Candidate>,
    name: (string, seq<Snapshot>, Snapshot) -> string)

  // A candidate at the destination itself, at an emptied place or at one
  // nobody can tell apart from an emptied place counts as holding nothing.
  predicate Counts(w: World, dest: string, emptied: seq<string>, c: Candidate) {
    && !(dest != "" && c.destination == dest)
    && c.loc.Some? && ApartFromAll(w.places, c.loc.value, emptied)
    && c.listing.Some?
  }

  function EntriesAt(w: World, domain: string, snaps: seq<Snapshot>): (r: set<string>)
    ensures forall e :: e in r <==> exists i :: 0 <= i < |snaps| && w.name(domain, snaps, snaps[i]) == e
  {
    set i | 0 <= i < |snaps| :: w.name(domain, snaps, snaps[i])
  }

  function BackupsAt(snaps: seq<Snapshot>): (r: set<string>)
    ensures forall b :: b in r <==> exists i :: 0 <= i < |snaps| && Identity(snaps[i]) == b
  {
    set i | 0 <= i < |snaps| :: Identity(snaps[i])
  }

  datatype Held = Held(entries: set<string>, backups: set<string>) {
    function Plus(h: Held): Held { Held(entries + h.entries, backups + h.backups) }
  }

  function HeldAt(w: World, domain: string, c: Candidate): Held
    requires c.listing.Some?
  {
    var snaps := OfSection(c.listing.value, domain);
    Held(EntriesAt(w, domain, snaps), BackupsAt(snaps))
  }

  function HeldBy(w: World, domain: string, dest: string, emptied: seq<string>, cs: seq<Candidate>): Held {
    if cs == [] then Held({}, {})
    else
      var n := |cs| - 1;
      var rest := HeldBy(w, domain, dest, emptied, cs[..n]);
      if Counts(w, dest, emptied, cs[n]) then rest.Plus(HeldAt(w, domain, cs[n])) else rest
  }

  predicate HoldsEntry(w: World, domain: string, dest: string, emptied: seq<string>, c: Candidate, e: string) {
    Counts(w, dest, emptied, c) && e in EntriesAt(w, domain, OfSection(c.listing.value, domain))
  }

  predicate HoldsBackup(w: World, domain: string, dest: string, emptied: seq<string>, c: Candidate, b: string) {
    Counts(w, dest, emptied, c) && b in BackupsAt(OfSection(c.listing.value, domain))
  }

  // What the places outside hold of a domain: its own repositories, wherever
  // they belong, and its targets at other destinations.
  function Outside(w: World, domain: string, dest: string, emptied: seq<string>): Held {
    HeldBy(w, domain, "", emptied, w.homes(domain)).Plus(HeldBy(w, domain, dest, emptied, w.targets(domain)))
  }

  method HeldAtHomes(w: World, domain: string, emptied: seq<string>) returns (held: Held)
    ensures held == HeldBy(w, domain, "", emptied, w.homes(domain))
  {
    held := Held({}, {});
    var homes := w.homes(domain);
    for i := 0 to |homes|
      invariant held == HeldBy(w, domain, "", emptied, homes[..i])
    {
      assert homes[..i + 1][..i] == homes[..i];
      var home := homes[i];
      if home.loc.None? { continue; }
      var apart := Elsewhere(w.places, home.loc.value, emptied);
      if !apart || home.listing.None? { continue; }
      held := held.Plus(HeldAt(w, domain, home));
    }
    assert homes[..|homes|] == homes;
  }

  method HeldAtTargets(w: World, domain: string, dest: string, emptied: seq<string>) returns (held: Held)
    ensures held == HeldBy(w, domain, dest, emptied, w.targets(domain))
  {
    held := Held({}, {});
    var targets := w.targets(domain);
    for i := 0 to |targets|
      invariant held == HeldBy(w, domain, dest, emptied, targets[..i])
    {
      assert targets[..i + 1][..i] == targets[..i];
      var t := targets[i];
      if dest != "" && t.destination == dest { continue; }
      if t.loc.None? { continue; }
      var apart := Elsewhere(w.places, t.loc.value, emptied);
      if !apart || t.listing.None? { continue; }
      held := held.Plus(HeldAt(w, domain, t));
    }
    assert targets[..|targets|] == targets;
  }

  method HeldOutside(w: World, domain: string, dest: string, emptied: seq<string>) returns (held: Held)
    ensures held == Outside(w, domain, dest, emptied)
  {
    var homes := HeldAtHomes(w, domain, emptied);
    var targets := HeldAtTargets(w, domain, dest, emptied);
    held := homes.Plus(targets);
  }

  lemma {:induction false} HeldByMeans(w: World, domain: string, dest: string, emptied: seq<string>,
      cs: seq<Candidate>, e: string)
    ensures e in HeldBy(w, domain, dest, emptied, cs).entries <==>
      exists i :: 0 <= i < |cs| && HoldsEntry(w, domain, dest, emptied, cs[i], e)
    ensures e in HeldBy(w, domain, dest, emptied, cs).backups <==>
      exists i :: 0 <= i < |cs| && HoldsBackup(w, domain, dest, emptied, cs[i], e)
  {
    hide Counts, EntriesAt, BackupsAt, OfSection;
    if cs != [] {
      var n := |cs| - 1;
      HeldByMeans(w, domain, dest, emptied, cs[..n], e);
      assert forall i :: 0 <= i < n ==> cs[..n][i] == cs[i];
    }
  }

  // An entry counts as held outside exactly when a repository or target of the
  // domain that counts lists a backup of it.
  lemma OutsideMeans(w: World, domain: string, dest: string, emptied: seq<string>, e: string)
    ensures e in Outside(w, domain, dest, emptied).entries <==>
      || (exists i :: 0 <= i < |w.homes(domain)| && HoldsEntry(w, domain, "", emptied, w.homes(domain)[i], e))
      || (exists i :: 0 <= i < |w.targets(domain)| && HoldsEntry(w, domain, dest, emptied, w.targets(domain)[i], e))
  {
    HeldByMeans(w, domain, "", emptied, w.homes(domain), e);
    HeldByMeans(w, domain, dest, emptied, w.targets(domain), e);
  }

  // ---- the plan ---------------------------------------------------------------

  const UNREADABLE := "unreadable"

  // One repository at the location. kept is why it stays, empty for one that
  // is emptied.
  datatype Section = Section(domain: string, loc: string, kept: string, snaps: seq<Snapshot>) {
    predicate Emptied() { kept == "" }
  }

  // A section as it is listed: the backups of its own domain, at a location
  // that resolves. One that cannot be listed is kept.
  function SectionAt(listing: string -> Option<seq<Snapshot>>, domain: string, loc: Option<string>,
      kept: string): (s: Section)
    ensures s.domain == domain && (loc.Some? ==> s.loc == loc.value)
    ensures s.Emptied() <==> kept == "" && loc.Some? && listing(loc.value).Some?
    ensures kept != "" ==> s.kept == kept
    ensures if loc.Some? && listing(loc.value).Some?
      then forall sn :: sn in s.snaps <==> sn in listing(loc.value).value && domain in sn.domains
      else s.snaps == []
  {
    if loc.Some? && listing(loc.value).Some? then
      Section(domain, loc.value, kept, OfSection(listing(loc.value).value, domain))
    else Section(domain, if loc.Some? then loc.value else "", if kept == "" then UNREADABLE else kept, [])
  }

  // Lists the repository and appends it.
  method AddSection(sections: seq<Section>, listing: string -> Option<seq<Snapshot>>, domain: string,
      loc: Option<string>, kept: string)
    returns (r: seq<Section>)
    ensures r == sections + [SectionAt(listing, domain, loc, kept)]
  {
    var section := Section(domain, "", kept, []);
    var failed := true;
    if loc.Some? {
      section := section.(loc := loc.value);
      if listing(loc.value).Some? {
        section := section.(snaps := OfSection(listing(loc.value).value, domain));
        failed := false;
      }
    }
    if failed && section.kept == "" {
      section := section.(kept := UNREADABLE);
    }
    r := sections + [section];
  }

  function EmptiedLocs(sections: seq<Section>): (r: seq<string>)
    ensures forall i :: 0 <= i < |sections| && sections[i].Emptied() ==> sections[i].loc in r
  {
    if sections == [] then []
    else
      var n := |sections| - 1;
      assert forall i :: 0 <= i < n ==> sections[..n][i] == sections[i];
      EmptiedLocs(sections[..n]) + if sections[n].Emptied() then [sections[n].loc] else []
  }

  lemma {:induction false} EmptiedLocsAre(sections: seq<Section>)
    ensures forall loc :: loc in EmptiedLocs(sections) <==>
      exists i :: 0 <= i < |sections| && sections[i].Emptied() && sections[i].loc == loc
  {
    if sections != [] {
      var n := |sections| - 1;
      EmptiedLocsAre(sections[..n]);
      assert forall i :: 0 <= i < n ==> sections[..n][i] == sections[i];
    }
  }

  // How many of the first n backups of a section belong to an entry nothing
  // else holds.
  function LastIn(w: World, held: set<string>, s: Section, n: nat, e: string): nat
    requires n <= |s.snaps|
  {
    if n == 0 then 0
    else LastIn(w, held, s, n - 1, e) + if w.name(s.domain, s.snaps, s.snaps[n - 1]) == e && e !in held then 1 else 0
  }

  function OnlyThereIn(held: set<string>, s: Section, n: nat): nat
    requires n <= |s.snaps|
  {
    if n == 0 then 0
    else OnlyThereIn(held, s, n - 1) + if Identity(s.snaps[n - 1]) in held then 0 else 1
  }

  // The totals over the first n sections, outside giving what other places
  // hold of a domain.
  function LastOf(w: World, outside: string -> Held, sections: seq<Section>, n: nat, e: string): nat
    requires n <= |sections|
  {
    if n == 0 then 0
    else
      var s := sections[n - 1];
      LastOf(w, outside, sections, n - 1, e)
      + if s.Emptied() then LastIn(w, outside(s.domain).entries, s, |s.snaps|, e) else 0
  }

  function OnlyThere(outside: string -> Held, sections: seq<Section>, n: nat): nat
    requires n <= |sections|
  {
    if n == 0 then 0
    else
      var s := sections[n - 1];
      OnlyThere(outside, sections, n - 1)
      + if s.Emptied() then OnlyThereIn(outside(s.domain).backups, s, |s.snaps|) else 0
  }

  function BackupsOf(sections: seq<Section>, n: nat): nat
    requires n <= |sections|
  {
    if n == 0 then 0 else BackupsOf(sections, n - 1) + if sections[n - 1].Emptied() then |sections[n - 1].snaps| else 0
  }

  function EntriesOf(w: World, sections: seq<Section>, n: nat): set<string>
    requires n <= |sections|
  {
    if n == 0 then {}
    else
      var s := sections[n - 1];
      EntriesOf(w, sections, n - 1) + if s.Emptied() then EntriesAt(w, s.domain, s.snaps) else {}
  }

  // The domain of the first emptied section among the first n that has a
  // backup of the entry nothing else holds.
  function FirstDomain(w: World, outside: string -> Held, sections: seq<Section>, n: nat, e: string): string
    requires n <= |sections|
  {
    if n == 0 then ""
    else if LastOf(w, outside, sections, n - 1, e) > 0 then FirstDomain(w, outside, sections, n - 1, e)
    else sections[n - 1].domain
  }

  datatype LastCopy = LastCopy(identity: string, domain: string, backups: nat)

  datatype Totals = Totals(backups: nat, entries: nat, onlyThere: nat, last: seq<LastCopy>)

  function OutsideOf(w: World, dest: string, sections: seq<Section>): string -> Held {
    domain => Outside(w, domain, dest, EmptiedLocs(sections))
  }

  // last lists exactly the entries left without a backup, in order, each with
  // the domain it was first met in and how many backups it loses.
  ghost predicate ListsLast(w: World, outside: string -> Held, sections: seq<Section>, last: seq<LastCopy>) {
    && (forall i, j :: 0 <= i < j < |last| ==> Less(last[i].identity, last[j].identity))
    && (forall i :: 0 <= i < |last| ==> IsLast(w, outside, sections, |sections|, last[i].identity, last[i]))
    && (forall e :: LastOf(w, outside, sections, |sections|, e) > 0 ==>
         exists i :: 0 <= i < |last| && last[i].identity == e)
  }

  ghost predicate IsLast(w: World, outside: string -> Held, sections: seq<Section>, n: nat, e: string, c: LastCopy)
    requires n <= |sections|
  {
    c == LastCopy(e, FirstDomain(w, outside, sections, n, e), LastOf(w, outside, sections, n, e)) && c.backups > 0
  }

  // The map behind it holds exactly the entries counted above zero.
  ghost predicate Tallied(w: World, outside: string -> Held, sections: seq<Section>, i: nat,
      last: map<string, LastCopy>)
    requires i <= |sections|
  {
    forall e ::
      (e in last <==> LastOf(w, outside, sections, i, e) > 0)
      && (e in last ==> IsLast(w, outside, sections, i, e, last[e]))
  }

  // One entry's count grows by some; a new one is listed with the domain.
  ghost predicate Grown(before: map<string, LastCopy>, last: map<string, LastCopy>, e: string, more: nat,
      domain: string) {
    if more == 0 then (e in last <==> e in before) && (e in last ==> last[e] == before[e])
    else e in last && last[e] == if e in before then before[e].(backups := before[e].backups + more)
      else LastCopy(e, domain, more)
  }

  ghost predicate GrownBy(w: World, held: set<string>, s: Section, k: nat, before: map<string, LastCopy>,
      last: map<string, LastCopy>)
    requires k <= |s.snaps|
  {
    forall e :: Grown(before, last, e, LastIn(w, held, s, k, e), s.domain)
  }

  lemma NoneGrown(w: World, held: set<string>, s: Section, last: map<string, LastCopy>)
    ensures GrownBy(w, held, s, 0, last, last)
  {
  }

  lemma GrownOneMore(w: World, held: set<string>, s: Section, k: nat, before: map<string, LastCopy>,
      was: map<string, LastCopy>)
    requires k < |s.snaps| && GrownBy(w, held, s, k, before, was)
    ensures
      var entry := w.name(s.domain, s.snaps, s.snaps[k]);
      GrownBy(w, held, s, k + 1, before, if entry in held then was else AddOne(was, entry, s.domain))
  {
    var entry, m := w.name(s.domain, s.snaps, s.snaps[k]), k + 1;
    var last := if entry in held then was else AddOne(was, entry, s.domain);
    forall e ensures Grown(before, last, e, LastIn(w, held, s, m, e), s.domain) {
      assert Grown(before, was, e, LastIn(w, held, s, k, e), s.domain);
      assert LastIn(w, held, s, m, e) == LastIn(w, held, s, k, e) + if entry == e && e !in held then 1 else 0;
    }
  }

  method CountSection(w: World, held: Held, s: Section, before: map<string, LastCopy>)
    returns (last: map<string, LastCopy>, onlyThere: nat, entries: set<string>)
    ensures GrownBy(w, held.entries, s, |s.snaps|, before, last)
    ensures onlyThere == OnlyThereIn(held.backups, s, |s.snaps|)
    ensures entries == EntriesAt(w, s.domain, s.snaps)
  {
    hide GrownBy, AddOne;
    last, onlyThere, entries := before, 0, {};
    NoneGrown(w, held.entries, s, before);
    for k := 0 to |s.snaps|
      invariant GrownBy(w, held.entries, s, k, before, last)
      invariant onlyThere == OnlyThereIn(held.backups, s, k)
      invariant entries == set j | 0 <= j < k :: w.name(s.domain, s.snaps, s.snaps[j])
    {
      var sn := s.snaps[k];
      var entry := w.name(s.domain, s.snaps, sn);
      entries := entries + {entry};
      if Identity(sn) !in held.backups {
        onlyThere := onlyThere + 1;
      }
      GrownOneMore(w, held.entries, s, k, before, last);
      if entry !in held.entries {
        last := AddOne(last, entry, s.domain);
      }
    }
  }

  function AddOne(last: map<string, LastCopy>, e: string, domain: string): (r: map<string, LastCopy>)
    ensures r.Keys == last.Keys + {e} && forall k :: k in last && k != e ==> r[k] == last[k]
    ensures r[e] == if e in last then last[e].(backups := last[e].backups + 1) else LastCopy(e, domain, 1)
  {
    last[e := if e in last then last[e].(backups := last[e].backups + 1) else LastCopy(e, domain, 1)]
  }

  lemma TalliedOneMore(w: World, outside: string -> Held, sections: seq<Section>, i: nat,
      before: map<string, LastCopy>, last: map<string, LastCopy>)
    requires i < |sections| && sections[i].Emptied() && Tallied(w, outside, sections, i, before)
    requires GrownBy(w, outside(sections[i].domain).entries, sections[i], |sections[i].snaps|, before, last)
    ensures Tallied(w, outside, sections, i + 1, last)
  {
    hide LastIn;
    var s := sections[i];
    forall e ensures
      && (e in last <==> LastOf(w, outside, sections, i + 1, e) > 0)
      && (e in last ==> IsLast(w, outside, sections, i + 1, e, last[e]))
    {
      assert Grown(before, last, e, LastIn(w, outside(s.domain).entries, s, |s.snaps|, e), s.domain);
      assert e in before <==> LastOf(w, outside, sections, i, e) > 0;
    }
  }

  lemma TalliedSame(w: World, outside: string -> Held, sections: seq<Section>, i: nat, last: map<string, LastCopy>)
    requires i < |sections| && !sections[i].Emptied() && Tallied(w, outside, sections, i, last)
    ensures Tallied(w, outside, sections, i + 1, last)
  {
    forall e ensures
      && (e in last <==> LastOf(w, outside, sections, i + 1, e) > 0)
      && (e in last ==> IsLast(w, outside, sections, i + 1, e, last[e]))
    {
      assert e in last <==> LastOf(w, outside, sections, i, e) > 0;
    }
  }

  // The totals over the sections that are emptied, and the entries nothing
  // else holds a backup of.
  method Count(w: World, dest: string, sections: seq<Section>) returns (t: Totals)
    ensures t.backups == BackupsOf(sections, |sections|)
    ensures t.entries == |EntriesOf(w, sections, |sections|)|
    ensures t.onlyThere == OnlyThere(OutsideOf(w, dest, sections), sections, |sections|)
    ensures ListsLast(w, OutsideOf(w, dest, sections), sections, t.last)
  {
    t := CountSections(w, dest, sections, EmptiedLocs(sections), OutsideOf(w, dest, sections));
  }

  method CountSections(w: World, dest: string, sections: seq<Section>, emptied: seq<string>, ghost of: string -> Held)
      returns (t: Totals)
    requires forall d :: of(d) == Outside(w, d, dest, emptied)
    ensures t.backups == BackupsOf(sections, |sections|)
    ensures t.entries == |EntriesOf(w, sections, |sections|)|
    ensures t.onlyThere == OnlyThere(of, sections, |sections|)
    ensures ListsLast(w, of, sections, t.last)
  {
    // What each domain holds outside is read once.
    var outside: map<string, Held> := map[];
    var last: map<string, LastCopy> := map[];
    var backups, onlyThere := 0, 0;
    var entries: set<string> := {};
    for i := 0 to |sections|
      invariant forall d :: d in outside ==> outside[d] == of(d)
      invariant Tallied(w, of, sections, i, last)
      invariant backups == BackupsOf(sections, i) && onlyThere == OnlyThere(of, sections, i)
      invariant entries == EntriesOf(w, sections, i)
    {
      var s := sections[i];
      if s.kept != "" {
        TalliedSame(w, of, sections, i, last);
        continue;
      }
      if s.domain !in outside {
        var held := HeldOutside(w, s.domain, dest, emptied);
        outside := outside[s.domain := held];
      }
      backups := backups + |s.snaps|;
      var only, these;
      ghost var before := last;
      last, only, these := CountSection(w, outside[s.domain], s, last);
      TalliedOneMore(w, of, sections, i, before, last);
      onlyThere, entries := onlyThere + only, entries + these;
    }
    var list := SortedLast(last);
    t := Totals(backups, |entries|, onlyThere, list);
  }

  // The map as a list sorted by identity.
  method SortedLast(last: map<string, LastCopy>) returns (r: seq<LastCopy>)
    requires forall e :: e in last ==> last[e].identity == e
    ensures forall i, j :: 0 <= i < j < |r| ==> Less(r[i].identity, r[j].identity)
    ensures forall i :: 0 <= i < |r| ==> r[i].identity in last && r[i] == last[r[i].identity]
    ensures forall e :: e in last ==> exists i :: 0 <= i < |r| && r[i].identity == e
  {
    var keys: seq<string> := [];
    var rest := last.Keys;
    while rest != {}
      invariant rest <= last.Keys
      invariant StrictlyAscending(keys)
      invariant forall e :: e in keys <==> e in last.Keys - rest
      decreases |rest|
    {
      var e :| e in rest;
      keys := InsertKey(e, keys);
      rest := rest - {e};
    }
    r := [];
    for i := 0 to |keys|
      invariant |r| == i
      invariant forall j :: 0 <= j < i ==> r[j].identity == keys[j] && keys[j] in last && r[j] == last[keys[j]]
    {
      assert keys[i] in keys;
      r := r + [last[keys[i]]];
    }
    forall e | e in last ensures exists i :: 0 <= i < |r| && r[i].identity == e {
      assert e in keys;
      var i :| 0 <= i < |keys| && keys[i] == e;
      assert r[i].identity == e;
    }
  }

  // An entry with a backup in an emptied section is listed as a last copy
  // unless another place holds it.
  lemma {:induction false} UnheldIsLast(w: World, outside: string -> Held, sections: seq<Section>, n: nat, i: nat,
      k: nat)
    requires i < n <= |sections| && sections[i].Emptied() && k < |sections[i].snaps|
    ensures var e := w.name(sections[i].domain, sections[i].snaps, sections[i].snaps[k]);
      e in outside(sections[i].domain).entries || LastOf(w, outside, sections, n, e) > 0
  {
    var s := sections[i];
    var e := w.name(s.domain, s.snaps, s.snaps[k]);
    if i < n - 1 {
      UnheldIsLast(w, outside, sections, n - 1, i, k);
    } else if e !in outside(s.domain).entries {
      UnheldIsLastIn(w, outside(s.domain).entries, s, |s.snaps|, k);
    }
  }

  lemma {:induction false} UnheldIsLastIn(w: World, held: set<string>, s: Section, n: nat, k: nat)
    requires k < n <= |s.snaps| && w.name(s.domain, s.snaps, s.snaps[k]) !in held
    ensures LastIn(w, held, s, n, w.name(s.domain, s.snaps, s.snaps[k])) > 0
  {
    if k < n - 1 {
      UnheldIsLastIn(w, held, s, n - 1, k);
    }
  }

  // Backup k of an emptied section is of an entry that no place that counts
  // holds.
  predicate Unheld(w: World, outside: string -> Held, s: Section, k: int, e: string) {
    s.Emptied() && 0 <= k < |s.snaps| && w.name(s.domain, s.snaps, s.snaps[k]) == e && e !in outside(s.domain).entries
  }

  // Conversely a listed entry has a backup in an emptied section and none in a
  // place that counts.
  lemma {:induction false} LastIsUnheld(w: World, outside: string -> Held, sections: seq<Section>, n: nat, e: string)
    requires n <= |sections| && LastOf(w, outside, sections, n, e) > 0
    ensures exists i, k :: 0 <= i < n && Unheld(w, outside, sections[i], k, e)
  {
    if LastOf(w, outside, sections, n - 1, e) > 0 {
      LastIsUnheld(w, outside, sections, n - 1, e);
    } else {
      var s := sections[n - 1];
      var k := LastInIsUnheld(w, outside(s.domain).entries, s, |s.snaps|, e);
      assert Unheld(w, outside, s, k, e);
    }
  }

  lemma {:induction false} LastInIsUnheld(w: World, held: set<string>, s: Section, n: nat, e: string) returns (k: nat)
    requires n <= |s.snaps| && LastIn(w, held, s, n, e) > 0
    ensures k < n && w.name(s.domain, s.snaps, s.snaps[k]) == e && e !in held
  {
    if LastIn(w, held, s, n - 1, e) > 0 {
      k := LastInIsUnheld(w, held, s, n - 1, e);
    } else {
      k := n - 1;
    }
  }

  // And it has one in the domain it is listed under.
  lemma {:induction false} LastHasItsDomain(w: World, outside: string -> Held, sections: seq<Section>, n: nat,
      e: string)
    requires n <= |sections| && LastOf(w, outside, sections, n, e) > 0
    ensures exists i, k ::
      0 <= i < n && Unheld(w, outside, sections[i], k, e)
      && sections[i].domain == FirstDomain(w, outside, sections, n, e)
  {
    if LastOf(w, outside, sections, n - 1, e) > 0 {
      LastHasItsDomain(w, outside, sections, n - 1, e);
    } else {
      var s := sections[n - 1];
      var k := LastInIsUnheld(w, outside(s.domain).entries, s, |s.snaps|, e);
      assert Unheld(w, outside, s, k, e);
    }
  }
}
