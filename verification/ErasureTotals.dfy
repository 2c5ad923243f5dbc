// What the figures of a plan count (destination_erase.go): the backups it
// empties, the entries they belong to, the ones no other place holds, and what
// counts as held elsewhere.
module ErasureTotals {
  import opened Wrappers
  import opened Ordering
  import opened StoragePlaces
  import opened ErasurePlan

  // ---- what counts as held elsewhere --------------------------------------

  // A repository or target that is not one of the destination's own, can be
  // told apart from what is emptied, and can be listed.
  predicate CountsElsewhere(w: World, dest: string, emptied: seq<string>, c: Candidate, ofTarget: bool) {
    && c.loc.Some? && ApartFromAll(w.places, c.loc.value, emptied) && c.listing.Some?
    && (ofTarget && dest != "" ==> c.destination != dest)
  }

  // It lists a backup of the domain that belongs to the entry.
  ghost predicate HasEntry(w: World, domain: string, c: Candidate, e: string)
    requires c.listing.Some?
  {
    exists sn :: sn in c.listing.value && domain in sn.domains
      && w.name(domain, OfSection(c.listing.value, domain), sn) == e
  }

  // It lists a backup of the domain that is a copy of b, or b itself.
  ghost predicate HasBackup(domain: string, c: Candidate, b: string)
    requires c.listing.Some?
  {
    exists sn ::
      sn in c.listing.value && domain in sn.domains && b == (if sn.original == "" then sn.id else sn.original)
  }

  lemma EntryIsListed(w: World, domain: string, c: Candidate, e: string)
    requires c.listing.Some?
    ensures e in EntriesAt(w, domain, OfSection(c.listing.value, domain)) <==> HasEntry(w, domain, c, e)
  {
    var snaps := OfSection(c.listing.value, domain);
    if i :| 0 <= i < |snaps| && w.name(domain, snaps, snaps[i]) == e {
      assert snaps[i] in snaps;
    }
    if HasEntry(w, domain, c, e) {
      var sn :| sn in c.listing.value && domain in sn.domains && w.name(domain, snaps, sn) == e;
      var i :| 0 <= i < |snaps| && snaps[i] == sn;
    }
  }

  lemma BackupIsListed(domain: string, c: Candidate, b: string)
    requires c.listing.Some?
    ensures b in BackupsAt(OfSection(c.listing.value, domain)) <==> HasBackup(domain, c, b)
  {
    var snaps := OfSection(c.listing.value, domain);
    if i :| 0 <= i < |snaps| && Identity(snaps[i]) == b {
      assert snaps[i] in snaps;
    }
    if HasBackup(domain, c, b) {
      var sn :| sn in c.listing.value && domain in sn.domains
        && b == (if sn.original == "" then sn.id else sn.original);
      var i :| 0 <= i < |snaps| && snaps[i] == sn;
    }
  }

  ghost predicate EntryElsewhere(w: World, domain: string, dest: string, emptied: seq<string>, e: string) {
    || (exists c :: c in w.homes(domain) && CountsElsewhere(w, dest, emptied, c, false) && HasEntry(w, domain, c, e))
    || (exists c :: c in w.targets(domain) && CountsElsewhere(w, dest, emptied, c, true) && HasEntry(w, domain, c, e))
  }

  ghost predicate BackupElsewhere(w: World, domain: string, dest: string, emptied: seq<string>, b: string) {
    || (exists c :: c in w.homes(domain) && CountsElsewhere(w, dest, emptied, c, false) && HasBackup(domain, c, b))
    || (exists c :: c in w.targets(domain) && CountsElsewhere(w, dest, emptied, c, true) && HasBackup(domain, c, b))
  }

  lemma HeldAmong(w: World, domain: string, dest: string, emptied: seq<string>, cs: seq<Candidate>, e: string)
    ensures e in HeldBy(w, domain, dest, emptied, cs).entries <==>
      exists c :: c in cs && CountsElsewhere(w, dest, emptied, c, true) && HasEntry(w, domain, c, e)
    ensures e in HeldBy(w, domain, dest, emptied, cs).backups <==>
      exists c :: c in cs && CountsElsewhere(w, dest, emptied, c, true) && HasBackup(domain, c, e)
  {
    hide HasEntry, HasBackup, EntriesAt, BackupsAt, ApartFromAll;
    HeldByMeans(w, domain, dest, emptied, cs, e);
    forall c: Candidate | c.listing.Some?
      ensures e in EntriesAt(w, domain, OfSection(c.listing.value, domain)) <==> HasEntry(w, domain, c, e)
      ensures e in BackupsAt(OfSection(c.listing.value, domain)) <==> HasBackup(domain, c, e)
    {
      EntryIsListed(w, domain, c, e);
      BackupIsListed(domain, c, e);
    }
    if c :| c in cs && CountsElsewhere(w, dest, emptied, c, true) && HasEntry(w, domain, c, e) {
      var i :| 0 <= i < |cs| && cs[i] == c;
      assert HoldsEntry(w, domain, dest, emptied, cs[i], e);
    }
    if c :| c in cs && CountsElsewhere(w, dest, emptied, c, true) && HasBackup(domain, c, e) {
      var i :| 0 <= i < |cs| && cs[i] == c;
      assert HoldsBackup(w, domain, dest, emptied, cs[i], e);
    }
  }

  // What the plan takes for held outside, told by the listings alone.
  lemma HeldElsewhereExactly(w: World, domain: string, dest: string, emptied: seq<string>, e: string)
    ensures e in Outside(w, domain, dest, emptied).entries <==> EntryElsewhere(w, domain, dest, emptied, e)
    ensures e in Outside(w, domain, dest, emptied).backups <==> BackupElsewhere(w, domain, dest, emptied, e)
  {
    hide HasEntry, HasBackup, HeldBy, ApartFromAll;
    HeldAmong(w, domain, "", emptied, w.homes(domain), e);
    HeldAmong(w, domain, dest, emptied, w.targets(domain), e);
  }

  // ---- the totals ---------------------------------------------------------

  // Backup k of the i-th section, where that one is emptied.
  type Spot = (nat, nat)

  ghost predicate IsTaken(sections: seq<Section>, x: Spot) {
    x.0 < |sections| && sections[x.0].kept == "" && x.1 < |sections[x.0].snaps|
  }

  ghost function Row(sections: seq<Section>, i: nat, n: nat, which: Spot -> bool): set<Spot>
    requires i < |sections| && n <= |sections[i].snaps|
  {
    set k: nat | k < n && which((i, k)) :: (i, k)
  }

  // The emptied backups of the first n sections with a property.
  ghost function Chosen(sections: seq<Section>, n: nat, which: Spot -> bool): set<Spot>
    requires n <= |sections|
  {
    set i: nat, k: nat |
      i < n && k < |sections[i].snaps| && sections[i].kept == "" && which((i, k)) :: (i, k)
  }

  lemma RowGrows(sections: seq<Section>, i: nat, n: nat, which: Spot -> bool)
    requires i < |sections| && n < |sections[i].snaps|
    ensures |Row(sections, i, n + 1, which)| == |Row(sections, i, n, which)| + if which((i, n)) then 1 else 0
  {
    assert (i, n) !in Row(sections, i, n, which);
    assert Row(sections, i, n + 1, which)
      == Row(sections, i, n, which) + if which((i, n)) then {(i, n)} else {};
  }

  lemma ChosenGrows(sections: seq<Section>, n: nat, which: Spot -> bool)
    requires n < |sections|
    ensures var s := sections[n];
      |Chosen(sections, n + 1, which)| == |Chosen(sections, n, which)|
        + if s.kept == "" then |Row(sections, n, |s.snaps|, which)| else 0
  {
    var before, now := Chosen(sections, n, which), Chosen(sections, n + 1, which);
    if sections[n].kept == "" {
      var row := Row(sections, n, |sections[n].snaps|, which);
      assert before !! row;
      forall x ensures x in now <==> x in before + row {
        assert x == (x.0, x.1);
      }
      assert now == before + row;
    } else {
      assert now == before;
    }
  }

  ghost function Any(): Spot -> bool { (x: Spot) => true }

  // No place outside holds the backup.
  ghost function OnlyHere(outside: string -> Held, sections: seq<Section>): Spot -> bool {
    (x: Spot) => IsTaken(sections, x) && var s := sections[x.0];
      (if s.snaps[x.1].original == "" then s.snaps[x.1].id else s.snaps[x.1].original) !in outside(s.domain).backups
  }

  // It is of the entry, which no place outside holds.
  ghost function LostOf(w: World, outside: string -> Held, sections: seq<Section>, e: string): Spot -> bool {
    (x: Spot) => IsTaken(sections, x) && var s := sections[x.0];
      w.name(s.domain, s.snaps, s.snaps[x.1]) == e && e !in outside(s.domain).entries
  }

  lemma {:induction false} RowOfAll(sections: seq<Section>, i: nat, n: nat)
    requires i < |sections| && n <= |sections[i].snaps|
    ensures |Row(sections, i, n, Any())| == n
  {
    if n > 0 {
      RowOfAll(sections, i, n - 1);
      RowGrows(sections, i, n - 1, Any());
    } else {
      assert Row(sections, i, 0, Any()) == {};
    }
  }

  lemma {:induction false} BackupsCount(sections: seq<Section>, n: nat)
    requires n <= |sections|
    ensures BackupsOf(sections, n) == |Chosen(sections, n, Any())|
  {
    if n > 0 {
      BackupsCount(sections, n - 1);
      ChosenGrows(sections, n - 1, Any());
      RowOfAll(sections, n - 1, |sections[n - 1].snaps|);
    } else {
      assert Chosen(sections, 0, Any()) == {};
    }
  }

  lemma {:induction false} OnlyThereInCounts(outside: string -> Held, sections: seq<Section>, i: nat, n: nat)
    requires i < |sections| && n <= |sections[i].snaps| && sections[i].kept == ""
    ensures OnlyThereIn(outside(sections[i].domain).backups, sections[i], n)
      == |Row(sections, i, n, OnlyHere(outside, sections))|
  {
    if n > 0 {
      OnlyThereInCounts(outside, sections, i, n - 1);
      RowGrows(sections, i, n - 1, OnlyHere(outside, sections));
    } else {
      assert Row(sections, i, 0, OnlyHere(outside, sections)) == {};
    }
  }

  lemma {:induction false} OnlyThereCounts(outside: string -> Held, sections: seq<Section>, n: nat)
    requires n <= |sections|
    ensures OnlyThere(outside, sections, n) == |Chosen(sections, n, OnlyHere(outside, sections))|
  {
    if n > 0 {
      OnlyThereCounts(outside, sections, n - 1);
      ChosenGrows(sections, n - 1, OnlyHere(outside, sections));
      if sections[n - 1].kept == "" {
        OnlyThereInCounts(outside, sections, n - 1, |sections[n - 1].snaps|);
      }
    } else {
      assert Chosen(sections, 0, OnlyHere(outside, sections)) == {};
    }
  }

  lemma {:induction false} LastInCounts(w: World, outside: string -> Held, sections: seq<Section>, i: nat, n: nat,
      e: string)
    requires i < |sections| && n <= |sections[i].snaps| && sections[i].kept == ""
    ensures LastIn(w, outside(sections[i].domain).entries, sections[i], n, e)
      == |Row(sections, i, n, LostOf(w, outside, sections, e))|
  {
    if n > 0 {
      LastInCounts(w, outside, sections, i, n - 1, e);
      RowGrows(sections, i, n - 1, LostOf(w, outside, sections, e));
    } else {
      assert Row(sections, i, 0, LostOf(w, outside, sections, e)) == {};
    }
  }

  lemma {:induction false} LastCounts(w: World, outside: string -> Held, sections: seq<Section>, n: nat, e: string)
    requires n <= |sections|
    ensures LastOf(w, outside, sections, n, e) == |Chosen(sections, n, LostOf(w, outside, sections, e))|
  {
    if n > 0 {
      LastCounts(w, outside, sections, n - 1, e);
      ChosenGrows(sections, n - 1, LostOf(w, outside, sections, e));
      if sections[n - 1].kept == "" {
        LastInCounts(w, outside, sections, n - 1, |sections[n - 1].snaps|, e);
      }
    } else {
      assert Chosen(sections, 0, LostOf(w, outside, sections, e)) == {};
    }
  }

  lemma {:induction false} EntriesAre(w: World, sections: seq<Section>, n: nat, e: string)
    requires n <= |sections|
    ensures e in EntriesOf(w, sections, n) <==>
      exists i: nat, k: nat ::
        i < n && IsTaken(sections, (i, k)) && w.name(sections[i].domain, sections[i].snaps, sections[i].snaps[k]) == e
  {
    if n > 0 {
      EntriesAre(w, sections, n - 1, e);
      var s := sections[n - 1];
      if s.Emptied() && e in EntriesAt(w, s.domain, s.snaps) {
        var k :| 0 <= k < |s.snaps| && w.name(s.domain, s.snaps, s.snaps[k]) == e;
        assert IsTaken(sections, (n - 1, k));
      }
    }
  }

  // The figures of a plan, counted over the backups its emptied sections list:
  // how many there are, of which entries, how many of them no place outside
  // holds, and of each entry that is listed as a last copy how many.
  lemma TotalsMean(w: World, outside: string -> Held, sections: seq<Section>, t: Totals)
    requires t.backups == BackupsOf(sections, |sections|)
    requires t.entries == |EntriesOf(w, sections, |sections|)|
    requires t.onlyThere == OnlyThere(outside, sections, |sections|) && ListsLast(w, outside, sections, t.last)
    ensures t.backups == |Chosen(sections, |sections|, Any())|
    ensures t.onlyThere == |Chosen(sections, |sections|, OnlyHere(outside, sections))|
    ensures forall j :: 0 <= j < |t.last| ==>
      t.last[j].backups == |Chosen(sections, |sections|, LostOf(w, outside, sections, t.last[j].identity))| > 0
    ensures forall i, j :: 0 <= i < j < |t.last| ==> Less(t.last[i].identity, t.last[j].identity)
    ensures forall e, x: Spot :: LostOf(w, outside, sections, e)(x) ==>
      exists j :: 0 <= j < |t.last| && t.last[j].identity == e
  {
    BackupsCount(sections, |sections|);
    OnlyThereCounts(outside, sections, |sections|);
    forall e ensures LastOf(w, outside, sections, |sections|, e)
      == |Chosen(sections, |sections|, LostOf(w, outside, sections, e))|
    {
      LastCounts(w, outside, sections, |sections|, e);
    }
    forall e, x: Spot | LostOf(w, outside, sections, e)(x)
      ensures exists j :: 0 <= j < |t.last| && t.last[j].identity == e
    {
      var i, k := x.0, x.1;
      assert x == (i, k) && IsTaken(sections, x) && LostOf(w, outside, sections, e)((i, k));
      assert x in Chosen(sections, |sections|, LostOf(w, outside, sections, e));
    }
  }
}
