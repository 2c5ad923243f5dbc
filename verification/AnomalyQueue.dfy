// The series one pass judges, told by what was marked, which runs finished and
// what the lists say (anomaly_engine.go): what is in the queue and that nothing
// in it goes missing.
module AnomalyQueue {
  import opened Wrappers
  import opened Ordering
  import opened AnomalyEngine
  import Locks = ScopeLocks

  // A finished run of this kind and target is among the taken ones.
  ghost predicate RunFinishedAs(d: Dirty, a: Answers, kind: string, id: string) {
    a.targets.Some? && exists r :: r in d.runs && r in a.targets.value && a.targets.value[r] == RunTarget(id, kind)
  }

  // The item's own series is to be judged: it was marked, a backup of it ran,
  // or everything is.
  ghost predicate ItemDue(d: Dirty, a: Answers, id: string)
    requires Judges(a)
  {
    || Locks.Scope("item", id) in d.scopes
    || (id in a.items.value && (d.full || RunFinishedAs(d, a, "backup", id)))
  }

  // So is its dump series; only a container has one.
  ghost predicate DumpDue(d: Dirty, a: Answers, id: string)
    requires Judges(a)
  {
    || Locks.Scope("dump", id) in d.scopes
    || (id in a.items.value && d.full && a.items.value[id].domain == "container")
    || (id in a.items.value && RunFinishedAs(d, a, "dbdump", id))
  }

  ghost predicate VolumeDue(d: Dirty, a: Answers, volume: string) {
    || Locks.Scope("volume", volume) in d.scopes
    || ((d.volumes || d.full) && a.listings.readings.Some?
        && (volume in a.listings.readings.value
            || (a.listings.openVolumes.Some? && volume in a.listings.openVolumes.value)))
  }

  // A dataset follows the tree it belongs to.
  ghost predicate DatasetDue(d: Dirty, a: Answers, ds: string)
    requires Judges(a)
  {
    || Locks.Scope("zfsds", ds) in d.scopes
    || (a.listings.owners.Some? && ds in a.listings.owners.value
        && var tree := a.listings.owners.value[ds];
           tree in a.items.value && a.items.value[tree].domain == "zfs" && ItemDue(d, a, tree))
  }

  // The restore checks of a domain are to be judged: it was marked, a restore
  // check or an off-site test restore of it ran, or everything is.
  ghost predicate ChecksDue(d: Dirty, a: Answers, domain: string) {
    || domain in d.domains
    || (d.full && a.listings.first.Some? && exists k :: k in a.listings.first.value && k.domain == domain)
    || ((domain == "flash" || domain == "config" || domain == "containers" || domain == "vms" || domain == "files"
         || domain == "zfs")
        && (RunFinishedAs(d, a, "drill", domain) || RunFinishedAs(d, a, "drdrill", domain)))
  }

  // The restore checks the pass knows of; a list read once is not read again.
  function ChecksListed(d: Dirty, a: Answers): Option<set<DrillKey>> {
    if d.full && a.listings.first.Some? then a.listings.first else a.listings.second
  }

  function CheckID(k: DrillKey): string {
    if k.target == "" then k.domain + ":" + k.source else k.domain + ":offsite:" + k.target
  }

  // The series goes into the queue.
  ghost predicate Due(d: Dirty, a: Answers, sc: Scope)
    requires Judges(a)
  {
    || sc in d.scopes
    || (sc.kind == "item" && ItemDue(d, a, sc.id))
    || (sc.kind == "dump" && DumpDue(d, a, sc.id))
    || (sc.kind == "volume" && VolumeDue(d, a, sc.id))
    || (sc.kind == "zfsds" && DatasetDue(d, a, sc.id))
    || (sc.kind == "domain" && ChecksListed(d, a).Some?
        && exists k :: k in ChecksListed(d, a).value && CheckID(k) == sc.id && ChecksDue(d, a, k.domain))
  }

  lemma ItemsAre(d: Dirty, a: Answers, volumes: set<Scope>, id: string)
    requires Judges(a) && forall sc :: sc in volumes ==> sc.kind == "volume"
    ensures Wanted(d, a.items.value, a.targets, volumes, Locks.Scope("item", id)) <==> ItemDue(d, a, id)
  {
    var sc := Locks.Scope("item", id);
    if a.targets.Some? && FromRun(d.runs, a.items.value, a.targets.value, sc) {
      var r :| r in d.runs && r in a.targets.value && ScopeOfRun(a.items.value, a.targets.value[r]) == Some(sc);
      assert a.targets.value[r] == RunTarget(id, "backup");
    }
  }

  lemma DumpsAre(d: Dirty, a: Answers, volumes: set<Scope>, id: string)
    requires Judges(a) && forall sc :: sc in volumes ==> sc.kind == "volume"
    ensures Wanted(d, a.items.value, a.targets, volumes, Locks.Scope("dump", id)) <==> DumpDue(d, a, id)
  {
    var sc := Locks.Scope("dump", id);
    if a.targets.Some? && FromRun(d.runs, a.items.value, a.targets.value, sc) {
      var r :| r in d.runs && r in a.targets.value && ScopeOfRun(a.items.value, a.targets.value[r]) == Some(sc);
      assert a.targets.value[r] == RunTarget(id, "dbdump");
    }
  }

  lemma OthersAreMarked(d: Dirty, a: Answers, more: set<Scope>, sc: Scope)
    requires Judges(a) && sc.kind != "item" && sc.kind != "dump"
    ensures Wanted(d, a.items.value, a.targets, more, sc) <==> sc in d.scopes || sc in more
  {
  }

  lemma VolumesAre(d: Dirty, a: Answers, volume: string)
    ensures Locks.Scope("volume", volume) in d.scopes || Locks.Scope("volume", volume) in VolumesOf(d, a.listings)
      <==> VolumeDue(d, a, volume)
  {
    if Locks.Scope("volume", volume) in VolumesOf(d, a.listings) {
      var v :| VolumeScope(v) == Locks.Scope("volume", volume) && a.listings.readings.Some?
        && v in a.listings.readings.value
             + (if a.listings.openVolumes.Some? then a.listings.openVolumes.value else {});
    } else if a.listings.readings.Some? {
      assert VolumeScope(volume) == Locks.Scope("volume", volume);
    }
  }

  lemma VolumesOnly(d: Dirty, l: Listings)
    ensures forall sc :: sc in VolumesOf(d, l) ==> sc.kind == "volume"
  {
  }

  lemma DatasetsAre(d: Dirty, a: Answers, ds: string)
    requires Judges(a)
    ensures Locks.Scope("zfsds", ds) in d.scopes
        || Locks.Scope("zfsds", ds) in DatasetsWanted(d, a.items.value, a.targets, a.listings)
      <==> DatasetDue(d, a, ds)
  {
    hide Wanted, ItemDue, VolumesOf;
    VolumesOnly(d, a.listings);
    forall id ensures Wanted(d, a.items.value, a.targets, VolumesOf(d, a.listings), Locks.Scope("item", id))
      <==> ItemDue(d, a, id)
    {
      ItemsAre(d, a, VolumesOf(d, a.listings), id);
    }
  }

  lemma DatasetsOnly(d: Dirty, a: Answers)
    requires Judges(a)
    ensures forall sc :: sc in DatasetsWanted(d, a.items.value, a.targets, a.listings) ==> sc.kind == "zfsds"
  {
    hide Wanted;
  }

  lemma DomainsAre(d: Dirty, a: Answers, domain: string)
    ensures domain in DomainsToJudge(d, a.targets, a.listings) <==> ChecksDue(d, a, domain)
  {
    if a.targets.Some? && domain in DrillDomains(d.runs, a.targets.value) {
      var r :| r in d.runs && r in a.targets.value && IsDrill(a.targets.value[r]) && a.targets.value[r].id == domain;
      assert a.targets.value[r] == RunTarget(domain, "drill") || a.targets.value[r] == RunTarget(domain, "drdrill");
    }
    if d.full && a.listings.first.Some? && domain in KeyDomains(a.listings.first.value) {
      var k :| k in a.listings.first.value && k.domain == domain;
    }
  }

  lemma ChecksAre(d: Dirty, a: Answers, sc: Scope)
    ensures sc in DrillsOf(DomainsToJudge(d, a.targets, a.listings), KeysRead(d, a.listings)) <==>
      sc.kind == "domain" && ChecksListed(d, a).Some?
      && exists k :: k in ChecksListed(d, a).value && CheckID(k) == sc.id && ChecksDue(d, a, k.domain)
  {
    hide DomainsToJudge, ChecksDue;
    forall domain ensures domain in DomainsToJudge(d, a.targets, a.listings) <==> ChecksDue(d, a, domain) {
      DomainsAre(d, a, domain);
    }
    if ChecksListed(d, a).Some? {
      forall k | k in ChecksListed(d, a).value ensures DrillScope(k) == Locks.Scope("domain", CheckID(k)) {}
      var drills := DrillsOf(DomainsToJudge(d, a.targets, a.listings), KeysRead(d, a.listings));
      if sc in drills {
        var k :| k in ChecksListed(d, a).value && k.domain in DomainsToJudge(d, a.targets, a.listings)
          && DrillScope(k) == sc;
        assert CheckID(k) == sc.id && ChecksDue(d, a, k.domain);
      }
      if sc.kind == "domain" && exists k ::
        k in ChecksListed(d, a).value && CheckID(k) == sc.id && ChecksDue(d, a, k.domain)
      {
        var k :| k in ChecksListed(d, a).value && CheckID(k) == sc.id && ChecksDue(d, a, k.domain);
        assert DrillScope(k) == sc;
      }
    }
  }

  // The queue of a pass holds exactly the series that are due.
  lemma QueueIsDue(d: Dirty, a: Answers, queue: seq<Scope>, sc: Scope)
    requires Judges(a) && Queued(d, a, queue)
    ensures sc in queue <==> Due(d, a, sc)
  {
    hide VolumesOf, DatasetsWanted, DrillsOf, DomainsToJudge, KeysRead, ItemDue, DumpDue, VolumeDue, DatasetDue,
      ChecksDue, ChecksListed, CheckID;
    VolumesOnly(d, a.listings);
    DatasetsOnly(d, a);
    ChecksAre(d, a, sc);
    WantedParts(d, a, sc);
    if sc.kind == "item" {
      ItemsAre(d, a, VolumesOf(d, a.listings), sc.id);
    } else if sc.kind == "dump" {
      DumpsAre(d, a, VolumesOf(d, a.listings), sc.id);
    } else if sc.kind == "volume" {
      VolumesAre(d, a, sc.id);
    } else if sc.kind == "zfsds" {
      DatasetsAre(d, a, sc.id);
    }
  }

  // What the queue takes from the volumes alone and what the rest adds.
  lemma WantedParts(d: Dirty, a: Answers, sc: Scope)
    requires Judges(a)
    ensures Wanted(d, a.items.value, a.targets, More(d, a.items.value, a.targets, a.listings), sc) <==>
      || Wanted(d, a.items.value, a.targets, VolumesOf(d, a.listings), sc)
      || sc in DatasetsWanted(d, a.items.value, a.targets, a.listings)
      || sc in DrillsOf(DomainsToJudge(d, a.targets, a.listings), KeysRead(d, a.listings))
    ensures sc.kind != "item" && sc.kind != "dump" ==>
      (Wanted(d, a.items.value, a.targets, VolumesOf(d, a.listings), sc)
       <==> sc in d.scopes || sc in VolumesOf(d, a.listings))
  {
    hide VolumesOf, DatasetsWanted, DrillsOf, DomainsToJudge, KeysRead, FromRun, InFull;
    if sc.kind != "item" && sc.kind != "dump" {
      OthersAreMarked(d, a, VolumesOf(d, a.listings), sc);
    }
  }

  // The domain a restore check's series is put back as.
  ghost predicate IsCheckOf(sc: Scope, domain: string) {
    sc.kind == "domain" && ':' !in domain && exists rest: string :: sc.id == domain + ":" + rest
  }

  // Every series that is due is judged, or it is back on the list: as itself,
  // or for restore checks as its domain.
  lemma DueIsAnswered(d: Dirty, a: Answers, queue: seq<Scope>, sc: Scope)
    requires Judges(a) && Queued(d, a, queue) && |queue| <= a.until && Due(d, a, sc)
    ensures sc in Passing(queue, a.broken) || if sc.kind == "domain" then DomainOf(sc.id) in LeftBy(d, a, queue).domains
      else sc in LeftBy(d, a, queue).scopes
    ensures forall domain :: IsCheckOf(sc, domain) ==> DomainOf(sc.id) == domain
  {
    hide Queued, Due;
    QueueIsDue(d, a, queue, sc);
    if sc in a.broken && sc.kind == "domain" {
      MarkedDomain(Failing(Reached(queue, a.until), a.broken), sc);
    }
    forall domain | IsCheckOf(sc, domain) ensures DomainOf(sc.id) == domain {
      var rest: string :| sc.id == domain + ":" + rest;
      DomainOfPrefix(domain, rest);
    }
  }

  // A restore check or an off-site test restore of a domain ran, and the pass
  // could list the checks: each of the domain is judged or the domain is back.
  lemma FinishedCheckIsAnswered(d: Dirty, a: Answers, queue: seq<Scope>, r: string, k: DrillKey)
    requires Judges(a) && Queued(d, a, queue) && |queue| <= a.until
    requires a.targets.Some? && r in d.runs && r in a.targets.value && ChecksListed(d, a).Some?
    requires a.targets.value[r].kind == "drill" || a.targets.value[r].kind == "drdrill"
    requires a.targets.value[r].id == k.domain && k in ChecksListed(d, a).value
    requires k.domain == "flash" || k.domain == "config" || k.domain == "containers" || k.domain == "vms"
      || k.domain == "files" || k.domain == "zfs"
    ensures Locks.Scope("domain", CheckID(k)) in Passing(queue, a.broken) || k.domain in LeftBy(d, a, queue).domains
  {
    hide Queued, LeftBy;
    var sc := Locks.Scope("domain", CheckID(k));
    assert a.targets.value[r] == RunTarget(k.domain, a.targets.value[r].kind);
    assert ChecksDue(d, a, k.domain);
    assert Due(d, a, sc);
    DueIsAnswered(d, a, queue, sc);
    CheckIsOf(k);
  }

  lemma CheckIsOf(k: DrillKey)
    requires ':' !in k.domain
    ensures IsCheckOf(Locks.Scope("domain", CheckID(k)), k.domain)
  {
    if k.target == "" {
      assert CheckID(k) == k.domain + ":" + k.source;
    } else {
      assert CheckID(k) == k.domain + ":" + ("offsite:" + k.target);
    }
  }
}
