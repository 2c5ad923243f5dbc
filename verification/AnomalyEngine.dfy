// The work list of the anomaly engine and one pass over it
// (anomaly_engine.go): what a finished run marks, what a pass takes off the
// list, and what it puts back when it cannot finish.
module AnomalyEngine {
  import opened Wrappers
  import opened Ordering
  import Locks = ScopeLocks

  type Scope = Locks.Scope

  const BACKUP := "backup"
  const DB_DUMP := "dbdump"

  function ItemScope(id: string): Scope { Locks.Scope("item", id) }

  function DumpScope(id: string): Scope { Locks.Scope("dump", id) }

  predicate IsDomain(sc: Scope) { sc.kind == "domain" }

  // The part of a restore check's id in front of its first colon.
  function DomainOf(id: string): string {
    if id == [] || id[0] == ':' then [] else [id[0]] + DomainOf(id[1..])
  }

  datatype ItemRef = ItemRef(domain: string)

  datatype RunTarget = RunTarget(id: string, kind: string)

  // What waits for the next pass.
  datatype Dirty = Dirty(runs: set<string>, scopes: set<Scope>, domains: set<string>, volumes: bool, full: bool) {
    predicate Empty() { this == NOTHING }

    function Plus(d: Dirty): Dirty {
      Dirty(runs + d.runs, scopes + d.scopes, domains + d.domains, volumes || d.volumes, full || d.full)
    }
  }

  const NOTHING := Dirty({}, {}, {}, false, false)

  // What a finish notice puts up: its run, or both series of an item whose
  // run's kind is not known any more.
  function Noticed(runID: string, targetID: string): Dirty {
    if runID != "" then NOTHING.(runs := {runID})
    else if targetID != "" then NOTHING.(scopes := {ItemScope(targetID), DumpScope(targetID)})
    else NOTHING
  }

  // A scope is put up as itself, a series of restore checks as its domain.
  function MarkedOne(sc: Scope): Dirty {
    if IsDomain(sc) then NOTHING.(domains := {DomainOf(sc.id)}) else NOTHING.(scopes := {sc})
  }

  // What marking a list of scopes puts up.
  function Marked(scopes: seq<Scope>): (d: Dirty)
    ensures forall sc :: sc in d.scopes <==> sc in scopes && !IsDomain(sc)
    ensures d.runs == {} && !d.volumes && !d.full
  {
    if scopes == [] then NOTHING
    else
      var last := scopes[|scopes| - 1];
      assert forall sc :: sc in scopes <==> sc in scopes[..|scopes| - 1] || sc == last;
      Marked(scopes[..|scopes| - 1]).Plus(MarkedOne(last))
  }

  lemma PlusAssociates(a: Dirty, b: Dirty, c: Dirty)
    ensures a.Plus(b).Plus(c) == a.Plus(b.Plus(c))
  {
  }

  lemma NoneMarked(d: Dirty)
    ensures d.Plus(Marked([])) == d
  {
  }

  lemma MarkedAppend(scopes: seq<Scope>, sc: Scope)
    ensures Marked(scopes + [sc]) == Marked(scopes).Plus(MarkedOne(sc))
  {
    assert (scopes + [sc])[..|scopes|] == scopes;
  }

  lemma MarkedTakes(d: Dirty, scopes: seq<Scope>, i: nat)
    requires i < |scopes|
    ensures d.Plus(Marked(scopes[..i + 1])) == d.Plus(Marked(scopes[..i])).Plus(MarkedOne(scopes[i]))
  {
    assert scopes[..i + 1] == scopes[..i] + [scopes[i]];
    MarkedAppend(scopes[..i], scopes[i]);
    PlusAssociates(d, Marked(scopes[..i]), MarkedOne(scopes[i]));
  }

  // The series a finished run belongs to, when its target is an item.
  function ScopeOfRun(items: map<string, ItemRef>, t: RunTarget): Option<Scope> {
    if t.id !in items then None
    else if t.kind == BACKUP then Some(ItemScope(t.id))
    else if t.kind == DB_DUMP then Some(DumpScope(t.id))
    else None
  }

  // The series of everything there is, which a full pass judges.
  predicate InFull(items: map<string, ItemRef>, sc: Scope) {
    sc.id in items && (sc == ItemScope(sc.id) || (sc == DumpScope(sc.id) && items[sc.id].domain == "container"))
  }

  ghost predicate FromRun(runs: set<string>, items: map<string, ItemRef>, found: map<string, RunTarget>, sc: Scope) {
    exists r :: r in runs && r in found && ScopeOfRun(items, found[r]) == Some(sc)
  }

  // What a pass judges. more is the volumes, datasets and restore checks it
  // adds.
  ghost predicate Wanted(d: Dirty, items: map<string, ItemRef>, targets: Option<map<string, RunTarget>>,
      more: set<Scope>, sc: Scope) {
    || sc in d.scopes
    || sc in more
    || (d.full && InFull(items, sc))
    || (targets.Some? && FromRun(d.runs, items, targets.value, sc))
  }

  ghost predicate InKeyOrder(scopes: seq<Scope>) {
    && (forall i, j :: 0 <= i < j < |scopes| ==> !Less(scopes[j].Key(), scopes[i].Key()))
    && (forall i, j :: 0 <= i < j < |scopes| ==> scopes[i] != scopes[j])
  }

  ghost predicate QueueOf(d: Dirty, items: map<string, ItemRef>, targets: Option<map<string, RunTarget>>,
      more: set<Scope>, queue: seq<Scope>) {
    && InKeyOrder(queue)
    && (forall sc :: sc in queue <==> Wanted(d, items, targets, more, sc))
  }

  // ---- volumes, datasets and restore checks -------------------------------

  datatype DrillKey = DrillKey(domain: string, source: string, target: string)

  function DrillScope(k: DrillKey): Scope {
    Locks.Scope("domain", if k.target != "" then k.domain + ":offsite:" + k.target else k.domain + ":" + k.source)
  }

  lemma {:induction false} DomainOfPrefix(domain: string, rest: string)
    requires ':' !in domain
    ensures DomainOf(domain + ":" + rest) == domain
  {
    if domain == [] {
      assert domain + ":" + rest == ":" + rest;
    } else {
      DomainOfPrefix(domain[1..], rest);
      assert (domain + ":" + rest)[1..] == domain[1..] + ":" + rest;
    }
  }

  lemma DrillScopeHasDomain(k: DrillKey)
    requires ':' !in k.domain
    ensures IsDomain(DrillScope(k)) && DomainOf(DrillScope(k).id) == k.domain
  {
    if k.target != "" {
      DomainOfPrefix(k.domain, "offsite:" + k.target);
      assert k.domain + ":offsite:" + k.target == k.domain + ":" + ("offsite:" + k.target);
    } else {
      DomainOfPrefix(k.domain, k.source);
    }
  }

  // What the lists a pass reads on the way answer: the volumes with readings and
  // those with open findings, which tree each dataset belongs to, and the
  // restore checks, asked for up to twice.
  datatype Listings = Listings(
    readings: Option<set<string>>, openVolumes: Option<set<string>>, owners: Option<map<string, string>>,
    first: Option<set<DrillKey>>, second: Option<set<DrillKey>>)

  function VolumeScope(volume: string): Scope { Locks.Scope("volume", volume) }

  // Without the readings no volume is judged, not even one with an open finding.
  function VolumesListed(l: Listings): set<Scope> {
    if l.readings.None? then {}
    else set v | v in l.readings.value + (if l.openVolumes.Some? then l.openVolumes.value else {}) :: VolumeScope(v)
  }

  function OwnersListed(l: Listings): map<string, string> { if l.owners.Some? then l.owners.value else map[] }

  const RUN_DOMAINS := {"flash", "config", "containers", "vms", "files", "zfs"}

  predicate IsDrill(t: RunTarget) { (t.kind == "drill" || t.kind == "drdrill") && t.id in RUN_DOMAINS }

  function DrillDomains(runs: set<string>, found: map<string, RunTarget>): set<string> {
    set r | r in runs && r in found && IsDrill(found[r]) :: found[r].id
  }

  function KeyDomains(keys: set<DrillKey>): set<string> { set k | k in keys :: k.domain }

  // The domains whose restore checks a pass judges.
  function DomainsToJudge(d: Dirty, targets: Option<map<string, RunTarget>>, l: Listings): set<string> {
    d.domains + (if d.full && l.first.Some? then KeyDomains(l.first.value) else {})
    + (if targets.Some? then DrillDomains(d.runs, targets.value) else {})
  }

  // A list that was read once is not read again.
  function KeysRead(d: Dirty, l: Listings): Option<set<DrillKey>> {
    if d.full && l.first.Some? then l.first else l.second
  }

  function DrillsOf(domains: set<string>, keys: Option<set<DrillKey>>): set<Scope> {
    if keys.None? then {} else set k | k in keys.value && k.domain in domains :: DrillScope(k)
  }

  function VolumesOf(d: Dirty, l: Listings): set<Scope> {
    if d.volumes || d.full then VolumesListed(l) else {}
  }

  function DatasetsOf(want: set<Scope>, items: map<string, ItemRef>, owners: map<string, string>): set<Scope> {
    set ds | ds in owners && owners[ds] in items && items[owners[ds]].domain == "zfs"
      && ItemScope(owners[ds]) in want :: Locks.Scope("zfsds", ds)
  }

  // The datasets of the trees that are judged.
  ghost function DatasetsWanted(d: Dirty, items: map<string, ItemRef>, targets: Option<map<string, RunTarget>>,
      l: Listings): set<Scope> {
    var owners := OwnersListed(l);
    set ds | ds in owners && owners[ds] in items && items[owners[ds]].domain == "zfs"
      && Wanted(d, items, targets, VolumesOf(d, l), ItemScope(owners[ds])) :: Locks.Scope("zfsds", ds)
  }

  ghost function More(d: Dirty, items: map<string, ItemRef>, targets: Option<map<string, RunTarget>>,
      l: Listings): set<Scope> {
    VolumesOf(d, l) + DatasetsWanted(d, items, targets, l) + DrillsOf(DomainsToJudge(d, targets, l), KeysRead(d, l))
  }

  // The series a pass judges but for datasets and restore checks.
  method SeriesToJudge(d: Dirty, items: map<string, ItemRef>, targets: Option<map<string, RunTarget>>,
      volumes: set<Scope>) returns (want: set<Scope>)
    requires targets.Some? ==> targets.value.Keys <= d.runs
    ensures forall sc :: sc in want <==> Wanted(d, items, targets, volumes, sc)
  {
    hide InFull;
    want := d.scopes + volumes;
    if d.full {
      want := AddEverything(want, items);
    }
    if d.runs != {} && targets.Some? {
      want := AddRuns(want, d.runs, items, targets.value);
    }
  }

  // Sorts a set of scopes by key.
  method SortByKey(want: set<Scope>) returns (out: seq<Scope>)
    ensures InKeyOrder(out)
    ensures forall sc :: sc in out <==> sc in want
  {
    out := [];
    var rest := want;
    while rest != {}
      invariant rest <= want
      invariant InKeyOrder(out)
      invariant forall sc :: sc in out <==> sc in want - rest
      decreases |rest|
    {
      var sc :| sc in rest;
      ghost var before := out;
      var at := 0;
      while at < |out| && Less(out[at].Key(), sc.Key())
        invariant at <= |out|
        invariant forall i :: 0 <= i < at ==> Less(out[i].Key(), sc.Key())
      {
        at := at + 1;
      }
      forall i | 0 <= i < at ensures !Less(sc.Key(), out[i].Key()) {
        if Less(sc.Key(), out[i].Key()) {
          Transitive(sc.Key(), out[i].Key(), sc.Key());
          Irreflexive(sc.Key());
        }
      }
      forall i | at <= i < |out| ensures !Less(out[i].Key(), sc.Key()) {
        if i > at { NotBelow(sc.Key(), out[at].Key(), out[i].Key()); }
      }
      out := out[..at] + [sc] + out[at..];
      InsertKeepsOrder(before, sc, at);
      rest := rest - {sc};
      forall x ensures x in out <==> x in want - rest {
        assert before == before[..at] + before[at..];
        assert x in out <==> x == sc || x in before;
      }
    }
  }

  // What is not below b is not below anything b is not above.
  lemma NotBelow(a: string, b: string, c: string)
    requires !Less(b, a) && !Less(c, b)
    ensures !Less(c, a)
  {
    if Less(c, a) {
      Total(b, c);
      Total(a, b);
      if b != c {
        Transitive(b, c, a);
      }
    }
  }

  lemma InsertKeepsOrder(xs: seq<Scope>, sc: Scope, at: nat)
    requires at <= |xs| && InKeyOrder(xs) && sc !in xs
    requires forall i :: 0 <= i < at ==> !Less(sc.Key(), xs[i].Key())
    requires forall i :: at <= i < |xs| ==> !Less(xs[i].Key(), sc.Key())
    ensures InKeyOrder(xs[..at] + [sc] + xs[at..])
  {
    var ys := xs[..at] + [sc] + xs[at..];
    assert forall i :: 0 <= i < |ys| ==> ys[i] == if i < at then xs[i] else if i == at then sc else xs[i - 1];
  }

  method AddEverything(base: set<Scope>, items: map<string, ItemRef>) returns (want: set<Scope>)
    ensures forall sc :: sc in want <==> sc in base || InFull(items, sc)
  {
    want := base;
    var ids := items.Keys;
    while ids != {}
      invariant ids <= items.Keys
      invariant forall sc :: sc in want <==> sc in base || (sc.id !in ids && InFull(items, sc))
      decreases |ids|
    {
      var id :| id in ids;
      want := want + {ItemScope(id)};
      if items[id].domain == "container" {
        want := want + {DumpScope(id)};
      }
      ids := ids - {id};
    }
  }

  method AddRuns(base: set<Scope>, runs: set<string>, items: map<string, ItemRef>, found: map<string, RunTarget>)
      returns (want: set<Scope>)
    requires found.Keys <= runs
    ensures forall sc :: sc in want <==> sc in base || FromRun(runs, items, found, sc)
  {
    want := base;
    var ids := found.Keys;
    while ids != {}
      invariant ids <= found.Keys
      invariant forall sc :: sc in want <==> sc in base || FromRun(runs - ids, items, found, sc)
      decreases |ids|
    {
      var r :| r in ids;
      OneMoreRun(runs, ids, r, items, found);
      var t := found[r];
      if t.kind == BACKUP {
        if t.id in items { want := want + {ItemScope(t.id)}; }
      } else if t.kind == DB_DUMP {
        if t.id in items { want := want + {DumpScope(t.id)}; }
      }
      ids := ids - {r};
    }
    assert runs - ids == runs;
  }

  // How far one pass got and why, as the calls around it answered.
  datatype Answers = Answers(
    settings: Option<bool>, items: Option<map<string, ItemRef>>, prefs: bool,
    targets: Option<map<string, RunTarget>>, listings: Listings,
    broken: set<Scope>, until: nat)

  // The reads a pass cannot go on without all succeeded and detection is on.
  predicate Judges(a: Answers) {
    a.settings == Some(true) && a.items.Some? && a.prefs
  }

  // The series a pass reaches before its context ends.
  function Reached(queue: seq<Scope>, until: nat): seq<Scope> {
    if until < |queue| then queue[..until] else queue
  }

  // What is on the list after a pass that judged, when nobody else marked.
  function LeftBy(d: Dirty, a: Answers, queue: seq<Scope>): Dirty {
    NOTHING.(runs := if a.targets.None? then d.runs else {}).Plus(Marked(Failing(Reached(queue, a.until), a.broken)))
  }

  function Failing(queue: seq<Scope>, broken: set<Scope>): (r: seq<Scope>)
    ensures forall sc :: sc in r <==> sc in queue && sc in broken
  {
    if queue == [] then []
    else
      var last := queue[|queue| - 1];
      assert forall sc :: sc in queue <==> sc in queue[..|queue| - 1] || sc == last;
      Failing(queue[..|queue| - 1], broken) + if last in broken then [last] else []
  }

  function Passing(queue: seq<Scope>, broken: set<Scope>): (r: seq<Scope>)
    ensures forall sc :: sc in r <==> sc in queue && sc !in broken
  {
    if queue == [] then []
    else
      var last := queue[|queue| - 1];
      assert forall sc :: sc in queue <==> sc in queue[..|queue| - 1] || sc == last;
      Passing(queue[..|queue| - 1], broken) + if last in broken then [] else [last]
  }

  const OPEN_SECONDS := 7 * 86400

  // From where on a pass judges the single runs of a series: the newest one an
  // earlier pass of this process saw, a week back where none has.
  function FromOf(evaluatedTo: map<Scope, int>, sc: Scope, now: int): int {
    if sc in evaluatedTo then evaluatedTo[sc] else now - OPEN_SECONDS
  }

  // The instant a series is judged to only moves forward.
  function Recorded(evaluatedTo: map<Scope, int>, sc: Scope, newestAt: int): map<Scope, int> {
    if newestAt > (if sc in evaluatedTo then evaluatedTo[sc] else 0) then evaluatedTo[sc := newestAt] else evaluatedTo
  }

  class Engine {
    var dirtyRuns: set<string>
    var dirtyScopes: set<Scope>
    var dirtyDomains: set<string>
    var volumeDirty: bool
    var fullDirty: bool
    var evaluatedTo: map<Scope, int>
    var signal: bool

    function Queue(): Dirty reads this {
      Dirty(dirtyRuns, dirtyScopes, dirtyDomains, volumeDirty, fullDirty)
    }

    constructor ()
      ensures Queue() == NOTHING && evaluatedTo == map[] && !signal
    {
      dirtyRuns, dirtyScopes, dirtyDomains, volumeDirty, fullDirty := {}, {}, {}, false, false;
      evaluatedTo, signal := map[], false;
    }

    // Puts the one token into the channel unless it is there already.
    method Wake()
      modifies this`signal
      ensures signal
    {
      signal := true;
    }

    method RunFinished(runID: string, targetID: string)
      modifies this
      ensures Queue() == old(Queue()).Plus(Noticed(runID, targetID))
      ensures dirtyRuns == old(dirtyRuns) + if runID != "" then {runID} else {}
      ensures dirtyScopes == old(dirtyScopes) + if runID == "" && targetID != ""
        then {Locks.Scope("item", targetID), Locks.Scope("dump", targetID)} else {}
      ensures signal && evaluatedTo == old(evaluatedTo)
    {
      if runID != "" {
        dirtyRuns := dirtyRuns + {runID};
      } else if targetID != "" {
        dirtyScopes := dirtyScopes + {ItemScope(targetID)};
        dirtyScopes := dirtyScopes + {DumpScope(targetID)};
      }
      Wake();
    }

    method MarkAllDirty()
      modifies this
      ensures Queue() == old(Queue()).Plus(NOTHING.(full := true))
      ensures signal && evaluatedTo == old(evaluatedTo)
    {
      fullDirty := true;
      Wake();
    }

    method MarkScopesDirty(scopes: seq<Scope>)
      modifies this
      ensures Queue() == old(Queue()).Plus(Marked(scopes))
      ensures signal == (old(signal) || scopes != []) && evaluatedTo == old(evaluatedTo)
    {
      hide Marked, MarkedOne;
      NoneMarked(Queue());
      if |scopes| == 0 { return; }
      for i := 0 to |scopes|
        invariant Queue() == old(Queue()).Plus(Marked(scopes[..i]))
        invariant signal == old(signal) && evaluatedTo == old(evaluatedTo)
      {
        MarkedTakes(old(Queue()), scopes, i);
        MarkOne(scopes[i]);
      }
      assert scopes[..|scopes|] == scopes;
      Wake();
    }

    method MarkOne(sc: Scope)
      modifies this
      ensures Queue() == old(Queue()).Plus(MarkedOne(sc))
      ensures signal == old(signal) && evaluatedTo == old(evaluatedTo)
    {
      if IsDomain(sc) {
        dirtyDomains := dirtyDomains + {DomainOf(sc.id)};
      } else {
        dirtyScopes := dirtyScopes + {sc};
      }
    }

    method TakeDirty() returns (d: Dirty)
      modifies this
      ensures d == old(Queue()) && Queue() == NOTHING
      ensures signal == old(signal) && evaluatedTo == old(evaluatedTo)
    {
      d := Dirty(dirtyRuns, dirtyScopes, dirtyDomains, volumeDirty, fullDirty);
      dirtyRuns, dirtyScopes, dirtyDomains, volumeDirty, fullDirty := {}, {}, {}, false, false;
    }

    // Puts all of it back, without waking anyone.
    method RestoreDirty(d: Dirty)
      modifies this
      ensures Queue() == old(Queue()).Plus(d)
      ensures signal == old(signal) && evaluatedTo == old(evaluatedTo)
    {
      dirtyRuns := dirtyRuns + d.runs;
      dirtyScopes := dirtyScopes + d.scopes;
      dirtyDomains := dirtyDomains + d.domains;
      volumeDirty := volumeDirty || d.volumes;
      fullDirty := fullDirty || d.full;
    }

    // From which instant on a series counts events, and how that moves.
    method EvaluatedFrom(sc: Scope, now: int) returns (at: int)
      ensures at == FromOf(evaluatedTo, sc, now)
      ensures at == if sc in evaluatedTo then evaluatedTo[sc] else now - 604800
    {
      if sc in evaluatedTo {
        return evaluatedTo[sc];
      }
      return now - OPEN_SECONDS;
    }

    method RecordScope(sc: Scope, newestAt: int)
      modifies this`evaluatedTo
      ensures evaluatedTo == Recorded(old(evaluatedTo), sc, newestAt)
      ensures forall x :: x != sc ==>
        (x in evaluatedTo <==> x in old(evaluatedTo)) && (x in evaluatedTo ==> evaluatedTo[x] == old(evaluatedTo[x]))
      ensures sc in old(evaluatedTo) ==> sc in evaluatedTo && evaluatedTo[sc] >= old(evaluatedTo[sc])
      ensures newestAt > 0 ==> sc in evaluatedTo && evaluatedTo[sc] >= newestAt
      ensures sc in evaluatedTo ==>
        evaluatedTo[sc] == newestAt || (sc in old(evaluatedTo) && evaluatedTo[sc] == old(evaluatedTo[sc]))
    {
      if newestAt > (if sc in evaluatedTo then evaluatedTo[sc] else 0) {
        evaluatedTo := evaluatedTo[sc := newestAt];
      }
    }

    // The series of this pass. Runs that cannot be resolved go back on the list.
    method ScopesToEvaluate(d: Dirty, items: map<string, ItemRef>, targets: Option<map<string, RunTarget>>, l: Listings)
      returns (out: seq<Scope>)
      requires targets.Some? ==> targets.value.Keys <= d.runs
      modifies this
      ensures QueueOf(d, items, targets, More(d, items, targets, l), out)
      ensures Queue() == old(Queue()).Plus(NOTHING.(runs := if targets.None? then d.runs else {}))
      ensures signal == old(signal) && evaluatedTo == old(evaluatedTo)
    {
      hide Wanted, More, DatasetsOf, DrillsOf, DrillDomains, KeyDomains, VolumesOf;
      if d.runs != {} && targets.None? {
        dirtyRuns := dirtyRuns + d.runs;
      }
      var want := SeriesToJudge(d, items, targets, VolumesOf(d, l));
      var domains := d.domains;
      if d.full && l.first.Some? {
        domains := domains + KeyDomains(l.first.value);
      }
      if targets.Some? {
        domains := domains + DrillDomains(d.runs, targets.value);
      }
      WantedSoFar(d, items, targets, l, want, domains);
      want := want + DatasetsOf(want, items, OwnersListed(l));
      if domains != {} {
        want := want + DrillsOf(domains, KeysRead(d, l));
      }
      out := SortByKey(want);
    }

    // One pass: take everything, judge it in key order, put back what fails.
    method PassOnce(pruneDue: bool, a: Answers) returns (judged: seq<Scope>, queue: seq<Scope>)
      requires a.targets.Some? ==> a.targets.value.Keys <= dirtyRuns
      modifies this
      ensures !pruneDue && old(Queue()).Empty() ==> judged == [] && Queue() == NOTHING && signal == old(signal)
      ensures a.settings.None? || (a.settings.value && (a.items.None? || !a.prefs)) ==>
        judged == [] && Queue() == old(Queue()) && signal == old(signal)
      ensures a.settings == Some(false) ==> judged == [] && Queue() == NOTHING && signal == old(signal)
      ensures a.settings == Some(true) && a.items.Some? && a.prefs && (pruneDue || !old(Queue()).Empty()) ==>
        && QueueOf(old(Queue()), a.items.value, a.targets, More(old(Queue()), a.items.value, a.targets, a.listings),
           queue)
        && Queue() == LeftBy(old(Queue()), a, queue)
        && signal == (old(signal) || Failing(Reached(queue, a.until), a.broken) != [])
        && judged == Passing(Reached(queue, a.until), a.broken)
    {
      judged, queue := [], [];
      var d := TakeDirty();
      if !pruneDue && d.Empty() { return; }
      if a.settings.None? {
        RestoreDirty(d);
        return;
      }
      if !a.settings.value { return; }
      if a.items.None? || !a.prefs {
        RestoreDirty(d);
        return;
      }
      queue := ScopesToEvaluate(d, a.items.value, a.targets, a.listings);
      judged := JudgeAll(queue, a.broken, a.until);
    }

    method JudgeAll(queue: seq<Scope>, broken: set<Scope>, until: nat) returns (judged: seq<Scope>)
      modifies this
      ensures Queue() == old(Queue()).Plus(Marked(Failing(Reached(queue, until), broken)))
      ensures signal == (old(signal) || Failing(Reached(queue, until), broken) != [])
      ensures judged == Passing(Reached(queue, until), broken)
    {
      judged := [];
      var i := 0;
      while i < |queue| && i != until
        invariant 0 <= i <= |queue| && i <= until
        invariant Queue() == old(Queue()).Plus(MarkedUpTo(queue, i, broken))
        invariant signal == (old(signal) || Failing(queue[..i], broken) != [])
        invariant judged == Passing(queue[..i], broken)
      {
        FailingOneMore(queue, i, broken);
        if queue[i] in broken {
          MarkScopesDirty([queue[i]]);
          MarkedOneMore(old(Queue()), queue, i, broken);
        } else {
          judged := judged + [queue[i]];
        }
        i := i + 1;
      }
      assert queue[..i] == Reached(queue, until);
    }
  }

  // The series listed without datasets and restore checks.
  lemma WantedSoFar(d: Dirty, items: map<string, ItemRef>, targets: Option<map<string, RunTarget>>, l: Listings,
      want: set<Scope>, domains: set<string>)
    requires forall sc :: sc in want <==> Wanted(d, items, targets, VolumesOf(d, l), sc)
    requires domains == DomainsToJudge(d, targets, l)
    ensures DatasetsOf(want, items, OwnersListed(l)) == DatasetsWanted(d, items, targets, l)
    ensures domains == {} ==> DrillsOf(domains, KeysRead(d, l)) == {}
    ensures forall sc :: sc in want + DatasetsOf(want, items, OwnersListed(l)) + DrillsOf(domains, KeysRead(d, l)) <==>
      Wanted(d, items, targets, More(d, items, targets, l), sc)
  {
    hide DrillsOf, DomainsToJudge, KeysRead, InFull, FromRun;
    NoDrills(domains, KeysRead(d, l));
    assert DatasetsOf(want, items, OwnersListed(l)) == DatasetsWanted(d, items, targets, l);
  }

  lemma NoDrills(domains: set<string>, keys: Option<set<DrillKey>>)
    ensures domains == {} ==> DrillsOf(domains, keys) == {}
  {
  }

  ghost predicate Queued(d: Dirty, a: Answers, queue: seq<Scope>)
    requires Judges(a)
  {
    QueueOf(d, a.items.value, a.targets, More(d, a.items.value, a.targets, a.listings), queue)
  }

  // What the first i series of a queue put up again.
  function MarkedUpTo(queue: seq<Scope>, i: nat, broken: set<Scope>): Dirty
    requires i <= |queue|
  {
    Marked(Failing(queue[..i], broken))
  }

  lemma FailingOneMore(queue: seq<Scope>, i: nat, broken: set<Scope>)
    requires i < |queue|
    ensures Failing(queue[..i + 1], broken) == if queue[i] in broken then Failing(queue[..i], broken) + [queue[i]]
      else Failing(queue[..i], broken)
    ensures queue[i] !in broken ==> MarkedUpTo(queue, i + 1, broken) == MarkedUpTo(queue, i, broken)
    ensures Passing(queue[..i + 1], broken) == if queue[i] in broken then Passing(queue[..i], broken)
      else Passing(queue[..i], broken) + [queue[i]]
  {
    assert queue[..i + 1][..i] == queue[..i];
    assert queue[..i + 1] == queue[..i] + [queue[i]];
  }

  lemma OneMoreRun(runs: set<string>, ids: set<string>, r: string, items: map<string, ItemRef>,
      found: map<string, RunTarget>)
    requires r in ids && r in runs && r in found
    ensures forall sc :: FromRun(runs - (ids - {r}), items, found, sc) <==>
      FromRun(runs - ids, items, found, sc) || ScopeOfRun(items, found[r]) == Some(sc)
  {
    forall sc
      ensures FromRun(runs - (ids - {r}), items, found, sc) <==>
        FromRun(runs - ids, items, found, sc) || ScopeOfRun(items, found[r]) == Some(sc)
    {
      if FromRun(runs - (ids - {r}), items, found, sc) {
        var q :| q in runs - (ids - {r}) && q in found && ScopeOfRun(items, found[q]) == Some(sc);
        assert q != r ==> q in runs - ids;
      }
      if ScopeOfRun(items, found[r]) == Some(sc) {
        assert r in runs - (ids - {r});
      }
      if FromRun(runs - ids, items, found, sc) {
        var q :| q in runs - ids && q in found && ScopeOfRun(items, found[q]) == Some(sc);
        assert q in runs - (ids - {r});
      }
    }
  }

  lemma MarkedOneMore(d: Dirty, queue: seq<Scope>, i: nat, broken: set<Scope>)
    requires i < |queue| && queue[i] in broken
    ensures d.Plus(MarkedUpTo(queue, i, broken)).Plus(Marked([queue[i]])) == d.Plus(MarkedUpTo(queue, i + 1, broken))
  {
    var before, sc := Failing(queue[..i], broken), queue[i];
    FailingOneMore(queue, i, broken);
    MarkedAppend(before, sc);
    assert [] + [sc] == [sc];
    MarkedAppend([], sc);
    assert Marked([sc]) == MarkedOne(sc);
    PlusAssociates(d, Marked(before), MarkedOne(sc));
  }

  // What one undisturbed pass may drop: nothing but the runs of no known item.
  lemma PassLosesNothing(d: Dirty, a: Answers, queue: seq<Scope>, judged: seq<Scope>, after: Dirty)
    requires Judges(a) && Queued(d, a, queue) && |queue| <= a.until
    requires after == LeftBy(d, a, queue)
    requires judged == Passing(queue, a.broken)
    ensures forall sc :: sc in d.scopes && !IsDomain(sc) ==> sc in judged || sc in after.scopes
    ensures forall r :: r in d.runs && r !in after.runs && a.targets.Some? && r in a.targets.value ==>
      match ScopeOfRun(a.items.value, a.targets.value[r])
      case None => true
      case Some(sc) => sc in judged || sc in after.scopes
    ensures forall r :: r in d.runs ==> r in after.runs || a.targets.Some?
  {
    hide LeftBy, Queued, Passing, ScopeOfRun;
    RunsComeBack(d, a, queue);
    forall sc | sc in d.scopes && !IsDomain(sc) ensures sc in judged || sc in after.scopes {
      WantedIsAnswered(d, a, queue, sc);
    }
    if a.targets.Some? {
      forall r | r in d.runs && r in a.targets.value && ScopeOfRun(a.items.value, a.targets.value[r]).Some?
        ensures var sc := ScopeOfRun(a.items.value, a.targets.value[r]).value; sc in judged || sc in after.scopes
      {
        var sc := ScopeOfRun(a.items.value, a.targets.value[r]).value;
        SeriesOfARun(a.items.value, a.targets.value[r]);
        assert FromRun(d.runs, a.items.value, a.targets.value, sc);
        WantedIsAnswered(d, a, queue, sc);
      }
    }
  }

  lemma SeriesOfARun(items: map<string, ItemRef>, t: RunTarget)
    requires ScopeOfRun(items, t).Some?
    ensures !IsDomain(ScopeOfRun(items, t).value)
  {
  }

  lemma RunsComeBack(d: Dirty, a: Answers, queue: seq<Scope>)
    ensures a.targets.None? ==> d.runs <= LeftBy(d, a, queue).runs
  {
  }

  lemma WantedIsAnswered(d: Dirty, a: Answers, queue: seq<Scope>, sc: Scope)
    requires Judges(a) && Queued(d, a, queue) && |queue| <= a.until && !IsDomain(sc)
    requires sc in d.scopes || (a.targets.Some? && FromRun(d.runs, a.items.value, a.targets.value, sc))
    ensures sc in Passing(queue, a.broken) || sc in LeftBy(d, a, queue).scopes
  {
    hide More, FromRun;
    assert Wanted(d, a.items.value, a.targets, More(d, a.items.value, a.targets, a.listings), sc);
    assert sc in queue;
  }

  // ---- restore checks are the exception -----------------------------------

  // An undisturbed pass over d that read the restore checks there are, or could
  // not.
  ghost predicate PassOver(d: Dirty, a: Answers, all: set<DrillKey>, queue: seq<Scope>, judged: seq<Scope>,
      after: Dirty) {
    && Judges(a) && Queued(d, a, queue) && |queue| <= a.until
    && after == LeftBy(d, a, queue) && judged == Passing(queue, a.broken)
    && (forall sc :: sc in d.scopes ==> !IsDomain(sc))
    && (forall k :: k in all ==> ':' !in k.domain)
    && (a.listings.first.Some? ==> a.listings.first.value == all)
       && (a.listings.second.Some? ==> a.listings.second.value == all)
  }

  // Every restore check of a domain that was marked, or whose check ran, was
  // judged, or the domain is back on the list, exactly when the checks could be
  // listed (or there are none): a domain whose list cannot be read is
  // forgotten.
  lemma RestoreChecksAnsweredExactly(d: Dirty, a: Answers, all: set<DrillKey>, queue: seq<Scope>, judged: seq<Scope>,
      after: Dirty)
    requires PassOver(d, a, all, queue, judged, after)
    ensures (forall k :: k in all && k.domain in DomainsToJudge(d, a.targets, a.listings) ==>
      DrillScope(k) in judged || k.domain in after.domains)
      <==> KeysRead(d, a.listings).Some? || forall k :: k in all ==>
        k.domain !in DomainsToJudge(d, a.targets, a.listings)
  {
    hide PassOver, DomainsToJudge, DrillScope;
    if KeysRead(d, a.listings).Some? {
      forall k | k in all && k.domain in DomainsToJudge(d, a.targets, a.listings)
        ensures DrillScope(k) in judged || k.domain in after.domains {
        CheckIsAnswered(d, a, all, queue, judged, after, k);
      }
    } else {
      ChecksAreForgotten(d, a, all, queue, judged, after);
      forall k | k in all ensures DrillScope(k) !in judged {
        CheckIsOfDomain(d, a, all, queue, judged, after, k);
      }
    }
  }

  lemma CheckIsOfDomain(d: Dirty, a: Answers, all: set<DrillKey>, queue: seq<Scope>, judged: seq<Scope>, after: Dirty,
      k: DrillKey)
    requires PassOver(d, a, all, queue, judged, after) && k in all
    ensures IsDomain(DrillScope(k))
  {
    DrillScopeHasDomain(k);
  }

  lemma CheckIsAnswered(d: Dirty, a: Answers, all: set<DrillKey>, queue: seq<Scope>, judged: seq<Scope>, after: Dirty,
      k: DrillKey)
    requires PassOver(d, a, all, queue, judged, after) && KeysRead(d, a.listings).Some? && k in all
      && k.domain in DomainsToJudge(d, a.targets, a.listings)
    ensures DrillScope(k) in judged || k.domain in after.domains
  {
    hide DomainsToJudge, DatasetsWanted, VolumesOf, DrillScope;
    var sc := DrillScope(k);
    DrillScopeHasDomain(k);
    assert sc in DrillsOf(DomainsToJudge(d, a.targets, a.listings), KeysRead(d, a.listings));
    assert sc in queue by {
      assert Wanted(d, a.items.value, a.targets, More(d, a.items.value, a.targets, a.listings), sc);
    }
    if sc in a.broken {
      MarkedDomain(Failing(Reached(queue, a.until), a.broken), sc);
    }
  }

  lemma {:induction false} MarkedDomain(scopes: seq<Scope>, sc: Scope)
    requires sc in scopes && IsDomain(sc)
    ensures DomainOf(sc.id) in Marked(scopes).domains
  {
    var n := |scopes| - 1;
    assert scopes == scopes[..n] + [scopes[n]];
    if sc != scopes[n] {
      MarkedDomain(scopes[..n], sc);
    }
  }

  lemma {:induction false} NoMarkedDomain(scopes: seq<Scope>)
    requires forall sc :: sc in scopes ==> !IsDomain(sc)
    ensures Marked(scopes).domains == {}
  {
    if scopes != [] {
      NoMarkedDomain(scopes[..|scopes| - 1]);
    }
  }

  lemma ChecksAreForgotten(d: Dirty, a: Answers, all: set<DrillKey>, queue: seq<Scope>, judged: seq<Scope>,
      after: Dirty)
    requires PassOver(d, a, all, queue, judged, after) && KeysRead(d, a.listings).None?
    ensures (forall sc :: sc in judged ==> !IsDomain(sc)) && after.domains == {}
  {
    forall sc | sc in queue ensures !IsDomain(sc) {
      assert Wanted(d, a.items.value, a.targets, More(d, a.items.value, a.targets, a.listings), sc);
    }
    NoMarkedDomain(Failing(Reached(queue, a.until), a.broken));
  }

  // ---- and so are volumes ---------------------------------------------------

  // An undisturbed pass that was to judge the volumes there are readings of.
  ghost predicate VolumePass(d: Dirty, a: Answers, all: set<string>, queue: seq<Scope>) {
    && Judges(a) && Queued(d, a, queue) && |queue| <= a.until && (d.volumes || d.full)
    && (a.listings.readings.Some? ==> a.listings.readings.value == all)
  }

  // Every volume was judged or is back on the list exactly when the readings
  // could be read, or the volumes were marked one by one before: nothing puts
  // the mark for all of them back.
  lemma VolumesAnsweredExactly(d: Dirty, a: Answers, all: set<string>, queue: seq<Scope>)
    requires VolumePass(d, a, all, queue)
    ensures (forall v :: v in all ==>
      VolumeScope(v) in Passing(queue, a.broken) || VolumeScope(v) in LeftBy(d, a, queue).scopes)
      <==> a.listings.readings.Some? || forall v :: v in all ==> VolumeScope(v) in d.scopes
    ensures !LeftBy(d, a, queue).volumes && !LeftBy(d, a, queue).full
  {
    hide LeftBy;
    forall v | v in all
      ensures VolumeScope(v) in Passing(queue, a.broken) || VolumeScope(v) in LeftBy(d, a, queue).scopes <==>
        a.listings.readings.Some? || VolumeScope(v) in d.scopes
    {
      VolumeIsAnswered(d, a, all, queue, v);
    }
    NoMarkForAll(d, a, queue);
  }

  lemma NoMarkForAll(d: Dirty, a: Answers, queue: seq<Scope>)
    ensures !LeftBy(d, a, queue).volumes && !LeftBy(d, a, queue).full
  {
  }

  lemma VolumeIsAnswered(d: Dirty, a: Answers, all: set<string>, queue: seq<Scope>, v: string)
    requires VolumePass(d, a, all, queue) && v in all
    ensures VolumeScope(v) in Passing(queue, a.broken) || VolumeScope(v) in LeftBy(d, a, queue).scopes <==>
      a.listings.readings.Some? || VolumeScope(v) in d.scopes
  {
    hide InFull, FromRun;
    var sc := VolumeScope(v);
    VolumeIsQueued(d, a, all, queue, v);
    assert sc in queue <==> sc in Passing(queue, a.broken) || sc in Failing(queue, a.broken);
  }

  lemma VolumeIsQueued(d: Dirty, a: Answers, all: set<string>, queue: seq<Scope>, v: string)
    requires VolumePass(d, a, all, queue) && v in all
    ensures VolumeScope(v) in queue <==> a.listings.readings.Some? || VolumeScope(v) in d.scopes
  {
    var sc := VolumeScope(v);
    assert sc in queue <==> Wanted(d, a.items.value, a.targets, More(d, a.items.value, a.targets, a.listings), sc);
    assert sc.kind == "volume" && !IsDomain(sc);
    assert sc in VolumesOf(d, a.listings) <==> a.listings.readings.Some? by {
      if a.listings.readings.Some? {
        assert v in a.listings.readings.value;
      }
    }
  }
}
