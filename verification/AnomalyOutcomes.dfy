// What one pass leaves of a condition's rows, told by the values in the table
// alone: which row opens, is refreshed, marked recovered, resolved, touched or
// cleared, and with which figures; and how long an alarm about lost data stands
// (anomaly_lifecycle.go, internal/store/anomalies.go).
module AnomalyOutcomes {
  import opened Wrappers
  import opened AnomalyTypes
  import opened AnomalyLifecycle
  import opened AnomalyStore
  import opened AnomalyPass
  import opened AnomalyEpisodes
  import opened AnomalyHistories

  // ---- what a pass raises -------------------------------------------------

  // The row belongs to the condition the pass judges under this metric.
  predicate Of(row: Row, e: Event, m: Metric)
    requires e.Pass?
  {
    row.fp.kind == e.sc.kind && row.fp.id == e.sc.id && row.fp.metric == m
  }

  // The pass raises its i-th finding. One about a single run counts only when
  // no row of the condition has seen the run.
  ghost predicate RaisedAt(rows: Rows, e: Event, m: Metric, i: int)
    requires e.Pass?
  {
    && 0 <= i < |e.found| && e.found[i].metric == m
    && (m == NewData || m == NewDataRewrite || m == NewDataFull ==>
         e.found[i].runAt > 0 && forall k :: k in rows && Of(rows[k], e, m) ==> rows[k].lastRunAt < e.found[i].runAt)
  }

  ghost predicate NewestRaised(rows: Rows, e: Event, m: Metric, i: int)
    requires e.Pass?
  {
    RaisedAt(rows, e, m, i) && forall j :: i < j < |e.found| ==> !RaisedAt(rows, e, m, j)
  }

  ghost predicate NothingRaised(rows: Rows, e: Event, m: Metric)
    requires e.Pass?
  {
    forall i :: 0 <= i < |e.found| ==> !RaisedAt(rows, e, m, i)
  }

  // How many findings it raises about runs newer than a given one.
  ghost function RaisedAfter(rows: Rows, e: Event, m: Metric, at: int): nat
    requires e.Pass?
  {
    |set i | 0 <= i < |e.found| && RaisedAt(rows, e, m, i) && e.found[i].runAt > at|
  }

  ghost function RaisedInAll(rows: Rows, e: Event, m: Metric): nat
    requires e.Pass?
  {
    |set i | 0 <= i < |e.found| && RaisedAt(rows, e, m, i)|
  }

  function Kept(found: seq<Finding>, keep: Finding -> bool): seq<Finding> {
    if found == [] then []
    else Kept(found[..|found| - 1], keep) + (if keep(found[|found| - 1]) then [found[|found| - 1]] else [])
  }

  function OfMetric(m: Metric): Finding -> bool { (f: Finding) => f.metric == m }

  function Later(at: int): Finding -> bool { (f: Finding) => f.runAt > at }

  function And(p: Finding -> bool, q: Finding -> bool): Finding -> bool { (f: Finding) => p(f) && q(f) }

  lemma {:induction false} GroupKeeps(found: seq<Finding>, m: Metric)
    ensures Group(found, m) == Kept(found, OfMetric(m))
  {
    if found != [] {
      GroupKeeps(found[..|found| - 1], m);
    }
  }

  lemma {:induction false} SinceKeeps(g: seq<Finding>, at: int)
    ensures Since(g, at) == Kept(g, Later(at))
  {
    if g != [] {
      SinceKeeps(g[..|g| - 1], at);
    }
  }

  lemma {:induction false} KeptTwice(found: seq<Finding>, p: Finding -> bool, q: Finding -> bool)
    ensures Kept(Kept(found, p), q) == Kept(found, And(p, q))
  {
    if found != [] {
      var n := |found| - 1;
      KeptTwice(found[..n], p, q);
      var head := Kept(found[..n], p);
      if !p(found[n]) {
        assert Kept(found, p) == head;
      } else {
        assert (head + [found[n]])[..|head|] == head;
      }
    }
  }

  ghost function Places(found: seq<Finding>, keep: Finding -> bool): set<int> {
    set i | 0 <= i < |found| && keep(found[i])
  }

  // The kept findings are the ones at those places, the last of them last.
  lemma {:induction false} KeptPlaces(found: seq<Finding>, keep: Finding -> bool)
    ensures |Kept(found, keep)| == |Places(found, keep)|
    ensures Kept(found, keep) == [] <==> Places(found, keep) == {}
    ensures forall i :: i in Places(found, keep) && (forall j :: j in Places(found, keep) ==> j <= i) ==>
      Kept(found, keep) != [] && Kept(found, keep)[|Kept(found, keep)| - 1] == found[i]
  {
    if found != [] {
      var n := |found| - 1;
      KeptPlaces(found[..n], keep);
      PlacesOneMore(found, keep);
    }
  }

  lemma PlacesOneMore(found: seq<Finding>, keep: Finding -> bool)
    requires found != []
    ensures var n := |found| - 1;
      n !in Places(found[..n], keep)
      && Places(found, keep) == Places(found[..n], keep) + (if keep(found[n]) then {n} else {})
  {
  }

  // What the walk over the findings keeps for a metric.
  ghost function Kind(st: ScopeState, e: Event, m: Metric): Finding -> bool
    requires e.Pass?
  {
    if IsEvent(m) then And(OfMetric(m), Later(st.LastRunAt(FingerprintOf(e.sc, m)))) else OfMetric(m)
  }

  lemma RaisedIsKept(e: Event, st: ScopeState, m: Metric)
    requires e.Pass? && SoundFindings(e.found, e.absent)
    ensures Raised(e.sc, e.found, st, m) == Kept(e.found, Kind(st, e, m))
  {
    var at, g := st.LastRunAt(FingerprintOf(e.sc, m)), Group(e.found, m);
    GroupKeeps(e.found, m);
    SinceKeeps(g, at);
    KeptTwice(e.found, OfMetric(m), Later(at));
    if g != [] {
      assert g[0] in e.found;
    }
  }

  lemma KindMeans(rows: Rows, e: Event, st: ScopeState, m: Metric, i: int)
    requires e.Pass? && Keyed(rows) && Reads(rows, e.sc.kind, e.sc.id, st) && 0 <= i < |e.found|
    ensures Kind(st, e, m)(e.found[i]) <==> RaisedAt(rows, e, m, i)
  {
    var fp := FingerprintOf(e.sc, m);
    NewestSeen(rows, e.sc, st, fp);
    forall k | k in rows && Of(rows[k], e, m) ensures rows[k].fp == fp {}
    assert st.LastRunAt(fp) >= 0;
  }

  ghost predicate SamePlaces(a: set<int>, b: set<int>) { a == b }

  lemma RaisedPlaces(rows: Rows, e: Event, st: ScopeState, m: Metric, at: int)
    requires e.Pass? && Keyed(rows) && Reads(rows, e.sc.kind, e.sc.id, st)
    ensures SamePlaces(Places(e.found, Kind(st, e, m)), set i | 0 <= i < |e.found| && RaisedAt(rows, e, m, i))
    ensures SamePlaces(Places(e.found, And(Kind(st, e, m), Later(at))),
      set i | 0 <= i < |e.found| && RaisedAt(rows, e, m, i) && e.found[i].runAt > at)
  {
    hide Kind, RaisedAt, Keyed, Reads;
    forall i | 0 <= i < |e.found| ensures Kind(st, e, m)(e.found[i]) <==> RaisedAt(rows, e, m, i) {
      KindMeans(rows, e, st, m, i);
    }
  }

  // The list a pass decides on holds what it raises: nothing when it raises
  // nothing, the newest finding last, each counted once.
  ghost predicate TellsRaised(rows: Rows, e: Event, m: Metric, g: seq<Finding>)
    requires e.Pass?
  {
    && (g == [] <==> NothingRaised(rows, e, m))
    && |g| == RaisedInAll(rows, e, m)
    && (forall i :: NewestRaised(rows, e, m, i) ==> g != [] && g[|g| - 1] == e.found[i])
    && (forall at :: |Since(g, at)| == RaisedAfter(rows, e, m, at))
  }

  lemma RaisedMeans(rows: Rows, e: Event, st: ScopeState, m: Metric)
    requires e.Pass? && Keyed(rows) && Reads(rows, e.sc.kind, e.sc.id, st) && SoundFindings(e.found, e.absent)
    ensures TellsRaised(rows, e, m, Raised(e.sc, e.found, st, m))
  {
    hide Kind, RaisedAt, Keyed, Reads, Kept, Raised, Since, SoundFindings, RaisedAfter, NothingRaised, RaisedInAll;
    RaisedIsKept(e, st, m);
    CountsRaised(rows, e, st, m);
    LastIsNewest(rows, e, st, m);
    forall at ensures |Since(Kept(e.found, Kind(st, e, m)), at)| == RaisedAfter(rows, e, m, at) {
      CountsNewer(rows, e, st, m, at);
    }
  }

  lemma CountsRaised(rows: Rows, e: Event, st: ScopeState, m: Metric)
    requires e.Pass? && Keyed(rows) && Reads(rows, e.sc.kind, e.sc.id, st)
    ensures var g := Kept(e.found, Kind(st, e, m));
      |g| == RaisedInAll(rows, e, m) && (g == [] <==> NothingRaised(rows, e, m))
  {
    hide Kind, RaisedAt, Keyed, Reads, Kept;
    KeptPlaces(e.found, Kind(st, e, m));
    RaisedPlaces(rows, e, st, m, 0);
    var all := set i | 0 <= i < |e.found| && RaisedAt(rows, e, m, i);
    assert all == {} <==> NothingRaised(rows, e, m) by {
      assert forall i :: i in all <==> 0 <= i < |e.found| && RaisedAt(rows, e, m, i);
    }
  }

  lemma CountsNewer(rows: Rows, e: Event, st: ScopeState, m: Metric, at: int)
    requires e.Pass? && Keyed(rows) && Reads(rows, e.sc.kind, e.sc.id, st)
    ensures |Since(Kept(e.found, Kind(st, e, m)), at)| == RaisedAfter(rows, e, m, at)
  {
    hide Kind, RaisedAt, Keyed, Reads, Kept, Since;
    var keep := Kind(st, e, m);
    SinceKeeps(Kept(e.found, keep), at);
    KeptTwice(e.found, keep, Later(at));
    KeptPlaces(e.found, And(keep, Later(at)));
    RaisedPlaces(rows, e, st, m, at);
  }

  lemma LastIsNewest(rows: Rows, e: Event, st: ScopeState, m: Metric)
    requires e.Pass? && Keyed(rows) && Reads(rows, e.sc.kind, e.sc.id, st)
    ensures var g := Kept(e.found, Kind(st, e, m));
      forall i :: NewestRaised(rows, e, m, i) ==> 0 <= i < |e.found| && |g| > 0 && g[|g| - 1] == e.found[i]
  {
    hide Kind, RaisedAt, Keyed, Reads, Kept;
    var keep := Kind(st, e, m);
    var g := Kept(e.found, keep);
    KeptPlaces(e.found, keep);
    RaisedPlaces(rows, e, st, m, 0);
    forall i | NewestRaised(rows, e, m, i) ensures 0 <= i < |e.found| && |g| > 0 && g[|g| - 1] == e.found[i] {
      InRange(rows, e, m, i);
      assert i in Places(e.found, keep) && forall j :: j in Places(e.found, keep) ==> j <= i;
    }
  }

  lemma InRange(rows: Rows, e: Event, m: Metric, i: int)
    requires e.Pass? && RaisedAt(rows, e, m, i)
    ensures 0 <= i < |e.found|
  {
  }

  // ---- what becomes of the rows -------------------------------------------

  ghost predicate Passed(rows: Rows, e: Event, rows': Rows) {
    e.Pass? && Keyed(rows) && OneOpenEach(rows) && Step(rows, e, rows') && SoundFindings(e.found, e.absent)
  }

  predicate IsOpen(rows: Rows, e: Event, m: Metric, id: string)
    requires e.Pass?
  {
    id in rows && Of(rows[id], e, m) && rows[id].state == StateOpen
  }

  // A row a user acknowledged or marked as expected and whose condition never
  // went away since.
  predicate IsSettled(rows: Rows, e: Event, m: Metric, id: string)
    requires e.Pass?
  {
    id in rows && Of(rows[id], e, m) && rows[id].clearedAt == 0
      && (rows[id].state == StateAcknowledged || rows[id].state == StateExpected)
  }

  // Of the condition's settled rows the one seen last.
  ghost predicate NewestSettledRow(rows: Rows, e: Event, m: Metric, id: string)
    requires e.Pass?
  {
    IsSettled(rows, e, m, id) && forall k :: IsSettled(rows, e, m, k) ==> rows[k].lastSeenAt <= rows[id].lastSeenAt
  }

  // Of the condition's rows only this one changes.
  ghost predicate OnlyChanges(rows: Rows, e: Event, rows': Rows, m: Metric, id: string)
    requires e.Pass?
  {
    forall k :: k in rows && Of(rows[k], e, m) && k != id ==> k in rows' && rows'[k] == rows[k]
  }

  ghost predicate NoneChanges(rows: Rows, e: Event, rows': Rows, m: Metric)
    requires e.Pass?
  {
    forall k :: k in rows && Of(rows[k], e, m) ==> k in rows' && rows'[k] == rows[k]
  }

  ghost predicate NoneOpens(rows: Rows, e: Event, rows': Rows, m: Metric)
    requires e.Pass?
  {
    forall k :: k in rows' && Of(rows'[k], e, m) ==> k in rows
  }

  // The row is new and tells what the finding says.
  ghost predicate IsNew(rows: Rows, e: Event, rows': Rows, m: Metric, f: Finding, times: nat, id: string)
    requires e.Pass?
  {
    && id in rows' && id !in rows
    && var row := rows'[id];
       && row.id == id && row.fp.kind == e.sc.kind && row.fp.id == e.sc.id && row.fp.metric == m
       && row.severity == f.severity && row.state == StateOpen
       && row.targetID == e.sc.targetID && row.domain == e.sc.domain && row.sensitivity == e.sc.sensitivity
       && row.runID == (if f.onsetRunID == "" then f.runID else f.onsetRunID)
       && row.lastRunID == f.runID && row.lastRunAt == f.runAt && row.lastGoodRunID == f.lastGoodRunID
       && row.observed == f.observed && row.expected == f.expected && row.threshold == f.threshold
       && row.samples == f.samples && row.details == f.details && row.occurrences == times
       && row.firstSeenAt == e.now && row.lastSeenAt == e.now
       && row.recoveredAt == 0 && row.resolvedAt == 0 && row.ackedAt == 0 && row.clearedAt == 0
  }

  // Exactly one row opens for the condition, about the newest finding, with
  // every finding counted.
  ghost predicate OneOpens(rows: Rows, e: Event, rows': Rows, m: Metric, f: Finding)
    requires e.Pass?
  {
    && (exists id :: IsNew(rows, e, rows', m, f, RaisedInAll(rows, e, m), id))
    && (forall a, b :: a in rows' && b in rows' && Of(rows'[a], e, m) && Of(rows'[b], e, m) && a !in rows && b !in rows
          ==> a == b)
  }

  // What the pass decided about one condition, on what it raises.
  ghost predicate Ruled(rows: Rows, e: Event, m: Metric, st: ScopeState, g: seq<Finding>, d: Decision)
    requires e.Pass?
  {
    && Reads(rows, e.sc.kind, e.sc.id, st) && TellsRaised(rows, e, m, g) && Plausible(d, e.sc, st, m)
    && (forall i :: 0 <= i < |g| ==> g[i] in e.found && g[i].metric == m)
    && d == if g != [] then DecideFound(e.sc, g, st, e.now)
            else if Gone(e.absent, m) then DecideGone(e.sc, st, m) else DecideAge(e.sc, st, m, e.now)
  }

  lemma PassRules(rows: Rows, e: Event, rows': Rows, m: Metric) returns (st: ScopeState, g: seq<Finding>, d: Decision)
    requires Passed(rows, e, rows')
    ensures Ruled(rows, e, m, st, g, d) && EffectOn(rows, e, rows', m, d)
  {
    hide Step, EffectOn, TellsRaised, Raised, DecideFound, DecideGone, DecideAge, Reads, Plausible;
    st := PassDecides(rows, e, rows', m);
    g := Raised(e.sc, e.found, st, m);
    d := Decide(e.sc, e.found, e.absent, st, e.now, m);
    RaisedMeans(rows, e, st, m);
    DecisionIsPlausible(e.sc, e.found, e.absent, st, e.now, m);
  }

  // The fingerprint the pass looks the condition up under.
  lemma OpenIsRead(rows: Rows, e: Event, m: Metric, st: ScopeState, id: string)
    requires e.Pass? && Keyed(rows) && OneOpenEach(rows) && Reads(rows, e.sc.kind, e.sc.id, st)
    requires IsOpen(rows, e, m, id)
    ensures rows[id].id == id && rows[id].fp == FingerprintOf(e.sc, m)
    ensures rows[id].fp in st.open && st.open[rows[id].fp] == rows[id]
  {
    ReadsTheOpenRow(rows, e.sc, st, id);
  }

  lemma NoneOpenIsRead(rows: Rows, e: Event, m: Metric, st: ScopeState)
    requires e.Pass? && Keyed(rows) && Reads(rows, e.sc.kind, e.sc.id, st) && forall k :: !IsOpen(rows, e, m, k)
    ensures FingerprintOf(e.sc, m) !in st.open
  {
    var fp := FingerprintOf(e.sc, m);
    if fp in st.open {
      assert IsOpen(rows, e, m, st.open[fp].id);
    }
  }

  // Whether a settled row of the condition is read, and then the newest.
  lemma SettledRead(rows: Rows, e: Event, m: Metric, st: ScopeState)
    requires e.Pass? && Keyed(rows) && Reads(rows, e.sc.kind, e.sc.id, st)
    ensures var fp := FingerprintOf(e.sc, m);
      && (fp in st.closed <==> exists k :: IsSettled(rows, e, m, k))
      && (fp in st.closed ==>
           NewestSettledRow(rows, e, m, st.closed[fp].id) && rows[st.closed[fp].id] == st.closed[fp])
  {
    var fp := FingerprintOf(e.sc, m);
    forall k | IsSettled(rows, e, m, k)
      ensures fp in st.closed && rows[k].lastSeenAt <= st.closed[fp].lastSeenAt
    {
      assert InScope(rows[k], e.sc.kind, e.sc.id) && rows[k].fp == fp;
    }
    if fp in st.closed {
      assert IsSettled(rows, e, m, st.closed[fp].id);
    }
  }

  // A decision reaches the row it aims at and no other of the condition.
  lemma DecisionReaches(rows: Rows, e: Event, rows': Rows, m: Metric, d: Decision, id: string)
    requires e.Pass? && Keyed(rows) && EffectOn(rows, e, rows', m, d) && id in rows && Of(rows[id], e, m)
    requires TargetOf(d) == Some(id) || TargetOf(d) == None
    ensures id in rows' && rows'[id] == if TargetOf(d) == None then rows[id] else Edited(rows[id], EditOf(d), e.now)
    ensures OnlyChanges(rows, e, rows', m, id)
    ensures TargetOf(d) == None ==> NoneChanges(rows, e, rows', m)
    ensures OpenedBy(d).None? ==> NoneOpens(rows, e, rows', m)
  {
  }

  // The severity an episode has once a finding of the other severity was seen.
  function Worse(a: Severity, b: Severity): Severity {
    if a == Critical || b == Critical then Critical else if a == Warning || b == Warning then Warning else Info
  }

  // A condition that is raised again refreshes its open row with the newest
  // finding; each run newer than the row's counts once, the last good backup
  // stays the recorded one and the severity never falls.
  lemma RaisedAgain(rows: Rows, e: Event, rows': Rows, m: Metric, id: string, i: nat)
    requires Passed(rows, e, rows') && IsOpen(rows, e, m, id) && rows[id].recoveredAt <= 0
    requires NewestRaised(rows, e, m, i)
    ensures var row, f := rows[id], e.found[i];
      && id in rows'
      && rows'[id] == row.(
           lastSeenAt := e.now, observed := f.observed, lastRunID := f.runID, lastRunAt := f.runAt,
           occurrences := row.occurrences + RaisedAfter(rows, e, m, row.lastRunAt),
           severity := Worse(row.severity, f.severity),
           details := if f.details == map[] then row.details
                      else if "lastGoodAt" in row.details then f.details["lastGoodAt" := row.details["lastGoodAt"]]
                      else f.details)
    ensures OnlyChanges(rows, e, rows', m, id) && NoneOpens(rows, e, rows', m)
  {
    hide Step, Passed, EffectOn, RaisedAt, Edited, KeepLastGood, Worse, SoundFindings, OneOpenEach;
    PassedIs(rows, e, rows');
    var st, g, d := PassRules(rows, e, rows', m);
    OpenIsRead(rows, e, m, st, id);
    InRange(rows, e, m, i);
    KeepsWith(rows, e, m, st, g, d, id, i);
    DecisionReaches(rows, e, rows', m, d, id);
    assert rows'[id] == Edited(rows[id], DoRefresh(d.refresh), e.now);
    RefreshedRow(rows[id], d.refresh, e.found[i].details, e.now);
  }

  lemma RefreshedRow(row: Row, r: Refresh, figures: Details, now: int)
    requires row.state == StateOpen && r.details == KeepLastGood(figures, row.details)
    ensures Edited(row, DoRefresh(r), now) == row.(
      lastSeenAt := r.lastSeenAt, observed := r.observed, lastRunID := r.lastRunID, lastRunAt := r.lastRunAt,
      occurrences := row.occurrences + r.occurrencesDelta, severity := Worse(row.severity, r.severity),
      details := if figures == map[] then row.details
                 else if "lastGoodAt" in row.details then figures["lastGoodAt" := row.details["lastGoodAt"]]
                 else figures)
  {
  }

  lemma PassedIs(rows: Rows, e: Event, rows': Rows)
    requires Passed(rows, e, rows')
    ensures e.Pass? && Keyed(rows) && OneOpenEach(rows) && SoundFindings(e.found, e.absent)
  {
  }

  lemma KeepsWith(rows: Rows, e: Event, m: Metric, st: ScopeState, g: seq<Finding>, d: Decision, id: string, i: nat)
    requires e.Pass? && Ruled(rows, e, m, st, g, d) && NewestRaised(rows, e, m, i) && i < |e.found|
    requires id in rows && FingerprintOf(e.sc, m) in st.open && st.open[FingerprintOf(e.sc, m)] == rows[id]
    requires rows[id].recoveredAt <= 0
    ensures var row, f := rows[id], e.found[i];
      d == Keep(Refresh(row.id, f.observed, f.severity, e.now, f.runID, f.runAt,
        RaisedAfter(rows, e, m, row.lastRunAt), KeepLastGood(f.details, row.details)))
  {
  }

  // The condition came back after its row was marked recovered: that row is
  // resolved and a new one takes its place.
  lemma RaisedAfterRecovery(rows: Rows, e: Event, rows': Rows, m: Metric, id: string, i: nat)
    requires Passed(rows, e, rows') && IsOpen(rows, e, m, id) && rows[id].recoveredAt > 0
    requires NewestRaised(rows, e, m, i)
    ensures id in rows'
      && rows'[id] == rows[id].(state := StateResolved, resolvedAt := e.now, clearedAt := e.now)
    ensures OnlyChanges(rows, e, rows', m, id) && i < |e.found| && OneOpens(rows, e, rows', m, e.found[i])
  {
    hide Step, Passed, EffectOn, RaisedAt, OneOpens;
    PassedIs(rows, e, rows');
    var st, g, d := PassRules(rows, e, rows', m);
    OpenIsRead(rows, e, m, st, id);
    InRange(rows, e, m, i);
    ReopensWith(rows, e, m, st, g, d, id, i);
    DecisionReaches(rows, e, rows', m, d, id);
    OpensOne(rows, e, rows', m, d, i);
  }

  lemma ReopensWith(rows: Rows, e: Event, m: Metric, st: ScopeState, g: seq<Finding>, d: Decision, id: string, i: nat)
    requires e.Pass? && Ruled(rows, e, m, st, g, d) && NewestRaised(rows, e, m, i) && i < |e.found|
    requires id in rows && FingerprintOf(e.sc, m) in st.open && st.open[FingerprintOf(e.sc, m)] == rows[id]
    requires rows[id].recoveredAt > 0
    ensures d == Reopen(rows[id].id, NewRow(e.sc, e.found[i], RaisedInAll(rows, e, m), e.now))
      && RaisedInAll(rows, e, m) > 0
  {
  }

  lemma OpensOne(rows: Rows, e: Event, rows': Rows, m: Metric, d: Decision, i: nat)
    requires e.Pass? && EffectOn(rows, e, rows', m, d) && i < |e.found| && e.found[i].metric == m
    requires OpenedBy(d) == Some(NewRow(e.sc, e.found[i], RaisedInAll(rows, e, m), e.now))
      && RaisedInAll(rows, e, m) > 0
    ensures OneOpens(rows, e, rows', m, e.found[i])
  {
    var id :| id in rows' && id !in rows && rows'[id] == Stored(OpenedBy(d).value, id);
    assert IsNew(rows, e, rows', m, e.found[i], RaisedInAll(rows, e, m), id);
  }

  // A condition nobody has open yet opens a row, unless a user settled it; a
  // settled one is only seen again. A single run is never settled for the next.
  lemma RaisedFirst(rows: Rows, e: Event, rows': Rows, m: Metric, i: nat)
    requires Passed(rows, e, rows') && NewestRaised(rows, e, m, i) && forall k :: !IsOpen(rows, e, m, k)
    requires m == NewData || m == NewDataRewrite || m == NewDataFull || forall k :: !IsSettled(rows, e, m, k)
    ensures NoneChanges(rows, e, rows', m) && i < |e.found| && OneOpens(rows, e, rows', m, e.found[i])
  {
    hide Step, Passed, EffectOn, RaisedAt, OneOpens, Reads, FingerprintOf;
    PassedIs(rows, e, rows');
    var st, g, d := PassRules(rows, e, rows', m);
    RuledReads(rows, e, m, st, g, d);
    NoneOpenIsRead(rows, e, m, st);
    SettledRead(rows, e, m, st);
    InRange(rows, e, m, i);
    OpensWith(rows, e, m, st, g, d, i);
    AimsAtNone(rows, e, rows', m, d);
    OpensOne(rows, e, rows', m, d, i);
  }

  lemma RuledReads(rows: Rows, e: Event, m: Metric, st: ScopeState, g: seq<Finding>, d: Decision)
    requires e.Pass? && Ruled(rows, e, m, st, g, d)
    ensures Reads(rows, e.sc.kind, e.sc.id, st)
  {
  }

  lemma OpensWith(rows: Rows, e: Event, m: Metric, st: ScopeState, g: seq<Finding>, d: Decision, i: nat)
    requires e.Pass? && SoundFindings(e.found, e.absent) && Ruled(rows, e, m, st, g, d)
    requires NewestRaised(rows, e, m, i) && i < |e.found| && FingerprintOf(e.sc, m) !in st.open
    requires FingerprintOf(e.sc, m) in st.closed ==> m == NewData || m == NewDataRewrite || m == NewDataFull
    ensures d == Open(NewRow(e.sc, e.found[i], RaisedInAll(rows, e, m), e.now)) && RaisedInAll(rows, e, m) > 0
  {
    hide Reads, Plausible, RaisedAt;
    InRange(rows, e, m, i);
  }

  lemma AimsAtNone(rows: Rows, e: Event, rows': Rows, m: Metric, d: Decision)
    requires e.Pass? && EffectOn(rows, e, rows', m, d) && TargetOf(d) == None
    ensures NoneChanges(rows, e, rows', m) && (OpenedBy(d).None? ==> NoneOpens(rows, e, rows', m))
  {
  }

  lemma RaisedWhileSettled(rows: Rows, e: Event, rows': Rows, m: Metric, i: nat) returns (id: string)
    requires Passed(rows, e, rows') && NewestRaised(rows, e, m, i) && forall k :: !IsOpen(rows, e, m, k)
    requires m != NewData && m != NewDataRewrite && m != NewDataFull && exists k :: IsSettled(rows, e, m, k)
    ensures NewestSettledRow(rows, e, m, id) && i < |e.found|
    ensures id in rows' && rows'[id] == rows[id].(lastSeenAt := e.now, observed := e.found[i].observed)
    ensures OnlyChanges(rows, e, rows', m, id) && NoneOpens(rows, e, rows', m)
  {
    hide Step, Passed, EffectOn, RaisedAt, Reads;
    PassedIs(rows, e, rows');
    var st, g, d := PassRules(rows, e, rows', m);
    RuledReads(rows, e, m, st, g, d);
    NoneOpenIsRead(rows, e, m, st);
    SettledRead(rows, e, m, st);
    id := st.closed[FingerprintOf(e.sc, m)].id;
    InRange(rows, e, m, i);
    TouchesWith(rows, e, m, st, g, d, i);
    DecisionReaches(rows, e, rows', m, d, id);
  }

  lemma TouchesWith(rows: Rows, e: Event, m: Metric, st: ScopeState, g: seq<Finding>, d: Decision, i: nat)
    requires e.Pass? && SoundFindings(e.found, e.absent) && Ruled(rows, e, m, st, g, d)
    requires NewestRaised(rows, e, m, i) && i < |e.found| && FingerprintOf(e.sc, m) !in st.open
    requires FingerprintOf(e.sc, m) in st.closed && m != NewData && m != NewDataRewrite && m != NewDataFull
    ensures d == TouchSettled(Touch(st.closed[FingerprintOf(e.sc, m)].id, e.found[i].observed, e.now))
  {
    hide Reads, Plausible, RaisedAt;
    InRange(rows, e, m, i);
  }

  ghost predicate ReportedGone(e: Event, m: Metric)
    requires e.Pass?
  {
    exists i :: 0 <= i < |e.absent| && e.absent[i].metric == m
  }

  // The metrics whose critical row waits to be seen.
  predicate AboutLostData(m: Metric) {
    m == SourceBytesShrink || m == SourceFilesShrink || m == DumpBytesShrink || m == NewDataRewrite || m == CapacityEta
      || m == CapacityLow
  }

  // A condition that is gone resolves its open row, except that a critical one
  // about lost data is marked recovered, once, and stays open.
  lemma GoneWhileOpen(rows: Rows, e: Event, rows': Rows, m: Metric, id: string)
    requires Passed(rows, e, rows') && IsOpen(rows, e, m, id) && NothingRaised(rows, e, m) && ReportedGone(e, m)
    ensures id in rows' && rows'[id] ==
      if rows[id].severity == Critical && AboutLostData(m)
      then rows[id].(recoveredAt := if rows[id].recoveredAt == 0 then e.now else rows[id].recoveredAt)
      else rows[id].(state := StateResolved, resolvedAt := e.now, clearedAt := e.now)
    ensures OnlyChanges(rows, e, rows', m, id) && NoneOpens(rows, e, rows', m)
  {
    hide Step, Passed, EffectOn, RaisedAt, Reads, TellsRaised, Ruled, Plausible, SoundFindings, OneOpenEach;
    PassedIs(rows, e, rows');
    var st, g, d := PassRules(rows, e, rows', m);
    RuledReads(rows, e, m, st, g, d);
    OpenIsRead(rows, e, m, st, id);
    NoneToDecide(rows, e, m, st, g, d);
    DecisionReaches(rows, e, rows', m, d, id);
  }

  lemma NoneToDecide(rows: Rows, e: Event, m: Metric, st: ScopeState, g: seq<Finding>, d: Decision)
    requires e.Pass? && Ruled(rows, e, m, st, g, d) && NothingRaised(rows, e, m)
    ensures d == if ReportedGone(e, m) then DecideGone(e.sc, st, m) else DecideAge(e.sc, st, m, e.now)
    ensures OpenedBy(d).None?
  {
  }

  // A settled condition that is gone is over: its newest settled row is
  // cleared, and one raised later opens a row again.
  lemma GoneWhileSettled(rows: Rows, e: Event, rows': Rows, m: Metric) returns (id: string)
    requires Passed(rows, e, rows') && NothingRaised(rows, e, m) && ReportedGone(e, m)
    requires (forall k :: !IsOpen(rows, e, m, k)) && exists k :: IsSettled(rows, e, m, k)
    ensures NewestSettledRow(rows, e, m, id) && id in rows' && rows'[id] == rows[id].(clearedAt := e.now)
    ensures OnlyChanges(rows, e, rows', m, id) && NoneOpens(rows, e, rows', m)
  {
    hide Step, Passed, EffectOn, RaisedAt, Reads, TellsRaised, Ruled, Plausible, SoundFindings, OneOpenEach;
    PassedIs(rows, e, rows');
    var st, g, d := PassRules(rows, e, rows', m);
    RuledReads(rows, e, m, st, g, d);
    NoneOpenIsRead(rows, e, m, st);
    SettledRead(rows, e, m, st);
    id := st.closed[FingerprintOf(e.sc, m)].id;
    NoneToDecide(rows, e, m, st, g, d);
    DecisionReaches(rows, e, rows', m, d, id);
  }

  // The row stays as it is, unless it is an open warning about a run that is
  // more than seven days old.
  ghost predicate OldWarningEnds(row: Row, e: Event, after: Row)
    requires e.Pass?
  {
    var m := row.fp.metric;
    if (row.state == StateOpen && row.severity != Critical && e.now - row.lastRunAt > 604800
        && (m == NewData || m == NewDataRewrite || m == NewDataFull))
    then after == row.(state := StateResolved, resolvedAt := e.now, clearedAt := e.now) else after == row
  }

  // Without a word about a condition its rows stay as they are; only a warning
  // about a single run ends, seven days after the run.
  lemma NothingHeard(rows: Rows, e: Event, rows': Rows, m: Metric)
    requires Passed(rows, e, rows') && NothingRaised(rows, e, m)
    requires !ReportedGone(e, m) || forall k :: !IsOpen(rows, e, m, k) && !IsSettled(rows, e, m, k)
    ensures NoneOpens(rows, e, rows', m)
    ensures forall k :: k in rows && Of(rows[k], e, m) ==> k in rows' && OldWarningEnds(rows[k], e, rows'[k])
  {
    hide Step, Passed, EffectOn, RaisedAt, Reads, TellsRaised, OldWarningEnds, Ruled, IsOpen;
    PassedIs(rows, e, rows');
    var st, g, d := PassRules(rows, e, rows', m);
    RuledReads(rows, e, m, st, g, d);
    NoneToDecide(rows, e, m, st, g, d);
    if exists k :: IsOpen(rows, e, m, k) {
      var id :| IsOpen(rows, e, m, id);
      QuietOpen(rows, e, rows', m, st, d, id);
    } else {
      QuietClosed(rows, e, rows', m, st, d);
    }
  }

  lemma QuietOpen(rows: Rows, e: Event, rows': Rows, m: Metric, st: ScopeState, d: Decision, id: string)
    requires e.Pass? && Keyed(rows) && OneOpenEach(rows) && Reads(rows, e.sc.kind, e.sc.id, st)
    requires IsOpen(rows, e, m, id) && d == DecideAge(e.sc, st, m, e.now) && EffectOn(rows, e, rows', m, d)
    ensures NoneOpens(rows, e, rows', m)
    ensures forall k :: k in rows && Of(rows[k], e, m) ==> k in rows' && OldWarningEnds(rows[k], e, rows'[k])
  {
    hide EffectOn, Reads, Keyed, OneOpenEach;
    OpenIsRead(rows, e, m, st, id);
    OnlyOpen(rows, e, m, id);
    DecisionReaches(rows, e, rows', m, d, id);
    forall k | k in rows && Of(rows[k], e, m) ensures k in rows' && OldWarningEnds(rows[k], e, rows'[k]) {
      assert IsOpen(rows, e, m, k) ==> k == id;
    }
  }

  lemma QuietClosed(rows: Rows, e: Event, rows': Rows, m: Metric, st: ScopeState, d: Decision)
    requires e.Pass? && Keyed(rows) && Reads(rows, e.sc.kind, e.sc.id, st) && EffectOn(rows, e, rows', m, d)
    requires forall k :: !IsOpen(rows, e, m, k)
    requires d == DecideAge(e.sc, st, m, e.now)
      || (d == DecideGone(e.sc, st, m) && forall k :: !IsSettled(rows, e, m, k))
    ensures NoneOpens(rows, e, rows', m)
    ensures forall k :: k in rows && Of(rows[k], e, m) ==> k in rows' && OldWarningEnds(rows[k], e, rows'[k])
  {
    hide EffectOn, Reads, Keyed;
    NoneOpenIsRead(rows, e, m, st);
    SettledRead(rows, e, m, st);
    AimsAtNone(rows, e, rows', m, d);
    forall k | k in rows && Of(rows[k], e, m) ensures k in rows' && OldWarningEnds(rows[k], e, rows'[k]) {
      assert !IsOpen(rows, e, m, k);
    }
  }

  lemma OnlyOpen(rows: Rows, e: Event, m: Metric, id: string)
    requires e.Pass? && Keyed(rows) && OneOpenEach(rows) && IsOpen(rows, e, m, id)
    ensures forall k :: IsOpen(rows, e, m, k) ==> k == id
  {
  }

  // ---- an alarm about lost data -------------------------------------------

  // The row is an open critical alarm of this condition.
  ghost predicate Alarm(rows: Rows, id: string, fp: Fingerprint) {
    && id in rows && rows[id].fp == fp && rows[id].state == StateOpen && rows[id].severity == Critical
    && (fp.metric == SourceBytesShrink || fp.metric == SourceFilesShrink || fp.metric == DumpBytesShrink
        || fp.metric == NewDataRewrite || fp.metric == CapacityEta || fp.metric == CapacityLow)
  }

  // The two ways such a row ends: a user settles it, or the condition is back
  // after it was gone, and a new row takes over.
  ghost predicate EndsAlarm(rows: Rows, e: Event, id: string)
    requires id in rows
  {
    || (e.Settle? && id in e.rowIDs)
    || (e.Pass? && Of(rows[id], e, rows[id].fp.metric) && rows[id].recoveredAt > 0
        && !NothingRaised(rows, e, rows[id].fp.metric))
  }

  lemma NewestIsRaised(rows: Rows, e: Event, m: Metric) returns (i: nat)
    requires e.Pass? && !NothingRaised(rows, e, m)
    ensures NewestRaised(rows, e, m, i)
  {
    var k :| 0 <= k < |e.found| && RaisedAt(rows, e, m, k);
    i := LastRaised(rows, e, m, k, |e.found|);
  }

  lemma LastRaised(rows: Rows, e: Event, m: Metric, k: nat, n: nat) returns (i: nat)
    requires e.Pass? && k < n <= |e.found| && RaisedAt(rows, e, m, k)
    ensures i < n && RaisedAt(rows, e, m, i) && forall j :: i < j < n ==> !RaisedAt(rows, e, m, j)
    decreases n
  {
    if k == n - 1 || RaisedAt(rows, e, m, n - 1) {
      i := n - 1;
    } else {
      i := LastRaised(rows, e, m, k, n - 1);
    }
  }

  lemma PassOnAlarm(rows: Rows, e: Event, rows': Rows, id: string, fp: Fingerprint)
    requires Passed(rows, e, rows') && Alarm(rows, id, fp) && Of(rows[id], e, fp.metric)
    ensures id in rows' && (Alarm(rows', id, fp) <==> !EndsAlarm(rows, e, id))
  {
    hide Step, Passed, RaisedAt, Keyed, OneOpenEach, SoundFindings;
    PassedIs(rows, e, rows');
    if !NothingRaised(rows, e, fp.metric) {
      var i := NewestIsRaised(rows, e, fp.metric);
      if rows[id].recoveredAt > 0 {
        RaisedAfterRecovery(rows, e, rows', fp.metric, id, i);
      } else {
        RaisedAgain(rows, e, rows', fp.metric, id, i);
      }
    } else if ReportedGone(e, fp.metric) {
      GoneWhileOpen(rows, e, rows', fp.metric, id);
    } else {
      NothingHeard(rows, e, rows', fp.metric);
    }
  }

  // One step ends the alarm in exactly these two ways.
  lemma AlarmEndsExactly(rows: Rows, e: Event, rows': Rows, id: string, fp: Fingerprint)
    requires Keyed(rows) && OneOpenEach(rows) && Step(rows, e, rows') && Alarm(rows, id, fp)
    requires e.Pass? ==> SoundFindings(e.found, e.absent)
    ensures id in rows' && (Alarm(rows', id, fp) <==> !EndsAlarm(rows, e, id))
  {
    hide Keyed, OneOpenEach, SoundFindings;
    if e.Pass? {
      hide Step;
      if Of(rows[id], e, fp.metric) {
        PassOnAlarm(rows, e, rows', id, fp);
      } else {
        ElsewherePassed(rows, e, rows', id);
      }
    }
  }

  // Over every history an alarm about lost data stands, recovered or not, until
  // a user settles it or the condition is raised again after its recovery.
  lemma {:induction false} AlarmStands(events: seq<Event>, tables: seq<Rows>, id: string, fp: Fingerprint, n: nat)
    requires History(events, tables) && n <= |events| && Alarm(tables[0], id, fp)
    requires forall i :: 0 <= i < n && events[i].Pass? ==> SoundFindings(events[i].found, events[i].absent)
    requires forall i :: 0 <= i < n && id in tables[i] ==> !EndsAlarm(tables[i], events[i], id)
    ensures Alarm(tables[n], id, fp)
  {
    hide Alarm, EndsAlarm, Keyed, OneOpenEach, Step;
    if n > 0 {
      AlarmStands(events, tables, id, fp, n - 1);
      HistoryKeepsTable(events, tables, n - 1);
      AlarmIsThere(tables[n - 1], id, fp);
      AlarmEndsExactly(tables[n - 1], events[n - 1], tables[n], id, fp);
    }
  }

  lemma AlarmIsThere(rows: Rows, id: string, fp: Fingerprint)
    requires Alarm(rows, id, fp)
    ensures id in rows
  {
  }

  // ---- what users and the pruning do --------------------------------------

  // A user's action changes the state and the time of the open rows it names,
  // and nothing else.
  lemma SettleOutcome(rows: Rows, e: Event, rows': Rows)
    requires e.Settle? && Step(rows, e, rows')
    ensures rows'.Keys == rows.Keys
    ensures forall k :: k in rows && rows[k].state == StateOpen && k in e.rowIDs ==>
      rows'[k] == rows[k].(ackedAt := e.at, state := if e.expected then StateExpected else StateAcknowledged)
    ensures forall k :: k in rows && !(rows[k].state == StateOpen && k in e.rowIDs) ==> rows'[k] == rows[k]
  {
  }

  // The pruning drops what is resolved, or settled and over since, once all its
  // times are before the cutoff, and changes nothing else.
  lemma PruneOutcome(rows: Rows, e: Event, rows': Rows)
    requires e.Prune? && Step(rows, e, rows')
    ensures forall k :: k in rows' ==> k in rows && rows'[k] == rows[k]
    ensures forall k :: k in rows ==> (k !in rows' <==>
      rows[k].resolvedAt < e.before && rows[k].ackedAt < e.before && rows[k].lastSeenAt < e.before
      && (rows[k].state == StateResolved
          || ((rows[k].state == StateAcknowledged || rows[k].state == StateExpected) && rows[k].clearedAt != 0)))
  {
  }

  // ---- a retention hold ---------------------------------------------------

  // An open critical row about lost data that has not recovered; the capacity
  // alarms do not stop old backups from being deleted.
  predicate Holds(row: Row) {
    && row.state == StateOpen && row.severity == Critical && row.recoveredAt == 0
    && (row.fp.metric == SourceBytesShrink || row.fp.metric == SourceFilesShrink || row.fp.metric == DumpBytesShrink
        || row.fp.metric == NewDataRewrite)
  }

  // The ways a hold ends: a user settles the row, or a pass finds the condition
  // gone.
  ghost predicate EndsHold(rows: Rows, e: Event, id: string)
    requires id in rows
  {
    || (e.Settle? && id in e.rowIDs)
    || (e.Pass? && Of(rows[id], e, rows[id].fp.metric) && ReportedGone(e, rows[id].fp.metric)
        && NothingRaised(rows, e, rows[id].fp.metric) && e.now != 0)
  }

  // Where holds are switched on, a hold ends in exactly these ways; the row
  // itself stays where only the condition went.
  lemma HoldEndsExactly(rows: Rows, e: Event, rows': Rows, id: string, enabled: bool, hold: bool)
    requires Keyed(rows) && OneOpenEach(rows) && Step(rows, e, rows') && id in rows && Holds(rows[id])
    requires e.Pass? ==> SoundFindings(e.found, e.absent)
    ensures id in rows' && (AnomalyHolds(rows'[id], enabled, hold) <==> enabled && hold && !EndsHold(rows, e, id))
    ensures e.Pass? ==> rows'[id].state == StateOpen && rows'[id].severity == Critical
  {
    hide Keyed, OneOpenEach, SoundFindings;
    if e.Pass? {
      hide Step;
      if Of(rows[id], e, rows[id].fp.metric) {
        PassOnHold(rows, e, rows', id);
      } else {
        ElsewherePassed(rows, e, rows', id);
      }
    }
  }

  lemma PassOnHold(rows: Rows, e: Event, rows': Rows, id: string)
    requires Passed(rows, e, rows') && id in rows && Holds(rows[id]) && Of(rows[id], e, rows[id].fp.metric)
    ensures id in rows' && rows'[id].state == StateOpen && rows'[id].severity == Critical
      && rows'[id].fp == rows[id].fp
    ensures rows'[id].recoveredAt == if EndsHold(rows, e, id) then e.now else 0
  {
    hide Step, Passed, RaisedAt, Keyed, OneOpenEach, SoundFindings;
    PassedIs(rows, e, rows');
    var m := rows[id].fp.metric;
    if !NothingRaised(rows, e, m) {
      var i := NewestIsRaised(rows, e, m);
      RaisedAgain(rows, e, rows', m, id, i);
    } else if ReportedGone(e, m) {
      GoneWhileOpen(rows, e, rows', m, id);
    } else {
      NothingHeard(rows, e, rows', m);
    }
  }

  // No other row ever holds.
  lemma OnlyTheseHold(row: Row, enabled: bool, hold: bool)
    ensures AnomalyHolds(row, enabled, hold) <==> enabled && hold && Holds(row)
  {
  }
}
