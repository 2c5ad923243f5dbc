// One pass's findings and absences turned into row changes
// (anomaly_lifecycle.go). Decide says, per metric, what the pass does with the
// episode of that fingerprint; ApplyFindings walks the findings, the absences
// and the open rows the way the program does and writes exactly those
// decisions.
module AnomalyLifecycle {
  import opened Ordering
  import opened AnomalyTypes

  const EVENT_OPEN_SECONDS := 7 * 86400

  datatype Refresh = Refresh(id: string, observed: real, severity: Severity, lastSeenAt: int,
                             lastRunID: string, lastRunAt: int, occurrencesDelta: nat, details: Details)

  // A row a user settled and whose condition is still there.
  datatype Touch = Touch(id: string, observed: real, lastSeenAt: int)

  datatype Changes = Changes(insert: seq<Row>, refresh: seq<Refresh>, recover: seq<string>, resolve: seq<string>,
                             clear: seq<string>, touchClosed: seq<Touch>)

  // What a pass reads about its scope: the open rows, the settled uncleared
  // ones and the newest run any row of a fingerprint saw.
  datatype ScopeState = ScopeState(open: map<Fingerprint, Row>, closed: map<Fingerprint, Row>,
    lastRunAt: map<Fingerprint, int>) {
    function LastRunAt(fp: Fingerprint): int { if fp in lastRunAt then lastRunAt[fp] else 0 }
  }

  // Every row stands under its own fingerprint and every fingerprint is one of
  // the scope's.
  ghost predicate OfScope(sc: ScopeRef, st: ScopeState) {
    && (forall fp :: fp in st.open ==> st.open[fp].fp == fp && fp == FingerprintOf(sc, fp.metric))
    && (forall fp :: fp in st.closed ==> st.closed[fp].fp == fp && fp == FingerprintOf(sc, fp.metric))
  }

  // ---- grouping -----------------------------------------------------------

  function Group(found: seq<Finding>, m: Metric): (g: seq<Finding>)
    ensures forall i :: 0 <= i < |g| ==> g[i] in found && g[i].metric == m
  {
    if found == [] then []
    else Group(found[..|found| - 1], m) + (if found[|found| - 1].metric == m then [found[|found| - 1]] else [])
  }

  function Since(group: seq<Finding>, at: int): (g: seq<Finding>)
    ensures forall i :: 0 <= i < |g| ==> g[i] in group && g[i].runAt > at
  {
    if group == [] then []
    else Since(group[..|group| - 1], at) + (if group[|group| - 1].runAt > at then [group[|group| - 1]] else [])
  }

  method RaisedSince(group: seq<Finding>, at: int) returns (g: seq<Finding>)
    ensures g == Since(group, at)
  {
    g := [];
    for i := 0 to |group|
      invariant g == Since(group[..i], at)
    {
      assert group[..i + 1][..i] == group[..i];
      if group[i].runAt > at {
        g := g + [group[i]];
      }
    }
    assert group[..|group|] == group;
  }

  lemma {:induction false} GroupHas(found: seq<Finding>, m: Metric)
    ensures Group(found, m) == [] <==> forall f :: f in found ==> f.metric != m
  {
    if found != [] {
      var n := |found| - 1;
      GroupHas(found[..n], m);
      assert found == found[..n] + [found[n]];
    }
  }

  lemma GroupStep(found: seq<Finding>, i: nat)
    requires i < |found|
    ensures Group(found[..i + 1], found[i].metric) == Group(found[..i], found[i].metric) + [found[i]]
    ensures forall m :: m != found[i].metric ==> Group(found[..i + 1], m) == Group(found[..i], m)
  {
    assert found[..i + 1][..i] == found[..i];
  }

  ghost predicate Gathered(found: seq<Finding>, order: seq<Metric>, groups: map<Metric, seq<Finding>>) {
    && Distinct(order)
    && (forall m :: m in groups <==> m in order)
    && (forall m :: m in groups ==> groups[m] != [] && groups[m] == Group(found, m))
    && (forall m :: m !in groups ==> Group(found, m) == [])
  }

  lemma NoneGathered()
    ensures Gathered([], [], map[])
  {
  }

  lemma GatheredOneMore(found: seq<Finding>, i: nat, order: seq<Metric>, groups: map<Metric, seq<Finding>>)
    requires i < |found| && Gathered(found[..i], order, groups)
    ensures
      var m := found[i].metric;
      && (m in order <==> m in groups)
      && Gathered(found[..i + 1], if m in order then order else order + [m],
         groups[m := (if m in groups then groups[m] else []) + [found[i]]])
  {
    hide Group;
    GroupStep(found, i);
  }

  // The groups of the metrics that were found, each metric once.
  ghost predicate GroupedBy(found: seq<Finding>, out: seq<seq<Finding>>, order: seq<Metric>) {
    && |out| == |order| && Distinct(order)
    && (forall i :: 0 <= i < |out| ==> out[i] != [] && out[i] == Group(found, order[i]))
    && (forall m :: m !in order ==> Group(found, m) == [])
  }

  // Where a metric first appears, the length when it does not.
  function FirstOf(found: seq<Finding>, m: Metric): (r: nat)
    ensures r <= |found| && (r < |found| ==> found[r].metric == m)
    ensures forall k :: 0 <= k < r ==> found[k].metric != m
  {
    if found == [] || found[0].metric == m then 0 else 1 + FirstOf(found[1..], m)
  }

  // Each metric of the list appears in the findings, and before the next one.
  ghost predicate InFirstOrder(found: seq<Finding>, order: seq<Metric>) {
    && (forall i :: 0 <= i < |order| ==> FirstOf(found, order[i]) < |found|)
    && forall i, j :: 0 <= i < j < |order| ==> FirstOf(found, order[i]) < FirstOf(found, order[j])
  }

  // The metrics listed are the ones that appear before position n.
  ghost predicate FirstListed(found: seq<Finding>, order: seq<Metric>, n: nat) {
    && InFirstOrder(found, order)
    && forall m :: m in order <==> FirstOf(found, m) < n
  }

  lemma NoneListed(found: seq<Finding>)
    ensures FirstListed(found, [], 0)
  {
  }

  lemma ListedInOrder(found: seq<Finding>, order: seq<Metric>, n: nat)
    requires FirstListed(found, order, n)
    ensures InFirstOrder(found, order)
  {
  }

  lemma FirstListedOn(found: seq<Finding>, order: seq<Metric>, n: nat)
    requires n < |found| && FirstListed(found, order, n)
    ensures FirstListed(found, if found[n].metric in order then order else order + [found[n].metric], n + 1)
  {
    var m := found[n].metric;
    assert m !in order ==> FirstOf(found, m) == n;
    forall k | FirstOf(found, k) == n ensures k == m {}
  }

  // The findings gathered per metric, in the order the metrics first appear.
  method ByMetric(found: seq<Finding>) returns (out: seq<seq<Finding>>, ghost order: seq<Metric>)
    ensures GroupedBy(found, out, order) && InFirstOrder(found, order)
  {
    var groups, seen := GatherGroups(found);
    order := seen;
    out := [];
    for i := 0 to |seen|
      invariant |out| == i
      invariant forall j :: 0 <= j < i ==> seen[j] in groups && out[j] == groups[seen[j]]
    {
      out := out + [groups[seen[i]]];
    }
  }

  method GatherGroups(found: seq<Finding>) returns (groups: map<Metric, seq<Finding>>, seen: seq<Metric>)
    ensures Gathered(found, seen, groups) && InFirstOrder(found, seen)
  {
    hide FirstListed, InFirstOrder, Gathered;
    seen, groups := [], map[];
    NoneListed(found);
    NoneGathered();
    for i := 0 to |found|
      invariant Gathered(found[..i], seen, groups) && FirstListed(found, seen, i)
    {
      var m := found[i].metric;
      GatheredOneMore(found, i, seen, groups);
      FirstListedOn(found, seen, i);
      ghost var before := groups;
      if m !in groups {
        seen := seen + [m];
        groups := groups[m := []];
      }
      groups := groups[m := groups[m] + [found[i]]];
      assert groups == before[m := (if m in before then before[m] else []) + [found[i]]];
    }
    assert found[..|found|] == found;
    ListedInOrder(found, seen, |found|);
  }

  // ---- the decision per metric --------------------------------------------

  datatype Decision =
    | Leave
    | Open(row: Row)
    | Keep(refresh: Refresh)
    | Reopen(previous: string, row: Row)
    | TouchSettled(touch: Touch)
    | Recover(id: string)
    | Resolve(id: string)
    | Clear(id: string)

  function NewRow(sc: ScopeRef, f: Finding, occurrences: nat, now: int): Row {
    Row("", FingerprintOf(sc, f.metric), f.severity, StateOpen, sc.targetID, sc.domain,
        if f.onsetRunID != "" then f.onsetRunID else f.runID, f.runID, f.lastGoodRunID, f.runAt,
        f.observed, f.expected, f.threshold, f.samples, sc.sensitivity, f.details, occurrences,
        now, now, 0, 0, 0, 0)
  }

  // The figures a refresh stores: the last good backup stays the one the
  // episode recorded. No figures at all leave the stored ones alone.
  function KeepLastGood(figures: Details, stored: Details): Details {
    if figures == map[] || "lastGoodAt" !in stored then figures else figures["lastGoodAt" := stored["lastGoodAt"]]
  }

  // What a pass raised for one metric; an event is dropped when a row of its
  // fingerprint already saw the run.
  function Raised(sc: ScopeRef, found: seq<Finding>, st: ScopeState, m: Metric): (g: seq<Finding>)
    ensures forall i :: 0 <= i < |g| ==> g[i] in found && g[i].metric == m
  {
    var g := Group(found, m);
    if g != [] && g[0].event then Since(g, st.LastRunAt(FingerprintOf(sc, m))) else g
  }

  predicate Gone(absent: seq<Absence>, m: Metric) { exists i :: 0 <= i < |absent| && absent[i].metric == m }

  function DecideFound(sc: ScopeRef, g: seq<Finding>, st: ScopeState, now: int): Decision
    requires g != []
  {
    var fp, newest := FingerprintOf(sc, g[0].metric), g[|g| - 1];
    if fp in st.open then
      var open := st.open[fp];
      if open.recoveredAt > 0 then Reopen(open.id, NewRow(sc, newest, |g|, now))
      else Keep(Refresh(open.id, newest.observed, newest.severity, now, newest.runID, newest.runAt,
                        |Since(g, open.lastRunAt)|, KeepLastGood(newest.details, open.details)))
    else if fp in st.closed && !newest.event then TouchSettled(Touch(st.closed[fp].id, newest.observed, now))
    else Open(NewRow(sc, newest, |g|, now))
  }

  function DecideGone(sc: ScopeRef, st: ScopeState, m: Metric): Decision {
    var fp := FingerprintOf(sc, m);
    if fp in st.open then
      if st.open[fp].severity == Critical && NeedsAck(m)
      then (if st.open[fp].recoveredAt == 0 then Recover(st.open[fp].id) else Leave)
      else Resolve(st.open[fp].id)
    else if fp in st.closed then Clear(st.closed[fp].id)
    else Leave
  }

  function DecideAge(sc: ScopeRef, st: ScopeState, m: Metric, now: int): Decision {
    var fp := FingerprintOf(sc, m);
    if fp in st.open && st.open[fp].severity != Critical && IsEvent(m)
      && now - st.open[fp].lastRunAt > EVENT_OPEN_SECONDS
    then Resolve(st.open[fp].id) else Leave
  }

  function Decide(sc: ScopeRef, found: seq<Finding>, absent: seq<Absence>, st: ScopeState, now: int,
      m: Metric): Decision {
    var g := Raised(sc, found, st, m);
    if g != [] then DecideFound(sc, g, st, now)
    else if Gone(absent, m) then DecideGone(sc, st, m)
    else DecideAge(sc, st, m, now)
  }

  function Put(ch: Changes, d: Decision): Changes {
    match d
    case Leave => ch
    case Open(row) => ch.(insert := ch.insert + [row])
    case Keep(r) => ch.(refresh := ch.refresh + [r])
    case Reopen(previous, row) => ch.(resolve := ch.resolve + [previous], insert := ch.insert + [row])
    case TouchSettled(t) => ch.(touchClosed := ch.touchClosed + [t])
    case Recover(id) => ch.(recover := ch.recover + [id])
    case Resolve(id) => ch.(resolve := ch.resolve + [id])
    case Clear(id) => ch.(clear := ch.clear + [id])
  }

  const NO_CHANGES := Changes([], [], [], [], [], [])

  // The decisions about the given metrics, written one after the other.
  ghost function PutAll(decide: Metric -> Decision, ms: seq<Metric>): Changes {
    if ms == [] then NO_CHANGES
    else Put(PutAll(decide, ms[..|ms| - 1]), decide(ms[|ms| - 1]))
  }

  lemma PutOneMore(decide: Metric -> Decision, ms: seq<Metric>, m: Metric)
    ensures PutAll(decide, ms + [m]) == Put(PutAll(decide, ms), decide(m))
  {
    assert (ms + [m])[..|ms|] == ms;
  }

  ghost function Decisions(sc: ScopeRef, found: seq<Finding>, absent: seq<Absence>, st: ScopeState,
      now: int): Metric -> Decision {
    (m: Metric) => Decide(sc, found, absent, st, now, m)
  }

  // The metrics one pass wrote about, each decided once, and everything else
  // left alone.
  ghost predicate WritesDecisions(decide: Metric -> Decision, ch: Changes, ms: seq<Metric>) {
    && Distinct(ms)
    && ch == PutAll(decide, ms)
    && forall m :: m !in ms ==> decide(m) == Leave
  }

  ghost predicate NothingKept(sc: ScopeRef, st: ScopeState, m: Metric) {
    FingerprintOf(sc, m) !in st.open && FingerprintOf(sc, m) !in st.closed
  }

  // A group of findings written: the branches of the first loop.
  method WriteFound(sc: ScopeRef, group: seq<Finding>, st: ScopeState, now: int, before: Changes) returns (ch: Changes)
    requires group != []
    ensures ch == Put(before, DecideFound(sc, group, st, now))
  {
    ch := before;
    var fp := FingerprintOf(sc, group[0].metric);
    var newest := group[|group| - 1];
    if fp in st.open {
      var open := st.open[fp];
      if open.recoveredAt > 0 {
        ch := ch.(resolve := ch.resolve + [open.id]);
        ch := ch.(insert := ch.insert + [NewRow(sc, newest, |group|, now)]);
      } else {
        var again := RaisedSince(group, open.lastRunAt);
        ch := ch.(refresh :=
          ch.refresh + [Refresh(open.id, newest.observed, newest.severity, now, newest.runID, newest.runAt,
                                                   |again|, KeepLastGood(newest.details, open.details))]);
      }
      return;
    }
    if fp in st.closed && !newest.event {
      ch := ch.(touchClosed := ch.touchClosed + [Touch(st.closed[fp].id, newest.observed, now)]);
      return;
    }
    ch := ch.(insert := ch.insert + [NewRow(sc, newest, |group|, now)]);
  }

  // A group written without the events a row already saw.
  method WriteGroup(sc: ScopeRef, all: seq<Finding>, st: ScopeState, now: int, before: Changes)
      returns (ch: Changes, wrote: bool)
    requires all != []
    ensures var group := if all[0].event then Since(all, st.LastRunAt(FingerprintOf(sc, all[0].metric))) else all;
      && (wrote <==> group != [])
      && ch == if group != [] then Put(before, DecideFound(sc, group, st, now)) else before
  {
    var group := all;
    if group[0].event {
      group := RaisedSince(group, st.LastRunAt(FingerprintOf(sc, all[0].metric)));
    }
    if |group| == 0 {
      return before, false;
    }
    ch := WriteFound(sc, group, st, now, before);
    wrote := true;
  }

  // An absence written: the branches of the second loop.
  method WriteGone(sc: ScopeRef, m: Metric, st: ScopeState, before: Changes) returns (ch: Changes, wrote: bool)
    ensures ch == Put(before, DecideGone(sc, st, m))
    ensures wrote <==> !NothingKept(sc, st, m)
  {
    ch, wrote := before, false;
    var fp := FingerprintOf(sc, m);
    if fp in st.open {
      var open := st.open[fp];
      if open.severity == Critical && NeedsAck(m) {
        if open.recoveredAt == 0 {
          ch := ch.(recover := ch.recover + [open.id]);
        }
      } else {
        ch := ch.(resolve := ch.resolve + [open.id]);
      }
      return ch, true;
    }
    if fp in st.closed {
      ch := ch.(clear := ch.clear + [st.closed[fp].id]);
      wrote := true;
    }
  }

  // What is written so far: ch holds the decisions about ms, in that order.
  ghost predicate Written(sc: ScopeRef, decide: Metric -> Decision, ch: Changes, ms: seq<Metric>,
      written: set<Fingerprint>) {
    && Distinct(ms)
    && ch == PutAll(decide, ms)
    && forall m :: m in ms <==> FingerprintOf(sc, m) in written
  }

  lemma GroupsMatch(sc: ScopeRef, found: seq<Finding>, st: ScopeState, groups: seq<seq<Finding>>, order: seq<Metric>)
    requires GroupedBy(found, groups, order)
    ensures |groups| == |order| && forall m :: m !in order ==> Raised(sc, found, st, m) == []
  {
  }

  lemma GroupAt(sc: ScopeRef, found: seq<Finding>, st: ScopeState, groups: seq<seq<Finding>>, order: seq<Metric>,
      i: nat)
    requires GroupedBy(found, groups, order) && i < |groups|
    ensures i < |order| && groups[i] != [] && groups[i][0].metric == order[i] && order[i] !in order[..i]
    ensures Raised(sc, found, st, order[i]) == if groups[i][0].event then
      Since(groups[i], st.LastRunAt(FingerprintOf(sc, order[i]))) else groups[i]
  {
  }

  // The pass over the findings: every metric that raised something is decided.
  method WriteAllFound(sc: ScopeRef, found: seq<Finding>, st: ScopeState, now: int, ghost decide: Metric -> Decision)
    returns (ch: Changes, written: set<Fingerprint>, ghost ms: seq<Metric>)
    requires forall m :: Raised(sc, found, st, m) != [] ==>
      decide(m) == DecideFound(sc, Raised(sc, found, st, m), st, now)
    ensures Written(sc, decide, ch, ms, written)
    ensures forall m :: m in ms <==> Raised(sc, found, st, m) != []
  {
    hide GroupedBy, InFirstOrder, Put, PutAll, Raised, DecideFound, Written, RaisedAmong;
    ch, written, ms := NO_CHANGES, {}, [];
    var groups: seq<seq<Finding>>;
    ghost var order: seq<Metric>;
    groups, order := ByMetric(found);
    GroupsMatch(sc, found, st, groups, order);
    NothingWritten(sc, decide);
    NoneRaised(sc, found, st);
    for i := 0 to |groups|
      invariant Written(sc, decide, ch, ms, written)
      invariant RaisedAmong(sc, found, st, ms, order[..i])
    {
      GroupAt(sc, found, st, groups, order, i);
      var metric := groups[i][0].metric;
      RaisedOneMore(sc, found, st, ms, order[..i], metric);
      assert order[..i + 1] == order[..i] + [metric];
      var wrote: bool;
      WrittenOneMore(sc, decide, ch, ms, written, metric);
      ch, wrote := WriteGroup(sc, groups[i], st, now, ch);
      if wrote {
        ms := ms + [metric];
        written := written + {FingerprintOf(sc, metric)};
      }
    }
    assert order[..|groups|] == order;
    AllRaised(sc, found, st, ms, order);
  }

  // The list names what of the head was raised.
  ghost predicate RaisedAmong(sc: ScopeRef, found: seq<Finding>, st: ScopeState, ms: seq<Metric>, head: seq<Metric>) {
    forall m :: m in ms <==> m in head && Raised(sc, found, st, m) != []
  }

  lemma NoneRaised(sc: ScopeRef, found: seq<Finding>, st: ScopeState)
    ensures RaisedAmong(sc, found, st, [], [])
  {
  }

  lemma RaisedOneMore(sc: ScopeRef, found: seq<Finding>, st: ScopeState, ms: seq<Metric>, head: seq<Metric>,
      metric: Metric)
    requires RaisedAmong(sc, found, st, ms, head) && metric !in head
    ensures metric !in ms
    ensures RaisedAmong(sc, found, st, if Raised(sc, found, st, metric) != [] then ms + [metric] else ms,
      head + [metric])
  {
  }

  lemma AllRaised(sc: ScopeRef, found: seq<Finding>, st: ScopeState, ms: seq<Metric>, order: seq<Metric>)
    requires RaisedAmong(sc, found, st, ms, order) && forall m :: m !in order ==> Raised(sc, found, st, m) == []
    ensures forall m :: m in ms <==> Raised(sc, found, st, m) != []
  {
  }

  lemma NothingWritten(sc: ScopeRef, decide: Metric -> Decision)
    ensures Written(sc, decide, NO_CHANGES, [], {})
  {
  }

  lemma WrittenOneMore(sc: ScopeRef, decide: Metric -> Decision, ch: Changes, ms: seq<Metric>,
      written: set<Fingerprint>, metric: Metric)
    requires Written(sc, decide, ch, ms, written) && metric !in ms
    ensures Written(sc, decide, Put(ch, decide(metric)), ms + [metric], written + {FingerprintOf(sc, metric)})
  {
    PutOneMore(decide, ms, metric);
  }

  // The pass over the absences, for what no finding was written about.
  method WriteAllGone(sc: ScopeRef, absent: seq<Absence>, st: ScopeState, ghost decide: Metric -> Decision,
                      before: Changes, already: set<Fingerprint>, ghost raised: seq<Metric>)
    returns (ch: Changes, written: set<Fingerprint>, ghost ms: seq<Metric>)
    requires Written(sc, decide, before, raised, already)
    requires forall j :: 0 <= j < |absent| && absent[j].metric !in raised ==>
      decide(absent[j].metric) == DecideGone(sc, st, absent[j].metric)
    ensures Written(sc, decide, ch, ms, written)
    ensures forall m :: m in raised ==> m in ms
    ensures forall j :: 0 <= j < |absent| ==> absent[j].metric in ms || NothingKept(sc, st, absent[j].metric)
  {
    ch, written, ms := before, already, raised;
    for i := 0 to |absent|
      invariant Written(sc, decide, ch, ms, written)
      invariant forall m :: m in raised ==> m in ms
      invariant forall j :: 0 <= j < i ==> absent[j].metric in ms || NothingKept(sc, st, absent[j].metric)
    {
      var metric := absent[i].metric;
      if FingerprintOf(sc, metric) in written {
        continue;
      }
      PutOneMore(decide, ms, metric);
      var wrote: bool;
      ch, wrote := WriteGone(sc, metric, st, ch);
      if wrote {
        ms := ms + [metric];
        written := written + {FingerprintOf(sc, metric)};
      }
    }
  }

  lemma NothingAges(sc: ScopeRef, st: ScopeState, m: Metric, now: int)
    requires FingerprintOf(sc, m) !in st.open
    ensures DecideAge(sc, st, m, now) == Leave
  {
  }

  lemma AgesOut(sc: ScopeRef, st: ScopeState, fp: Fingerprint, now: int, ch: Changes)
    requires OfScope(sc, st) && fp in st.open
    ensures fp == FingerprintOf(sc, fp.metric)
    ensures
      var open := st.open[fp];
      if open.severity == Critical || !IsEvent(fp.metric) || now - open.lastRunAt <= EVENT_OPEN_SECONDS
      then DecideAge(sc, st, fp.metric, now) == Leave
      else Put(ch, DecideAge(sc, st, fp.metric, now)) == ch.(resolve := ch.resolve + [open.id])
  {
  }

  // The pass over the open rows: a warning about a single run ages out once
  // nothing raises it again. The order of the rows makes no difference.
  method WriteAllAged(sc: ScopeRef, st: ScopeState, now: int, ghost decide: Metric -> Decision,
                      before: Changes, written: set<Fingerprint>, ghost judged: seq<Metric>)
    returns (ch: Changes, ghost ms: seq<Metric>)
    requires OfScope(sc, st) && Written(sc, decide, before, judged, written)
    requires forall m :: m !in judged ==> decide(m) == DecideAge(sc, st, m, now)
    ensures WritesDecisions(decide, ch, ms)
  {
    hide PutAll, Put, DecideAge;
    ch, ms := before, judged;
    forall m | m !in judged && FingerprintOf(sc, m) !in st.open
      ensures decide(m) == Leave { NothingAges(sc, st, m, now); }
    var rest := st.open.Keys;
    while rest != {}
      invariant rest <= st.open.Keys
      invariant Distinct(ms) && ch == PutAll(decide, ms)
      invariant forall m :: m in judged ==> m in ms
      invariant forall m :: m in ms && m !in judged ==> FingerprintOf(sc, m) !in rest
      invariant forall m :: m !in ms && FingerprintOf(sc, m) !in rest ==> decide(m) == Leave
    {
      var fp :| fp in rest;
      rest := rest - {fp};
      var open := st.open[fp];
      AgesOut(sc, st, fp, now, ch);
      if fp in written || open.severity == Critical || !IsEvent(fp.metric) {
        continue;
      }
      if now - open.lastRunAt > EVENT_OPEN_SECONDS {
        PutOneMore(decide, ms, fp.metric);
        ch := ch.(resolve := ch.resolve + [open.id]);
        ms := ms + [fp.metric];
      }
    }
  }

  method ApplyFindings(sc: ScopeRef, found: seq<Finding>, absent: seq<Absence>, st: ScopeState, now: int)
    returns (ch: Changes)
    requires OfScope(sc, st)
    ensures exists ms: seq<Metric> :: WritesDecisions(Decisions(sc, found, absent, st, now), ch, ms)
  {
    ghost var decide := Decisions(sc, found, absent, st, now);
    ghost var ms: seq<Metric>;
    var written: set<Fingerprint>;
    ch, written, ms := WriteAllFound(sc, found, st, now, decide);
    ghost var raised := ms;
    ch, written, ms := WriteAllGone(sc, absent, st, decide, ch, written, ms);
    forall m | m !in ms ensures decide(m) == DecideAge(sc, st, m, now) {
      assert m !in raised;
    }
    ch, ms := WriteAllAged(sc, st, now, decide, ch, written, ms);
  }
}
