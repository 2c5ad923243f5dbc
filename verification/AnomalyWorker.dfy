// The anomaly worker among the goroutines that mark work for it
// (anomaly_engine.go): the one-slot wake-up channel, the debounce, the idle
// tick and the pass, with marks arriving between any two of its steps.
module AnomalyWorker {
  import opened Wrappers
  import opened AnomalyEngine

  // Where the worker stands. Owing is the moment after a failed series went
  // back on the list and before its wake-up was sent.
  datatype Phase =
    | Waiting
    | Settling
    | Due
    | Reading(taken: Dirty)
    | Judging(queue: seq<Scope>)
    | Owing(queue: seq<Scope>)

  // marking counts the goroutines between putting work on the list and waking
  // the worker. putBack says that the last pass gave work back, which wakes
  // nobody.
  datatype State = State(dirty: Dirty, signal: bool, marking: nat, putBack: bool, phase: Phase)

  datatype Event =
    | Mark(work: Dirty)
    | Wake
    | Receive
    | Settled
    | NotDebounced
    | Tick
    | Take
    | Idle
    | GiveBack
    | SwitchedOff
    | Resolve(items: map<string, ItemRef>, targets: Option<map<string, RunTarget>>, more: set<Scope>, queue: seq<Scope>)
    | Judged
    | Broken
    | Signalled
    | Ended
    | Done

  const START := State(NOTHING, false, 0, false, Waiting)

  ghost predicate Enabled(s: State, e: Event) {
    match e
    case Mark(_) => true
    case Wake => s.marking > 0
    case Receive => s.phase.Waiting? && s.signal
    case Settled => s.phase.Settling?
    // Without a debounce nothing is waited for, and nothing swallowed.
    case NotDebounced => s.phase.Settling?
    case Tick => s.phase.Waiting?
    case Take => s.phase.Due?
    // Nothing is on the list and the daily housekeeping is not due.
    case Idle => s.phase.Due? && s.dirty.Empty()
    case GiveBack => s.phase.Reading?
    case SwitchedOff => s.phase.Reading?
    case Resolve(items, targets, more, queue) => s.phase.Reading? && QueueOf(s.phase.taken, items, targets, more, queue)
    case Judged => s.phase.Judging? && s.phase.queue != []
    case Broken => s.phase.Judging? && s.phase.queue != []
    case Signalled => s.phase.Owing?
    case Ended => s.phase.Judging?
    case Done => s.phase.Judging? && s.phase.queue == []
  }

  ghost function After(s: State, e: Event): State
    requires Enabled(s, e)
  {
    match e
    case Mark(work) => s.(dirty := s.dirty.Plus(work), marking := s.marking + 1)
    case Wake => s.(marking := s.marking - 1, signal := true)
    case Receive => s.(signal := false, phase := Settling)
    case Settled => s.(signal := false, phase := Due)
    case NotDebounced => s.(phase := Due)
    case Tick => s.(phase := Due)
    case Take => s.(dirty := NOTHING, putBack := false, phase := Reading(s.dirty))
    case Idle => s.(phase := Waiting)
    case GiveBack => s.(dirty := s.dirty.Plus(s.phase.taken), putBack := true, phase := Waiting)
    case SwitchedOff => s.(phase := Waiting)
    case Resolve(_, targets, _, queue) =>
      if targets.None? && s.phase.taken.runs != {}
      then s.(dirty := s.dirty.Plus(NOTHING.(runs := s.phase.taken.runs)), putBack := true, phase := Judging(queue))
      else s.(phase := Judging(queue))
    case Judged => s.(phase := Judging(s.phase.queue[1..]))
    case Broken => s.(dirty := s.dirty.Plus(MarkedOne(s.phase.queue[0])), phase := Owing(s.phase.queue[1..]))
    case Signalled => s.(signal := true, phase := Judging(s.phase.queue))
    case Ended => s.(phase := Waiting)
    case Done => s.(phase := Waiting)
  }

  ghost predicate History(events: seq<Event>, states: seq<State>) {
    && |states| == |events| + 1 && states[0] == START
    && forall i :: 0 <= i < |events| ==> Moves(states[i], events[i], states[i + 1])
  }

  ghost predicate Moves(s: State, e: Event, t: State) {
    Enabled(s, e) && t == After(s, e)
  }

  // ---- no lost wake-up ------------------------------------------------------

  // Work on the list has a token in the channel, unless somebody is about to
  // put one there, a pass gave it back, or the worker is about to take it.
  ghost predicate Announced(s: State) {
    !s.phase.Settling? && !s.phase.Due? && !s.phase.Owing? && s.marking == 0 && !s.putBack && !s.dirty.Empty() ==>
      s.signal
  }

  lemma {:induction false} AlwaysAnnounced(events: seq<Event>, states: seq<State>, n: nat)
    requires History(events, states) && n <= |events|
    ensures Announced(states[n])
  {
    if n > 0 {
      AlwaysAnnounced(events, states, n - 1);
      assert Moves(states[n - 1], events[n - 1], states[n]);
    }
  }

  // Sends the token, and takes it out of the channel.
  predicate Sends(e: Event) { e.Wake? || e.Signalled? }

  predicate Drains(e: Event) { e.Receive? || e.Settled? }

  // A token was sent that nobody took out.
  ghost predicate TokenSent(events: seq<Event>, n: nat)
    requires n <= |events|
  {
    exists j: nat :: j < n && Sends(events[j]) && NoneDrains(events, j, n)
  }

  ghost predicate NoneDrains(events: seq<Event>, j: nat, n: nat)
    requires n <= |events|
  {
    forall i: nat :: j < i < n ==> !Drains(events[i])
  }

  lemma {:induction false} TokenExactly(events: seq<Event>, states: seq<State>, n: nat)
    requires History(events, states) && n <= |events|
    ensures states[n].signal <==> TokenSent(events, n)
  {
    if n > 0 {
      TokenExactly(events, states, n - 1);
      assert Moves(states[n - 1], events[n - 1], states[n]);
      if TokenSent(events, n - 1) && !Drains(events[n - 1]) {
        var j: nat :| j < n - 1 && Sends(events[j]) && NoneDrains(events, j, n - 1);
        assert NoneDrains(events, j, n);
      }
      if Sends(events[n - 1]) {
        assert NoneDrains(events, n - 1, n);
      }
    }
  }

  // A pass puts work back on the list without waking anybody.
  ghost predicate GivesBack(s: State, e: Event) {
    e.GiveBack? || (e.Resolve? && e.targets.None? && s.phase.Reading? && s.phase.taken.runs != {})
  }

  // A pass gave work back, and no pass has begun since.
  ghost predicate GivenBack(events: seq<Event>, states: seq<State>, n: nat)
    requires n <= |events| && n < |states|
  {
    exists j: nat :: j < n && GivesBack(states[j], events[j]) && NoneTakes(events, j, n)
  }

  ghost predicate NoneTakes(events: seq<Event>, j: nat, n: nat)
    requires n <= |events|
  {
    forall i: nat :: j < i < n ==> !events[i].Take?
  }

  lemma {:induction false} PutBackExactly(events: seq<Event>, states: seq<State>, n: nat)
    requires History(events, states) && n <= |events|
    ensures states[n].putBack <==> GivenBack(events, states, n)
  {
    if n > 0 {
      PutBackExactly(events, states, n - 1);
      assert Moves(states[n - 1], events[n - 1], states[n]);
      if GivenBack(events, states, n - 1) && !events[n - 1].Take? {
        var j: nat :| j < n - 1 && GivesBack(states[j], events[j]) && NoneTakes(events, j, n - 1);
        assert NoneTakes(events, j, n);
      }
      if GivesBack(states[n - 1], events[n - 1]) {
        assert NoneTakes(events, n - 1, n);
      }
    }
  }

  // A worker that waits beside work, with nobody between marking and waking,
  // has no token exactly when a pass gave work back, none has begun since, and
  // every token ever sent was taken out again. It then sleeps until the idle
  // tick or the next mark.
  lemma SleepsExactly(events: seq<Event>, states: seq<State>, n: nat)
    requires History(events, states) && n <= |events|
    requires states[n].phase == Waiting && states[n].marking == 0 && !states[n].dirty.Empty()
    ensures !Enabled(states[n], Receive) <==> GivenBack(events, states, n) && !TokenSent(events, n)
  {
    AlwaysAnnounced(events, states, n);
    TokenExactly(events, states, n);
    PutBackExactly(events, states, n);
  }

  // And such a sleep does happen: the settings could not be read once.
  lemma GivenBackWorkSleeps(run: string)
    requires run != ""
    ensures exists events: seq<Event>, states: seq<State>, n: nat ::
      && History(events, states) && n <= |events|
      && states[n].phase == Waiting && states[n].marking == 0 && run in states[n].dirty.runs
         && !Enabled(states[n], Receive)
  {
    var work := NOTHING.(runs := {run});
    var marked, due := State(work, true, 0, false, Waiting), State(work, false, 0, false, Due);
    FromMarkToDue(work);
    FromDueToGivenBack(work);
    var events := [Mark(work), Wake, Receive, Settled, Take, GiveBack];
    var states := [
      START, State(work, false, 1, false, Waiting), marked, State(work, false, 0, false, Settling),
      due, State(NOTHING, false, 0, false, Reading(work)), State(work, false, 0, true, Waiting)];
    assert History(events, states);
    assert states[6].phase == Waiting && run in states[6].dirty.runs && !Enabled(states[6], Receive);
  }

  lemma FromMarkToDue(work: Dirty)
    ensures Moves(START, Mark(work), State(work, false, 1, false, Waiting))
    ensures Moves(State(work, false, 1, false, Waiting), Wake, State(work, true, 0, false, Waiting))
    ensures Moves(State(work, true, 0, false, Waiting), Receive, State(work, false, 0, false, Settling))
    ensures Moves(State(work, false, 0, false, Settling), Settled, State(work, false, 0, false, Due))
  {
    assert NOTHING.Plus(work) == work;
  }

  lemma FromDueToGivenBack(work: Dirty)
    ensures Moves(State(work, false, 0, false, Due), Take, State(NOTHING, false, 0, false, Reading(work)))
    ensures Moves(State(NOTHING, false, 0, false, Reading(work)), GiveBack, State(work, false, 0, true, Waiting))
  {
    assert NOTHING.Plus(work) == work;
  }

  // ---- no lost work ---------------------------------------------------------

  ghost predicate HeldScope(s: State, sc: Scope) {
    || sc in s.dirty.scopes
    || InFlight(s, sc)
  }

  // A pass has the series in hand.
  ghost predicate InFlight(s: State, sc: Scope) {
    || (s.phase.Reading? && sc in s.phase.taken.scopes)
    || (s.phase.Judging? && sc in s.phase.queue)
    || (s.phase.Owing? && sc in s.phase.queue)
  }

  // The step ends the series' claim: it was judged, detection is off, or the
  // context ended.
  ghost predicate Settles(s: State, e: Event, sc: Scope) {
    || (e.Judged? && s.phase.Judging? && s.phase.queue != [] && s.phase.queue[0] == sc)
    || (e.SwitchedOff? && s.phase.Reading? && sc in s.phase.taken.scopes)
    || (e.Ended? && s.phase.Judging? && sc in s.phase.queue)
  }

  lemma StepKeepsScope(s: State, e: Event, t: State, sc: Scope)
    requires Moves(s, e, t) && HeldScope(s, sc) && !IsDomain(sc)
    ensures HeldScope(t, sc) || Settles(s, e, sc)
  {
    if (e.Judged? || e.Broken?) && sc in s.phase.queue && sc != s.phase.queue[0] {
      var i :| 0 < i < |s.phase.queue| && s.phase.queue[i] == sc;
      assert s.phase.queue[1..][i - 1] == sc;
    }
    if e.Resolve? && sc in s.phase.taken.scopes {
      assert Wanted(s.phase.taken, e.items, e.targets, e.more, sc);
    }
  }

  // Step k ended the claim.
  ghost predicate SettledAt(events: seq<Event>, states: seq<State>, k: nat, sc: Scope) {
    k < |events| && k < |states| && Settles(states[k], events[k], sc)
  }

  lemma {:induction false} HeldScopeStays(events: seq<Event>, states: seq<State>, m: nat, n: nat, sc: Scope)
    requires History(events, states) && m <= n <= |events| && HeldScope(states[m], sc) && !IsDomain(sc)
    ensures HeldScope(states[n], sc) || exists k: nat :: m <= k < n && SettledAt(events, states, k, sc)
  {
    if m < n {
      HeldScopeStays(events, states, m, n - 1, sc);
      assert Moves(states[n - 1], events[n - 1], states[n]);
      if HeldScope(states[n - 1], sc) {
        StepKeepsScope(states[n - 1], events[n - 1], states[n], sc);
        assert HeldScope(states[n], sc) || SettledAt(events, states, n - 1, sc);
      }
    }
  }

  // Step j took what was on the list.
  ghost predicate TakenAt(events: seq<Event>, j: nat) { j < |events| && events[j].Take? }

  // The list has lost no series and no run.
  ghost predicate KeepsList(d: Dirty, e: Dirty) { d.scopes <= e.scopes && d.runs <= e.runs }

  lemma StepKeepsList(s: State, e: Event, t: State)
    requires Moves(s, e, t) && !e.Take?
    ensures KeepsList(s.dirty, t.dirty)
  {
  }

  lemma {:induction false} ListedUntilTaken(events: seq<Event>, states: seq<State>, m: nat, n: nat)
    requires History(events, states) && m <= n <= |events|
    ensures KeepsList(states[m].dirty, states[n].dirty) || exists j: nat ::
      m <= j < n && TakenAt(events, j) && KeepsList(states[m].dirty, states[j].dirty)
  {
    hide After, Enabled;
    if m < n {
      ListedUntilTaken(events, states, m, n - 1);
      assert Moves(states[n - 1], events[n - 1], states[n]);
      if KeepsList(states[m].dirty, states[n - 1].dirty) {
        if events[n - 1].Take? {
          assert TakenAt(events, n - 1);
        } else {
          StepKeepsList(states[n - 1], events[n - 1], states[n]);
        }
      }
    }
  }

  // A series marked at m is on the list at n, in a pass that took it after the
  // mark, or was judged by such a pass (or dropped with detection off or the
  // context ended). A pass that was already running does not count for it.
  lemma MarkedScopeIsNotLost(events: seq<Event>, states: seq<State>, m: nat, n: nat, sc: Scope)
    requires History(events, states) && m <= n <= |events| && sc in states[m].dirty.scopes && !IsDomain(sc)
    ensures sc in states[n].dirty.scopes || exists j: nat ::
      && m <= j < n && TakenAt(events, j) && sc in states[j].dirty.scopes
      && (HeldScope(states[n], sc) || exists k: nat :: j < k < n && SettledAt(events, states, k, sc))
  {
    ListedUntilTaken(events, states, m, n);
    if sc !in states[n].dirty.scopes {
      var j: nat :| m <= j < n && TakenAt(events, j) && KeepsList(states[m].dirty, states[j].dirty);
      assert Moves(states[j], events[j], states[j + 1]);
      assert HeldScope(states[j + 1], sc);
      HeldScopeStays(events, states, j + 1, n, sc);
    }
  }

  // The pass that took the run could not turn it into a series: the store does
  // not know it, or its target is no known item (a restore check marks its
  // domain instead).
  ghost predicate NoSeries(e: Event, run: string) {
    e.Resolve? && e.targets.Some? && (run !in e.targets.value || ScopeOfRun(e.items, e.targets.value[run]).None?)
  }

  ghost predicate HeldRun(s: State, run: string) {
    run in s.dirty.runs || (s.phase.Reading? && run in s.phase.taken.runs)
  }

  // Step k ended the claim of a run its pass had in hand, by dropping the run
  // or by handing it to its series.
  ghost predicate DroppedAt(events: seq<Event>, states: seq<State>, k: nat, run: string) {
    && k < |events| && k < |states| && states[k].phase.Reading? && run in states[k].phase.taken.runs
    && (events[k].SwitchedOff? || NoSeries(events[k], run))
  }

  ghost predicate HandedAt(events: seq<Event>, states: seq<State>, k: nat, run: string, sc: Scope) {
    && k < |events| && k + 1 < |states| && states[k].phase.Reading? && run in states[k].phase.taken.runs
    && events[k].Resolve? && events[k].targets.Some? && run in events[k].targets.value
    && ScopeOfRun(events[k].items, events[k].targets.value[run]) == Some(sc)
    && InFlight(states[k + 1], sc)
  }

  ghost predicate ClaimEndedAt(events: seq<Event>, states: seq<State>, k: nat, run: string) {
    DroppedAt(events, states, k, run) || exists sc :: HandedAt(events, states, k, run, sc)
  }

  lemma StepKeepsRun(events: seq<Event>, states: seq<State>, k: nat, run: string)
    requires History(events, states) && k < |events| && HeldRun(states[k], run)
    ensures HeldRun(states[k + 1], run) || ClaimEndedAt(events, states, k, run)
  {
    var s, e := states[k], events[k];
    assert Moves(s, e, states[k + 1]);
    if e.Resolve? && run in s.phase.taken.runs && e.targets.Some? && !NoSeries(e, run) {
      var sc := ScopeOfRun(e.items, e.targets.value[run]).value;
      assert FromRun(s.phase.taken.runs, e.items, e.targets.value, sc);
      assert Wanted(s.phase.taken, e.items, e.targets, e.more, sc);
      assert HandedAt(events, states, k, run, sc);
    }
  }

  lemma {:induction false} HeldRunStays(events: seq<Event>, states: seq<State>, m: nat, n: nat, run: string)
    requires History(events, states) && m <= n <= |events| && HeldRun(states[m], run)
    ensures HeldRun(states[n], run) || exists k: nat :: m <= k < n && ClaimEndedAt(events, states, k, run)
  {
    if m < n {
      HeldRunStays(events, states, m, n - 1, run);
      if HeldRun(states[n - 1], run) {
        StepKeepsRun(events, states, n - 1, run);
      }
    }
  }

  // The series' claim that a run was handed to is still alive at n or ended.
  ghost predicate Answered(events: seq<Event>, states: seq<State>, k: nat, n: nat, sc: Scope)
    requires n < |states|
  {
    HeldScope(states[n], sc) || exists i: nat :: k < i < n && SettledAt(events, states, i, sc)
  }

  // What became of a run that step j took: it is in hand or back on the list
  // at n, was dropped for one of the stated reasons, or was handed to its
  // series, whose claim is then answered.
  ghost predicate RunAnswered(events: seq<Event>, states: seq<State>, j: nat, n: nat, run: string)
    requires n < |states|
  {
    || HeldRun(states[n], run)
    || (exists k: nat :: j < k < n && DroppedAt(events, states, k, run))
    || (exists k: nat, sc :: j < k < n && HandedAt(events, states, k, run, sc) && Answered(events, states, k, n, sc))
  }

  // A run put up at m is still on the list at n, or was taken after that and
  // answered.
  lemma FinishedRunIsNotLost(events: seq<Event>, states: seq<State>, m: nat, n: nat, run: string)
    requires History(events, states) && m <= n <= |events| && run in states[m].dirty.runs
    ensures run in states[n].dirty.runs || exists j: nat ::
      m <= j < n && TakenAt(events, j) && run in states[j].dirty.runs && RunAnswered(events, states, j, n, run)
  {
    ListedUntilTaken(events, states, m, n);
    if run !in states[n].dirty.runs {
      var j: nat :| m <= j < n && TakenAt(events, j) && KeepsList(states[m].dirty, states[j].dirty);
      assert Moves(states[j], events[j], states[j + 1]);
      assert HeldRun(states[j + 1], run);
      HeldRunStays(events, states, j + 1, n, run);
      if !HeldRun(states[n], run) {
        var k: nat :| j < k < n && ClaimEndedAt(events, states, k, run);
        if !DroppedAt(events, states, k, run) {
          var sc :| HandedAt(events, states, k, run, sc);
          HeldScopeStays(events, states, k + 1, n, sc);
          assert Answered(events, states, k, n, sc);
        }
      }
      assert RunAnswered(events, states, j, n, run);
    }
  }
}
