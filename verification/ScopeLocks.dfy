// The per-scope locks of the anomaly engine (anomaly_engine.go). Every action
// locks the scopes it touches in key order and unlocks them backwards, while
// any number of other actions do the same on overlapping sets.
module ScopeLocks {
  import opened Ordering

  datatype Scope = Scope(kind: string, id: string) {
    // The key both a pass and a user's action lock on.
    function Key(): string { kind + ":" + id }
  }

  // Two scopes share a lock only when they are one, as no kind has a colon.
  lemma KeysTellScopesApart(a: Scope, b: Scope)
    requires ':' !in a.kind && ':' !in b.kind
    ensures a.Key() == b.Key() <==> a == b
  {
    if a.Key() == b.Key() {
      var key := a.Key();
      assert key[|a.kind|] == ':' && key[|b.kind|] == ':';
      assert forall i :: 0 <= i < |a.kind| ==> key[i] == a.kind[i];
      assert forall i :: 0 <= i < |b.kind| ==> key[i] == b.kind[i];
      assert |a.kind| == |b.kind|;
      assert a.kind == key[..|a.kind|] && a.id == key[|a.kind| + 1..];
      assert b.kind == key[..|b.kind|] && b.id == key[|b.kind| + 1..];
    }
  }

  // The keys an action locks, in the order it takes them.
  method KeysToLock(scopes: seq<Scope>) returns (keys: seq<string>)
    ensures StrictlyAscending(keys)
    ensures forall k :: k in keys <==> exists i :: 0 <= i < |scopes| && scopes[i].Key() == k
  {
    var raw: seq<string> := [];
    for i := 0 to |scopes|
      invariant |raw| == i
      invariant forall j :: 0 <= j < i ==> raw[j] == scopes[j].Key()
    {
      raw := raw + [scopes[i].Key()];
    }
    keys := SortedKeys(raw);
  }

  // ---- any number of actions at once --------------------------------------

  // How far one action has come: it holds the first n of its keys, on the way
  // up or on the way down.
  datatype Phase = Taking(n: nat) | Releasing(n: nat)

  // keys[a] is what action a locks, phase[a] where it stands, owner who holds
  // each locked mutex.
  datatype State = State(phase: seq<Phase>, owner: map<string, nat>)

  ghost predicate Ordered(keys: seq<seq<string>>) {
    forall a :: 0 <= a < |keys| ==> StrictlyAscending(keys[a])
  }

  ghost predicate Init(keys: seq<seq<string>>, s: State) {
    && |s.phase| == |keys|
    && (forall a :: 0 <= a < |keys| ==> s.phase[a] == Taking(0))
    && s.owner == map[]
  }

  predicate CanStep(keys: seq<seq<string>>, s: State, a: nat)
    requires a < |keys| == |s.phase|
  {
    match s.phase[a]
    case Taking(n) => n < |keys[a]| ==> keys[a][n] !in s.owner
    case Releasing(n) => n > 0
  }

  // One step of action a: lock the next mutex if it is free, turn round once
  // all are held, or unlock the last one still held.
  function After(keys: seq<seq<string>>, s: State, a: nat): State
    requires a < |keys| == |s.phase|
  {
    match s.phase[a]
    case Taking(n) =>
      if n < |keys[a]| then State(s.phase[a := Taking(n + 1)], s.owner[keys[a][n] := a])
      else s.(phase := s.phase[a := Releasing(|keys[a]|)])
    case Releasing(n) =>
      if 0 < n <= |keys[a]| then State(s.phase[a := Releasing(n - 1)], s.owner - {keys[a][n - 1]})
      else s
  }

  ghost predicate Step(keys: seq<seq<string>>, s: State, t: State) {
    |s.phase| == |keys| && exists a: nat {:trigger CanStep(keys, s, a)} ::
      a < |keys| && CanStep(keys, s, a) && t == After(keys, s, a)
  }

  ghost predicate Run(keys: seq<seq<string>>, run: seq<State>) {
    && run != []
    && Init(keys, run[0])
    && forall i :: 0 < i < |run| ==> Step(keys, run[i - 1], run[i])
  }

  predicate Finished(s: State) {
    forall a :: 0 <= a < |s.phase| ==> s.phase[a] == Releasing(0)
  }

  ghost predicate Holds(keys: seq<seq<string>>, s: State, a: nat, k: string)
    requires a < |keys| == |s.phase|
  {
    s.phase[a].n <= |keys[a]| && k in keys[a][..s.phase[a].n]
  }

  // Every lock is held by exactly the action that is past it.
  ghost predicate Consistent(keys: seq<seq<string>>, s: State) {
    && |s.phase| == |keys|
    && (forall a :: 0 <= a < |keys| ==> s.phase[a].n <= |keys[a]|)
    && (forall a: nat, k :: a < |keys| && Holds(keys, s, a, k) ==> k in s.owner && s.owner[k] == a)
    && (forall k :: k in s.owner ==> s.owner[k] < |keys| && Holds(keys, s, s.owner[k], k))
  }

  lemma StepKeepsConsistent(keys: seq<seq<string>>, s: State, a: nat)
    requires Ordered(keys) && Consistent(keys, s) && a < |keys| && CanStep(keys, s, a)
    ensures Consistent(keys, After(keys, s, a))
  {
    var t := After(keys, s, a);
    var mine, n := keys[a], s.phase[a].n;
    forall b: nat, k | b < |keys| && b != a ensures Holds(keys, t, b, k) <==> Holds(keys, s, b, k) {}
    match s.phase[a]
    case Taking(_) =>
      if n < |mine| {
        forall k ensures Holds(keys, t, a, k) <==> Holds(keys, s, a, k) || k == mine[n] {
          assert mine[..n + 1] == mine[..n] + [mine[n]];
        }
      } else {
        forall k ensures Holds(keys, t, a, k) <==> Holds(keys, s, a, k) {}
      }
    case Releasing(_) =>
      var last := mine[n - 1];
      assert mine[..n] == mine[..n - 1] + [last];
      assert last !in mine[..n - 1] by {
        Irreflexive(last);
      }
      assert Holds(keys, s, a, last);
      forall k ensures Holds(keys, t, a, k) <==> Holds(keys, s, a, k) && k != last {}
  }

  lemma {:induction false} RunConsistent(keys: seq<seq<string>>, run: seq<State>)
    requires Ordered(keys) && Run(keys, run)
    ensures Consistent(keys, run[|run| - 1])
  {
    if |run| > 1 {
      var before := run[..|run| - 1];
      RunConsistent(keys, before);
      var s := before[|before| - 1];
      assert Step(keys, run[|run| - 2], run[|run| - 1]);
      var a: nat :| a < |keys| && CanStep(keys, s, a) && run[|run| - 1] == After(keys, s, a);
      StepKeepsConsistent(keys, s, a);
    }
  }

  // Mutual exclusion: no two actions ever hold the lock of the same scope.
  lemma NeverSharedLock(keys: seq<seq<string>>, run: seq<State>, a: nat, b: nat, k: string)
    requires Ordered(keys) && Run(keys, run) && a < |keys| && b < |keys|
    requires |run[|run| - 1].phase| == |keys|
    requires Holds(keys, run[|run| - 1], a, k) && Holds(keys, run[|run| - 1], b, k)
    ensures a == b
  {
    RunConsistent(keys, run);
  }

  // An action that cannot move waits for a lock somebody holds.
  ghost predicate Blocked(keys: seq<seq<string>>, s: State, a: nat)
    requires a < |keys| == |s.phase|
  {
    s.phase[a].Taking? && s.phase[a].n < |keys[a]| && keys[a][s.phase[a].n] in s.owner
  }

  // What a blocked action waits for.
  ghost function Wanted(keys: seq<seq<string>>, s: State, a: nat): string
    requires a < |keys| == |s.phase| && Blocked(keys, s, a)
  {
    keys[a][s.phase[a].n]
  }

  // The holder of what a blocked action waits for can step, or waits for a
  // strictly later key.
  lemma HolderWaitsLater(keys: seq<seq<string>>, s: State, a: nat)
    requires Ordered(keys) && Consistent(keys, s) && a < |keys| && Blocked(keys, s, a)
    ensures var h := s.owner[Wanted(keys, s, a)];
            h < |keys| && (CanStep(keys, s, h) || (Blocked(keys, s, h) && Less(Wanted(keys, s, a), Wanted(keys, s, h))))
  {
    var wanted := Wanted(keys, s, a);
    var h := s.owner[wanted];
    assert Holds(keys, s, h, wanted);
    if !CanStep(keys, s, h) {
      var i :| 0 <= i < s.phase[h].n && keys[h][i] == wanted;
    }
  }

  lemma {:induction false} LatestWaiter(keys: seq<seq<string>>, s: State, waiting: set<nat>) returns (a: nat)
    requires waiting != {} && |s.phase| == |keys|
    requires forall b :: b in waiting ==> b < |keys| && Blocked(keys, s, b)
    ensures a in waiting
    ensures forall b :: b in waiting ==> !Less(Wanted(keys, s, a), Wanted(keys, s, b))
  {
    var c :| c in waiting;
    var rest := waiting - {c};
    Irreflexive(Wanted(keys, s, c));
    if rest == {} {
      a := c;
      assert waiting == {c};
    } else {
      a := LatestWaiter(keys, s, rest);
      var x, y := Wanted(keys, s, a), Wanted(keys, s, c);
      if Less(x, y) {
        forall b | b in waiting ensures !Less(y, Wanted(keys, s, b)) {
          if Less(y, Wanted(keys, s, b)) {
            Transitive(x, y, Wanted(keys, s, b));
          }
        }
        a := c;
      }
    }
  }

  // Deadlock freedom: in every reachable state everyone is finished or somebody
  // can step.
  lemma NeverDeadlocked(keys: seq<seq<string>>, run: seq<State>)
    requires Ordered(keys) && Run(keys, run)
    ensures var s := run[|run| - 1];
            |s.phase| == |keys| && (Finished(s) || exists a: nat :: a < |keys| && CanStep(keys, s, a))
  {
    RunConsistent(keys, run);
    var s := run[|run| - 1];
    if !Finished(s) {
      var u: nat :| u < |keys| && s.phase[u] != Releasing(0);
      if !CanStep(keys, s, u) {
        var waiting := set a: nat | a < |keys| && Blocked(keys, s, a);
        assert u in waiting;
        var a := LatestWaiter(keys, s, waiting);
        HolderWaitsLater(keys, s, a);
        var h := s.owner[Wanted(keys, s, a)];
        assert CanStep(keys, s, h) || h in waiting;
      }
    }
  }

  // ---- and everybody gets through -----------------------------------------

  // What an action still has to do.
  function Remaining(keys: seq<string>, p: Phase): int {
    match p
    case Taking(n) => 2 * |keys| + 1 - n
    case Releasing(n) => n
  }

  function Work(keys: seq<seq<string>>, phase: seq<Phase>): int
    requires |keys| == |phase|
  {
    if keys == [] then 0 else Remaining(keys[0], phase[0]) + Work(keys[1..], phase[1..])
  }

  lemma {:induction false} WorkOfOne(keys: seq<seq<string>>, phase: seq<Phase>, a: nat, p: Phase)
    requires a < |keys| == |phase|
    ensures Work(keys, phase[a := p]) == Work(keys, phase) - Remaining(keys[a], phase[a]) + Remaining(keys[a], p)
  {
    if a > 0 {
      WorkOfOne(keys[1..], phase[1..], a - 1, p);
      assert phase[a := p][1..] == phase[1..][a - 1 := p];
    } else {
      assert phase[0 := p][1..] == phase[1..];
    }
  }

  lemma {:induction false} WorkNonNegative(keys: seq<seq<string>>, phase: seq<Phase>)
    requires |keys| == |phase|
    requires forall a :: 0 <= a < |keys| ==> phase[a].n <= |keys[a]|
    ensures Work(keys, phase) >= 0
  {
    if keys != [] {
      WorkNonNegative(keys[1..], phase[1..]);
    }
  }

  lemma StepTakesOne(keys: seq<seq<string>>, s: State, t: State)
    requires Step(keys, s, t) && forall a :: 0 <= a < |keys| ==> s.phase[a].n <= |keys[a]|
    ensures |t.phase| == |keys| && Work(keys, t.phase) == Work(keys, s.phase) - 1
  {
    hide Work;
    var a: nat :| a < |keys| && CanStep(keys, s, a) && t == After(keys, s, a);
    var p := t.phase[a];
    assert t.phase == s.phase[a := p] && Remaining(keys[a], p) == Remaining(keys[a], s.phase[a]) - 1;
    WorkOfOne(keys, s.phase, a, p);
  }

  // Every step takes one unit of a fixed amount of work, so no schedule runs
  // longer than that; together with NeverDeadlocked, every schedule that goes
  // on as long as it can ends with every action finished.
  lemma {:induction false} RunsEnd(keys: seq<seq<string>>, run: seq<State>)
    requires Ordered(keys) && Run(keys, run)
    ensures |run[0].phase| == |keys| && |run| <= Work(keys, run[0].phase) + 1
    ensures |run[|run| - 1].phase| == |keys|
    ensures Work(keys, run[|run| - 1].phase) == Work(keys, run[0].phase) - (|run| - 1)
  {
    hide Ordered, Holds, Step, Work;
    RunConsistent(keys, run);
    WorkNonNegative(keys, run[|run| - 1].phase);
    if |run| > 1 {
      var before := run[..|run| - 1];
      RunsEnd(keys, before);
      RunConsistent(keys, before);
      assert before[|before| - 1] == run[|run| - 2];
      StepTakesOne(keys, run[|run| - 2], run[|run| - 1]);
    }
  }
}
