// The allocator of snapshot names (container_snapshot.go): a name a run still
// uses is never given out again, and giving a name back twice frees nothing
// that somebody else holds by then.
module SnapshotNames {

  const SECOND := 1000000000

  // A name is a stamp of the second it stands for, so it is as good as that
  // second. Instants are nanoseconds.
  function StampOf(now: int): int { now / SECOND }

  // One reservation: its name and whether its free function ran.
  datatype Ticket = Ticket(stamp: int, freed: bool)

  datatype Names = Names(inUse: set<int>, tickets: seq<Ticket>)

  datatype Event = Reserve(now: int) | Free(ticket: nat)

  // name is the first free one at or after the instant, found in k steps.
  ghost predicate FirstFree(inUse: set<int>, now: int, stamp: int, k: nat) {
    && stamp == StampOf(now) + k && stamp !in inUse
    && forall n :: StampOf(now) <= n < StampOf(now) + k ==> n in inUse
  }

  lemma {:induction false} RunOfStamps(inUse: set<int>, from: int, k: nat)
    requires forall n :: from <= n < from + k ==> n in inUse
    ensures k <= |inUse|
  {
    if k > 0 {
      RunOfStamps(inUse - {from + k - 1}, from, k - 1);
    }
  }

  ghost predicate Step(s: Names, e: Event, t: Names) {
    match e
    case Reserve(now) =>
      exists stamp, k ::
        FirstFree(s.inUse, now, stamp, k) && t == Names(s.inUse + {stamp}, s.tickets + [Ticket(stamp, false)])
    case Free(i) =>
      if i < |s.tickets| && !s.tickets[i].freed
      then t == Names(s.inUse - {s.tickets[i].stamp}, s.tickets[i := s.tickets[i].(freed := true)])
      else t == s
  }

  class Allocator {
    var inUse: set<int>
    var tickets: seq<Ticket>

    ghost function State(): Names reads this { Names(inUse, tickets) }

    constructor ()
      ensures State() == Names({}, [])
    {
      inUse, tickets := {}, [];
    }

    method ReserveName(now: int) returns (stamp: int, ticket: nat, ghost steps: nat)
      modifies this
      ensures Step(old(State()), Reserve(now), State())
      ensures ticket == |old(tickets)| && tickets[ticket] == Ticket(stamp, false)
      ensures FirstFree(old(inUse), now, stamp, steps) && steps <= |old(inUse)|
      ensures stamp !in old(inUse) && stamp >= now / 1000000000
      ensures forall n :: now / 1000000000 <= n < stamp ==> n in old(inUse)
    {
      var at := now;
      stamp := StampOf(at);
      steps := 0;
      while stamp in inUse
        invariant inUse == old(inUse) && tickets == old(tickets)
        invariant at == now + steps * SECOND && stamp == StampOf(now) + steps
        invariant forall n :: StampOf(now) <= n < StampOf(now) + steps ==> n in inUse
        invariant steps <= |inUse|
        decreases |inUse| - steps
      {
        at := at + SECOND;
        assert at == now + (steps + 1) * SECOND;
        LaterStamp(now, steps + 1);
        stamp := StampOf(at);
        steps := steps + 1;
        RunOfStamps(inUse, StampOf(now), steps);
      }
      RunOfStamps(inUse, StampOf(now), steps);
      ticket := |tickets|;
      inUse := inUse + {stamp};
      tickets := tickets + [Ticket(stamp, false)];
      assert FirstFree(old(inUse), now, stamp, steps);
    }

    // The free function of one reservation, which acts on its first call only.
    method FreeName(ticket: nat)
      requires ticket < |tickets|
      modifies this
      ensures Step(old(State()), Free(ticket), State())
    {
      if !tickets[ticket].freed {
        inUse := inUse - {tickets[ticket].stamp};
        tickets := tickets[ticket := tickets[ticket].(freed := true)];
      }
    }

    method Busy(stamp: int) returns (r: bool)
      ensures r <==> stamp in inUse
    {
      r := stamp in inUse;
    }
  }

  lemma LaterStamp(now: int, k: nat)
    ensures StampOf(now + k * SECOND) == StampOf(now) + k
  {
  }

  // ---- every history ------------------------------------------------------

  predicate Outstanding(s: Names, i: nat) { i < |s.tickets| && !s.tickets[i].freed }

  // The names in use are exactly the outstanding ones, each held once.
  ghost predicate Exact(s: Names) {
    && (forall i: nat :: Outstanding(s, i) ==> s.tickets[i].stamp in s.inUse)
    && (forall n :: n in s.inUse ==> exists i: nat :: Outstanding(s, i) && s.tickets[i].stamp == n)
    && (forall i: nat, j: nat :: Outstanding(s, i) && Outstanding(s, j) && s.tickets[i].stamp == s.tickets[j].stamp ==>
         i == j)
  }

  lemma ReserveKeepsExact(s: Names, e: Event, t: Names)
    requires Exact(s) && Step(s, e, t) && e.Reserve?
    ensures Exact(t)
  {
    assert forall i: nat :: i < |s.tickets| ==> Outstanding(t, i) == Outstanding(s, i) && t.tickets[i] == s.tickets[i];
    forall n | n in t.inUse ensures exists i: nat :: Outstanding(t, i) && t.tickets[i].stamp == n {
      if n in s.inUse {
        var i: nat :| Outstanding(s, i) && s.tickets[i].stamp == n;
        assert Outstanding(t, i) && t.tickets[i].stamp == n;
      } else {
        assert Outstanding(t, |s.tickets|) && t.tickets[|s.tickets|].stamp == n;
      }
    }
  }

  lemma FreeKeepsExact(s: Names, e: Event, t: Names)
    requires Exact(s) && Step(s, e, t) && e.Free?
    ensures Exact(t)
  {
    assert forall i: nat :: i != e.ticket ==> Outstanding(t, i) == Outstanding(s, i);
    if Outstanding(s, e.ticket) {
      forall n | n in t.inUse ensures exists i: nat :: Outstanding(t, i) && t.tickets[i].stamp == n {
        var i: nat :| Outstanding(s, i) && s.tickets[i].stamp == n;
        assert Outstanding(t, i) && t.tickets[i].stamp == n;
      }
      forall i: nat | Outstanding(t, i) ensures t.tickets[i].stamp in t.inUse {
        assert Outstanding(s, i) && t.tickets[i] == s.tickets[i];
      }
    }
  }

  lemma StepKeepsExact(s: Names, e: Event, t: Names)
    requires Exact(s) && Step(s, e, t)
    ensures Exact(t)
  {
    hide Exact;
    match e
    case Reserve(_) => ReserveKeepsExact(s, e, t);
    case Free(_) => FreeKeepsExact(s, e, t);
  }

  ghost predicate History(events: seq<Event>, states: seq<Names>) {
    && |states| == |events| + 1 && states[0] == Names({}, [])
    && forall i :: 0 <= i < |events| ==> Step(states[i], events[i], states[i + 1])
  }

  lemma {:induction false} HistoryExact(events: seq<Event>, states: seq<Names>, n: nat)
    requires History(events, states) && n <= |events|
    ensures Exact(states[n])
  {
    if n > 0 {
      HistoryExact(events, states, n - 1);
      StepKeepsExact(states[n - 1], events[n - 1], states[n]);
    }
  }

  lemma {:induction false} FreedStaysFreed(events: seq<Event>, states: seq<Names>, i: nat, m: nat, n: nat)
    requires History(events, states) && m <= n <= |events| && i < |states[m].tickets| && states[m].tickets[i].freed
    ensures i < |states[n].tickets| && states[n].tickets[i] == states[m].tickets[i]
  {
    if m < n {
      FreedStaysFreed(events, states, i, m, n - 1);
    }
  }

  // A second call of a free function, however much later, changes nothing: a
  // run that got the same name in the meantime keeps it.
  lemma SecondFreeDoesNothing(events: seq<Event>, states: seq<Names>, i: nat, m: nat, n: nat)
    requires History(events, states) && m < n < |events| && events[m] == Free(i) && events[n] == Free(i)
      && i < |states[m].tickets|
    ensures states[n + 1] == states[n]
    ensures forall j: nat :: Outstanding(states[n], j) ==> states[n].tickets[j].stamp in states[n + 1].inUse
  {
    FreedStaysFreed(events, states, i, m + 1, n);
    HistoryExact(events, states, n);
  }
}
