// The memory of paused sessions (internal/activity/activity.go): a movie
// paused for the night stops counting once it has stood still long enough.
// Times are nanoseconds, as the program counts them.
module Pauses {
  import opened Wrappers

  const FORGET_AFTER := 48 * 3600 * 1000000000

  datatype Session = Session(id: string, paused: bool, position: int, pausedSince: Option<int>)

  datatype Mark = Mark(position: int, since: int, looked: int)

  // A session of one server. The program joins the two with a NUL byte.
  datatype Slot = Slot(server: string, session: string)

  type Marks = map<Slot, Mark>

  // One look at one server.
  datatype Look = Look(server: string, sessions: seq<Session>, ignoreAfter: int, now: int)

  function Unexpired(seen: Marks, now: int): Marks {
    map slot | slot in seen && now - seen[slot].looked <= FORGET_AFTER :: seen[slot]
  }

  function MarkFor(seen: Marks, slot: Slot, s: Session, now: int): Mark {
    var kept := if slot in seen && seen[slot].position == s.position then seen[slot] else Mark(s.position, now, now);
    var since := if s.pausedSince.Some? && s.pausedSince.value < kept.since then s.pausedSince.value else kept.since;
    Mark(kept.position, since, now)
  }

  function AfterSession(seen: Marks, server: string, s: Session, now: int): Marks {
    var slot := Slot(server, s.id);
    if !s.paused then seen - {slot} else seen[slot := MarkFor(seen, slot, s, now)]
  }

  predicate KeepsBusy(seen: Marks, server: string, s: Session, ignoreAfter: int, now: int) {
    !s.paused || ignoreAfter <= 0 || now - MarkFor(seen, Slot(server, s.id), s, now).since < ignoreAfter
  }

  function AfterSessions(seen: Marks, l: Look, n: nat): Marks
    requires n <= |l.sessions|
  {
    if n == 0 then Unexpired(seen, l.now)
    else AfterSession(AfterSessions(seen, l, n - 1), l.server, l.sessions[n - 1], l.now)
  }

  function After(seen: Marks, l: Look): Marks { AfterSessions(seen, l, |l.sessions|) }

  function BusyUpTo(seen: Marks, l: Look, n: nat): seq<Session>
    requires n <= |l.sessions|
  {
    if n == 0 then []
    else BusyUpTo(seen, l, n - 1)
         + (if KeepsBusy(AfterSessions(seen, l, n - 1), l.server, l.sessions[n - 1], l.ignoreAfter, l.now) then
           [l.sessions[n - 1]] else [])
  }

  class PauseMemory {
    var seen: Marks

    constructor ()
      ensures seen == map[]
    {
      seen := map[];
    }

    method Forget(now: int)
      modifies this
      ensures seen == Unexpired(old(seen), now)
    {
      var rest := seen.Keys;
      ghost var all := seen;
      while rest != {}
        invariant rest <= all.Keys && rest <= seen.Keys <= all.Keys
        invariant forall slot :: slot in seen ==> seen[slot] == all[slot]
        invariant forall slot :: slot in all && slot !in rest ==>
          (slot in seen <==> now - all[slot].looked <= FORGET_AFTER)
      {
        var slot :| slot in rest;
        rest := rest - {slot};
        if now - seen[slot].looked > FORGET_AFTER {
          seen := seen - {slot};
        }
      }
    }

    method Busy(server: string, sessions: seq<Session>, ignoreAfter: int, now: int) returns (busy: seq<Session>)
      modifies this
      ensures seen == After(old(seen), Look(server, sessions, ignoreAfter, now))
      ensures busy == BusyUpTo(old(seen), Look(server, sessions, ignoreAfter, now), |sessions|)
    {
      Forget(now);
      busy := [];
      ghost var l := Look(server, sessions, ignoreAfter, now);
      for i := 0 to |sessions|
        invariant seen == AfterSessions(old(seen), l, i)
        invariant busy == BusyUpTo(old(seen), l, i)
      {
        var s := sessions[i];
        var slot := Slot(server, s.id);
        if !s.paused {
          seen := seen - {slot};
          busy := busy + [s];
          continue;
        }
        var mark := if slot in seen then seen[slot] else Mark(0, 0, 0);
        if slot !in seen || mark.position != s.position {
          mark := Mark(s.position, now, mark.looked);
        }
        if s.pausedSince.Some? && s.pausedSince.value < mark.since {
          mark := mark.(since := s.pausedSince.value);
        }
        mark := mark.(looked := now);
        seen := seen[slot := mark];
        if ignoreAfter <= 0 || now - mark.since < ignoreAfter {
          busy := busy + [s];
        }
      }
    }
  }

  // ---- one look -----------------------------------------------------------

  // Every playing session is reported, and nothing that is not a session of
  // the look.
  lemma {:induction false} PlayingIsBusy(seen: Marks, l: Look, n: nat)
    requires n <= |l.sessions|
    ensures forall i :: 0 <= i < n && !l.sessions[i].paused ==> l.sessions[i] in BusyUpTo(seen, l, n)
    ensures forall s :: s in BusyUpTo(seen, l, n) ==> s in l.sessions[..n]
  {
    if n > 0 {
      PlayingIsBusy(seen, l, n - 1);
      assert l.sessions[..n] == l.sessions[..n - 1] + [l.sessions[n - 1]];
    }
  }

  ghost predicate OncePerLook(l: Look) {
    forall i, j :: 0 <= i < j < |l.sessions| ==> l.sessions[i].id != l.sessions[j].id
  }

  // Sessions with other ids leave a slot alone.
  lemma {:induction false} OthersLeaveSlot(seen: Marks, l: Look, slot: Slot, from: nat, n: nat)
    requires from <= n <= |l.sessions|
    requires forall i :: from <= i < n ==> Slot(l.server, l.sessions[i].id) != slot
    ensures slot in AfterSessions(seen, l, n) <==> slot in AfterSessions(seen, l, from)
    ensures slot in AfterSessions(seen, l, n) ==> AfterSessions(seen, l, n)[slot] == AfterSessions(seen, l, from)[slot]
  {
    if from < n {
      OthersLeaveSlot(seen, l, slot, from, n - 1);
    }
  }

  lemma {:induction false} BusyIsKept(seen: Marks, l: Look, i: nat, n: nat)
    requires OncePerLook(l) && i < n <= |l.sessions|
    ensures l.sessions[i] in BusyUpTo(seen, l, n) <==>
      KeepsBusy(AfterSessions(seen, l, i), l.server, l.sessions[i], l.ignoreAfter, l.now)
  {
    var s := l.sessions[i];
    if n - 1 == i {
      PlayingIsBusy(seen, l, i);
      assert s !in l.sessions[..i];
    } else {
      BusyIsKept(seen, l, i, n - 1);
    }
  }

  // A paused session is left out exactly when its mark, as the look leaves it,
  // is at least ignoreAfter old.
  lemma LeftOutOnlyWhenStill(seen: Marks, l: Look, i: nat)
    requires OncePerLook(l) && i < |l.sessions| && l.sessions[i].paused
    ensures var s, slot := l.sessions[i], Slot(l.server, l.sessions[i].id);
            slot in After(seen, l) && After(seen, l)[slot].looked == l.now
              && After(seen, l)[slot].position == s.position
            && (s !in BusyUpTo(seen, l, |l.sessions|) <==>
                 l.ignoreAfter > 0 && l.now - After(seen, l)[slot].since >= l.ignoreAfter)
  {
    var slot := Slot(l.server, l.sessions[i].id);
    OthersLeaveSlot(seen, l, slot, i + 1, |l.sessions|);
    BusyIsKept(seen, l, i, |l.sessions|);
  }

  // A pause counts from when the session was first seen at its position, or from
  // when its server says it began, if that is earlier; a session that moved, or
  // that nobody looked at for two days, starts over.
  lemma PauseCountsFrom(seen: Marks, l: Look, i: nat)
    requires OncePerLook(l) && i < |l.sessions| && l.sessions[i].paused
    ensures var s, slot := l.sessions[i], Slot(l.server, l.sessions[i].id);
      var first :=
        if slot in seen && seen[slot].position == s.position && l.now - seen[slot].looked <= 172800000000000
        then seen[slot].since else l.now;
      && slot in After(seen, l)
      && After(seen, l)[slot].since ==
           if s.pausedSince.Some? && s.pausedSince.value < first then s.pausedSince.value else first
  {
    var slot := Slot(l.server, l.sessions[i].id);
    OthersLeaveSlot(seen, l, slot, 0, i);
    OthersLeaveSlot(seen, l, slot, i + 1, |l.sessions|);
  }

  // So one that was resumed, moved on and paused again keeps the server busy.
  lemma MovedIsBusy(seen: Marks, l: Look, i: nat)
    requires OncePerLook(l) && i < |l.sessions| && l.sessions[i].pausedSince.None?
    requires var slot := Slot(l.server, l.sessions[i].id);
      slot in seen ==> seen[slot].position != l.sessions[i].position
    ensures l.sessions[i] in BusyUpTo(seen, l, |l.sessions|)
  {
    if l.sessions[i].paused {
      PauseCountsFrom(seen, l, i);
      LeftOutOnlyWhenStill(seen, l, i);
    } else {
      PlayingIsBusy(seen, l, |l.sessions|);
    }
  }

  // A playing session has no mark after the look, and one the look does not
  // list keeps the mark it had.
  lemma OnlyPausedAreMarked(seen: Marks, l: Look, session: string)
    requires OncePerLook(l)
    ensures var slot := Slot(l.server, session);
      && (forall i :: 0 <= i < |l.sessions| && l.sessions[i].id == session && !l.sessions[i].paused ==>
           slot !in After(seen, l))
      && ((forall i :: 0 <= i < |l.sessions| ==> l.sessions[i].id != session) ==>
           (slot in After(seen, l) <==> slot in seen && l.now - seen[slot].looked <= 172800000000000)
           && (slot in After(seen, l) ==> After(seen, l)[slot] == seen[slot]))
  {
    var slot := Slot(l.server, session);
    if i :| 0 <= i < |l.sessions| && l.sessions[i].id == session {
      OthersLeaveSlot(seen, l, slot, i + 1, |l.sessions|);
    } else {
      OthersLeaveSlot(seen, l, slot, 0, |l.sessions|);
    }
  }

  // A look at one server changes no other server's marks, except that what
  // nobody looked at for two days is forgotten.
  lemma OtherServersKept(seen: Marks, l: Look, slot: Slot)
    requires slot.server != l.server
    ensures slot in After(seen, l) <==> slot in seen && l.now - seen[slot].looked <= FORGET_AFTER
    ensures slot in After(seen, l) ==> After(seen, l)[slot] == seen[slot]
  {
    OthersLeaveSlot(seen, l, slot, 0, |l.sessions|);
  }

  // ---- looks in a row -----------------------------------------------------

  function Along(looks: seq<Look>, n: nat): Marks
    requires n <= |looks|
  {
    if n == 0 then map[] else After(Along(looks, n - 1), looks[n - 1])
  }

  // The look lists the session, paused at that position.
  ghost predicate StandsStill(l: Look, session: string, position: int) {
    && OncePerLook(l)
    && exists i ::
         0 <= i < |l.sessions| && l.sessions[i].id == session && l.sessions[i].paused
         && l.sessions[i].position == position
  }

  // When the server was last looked at before look n.
  function LastLook(looks: seq<Look>, server: string, n: nat): Option<int>
    requires n <= |looks|
  {
    if n == 0 then None else if looks[n - 1].server == server then Some(looks[n - 1].now)
      else LastLook(looks, server, n - 1)
  }

  // From look m on, the session stands still at every look at its server, and
  // no look at any server comes more than two days after its server's last.
  ghost predicate Watched(looks: seq<Look>, slot: Slot, position: int, m: nat, n: nat) {
    && m < n <= |looks| && looks[m].server == slot.server
    && (forall k :: m <= k < n && looks[k].server == slot.server ==> StandsStill(looks[k], slot.session, position))
    && (forall k :: m < k < n ==>
         LastLook(looks, slot.server, k).Some? && looks[k].now - LastLook(looks, slot.server, k).value <= FORGET_AFTER)
  }

  lemma StillKeepsMark(seen: Marks, l: Look, slot: Slot, position: int)
    requires l.server == slot.server && StandsStill(l, slot.session, position)
    ensures slot in After(seen, l) && After(seen, l)[slot].position == position && After(seen, l)[slot].looked == l.now
    ensures slot in seen && seen[slot].position == position && l.now - seen[slot].looked <= FORGET_AFTER ==>
              After(seen, l)[slot].since <= seen[slot].since
    ensures slot !in seen ==> After(seen, l)[slot].since <= l.now
  {
    var i :| 0 <= i < |l.sessions| && l.sessions[i].id == slot.session && l.sessions[i].paused
      && l.sessions[i].position == position;
    OthersLeaveSlot(seen, l, slot, 0, i);
    OthersLeaveSlot(seen, l, slot, i + 1, |l.sessions|);
  }

  // The mark of a session standing still never moves later, however many other
  // servers are looked at in between.
  lemma {:induction false} MarkNeverMovesLater(looks: seq<Look>, slot: Slot, position: int, m: nat, n: nat)
    requires Watched(looks, slot, position, m, n)
    ensures slot in Along(looks, m + 1) && slot in Along(looks, n)
    ensures Along(looks, n)[slot].position == position
      && LastLook(looks, slot.server, n) == Some(Along(looks, n)[slot].looked)
    ensures Along(looks, n)[slot].since <= Along(looks, m + 1)[slot].since
  {
    var l := looks[n - 1];
    if n == m + 1 {
      StillKeepsMark(Along(looks, m), l, slot, position);
    } else {
      MarkNeverMovesLater(looks, slot, position, m, n - 1);
      if l.server == slot.server {
        StillKeepsMark(Along(looks, n - 1), l, slot, position);
      } else {
        OtherServersKept(Along(looks, n - 1), l, slot);
      }
    }
  }

  // So a pause first seen at look m is left out at every later look at its
  // server that comes at least ignoreAfter after it.
  lemma LongPauseIsIgnored(looks: seq<Look>, slot: Slot, position: int, m: nat, n: nat, i: nat)
    requires Watched(looks, slot, position, m, n) && slot !in Along(looks, m)
    requires looks[n - 1].server == slot.server && i < |looks[n - 1].sessions|
      && looks[n - 1].sessions[i].id == slot.session
    requires looks[n - 1].ignoreAfter > 0 && looks[n - 1].now - looks[m].now >= looks[n - 1].ignoreAfter
    ensures looks[n - 1].sessions[i] !in BusyUpTo(Along(looks, n - 1), looks[n - 1], |looks[n - 1].sessions|)
  {
    var l := looks[n - 1];
    assert StandsStill(l, slot.session, position);
    var k :| 0 <= k < |l.sessions| && l.sessions[k].id == slot.session && l.sessions[k].paused
      && l.sessions[k].position == position;
    assert k == i;
    MarkNeverMovesLater(looks, slot, position, m, n);
    StillKeepsMark(Along(looks, m), looks[m], slot, position);
    LeftOutOnlyWhenStill(Along(looks, n - 1), l, i);
  }
}
