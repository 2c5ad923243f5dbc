// Where a repository keeps its data, and when two locations are one place or
// one lies inside the other (place_identity.go, direct_repos.go).
module StoragePlaces {
  import opened Wrappers

  // account is the backend and account, empty for a local folder; dir is a
  // local folder with its links resolved.
  datatype Place = Place(account: string, elems: seq<string>, dir: string)

  // How locations are read: the place of one, when it can be named, its parts
  // as written, which folders are one and which spellings are.
  datatype Places = Places(
    placeOf: string -> Option<Place>, parts: string -> Parts,
    sameDir: (string, string) -> bool, sameText: (string, string) -> bool)

  datatype Parts = Parts(account: string, elems: seq<string>)

  // The host tells the same about two folders whichever way it is asked.
  ghost predicate Sane(p: Places) { forall a, b :: p.sameDir(a, b) == p.sameDir(b, a) }

  predicate SamePlace(p: Places, a: Place, b: Place) {
    (a.account == b.account && a.elems == b.elems) || (a.account == "" && b.account == "" && p.sameDir(a.dir, b.dir))
  }

  predicate IsPrefix(a: seq<string>, b: seq<string>) { |a| <= |b| && a == b[..|a|] }

  predicate Nested(a: seq<string>, b: seq<string>) { if |a| > |b| then IsPrefix(b, a) else IsPrefix(a, b) }

  predicate PlacesOverlap(p: Places, a: Place, b: Place) {
    SamePlace(p, a, b) || (a.account == b.account && Nested(a.elems, b.elems))
  }

  // By place where both can be named and as written otherwise.
  predicate Overlap(p: Places, a: string, b: string) {
    if p.placeOf(a).Some? && p.placeOf(b).Some? then PlacesOverlap(p, p.placeOf(a).value, p.placeOf(b).value)
    else p.parts(a).account == p.parts(b).account && Nested(p.parts(a).elems, p.parts(b).elems)
  }

  lemma OverlapsItself(p: Places, a: string)
    ensures Overlap(p, a, a)
  {
  }

  lemma OverlapBothWays(p: Places, a: string, b: string)
    requires Sane(p)
    ensures Overlap(p, a, b) == Overlap(p, b, a)
  {
    NestedBothWays(p.parts(a).elems, p.parts(b).elems);
    if p.placeOf(a).Some? && p.placeOf(b).Some? {
      NestedBothWays(p.placeOf(a).value.elems, p.placeOf(b).value.elems);
    }
  }

  lemma NestedBothWays(a: seq<string>, b: seq<string>)
    ensures Nested(a, b) == Nested(b, a)
  {
    if |a| == |b| {
      assert a[..|a|] == a && b[..|b|] == b;
    }
  }

  predicate Named(p: Places, loc: string) { p.placeOf(loc).Some? }

  predicate SameNamed(p: Places, a: string, b: string) {
    Named(p, a) && Named(p, b) && SamePlace(p, p.placeOf(a).value, p.placeOf(b).value)
  }

  // Being one place is an equivalence.
  ghost predicate Equivalence(p: Places) {
    Sane(p) && forall a, b, c :: SameNamed(p, a, b) && SameNamed(p, b, c) ==> SameNamed(p, a, c)
  }

  // The repository that is really behind each location, by one of its
  // locations.
  type Host = string -> string

  // Naming is truthful: two named places that are not the same are two
  // repositories. Of a location that cannot be named it says nothing.
  ghost predicate Truthful(p: Places, at: Host) {
    forall a, b :: Named(p, a) && Named(p, b) && !SameNamed(p, a, b) ==> at(a) != at(b)
  }

  // Two locations that do not overlap are two repositories on every truthful
  // host exactly when both can be named.
  lemma NotOverlappingOnEveryHost(p: Places, a: string, b: string)
    requires !Overlap(p, a, b)
    ensures (forall at: Host :: Truthful(p, at) ==> at(a) != at(b)) <==> Named(p, a) && Named(p, b)
  {
    if !Named(p, a) {
      OneBehindTheOther(p, a, b);
    } else if !Named(p, b) {
      OneBehindTheOther(p, b, a);
    }
  }

  lemma OneBehindTheOther(p: Places, hidden: string, loc: string)
    requires !Named(p, hidden)
    ensures exists at: Host :: Truthful(p, at) && at(hidden) == at(loc)
  {
    var at: Host := x => if x == hidden then loc else x;
    assert Truthful(p, at);
    assert at(hidden) == at(loc);
  }

  // A location that can be told apart from another: its place is known and is
  // not the other's, or is not spelled like it.
  predicate Apart(p: Places, loc: string, gone: string) {
    match p.placeOf(loc)
    case None => false
    case Some(at) =>
      match p.placeOf(gone)
      case Some(other) => !SamePlace(p, at, other)
      case None => !p.sameText(loc, gone)
  }

  predicate ApartFromAll(p: Places, loc: string, emptied: seq<string>) {
    p.placeOf(loc).Some? && forall i :: 0 <= i < |emptied| ==> Apart(p, loc, emptied[i])
  }

  method Elsewhere(p: Places, loc: string, emptied: seq<string>) returns (r: bool)
    ensures r <==> ApartFromAll(p, loc, emptied)
  {
    var at := p.placeOf(loc);
    if at.None? { return false; }
    for i := 0 to |emptied|
      invariant forall j :: 0 <= j < i ==> Apart(p, loc, emptied[j])
    {
      var other := p.placeOf(emptied[i]);
      if (other.Some? && SamePlace(p, at.value, other.value)) || (other.None? && p.sameText(loc, emptied[i])) {
        return false;
      }
    }
    return true;
  }

  // A location that is told apart from another is another repository on every
  // truthful host exactly when the other one can be named.
  lemma ApartOnEveryHost(p: Places, loc: string, gone: string)
    requires Apart(p, loc, gone)
    ensures (forall at: Host :: Truthful(p, at) ==> at(loc) != at(gone)) <==> Named(p, gone)
  {
    if !Named(p, gone) {
      OneBehindTheOther(p, gone, loc);
    }
  }

  // ---- in the terms of paths ----------------------------------------------

  // One path is the other or begins it.
  ghost predicate OneInTheOther(a: seq<string>, b: seq<string>) {
    exists rest: seq<string> :: b == a + rest || a == b + rest
  }

  lemma NestedIsInside(a: seq<string>, b: seq<string>)
    ensures Nested(a, b) <==> OneInTheOther(a, b)
  {
    if Nested(a, b) {
      if |a| > |b| {
        assert a == b + a[|b|..];
      } else {
        assert b == a + b[|a|..];
      }
    }
    if rest: seq<string> :| b == a + rest || a == b + rest {
      assert b == a + rest ==> b[..|a|] == a && |a| <= |b|;
      assert a == b + rest ==> a[..|b|] == b && |b| <= |a|;
    }
  }

  // Two locations overlap exactly when they are under one account with one path
  // in the other, or are two local folders the host takes for one; by their
  // places where both can be named and as written otherwise.
  lemma OverlapMeans(p: Places, a: string, b: string)
    ensures Overlap(p, a, b) <==>
      match (p.placeOf(a), p.placeOf(b))
      case (Some(x), Some(y)) =>
        || (x.account == y.account && OneInTheOther(x.elems, y.elems))
        || (x.account == "" && y.account == "" && p.sameDir(x.dir, y.dir))
      case _ => p.parts(a).account == p.parts(b).account && OneInTheOther(p.parts(a).elems, p.parts(b).elems)
  {
    NestedIsInside(p.parts(a).elems, p.parts(b).elems);
    if p.placeOf(a).Some? && p.placeOf(b).Some? {
      NestedIsInside(p.placeOf(a).value.elems, p.placeOf(b).value.elems);
      assert p.placeOf(a).value.elems == p.placeOf(b).value.elems ==>
        p.placeOf(b).value.elems == p.placeOf(a).value.elems + [];
    }
  }

  // A location is told apart from every emptied one exactly when it can be named
  // and each of them is named otherwise, on an account or as a folder, or cannot
  // be named and is spelled otherwise.
  lemma ApartMeans(p: Places, loc: string, emptied: seq<string>)
    ensures ApartFromAll(p, loc, emptied) <==>
      p.placeOf(loc).Some? && forall i :: 0 <= i < |emptied| ==>
        match p.placeOf(emptied[i])
        case None => !p.sameText(loc, emptied[i])
        case Some(other) =>
          var at := p.placeOf(loc).value;
          && (at.account != other.account || at.elems != other.elems)
          && (at.account != "" || other.account != "" || !p.sameDir(at.dir, other.dir))
  {
  }
}
