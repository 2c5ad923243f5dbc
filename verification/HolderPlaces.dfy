// How many repositories a set of locations leads to at least, when other
// locations cannot be named: an entry that is held at several places outside a
// deletion is safe on every host exactly when those places outnumber the
// emptied locations nobody can name (destination_erase.go, place_identity.go).
module HolderPlaces {
  import opened Wrappers
  import opened StoragePlaces

  // The location leads to none of the emptied repositories.
  ghost predicate AwayFrom(at: Host, loc: string, emptied: seq<string>) {
    forall gone :: gone in emptied ==> at(loc) != at(gone)
  }

  ghost predicate Untouched(at: Host, holders: set<string>, emptied: seq<string>) {
    exists loc :: loc in holders && AwayFrom(at, loc, emptied)
  }

  ghost function UnnamedOf(p: Places, emptied: seq<string>): (r: set<string>)
    ensures forall loc :: loc in r <==> loc in emptied && !Named(p, loc)
  {
    set loc | loc in emptied && !Named(p, loc)
  }

  // Named places, no two of them the same.
  ghost predicate AllApart(p: Places, locs: set<string>) {
    (forall a :: a in locs ==> Named(p, a)) && forall a, b :: a in locs && b in locs && a != b ==> !SameNamed(p, a, b)
  }

  // The holders are at more places than there are emptied locations without a
  // name.
  ghost predicate Spread(p: Places, holders: set<string>, emptied: seq<string>) {
    exists locs :: locs <= holders && AllApart(p, locs) && |locs| > |UnnamedOf(p, emptied)|
  }

  lemma OneIsSpread(p: Places, holders: set<string>, emptied: seq<string>)
    requires holders != {} && UnnamedOf(p, emptied) == {}
    requires forall loc :: loc in holders ==> ApartFromAll(p, loc, emptied)
    ensures Spread(p, holders, emptied)
  {
    var loc :| loc in holders;
    assert {loc} <= holders && AllApart(p, {loc}) && |{loc}| > 0;
  }

  // Places that are apart from each other need a repository each.
  lemma {:induction false} Pigeonhole(p: Places, at: Host, locs: set<string>, hidden: set<string>)
    requires Truthful(p, at) && AllApart(p, locs)
    requires forall a :: a in locs ==> exists g :: g in hidden && at(a) == at(g)
    ensures |locs| <= |hidden|
  {
    if locs != {} {
      var a :| a in locs;
      var g :| g in hidden && at(a) == at(g);
      var rest, left := locs - {a}, hidden - {g};
      forall b | b in rest ensures exists h :: h in left && at(b) == at(h) {
        var h :| h in hidden && at(b) == at(h);
        assert at(a) != at(b);
        assert h in left;
      }
      Pigeonhole(p, at, rest, left);
    }
  }

  lemma SpreadIsUntouched(p: Places, at: Host, holders: set<string>, emptied: seq<string>)
    requires Truthful(p, at) && Spread(p, holders, emptied)
    requires forall loc :: loc in holders ==> ApartFromAll(p, loc, emptied)
    ensures Untouched(at, holders, emptied)
  {
    var locs :| locs <= holders && AllApart(p, locs) && |locs| > |UnnamedOf(p, emptied)|;
    if !Untouched(at, holders, emptied) {
      forall a | a in locs ensures exists g :: g in UnnamedOf(p, emptied) && at(a) == at(g) {
        assert !AwayFrom(at, a, emptied);
        var g :| g in emptied && at(a) == at(g);
        var i :| 0 <= i < |emptied| && emptied[i] == g;
        assert Apart(p, a, emptied[i]);
      }
      Pigeonhole(p, at, locs, UnnamedOf(p, emptied));
    }
  }

  lemma SameAsItself(p: Places, a: string)
    requires Named(p, a)
    ensures SameNamed(p, a, a)
  {
  }

  lemma SameBothWays(p: Places, a: string, b: string)
    requires Equivalence(p)
    ensures SameNamed(p, a, b) == SameNamed(p, b, a)
  {
  }

  lemma SameThrough(p: Places, a: string, b: string, z: string)
    requires Equivalence(p) && SameNamed(p, a, z) && SameNamed(p, b, z)
    ensures SameNamed(p, a, b)
  {
    SameBothWays(p, b, z);
  }

  // One holder of each place.
  lemma {:induction false} Representatives(p: Places, holders: set<string>) returns (locs: set<string>)
    requires Equivalence(p) && forall a :: a in holders ==> Named(p, a)
    ensures locs <= holders && AllApart(p, locs)
    ensures forall a :: a in holders ==> exists r :: r in locs && SameNamed(p, a, r)
  {
    hide Equivalence, SameNamed;
    if holders == {} {
      locs := {};
    } else {
      var a :| a in holders;
      var rest := Representatives(p, holders - {a});
      if exists r :: r in rest && SameNamed(p, a, r) {
        locs := rest;
      } else {
        locs := rest + {a};
        SameAsItself(p, a);
        forall b | b in rest ensures !SameNamed(p, b, a) { SameBothWays(p, b, a); }
      }
      forall b | b in holders ensures exists r :: r in locs && SameNamed(p, b, r) {
        if b != a {
          assert b in holders - {a};
          var r :| r in rest && SameNamed(p, b, r);
        }
      }
    }
  }

  // A host for what there is room for: the hidden locations lead to the given
  // repositories.
  lemma {:induction false} Embed(locs: set<string>, hidden: set<string>) returns (m: map<string, string>)
    requires |locs| <= |hidden|
    ensures m.Keys <= hidden && forall r :: r in locs <==> exists g :: g in m && m[g] == r
  {
    if locs == {} {
      m := map[];
    } else {
      var r :| r in locs;
      var g :| g in hidden;
      var rest := Embed(locs - {r}, hidden - {g});
      m := rest[g := r];
      forall x ensures x in locs <==> exists h :: h in m && m[h] == x {
        if x in locs && x != r {
          assert x in locs - {r};
          var h :| h in rest && rest[h] == x;
          assert m[h] == x;
        }
        if h :| h in m && m[h] == x {
          assert h != g ==> h in rest && rest[h] == x;
        }
        assert m[g] == r;
      }
    }
  }

  lemma NarrowIsTouched(p: Places, holders: set<string>, emptied: seq<string>) returns (at: Host)
    requires Equivalence(p) && !Spread(p, holders, emptied)
    requires forall loc :: loc in holders ==> ApartFromAll(p, loc, emptied)
    ensures Truthful(p, at) && !Untouched(at, holders, emptied)
  {
    hide Equivalence, SameNamed;
    var locs := Representatives(p, holders);
    var m := Embed(locs, UnnamedOf(p, emptied));
    var rep := ChooseRepresentatives(p, holders, locs);
    at := x => if x in m then m[x] else if x in rep then rep[x] else x;
    forall a, b | Named(p, a) && Named(p, b) && at(a) == at(b) ensures SameNamed(p, a, b) {
      assert a !in m && b !in m;
      SameAsItself(p, a);
      SameAsItself(p, b);
      SameThrough(p, a, b, at(a));
    }
    forall loc | loc in holders ensures !AwayFrom(at, loc, emptied) {
      var g :| g in m && m[g] == rep[loc];
      assert at(loc) == at(g) && g in emptied;
    }
  }

  lemma {:induction false} ChooseRepresentatives(p: Places, holders: set<string>, locs: set<string>)
    returns (rep: map<string, string>)
    requires forall a :: a in holders ==> exists r :: r in locs && SameNamed(p, a, r)
    ensures rep.Keys == holders && forall a :: a in holders ==> rep[a] in locs && SameNamed(p, a, rep[a])
  {
    if holders == {} {
      rep := map[];
    } else {
      var a :| a in holders;
      var rest := ChooseRepresentatives(p, holders - {a}, locs);
      var r :| r in locs && SameNamed(p, a, r);
      rep := rest[a := r];
    }
  }

  // On every truthful host one of the holders stays untouched: exactly when
  // they are spread over more places than there are emptied locations without a
  // name.
  lemma UntouchedOnEveryHost(p: Places, holders: set<string>, emptied: seq<string>)
    requires Equivalence(p) && forall loc :: loc in holders ==> ApartFromAll(p, loc, emptied)
    ensures (forall at: Host :: Truthful(p, at) ==> Untouched(at, holders, emptied)) <==> Spread(p, holders, emptied)
  {
    if Spread(p, holders, emptied) {
      forall at: Host | Truthful(p, at) ensures Untouched(at, holders, emptied) {
        SpreadIsUntouched(p, at, holders, emptied);
      }
    } else {
      var at := NarrowIsTouched(p, holders, emptied);
    }
  }
}
