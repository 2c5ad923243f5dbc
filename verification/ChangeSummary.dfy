// What changed between two backups, folder by folder (anomaly_changes.go): a
// tree of figures built from the changed files in any order, the level where
// the changes part ways, its busiest folders, and the deepest folder that
// holds nearly all of the churn.
module ChangeSummary {
  import opened Wrappers
  import opened Ordering
  import opened Sums

  // A path is the list of its parts, so the top folder is the empty one.
  type Path = seq<string>

  datatype Kind = Removed | Added | Modified

  datatype Change = Change(kind: Kind, size: nat)

  datatype Figures = Figures(
    removedBytes: nat, removedFiles: nat, addedBytes: nat, addedFiles: nat, changedBytes: nat, changedFiles: nat)
  {
    function Churn(): nat { removedBytes + addedBytes + changedBytes }

    function Files(): nat { removedFiles + addedFiles + changedFiles }

    function Plus(f: Figures): Figures {
      Figures(removedBytes + f.removedBytes, removedFiles + f.removedFiles, addedBytes + f.addedBytes,
              addedFiles + f.addedFiles, changedBytes + f.changedBytes, changedFiles + f.changedFiles)
    }

    predicate Covers(f: Figures) {
      && removedBytes >= f.removedBytes && removedFiles >= f.removedFiles && addedBytes >= f.addedBytes
      && addedFiles >= f.addedFiles && changedBytes >= f.changedBytes && changedFiles >= f.changedFiles
    }

    function Minus(f: Figures): Figures
      requires Covers(f)
    {
      Figures(removedBytes - f.removedBytes, removedFiles - f.removedFiles, addedBytes - f.addedBytes,
              addedFiles - f.addedFiles, changedBytes - f.changedBytes, changedFiles - f.changedFiles)
    }
  }

  const ZERO := Figures(0, 0, 0, 0, 0, 0)

  // What one changed file counts for.
  function One(c: Change): Figures {
    match c.kind
    case Removed => Figures(c.size, 1, 0, 0, 0, 0)
    case Added => Figures(0, 0, c.size, 1, 0, 0)
    case Modified => Figures(0, 0, 0, 0, c.size, 1)
  }

  lemma PlusCommutes(a: Figures, b: Figures)
    ensures a.Plus(b) == b.Plus(a)
  {
  }

  lemma PlusAssociates(a: Figures, b: Figures, c: Figures)
    ensures a.Plus(b).Plus(c) == a.Plus(b.Plus(c))
  {
  }

  // ---- sums in no particular order ----------------------------------------------

  ghost function Sum<T(!new)>(v: T -> Figures, s: set<T>): Figures {
    if s == {} then ZERO
    else
      var x := AnyOf(s);
      Sum(v, s - {x}).Plus(v(x))
  }

  // Any element can be taken out first.
  lemma {:induction false} FiguresTakeOut<T(!new)>(v: T -> Figures, s: set<T>, x: T)
    requires x in s
    ensures Sum(v, s) == Sum(v, s - {x}).Plus(v(x))
  {
    var y := AnyOf(s);
    if x != y {
      var rest := s - {x} - {y};
      assert s - {y} - {x} == rest;
      FiguresTakeOut(v, s - {y}, x);
      FiguresTakeOut(v, s - {x}, y);
      PlusAssociates(Sum(v, rest), v(x), v(y));
      PlusAssociates(Sum(v, rest), v(y), v(x));
      PlusCommutes(v(x), v(y));
    }
  }

  lemma FiguresAdd<T(!new)>(v: T -> Figures, s: set<T>, x: T)
    requires x !in s
    ensures Sum(v, s + {x}) == Sum(v, s).Plus(v(x))
  {
    FiguresTakeOut(v, s + {x}, x);
    assert s + {x} - {x} == s;
  }

  // Sets without a common element add up.
  lemma {:induction false} SumSplits<T(!new)>(v: T -> Figures, a: set<T>, b: set<T>)
    requires a !! b
    ensures Sum(v, a + b) == Sum(v, a).Plus(Sum(v, b))
    decreases b
  {
    if b == {} {
      assert a + b == a;
      PlusZero(Sum(v, a));
    } else {
      var x :| x in b;
      var rest := b - {x};
      SumSplits(v, a, rest);
      SumGrows(v, a, rest, b, x);
    }
  }

  lemma PlusZero(f: Figures)
    ensures f.Plus(ZERO) == f
  {
  }

  lemma SumGrows<T(!new)>(v: T -> Figures, a: set<T>, rest: set<T>, b: set<T>, x: T)
    requires x in b && rest == b - {x} && a !! b
    requires Sum(v, a + rest) == Sum(v, a).Plus(Sum(v, rest))
    ensures Sum(v, a + b) == Sum(v, a).Plus(Sum(v, b))
  {
    assert a + b - {x} == a + rest;
    FiguresTakeOut(v, a + b, x);
    FiguresTakeOut(v, b, x);
    PlusAssociates(Sum(v, a), Sum(v, rest), v(x));
  }

  // ---- the tree ------------------------------------------------------------------

  // The file lies somewhere in the folder.
  predicate Under(p: Path, rel: Path) { |p| < |rel| && rel[..|p|] == p }

  function FilesUnder(files: set<Path>, p: Path): set<Path> {
    set rel | rel in files && Under(p, rel)
  }

  type Tree = map<Path, Figures>

  function Value(changes: map<Path, Change>): Path -> Figures {
    rel => if rel in changes then One(changes[rel]) else ZERO
  }

  // Without files there are no bytes either.
  lemma {:induction false} NoFilesNoBytes(changes: map<Path, Change>, files: set<Path>)
    requires files <= changes.Keys
    ensures Sum(Value(changes), files).Files() == 0 ==> files == {} && Sum(Value(changes), files) == ZERO
  {
    if files != {} {
      var rel :| rel in files;
      FiguresTakeOut(Value(changes), files, rel);
    }
  }

  // The tree has the top folder and every folder a changed file lies in, each
  // with the figures of the files below it.
  ghost predicate TreeOf(v: Path -> Figures, files: set<Path>, t: Tree) {
    && (forall p :: p in t <==> p == [] || FilesUnder(files, p) != {})
    && (forall p :: p in t ==> t[p] == Sum(v, FilesUnder(files, p)))
  }

  // Adds one file to every folder it lies in, from the top down.
  method AddFile(t: Tree, rel: Path, f: Figures) returns (r: Tree)
    requires [] in t && rel != []
    ensures Adds(t, rel, f, |rel|, r)
  {
    r := t[[] := t[[]].Plus(f)];
    AddsToTop(t, rel, f);
    hide Adds;
    for i := 1 to |rel|
      invariant Adds(t, rel, f, i, r)
    {
      var p := rel[..i];
      AddsOneMore(t, rel, f, i, r);
      r := r[p := (if p in r then r[p] else ZERO).Plus(f)];
    }
  }

  lemma AddsToTop(t: Tree, rel: Path, f: Figures)
    requires [] in t && rel != []
    ensures Adds(t, rel, f, 1, t[[] := t[[]].Plus(f)])
  {
  }

  lemma AddsOneMore(t: Tree, rel: Path, f: Figures, i: nat, r: Tree)
    requires 0 < i < |rel| && Adds(t, rel, f, i, r)
    ensures Adds(t, rel, f, i + 1, r[rel[..i] := (if rel[..i] in r then r[rel[..i]] else ZERO).Plus(f)])
  {
    var p := rel[..i];
    assert Under(p, rel) && |p| == i;
    forall q | Under(q, rel) && |q| == i ensures q == p {}
    assert p in r <==> p in t;
    assert p in r ==> r[p] == t[p];
  }

  // r is t with f added to the first n folders on the way to the file.
  ghost predicate Adds(t: Tree, rel: Path, f: Figures, n: nat, r: Tree) {
    && (forall p :: p in r <==> p in t || (Under(p, rel) && |p| < n))
    && (forall p :: p in r && Under(p, rel) && |p| < n ==> r[p] == (if p in t then t[p] else ZERO).Plus(f))
    && (forall p :: p in r && !(Under(p, rel) && |p| < n) ==> r[p] == t[p])
  }

  method BuildTree(changes: map<Path, Change>) returns (t: Tree)
    requires forall rel :: rel in changes ==> rel != []
    ensures TreeOf(Value(changes), changes.Keys, t)
  {
    t := map[[] := ZERO];
    ghost var v := Value(changes);
    EmptyTree(v, t);
    hide TreeOf, Adds;
    var rest := changes.Keys;
    ghost var seen: set<Path> := {};
    while rest != {}
      invariant rest <= changes.Keys && forall rel :: rel in seen <==> rel in changes && rel !in rest
      invariant TreeOf(v, seen, t)
      decreases |rest|
    {
      TopInTree(v, seen, t);
      var rel :| rel in rest;
      var u := AddFile(t, rel, One(changes[rel]));
      AddFileBuilds(v, seen, t, rel, u);
      rest := rest - {rel};
      seen := seen + {rel};
      t := u;
    }
    assert seen == changes.Keys;
  }

  lemma EmptyTree(v: Path -> Figures, t: Tree)
    requires t == map[[] := ZERO]
    ensures forall files: set<Path> :: files == {} ==> TreeOf(v, files, t)
  {
  }

  lemma TopInTree(v: Path -> Figures, files: set<Path>, t: Tree)
    requires TreeOf(v, files, t)
    ensures [] in t
  {
  }

  lemma AddFileBuilds(v: Path -> Figures, seen: set<Path>, t: Tree, rel: Path, u: Tree)
    requires TreeOf(v, seen, t) && rel !in seen && rel != []
    requires Adds(t, rel, v(rel), |rel|, u)
    ensures TreeOf(v, seen + {rel}, u)
  {
    forall p
      ensures p in u <==> p == [] || FilesUnder(seen + {rel}, p) != {}
      ensures p in u ==> u[p] == Sum(v, FilesUnder(seen + {rel}, p))
    {
      FolderGrows(v, seen, rel, p);
      assert Under(p, rel) && p !in t ==> FilesUnder(seen, p) == {};
    }
  }

  lemma FolderGrows(v: Path -> Figures, seen: set<Path>, rel: Path, p: Path)
    requires rel !in seen
    ensures !Under(p, rel) ==> FilesUnder(seen + {rel}, p) == FilesUnder(seen, p)
    ensures Under(p, rel) ==> rel in FilesUnder(seen + {rel}, p)
    ensures Under(p, rel) ==> Sum(v, FilesUnder(seen + {rel}, p)) == Sum(v, FilesUnder(seen, p)).Plus(v(rel))
  {
    var before, now := FilesUnder(seen, p), FilesUnder(seen + {rel}, p);
    if Under(p, rel) {
      assert rel in now && now == before + {rel};
      FiguresAdd(v, before, rel);
    } else {
      assert now == before;
    }
  }

  // ---- what the figures count ---------------------------------------------

  predicate IsOf(changes: map<Path, Change>, rel: Path, kind: Kind) { rel in changes && changes[rel].kind == kind }

  function FilesOf(changes: map<Path, Change>, files: set<Path>, kind: Kind): set<Path> {
    set rel | rel in files && IsOf(changes, rel, kind)
  }

  function SizeIn(changes: map<Path, Change>): Path -> int {
    rel => if rel in changes then changes[rel].size else 0
  }

  // Every figure is the number or the size of the changed files of its kind.
  ghost predicate Tells(f: Figures, changes: map<Path, Change>, files: set<Path>) {
    && f.removedFiles == |FilesOf(changes, files, Removed)|
    && f.addedFiles == |FilesOf(changes, files, Added)|
    && f.changedFiles == |FilesOf(changes, files, Modified)|
    && f.removedBytes == SumOf(SizeIn(changes), FilesOf(changes, files, Removed))
    && f.addedBytes == SumOf(SizeIn(changes), FilesOf(changes, files, Added))
    && f.changedBytes == SumOf(SizeIn(changes), FilesOf(changes, files, Modified))
  }

  lemma KindGrows(changes: map<Path, Change>, files: set<Path>, rel: Path, kind: Kind)
    requires rel !in files && rel in changes
    ensures var before, now := FilesOf(changes, files, kind), FilesOf(changes, files + {rel}, kind);
      if changes[rel].kind == kind
      then |now| == |before| + 1 && SumOf(SizeIn(changes), now) == SumOf(SizeIn(changes), before) + changes[rel].size
      else now == before
  {
    var before, now := FilesOf(changes, files, kind), FilesOf(changes, files + {rel}, kind);
    if changes[rel].kind == kind {
      assert now == before + {rel} && rel !in before;
      SumAdds(SizeIn(changes), before, rel);
    } else {
      assert now == before;
    }
  }

  lemma {:induction false} FiguresTell(changes: map<Path, Change>, files: set<Path>)
    requires files <= changes.Keys
    ensures Tells(Sum(Value(changes), files), changes, files)
  {
    hide Sum, SumOf, FilesOf;
    if rel :| rel in files {
      var rest := files - {rel};
      assert files == rest + {rel};
      FiguresTell(changes, rest);
      FiguresAdd(Value(changes), rest, rel);
      KindGrows(changes, rest, rel, Removed);
      KindGrows(changes, rest, rel, Added);
      KindGrows(changes, rest, rel, Modified);
    } else {
      assert files == {};
      NothingTold(changes);
    }
  }

  lemma NothingTold(changes: map<Path, Change>)
    ensures Tells(Sum(Value(changes), {}), changes, {})
  {
    assert forall kind :: FilesOf(changes, {}, kind) == {};
  }

  // So every folder of the tree tells how many files below it were removed,
  // added and modified, and how large they are.
  lemma FoldersTell(changes: map<Path, Change>, t: Tree, p: Path)
    requires TreeOf(Value(changes), changes.Keys, t) && p in t
    ensures Tells(t[p], changes, FilesUnder(changes.Keys, p))
  {
    FiguresTell(changes, FilesUnder(changes.Keys, p));
  }

  function Children(t: Tree, p: Path): (r: set<Path>)
    ensures forall q :: q in r <==> q in t && IsChild(p, q)
  {
    set q | q in t && IsChild(p, q)
  }

  // ---- ranking folders -----------------------------------------------------------

  // Folders are weighed by churn, and by files when nothing has any bytes.
  function Weight(total: Figures, f: Figures): nat {
    if total.Churn() == 0 then f.Files() else f.Churn()
  }

  function Joined(p: Path): string {
    if p == [] then "" else if |p| == 1 then p[0] else Joined(p[..|p| - 1]) + "/" + p[|p| - 1]
  }

  // a comes before b in a list of folders.
  predicate Before(w: Path -> nat, a: Path, b: Path) {
    w(a) > w(b) || (w(a) == w(b) && Less(Joined(a), Joined(b)))
  }

  ghost predicate Siblings(p: Path, qs: set<Path>) {
    forall q :: q in qs ==> IsChild(p, q)
  }

  predicate IsChild(p: Path, q: Path) { |q| == |p| + 1 && q[..|p|] == p }

  // Folders of one level have different names, so one of two comes first.
  lemma BeforeIsTotal(w: Path -> nat, p: Path, a: Path, b: Path)
    requires IsChild(p, a) && IsChild(p, b)
    ensures a == b || Before(w, a, b) || Before(w, b, a)
    ensures !(Before(w, a, b) && Before(w, b, a)) && !Before(w, a, a)
  {
    var x, y := Joined(a), Joined(b);
    if x == y {
      assert a[|p|] == b[|p|] by {
        if p != [] {
          var head := Joined(p) + "/";
          assert x == head + a[|p|] && y == head + b[|p|];
          assert x[|head|..] == a[|p|] && y[|head|..] == b[|p|];
        }
      }
      assert a == p + [a[|p|]] && b == p + [b[|p|]];
    }
    Total(x, y);
    Irreflexive(x);
    if Less(x, y) && Less(y, x) { Transitive(x, y, x); }
  }

  ghost predicate First(w: Path -> nat, qs: set<Path>, best: Path) {
    best in qs && forall q :: q in qs && q != best ==> Before(w, best, q)
  }

  lemma FirstIsUnique(w: Path -> nat, p: Path, qs: set<Path>, a: Path, b: Path)
    requires Siblings(p, qs) && First(w, qs, a) && First(w, qs, b)
    ensures a == b
  {
    BeforeIsTotal(w, p, a, b);
  }

  lemma BeforeIsTransitive(w: Path -> nat, a: Path, b: Path, c: Path)
    requires Before(w, a, b) && Before(w, b, c)
    ensures Before(w, a, c)
  {
    if w(a) == w(b) == w(c) { Transitive(Joined(a), Joined(b), Joined(c)); }
  }

  // The folder of the set that comes first, looked for in any order.
  method Busiest(w: Path -> nat, ghost p: Path, qs: set<Path>) returns (best: Option<Path>)
    requires Siblings(p, qs)
    ensures best.None? <==> qs == {}
    ensures best.Some? ==> First(w, qs, best.value)
  {
    best := None;
    var rest := qs;
    ghost var seen: set<Path> := {};
    while rest != {}
      invariant rest <= qs && forall q :: q in seen <==> q in qs && q !in rest
      invariant best.None? <==> seen == {}
      invariant best.Some? ==> First(w, seen, best.value)
      decreases |rest|
    {
      var q :| q in rest;
      if best.None? {
        best := Some(q);
      } else {
        BetterFirst(w, p, seen, best.value, q);
        if Before(w, q, best.value) { best := Some(q); }
      }
      rest := rest - {q};
      seen := seen + {q};
    }
    assert seen == qs;
  }

  lemma BetterFirst(w: Path -> nat, p: Path, seen: set<Path>, best: Path, q: Path)
    requires First(w, seen, best)
    requires IsChild(p, q) && IsChild(p, best)
    ensures First(w, seen + {q}, if Before(w, q, best) then q else best)
  {
    BeforeIsTotal(w, p, q, best);
    if Before(w, q, best) {
      forall r | r in seen + {q} && r != q ensures Before(w, q, r) {
        if r != best { BeforeIsTransitive(w, q, best, r); }
      }
    }
  }

  // The folders in order, best first.
  method Ranked(w: Path -> nat, ghost p: Path, qs: set<Path>) returns (rows: seq<Path>)
    requires Siblings(p, qs)
    ensures IsRanking(w, qs, rows)
  {
    rows := [];
    var rest := qs;
    while rest != {}
      invariant rest <= qs && Siblings(p, rest)
      invariant IsRanking(w, qs - rest, rows)
      invariant forall i, q :: 0 <= i < |rows| && q in rest ==> Before(w, rows[i], q)
      decreases |rest|
    {
      var best := Busiest(w, p, rest);
      assert best.value in rest;
      rows := rows + [best.value];
      rest := rest - {best.value};
    }
    assert qs - rest == qs;
  }

  ghost predicate IsRanking(w: Path -> nat, qs: set<Path>, rows: seq<Path>) {
    && (forall q :: q in qs <==> q in rows)
    && (forall i, j :: 0 <= i < j < |rows| ==> Before(w, rows[i], rows[j]) && rows[i] != rows[j])
  }

  // There is only one ranking.
  lemma {:induction false} RankingIsUnique(w: Path -> nat, p: Path, qs: set<Path>, a: seq<Path>, b: seq<Path>)
    requires Siblings(p, qs) && IsRanking(w, qs, a) && IsRanking(w, qs, b)
    ensures a == b
    decreases |a|
  {
    SameEmptiness(w, qs, a, b);
    if a != [] {
      RankingStartsFirst(w, qs, a);
      RankingStartsFirst(w, qs, b);
      FirstIsUnique(w, p, qs, a[0], b[0]);
      RankingGoesOn(w, p, qs, a);
      RankingGoesOn(w, p, qs, b);
      RankingIsUnique(w, p, qs - {a[0]}, a[1..], b[1..]);
      assert a == [a[0]] + a[1..] && b == [b[0]] + b[1..];
    }
  }

  lemma SameEmptiness(w: Path -> nat, qs: set<Path>, a: seq<Path>, b: seq<Path>)
    requires IsRanking(w, qs, a) && IsRanking(w, qs, b)
    ensures a == [] <==> b == []
  {
    assert (a != [] ==> a[0] in b) && (b != [] ==> b[0] in a);
  }

  lemma RankingStartsFirst(w: Path -> nat, qs: set<Path>, a: seq<Path>)
    requires IsRanking(w, qs, a) && a != []
    ensures First(w, qs, a[0])
  {
    forall q | q in qs && q != a[0] ensures Before(w, a[0], q) {
      var i :| 0 <= i < |a| && a[i] == q;
    }
  }

  lemma RankingGoesOn(w: Path -> nat, p: Path, qs: set<Path>, a: seq<Path>)
    requires Siblings(p, qs) && IsRanking(w, qs, a) && a != []
    ensures Siblings(p, qs - {a[0]}) && IsRanking(w, qs - {a[0]}, a[1..])
  {
    forall q ensures q in qs - {a[0]} <==> q in a[1..] {
      if q in qs && q != a[0] {
        var i :| 0 <= i < |a| && a[i] == q;
        assert a[1..][i - 1] == q;
      }
    }
  }

  lemma ChildrenAreSiblings(t: Tree, p: Path)
    ensures Siblings(p, Children(t, p))
  {
  }

  // ---- the level shown and the focus ---------------------------------------------

  function Weights(t: Tree): Path -> nat
    requires [] in t
  {
    q => if q in t then Weight(t[[]], t[q]) else 0
  }

  ghost function Deeper(t: Tree, p: Path): set<Path> { set q | q in t && |q| > |p| }

  lemma DeeperShrinks(t: Tree, p: Path, q: Path)
    requires q in Children(t, p)
    ensures Deeper(t, q) < Deeper(t, p)
  {
    assert q in Deeper(t, p) && q !in Deeper(t, q);
  }

  // q is the only folder in p, holds all of its weight and has folders itself.
  ghost predicate Skips(t: Tree, w: Path -> nat, p: Path, q: Path) {
    Children(t, p) == {q} && w(q) == w(p) && Children(t, q) != {}
  }

  ghost function LevelFrom(t: Tree, w: Path -> nat, p: Path): Path
    decreases Deeper(t, p)
  {
    if q :| Skips(t, w, p, q) then
      DeeperShrinks(t, p, q);
      LevelFrom(t, w, q)
    else p
  }

  method ShowLevel(t: Tree, w: Path -> nat) returns (level: Path)
    requires [] in t
    ensures level == LevelFrom(t, w, []) && level in t
  {
    level := [];
    while |Children(t, level)| == 1
      invariant level in t && LevelFrom(t, w, level) == LevelFrom(t, w, [])
      decreases Deeper(t, level)
    {
      ChildrenAreSiblings(t, level);
      var only := Busiest(w, level, Children(t, level));
      OnlyElement(Children(t, level), only.value);
      if w(only.value) != w(level) || Children(t, only.value) == {} {
        break;
      }
      assert Skips(t, w, level, only.value);
      DeeperShrinks(t, level, only.value);
      level := only.value;
    }
    SkipsIsSingle(t, w, level);
  }

  lemma OnlyElement(qs: set<Path>, q: Path)
    requires |qs| == 1 && q in qs
    ensures qs == {q}
  {
    assert |qs - {q}| == 0;
  }

  lemma SkipsIsSingle(t: Tree, w: Path -> nat, p: Path)
    ensures forall q :: Skips(t, w, p, q) ==> |Children(t, p)| == 1
  {
  }

  lemma {:induction false} LevelKeepsWeight(t: Tree, w: Path -> nat, p: Path)
    ensures w(LevelFrom(t, w, p)) == w(p)
    ensures !exists q :: Skips(t, w, LevelFrom(t, w, p), q)
    decreases Deeper(t, p)
  {
    if exists q :: Skips(t, w, p, q) {
      var q :| Skips(t, w, p, q);
      DeeperShrinks(t, p, q);
      LevelKeepsWeight(t, w, q);
    }
  }

  // q is the busiest folder in p and carries nearly all of its weight.
  ghost predicate Carries(t: Tree, w: Path -> nat, p: Path, q: Path) {
    First(w, Children(t, p), q) && 10 * w(q) >= 9 * w(p)
  }

  ghost function FocusFrom(t: Tree, w: Path -> nat, p: Path): Path
    decreases Deeper(t, p)
  {
    if q :| Carries(t, w, p, q) then
      DeeperShrinks(t, p, q);
      FocusFrom(t, w, q)
    else p
  }

  method FindFocus(t: Tree, w: Path -> nat) returns (focus: Path)
    requires [] in t
    ensures focus == FocusFrom(t, w, []) && focus in t
  {
    focus := [];
    while true
      invariant focus in t && FocusFrom(t, w, focus) == FocusFrom(t, w, [])
      decreases Deeper(t, focus)
    {
      ChildrenAreSiblings(t, focus);
      var next := Busiest(w, focus, Children(t, focus));
      if next.None? || 10 * w(next.value) < 9 * w(focus) {
        NothingCarries(t, w, focus, next);
        return;
      }
      FocusGoesOn(t, w, focus, next.value);
      DeeperShrinks(t, focus, next.value);
      focus := next.value;
    }
  }

  lemma CarriesIsUnique(t: Tree, w: Path -> nat, p: Path, q: Path)
    requires Carries(t, w, p, q)
    ensures forall r :: Carries(t, w, p, r) ==> r == q
  {
    ChildrenAreSiblings(t, p);
    forall r | Carries(t, w, p, r) ensures r == q { FirstIsUnique(w, p, Children(t, p), r, q); }
  }

  lemma FocusGoesOn(t: Tree, w: Path -> nat, p: Path, q: Path)
    requires Carries(t, w, p, q)
    ensures FocusFrom(t, w, p) == FocusFrom(t, w, q)
  {
    CarriesIsUnique(t, w, p, q);
  }

  lemma NothingCarries(t: Tree, w: Path -> nat, p: Path, next: Option<Path>)
    requires next.None? <==> Children(t, p) == {}
    requires next.Some? ==> First(w, Children(t, p), next.value) && 10 * w(next.value) < 9 * w(p)
    ensures forall q :: !Carries(t, w, p, q)
  {
    if q :| Carries(t, w, p, q) {
      ChildrenAreSiblings(t, p);
      FirstIsUnique(w, p, Children(t, p), q, next.value);
      assert false;
    }
  }

  // The way down to the focus: every folder on it carries nearly all of the
  // one above it.
  ghost predicate CarriedWay(t: Tree, w: Path -> nat, way: seq<Path>) {
    way != [] && forall i :: 0 < i < |way| ==> Carries(t, w, way[i - 1], way[i])
  }

  // The focus is at the end of such a way, and no folder in it carries that
  // much again.
  lemma {:induction false} FocusIsDeepest(t: Tree, w: Path -> nat, p: Path) returns (way: seq<Path>)
    ensures CarriedWay(t, w, way) && way[0] == p && way[|way| - 1] == FocusFrom(t, w, p)
    ensures forall q :: q in Children(t, FocusFrom(t, w, p)) && First(w, Children(t, FocusFrom(t, w, p)), q) ==>
      10 * w(q) < 9 * w(FocusFrom(t, w, p))
    decreases Deeper(t, p)
  {
    if exists q :: Carries(t, w, p, q) {
      var q :| Carries(t, w, p, q);
      CarriesIsUnique(t, w, p, q);
      DeeperShrinks(t, p, q);
      var rest := FocusIsDeepest(t, w, q);
      way := [p] + rest;
    } else {
      way := [p];
      assert forall q :: First(w, Children(t, p), q) ==> Carries(t, w, p, q) || 10 * w(q) < 9 * w(p);
    }
  }

  // ---- the summary -----------------------------------------------------------------

  const FOLDER_ROWS := 6

  datatype Row = Row(path: Path, figures: Figures)

  datatype Summary = Summary(total: Figures, folders: seq<Row>, other: Option<Figures>, focus: Option<Path>,
    regenerable: bool)

  function RowSum(rows: seq<Row>): Figures {
    if rows == [] then ZERO else RowSum(rows[..|rows| - 1]).Plus(rows[|rows| - 1].figures)
  }

  // The files of the level that lie in none of the first rows.
  function FilesLeft(files: set<Path>, level: Path, rows: seq<Path>): set<Path> {
    set rel | rel in files && Under(level, rel) && forall i :: 0 <= i < |rows| ==> !Under(rows[i], rel)
  }

  lemma NextRowLeaves(v: Path -> Figures, files: set<Path>, level: Path, rows: seq<Path>, k: nat)
    requires k < |rows| && forall i :: 0 <= i < |rows| ==> IsChild(level, rows[i])
    requires forall i, j :: 0 <= i < j < |rows| ==> rows[i] != rows[j]
    ensures Sum(v, FilesLeft(files, level, rows[..k]))
      == Sum(v, FilesLeft(files, level, rows[..k + 1])).Plus(Sum(v, FilesUnder(files, rows[k])))
  {
    var before, after, mine :=
      FilesLeft(files, level, rows[..k]), FilesLeft(files, level, rows[..k + 1]), FilesUnder(files, rows[k]);
    assert forall i :: 0 <= i < k ==> rows[..k + 1][i] == rows[..k][i] == rows[i];
    assert rows[..k + 1][k] == rows[k];
    forall rel ensures rel in before <==> rel in after + mine {
      if rel in mine {
        assert IsChild(level, rows[k]) && rel[..|level|] == rel[..|rows[k]|][..|level|];
        forall i | 0 <= i < k ensures !Under(rows[..k][i], rel) { assert |rows[i]| == |rows[k]|; }
      }
    }
    assert before == after + mine;
    SumSplits(v, after, mine);
  }

  // What the level holds beyond the rows shown.
  method RestOf(t: Tree, level: Path, rows: seq<Path>, ghost v: Path -> Figures, ghost files: set<Path>)
      returns (rest: Figures)
    requires TreeOf(v, files, t) && level in t
    requires forall i :: 0 <= i < |rows| ==> rows[i] in t && IsChild(level, rows[i])
    requires forall i, j :: 0 <= i < j < |rows| ==> rows[i] != rows[j]
    ensures rest == Sum(v, FilesLeft(files, level, rows))
  {
    rest := t[level];
    assert FilesLeft(files, level, rows[..0]) == FilesUnder(files, level);
    for k := 0 to |rows|
      invariant rest == Sum(v, FilesLeft(files, level, rows[..k]))
    {
      NextRowLeaves(v, files, level, rows, k);
      PlusCovers(Sum(v, FilesLeft(files, level, rows[..k + 1])), t[rows[k]]);
      rest := rest.Minus(t[rows[k]]);
    }
    assert rows[..|rows|] == rows;
  }

  lemma PlusCovers(a: Figures, b: Figures)
    ensures a.Plus(b).Covers(b) && a.Plus(b).Minus(b) == a
  {
  }

  function RowsOf(t: Tree, paths: seq<Path>): seq<Row>
    requires forall i :: 0 <= i < |paths| ==> paths[i] in t
  {
    seq(|paths|, i requires 0 <= i < |paths| => Row(paths[i], t[paths[i]]))
  }

  function Shown(ranking: seq<Path>): seq<Path> {
    if |ranking| <= FOLDER_ROWS then ranking else ranking[..FOLDER_ROWS]
  }

  ghost predicate InTree(t: Tree, paths: seq<Path>) {
    forall i :: 0 <= i < |paths| ==> paths[i] in t
  }

  // Folders apps fill with data they rebuild by themselves.
  const REGENERABLE := {
    "index", "indexes", "indices", "cache", "caches", ".cache", "__pycache__", "thumbnails", "thumbnail", "thumbs",
    ".thumbnails", "transcode", "transcodes", "tmp", "temp", ".tmp"}

  // One of the folders on the way has such a name, in any case.
  predicate Rebuilds(path: Path, lower: string -> string) {
    exists i :: 0 <= i < |path| && lower(path[i]) in REGENERABLE
  }

  method IsRegenerable(path: Path, lower: string -> string) returns (r: bool)
    ensures r <==> Rebuilds(path, lower)
  {
    for i := 0 to |path|
      invariant forall j :: 0 <= j < i ==> lower(path[j]) !in REGENERABLE
    {
      if lower(path[i]) in REGENERABLE {
        return true;
      }
    }
    return false;
  }

  function SummaryWith(t: Tree, shown: seq<Path>, rest: Figures, focus: Path, regenerable: bool): Summary
    requires [] in t && forall i :: 0 <= i < |shown| ==> shown[i] in t
  {
    Summary(t[[]], RowsOf(t, shown), if rest.Files() > 0 then Some(rest) else None,
      if focus != [] then Some(focus) else None, regenerable)
  }

  ghost function Level(t: Tree): Path
    requires [] in t
  {
    LevelFrom(t, Weights(t), [])
  }

  // The ranking of the folders at a level.
  ghost predicate Ranks(t: Tree, level: Path, ranking: seq<Path>) {
    [] in t && InTree(t, ranking) && IsRanking(Weights(t), Children(t, level), ranking)
  }

  // What a summary says, with the tree it was read off and the ranking of the
  // folders at the level shown.
  ghost predicate Summarizes(changes: map<Path, Change>, lower: string -> string, t: Tree, ranking: seq<Path>,
      s: Summary) {
    && TreeOf(Value(changes), changes.Keys, t)
    && Ranks(t, Level(t), ranking)
    && var focus := FocusFrom(t, Weights(t), []);
       s == SummaryWith(t, Shown(ranking), Sum(Value(changes), FilesLeft(changes.Keys, Level(t), Shown(ranking))),
         focus, Rebuilds(focus, lower))
  }

  // Groups the changed files, keyed by their path, into folders.
  method SummarizeChanges(changes: map<Path, Change>, lower: string -> string) returns (s: Summary)
    requires forall rel :: rel in changes ==> rel != []
    ensures exists t: Tree, ranking: seq<Path> :: Summarizes(changes, lower, t, ranking, s)
  {
    var tree := BuildTree(changes);
    var level := ShowLevel(tree, Weights(tree));
    var order := RankLevel(tree, level);
    ShownAreChildren(tree, level, order);
    var rest := RestOf(tree, level, Shown(order), Value(changes), changes.Keys);
    var focus := FindFocus(tree, Weights(tree));
    var regenerable := IsRegenerable(focus, lower);
    s := SummaryWith(tree, Shown(order), rest, focus, regenerable);
    assert Summarizes(changes, lower, tree, order, s);
  }

  method RankLevel(t: Tree, level: Path) returns (ranking: seq<Path>)
    requires [] in t
    ensures Ranks(t, level, ranking)
  {
    ChildrenAreSiblings(t, level);
    ranking := Ranked(Weights(t), level, Children(t, level));
    forall i | 0 <= i < |ranking| ensures ranking[i] in t {
      assert ranking[i] in ranking;
    }
  }

  lemma ShownAreChildren(t: Tree, level: Path, ranking: seq<Path>)
    requires Ranks(t, level, ranking)
    ensures forall i :: 0 <= i < |Shown(ranking)| ==> Shown(ranking)[i] in t && IsChild(level, Shown(ranking)[i])
    ensures forall i, j :: 0 <= i < j < |Shown(ranking)| ==> Shown(ranking)[i] != Shown(ranking)[j]
  {
    forall i | 0 <= i < |ranking| ensures IsChild(level, ranking[i]) {
      assert ranking[i] in ranking;
    }
  }

  // The rows shown and the rest add up to the level's figures in all six
  // counters, the level's figures are those of the files below it, and it has
  // the same weight as the total, which counts every file once.
  lemma SummaryConserves(changes: map<Path, Change>, lower: string -> string, t: Tree, ranking: seq<Path>, s: Summary)
    requires (forall rel :: rel in changes ==> rel != []) && Summarizes(changes, lower, t, ranking, s)
    ensures s.regenerable <==> s.focus.Some? && Rebuilds(s.focus.value, lower)
    ensures s.total == Sum(Value(changes), changes.Keys)
    ensures Level(t) in t && t[Level(t)] == Sum(Value(changes), FilesUnder(changes.Keys, Level(t)))
    ensures RowSum(s.folders).Plus(if s.other.Some? then s.other.value else ZERO) == t[Level(t)]
    ensures Weight(s.total, t[Level(t)]) == Weight(s.total, s.total)
  {
    TotalCountsAll(changes, t);
    var level := LevelHasAllWeight(t);
    LevelAddsUp(changes, t, level, ranking, s.folders, s.other);
  }

  lemma TotalCountsAll(changes: map<Path, Change>, t: Tree)
    requires (forall rel :: rel in changes ==> rel != []) && TreeOf(Value(changes), changes.Keys, t)
    ensures [] in t && t[[]] == Sum(Value(changes), changes.Keys)
  {
    assert FilesUnder(changes.Keys, []) == changes.Keys;
  }

  lemma LevelHasAllWeight(t: Tree) returns (level: Path)
    requires [] in t
    ensures level == Level(t) && level in t && Weight(t[[]], t[level]) == Weight(t[[]], t[[]])
  {
    level := Level(t);
    LevelInTree(t, Weights(t), []);
    LevelKeepsWeight(t, Weights(t), []);
  }

  lemma LevelAddsUp(changes: map<Path, Change>, t: Tree, level: Path, ranking: seq<Path>, rows: seq<Row>,
      other: Option<Figures>)
    requires TreeOf(Value(changes), changes.Keys, t) && level in t && Ranks(t, level, ranking)
    requires rows == RowsOf(t, Shown(ranking))
    requires var rest := Sum(Value(changes), FilesLeft(changes.Keys, level, Shown(ranking)));
      other == if rest.Files() > 0 then Some(rest) else None
    ensures RowSum(rows).Plus(if other.Some? then other.value else ZERO) == t[level]
  {
    var shown := Shown(ranking);
    ShownAreChildren(t, level, ranking);
    RowsAndRest(Value(changes), changes.Keys, t, level, shown, |shown|);
    assert shown[..|shown|] == shown && rows[..|shown|] == rows;
    NoFilesNoBytes(changes, FilesLeft(changes.Keys, level, shown));
  }

  lemma {:induction false} LevelInTree(t: Tree, w: Path -> nat, p: Path)
    requires p in t
    ensures LevelFrom(t, w, p) in t
    decreases Deeper(t, p)
  {
    if exists q :: Skips(t, w, p, q) {
      var q :| Skips(t, w, p, q);
      DeeperShrinks(t, p, q);
      LevelInTree(t, w, q);
    }
  }

  lemma {:induction false} RowsAndRest(v: Path -> Figures, files: set<Path>, t: Tree, level: Path, rows: seq<Path>,
      k: nat)
    requires TreeOf(v, files, t) && level in t && k <= |rows|
    requires forall i :: 0 <= i < |rows| ==> rows[i] in t && IsChild(level, rows[i])
    requires forall i, j :: 0 <= i < j < |rows| ==> rows[i] != rows[j]
    ensures RowSum(RowsOf(t, rows)[..k]).Plus(Sum(v, FilesLeft(files, level, rows[..k]))) == t[level]
  {
    var all := RowsOf(t, rows);
    if k == 0 {
      assert FilesLeft(files, level, rows[..0]) == FilesUnder(files, level);
      PlusCommutes(ZERO, t[level]);
      PlusZero(t[level]);
    } else {
      RowsAndRest(v, files, t, level, rows, k - 1);
      NextRowLeaves(v, files, level, rows, k - 1);
      assert all[..k][..k - 1] == all[..k - 1];
      MoveRow(RowSum(all[..k - 1]), Sum(v, FilesLeft(files, level, rows[..k])), t[rows[k - 1]]);
    }
  }

  lemma MoveRow(sum: Figures, left: Figures, row: Figures)
    ensures sum.Plus(left.Plus(row)) == sum.Plus(row).Plus(left)
  {
  }

  // Two runs over the same changes, whatever order they met them in, say the
  // same.
  lemma SummaryIsDeterministic(changes: map<Path, Change>, lower: string -> string, t: Tree, ranking: seq<Path>,
      s: Summary, t1: Tree, ranking1: seq<Path>, s1: Summary)
    requires Summarizes(changes, lower, t, ranking, s) && Summarizes(changes, lower, t1, ranking1, s1)
    ensures s == s1
  {
    TreeIsUnique(Value(changes), changes.Keys, t, t1);
    var level := Level(t);
    ChildrenAreSiblings(t, level);
    RankingIsUnique(Weights(t), level, Children(t, level), ranking, ranking1);
  }

  lemma TreeIsUnique(v: Path -> Figures, files: set<Path>, t: Tree, u: Tree)
    requires TreeOf(v, files, t) && TreeOf(v, files, u)
    ensures t == u
  {
    assert t.Keys == u.Keys;
  }
}
