// What a reader may take from a change summary (anomaly_changes.go): which
// folders its rows are, what the level and the focus hold, all in the counters
// of the figures themselves.
module ChangeReading {
  import opened Wrappers
  import opened ChangeSummary

  // Folders are weighed by the bytes that changed in any way, and by the files
  // where no file of the comparison has any bytes.
  function Weigh(total: Figures, f: Figures): nat {
    if total.removedBytes == 0 && total.addedBytes == 0 && total.changedBytes == 0
    then f.removedFiles + f.addedFiles + f.changedFiles
    else f.removedBytes + f.addedBytes + f.changedBytes
  }

  lemma WeighsAs(t: Tree, p: Path)
    requires [] in t && p in t
    ensures Weights(t)(p) == Weigh(t[[]], t[p])
  {
  }

  // A folder directly in p that something changed in.
  predicate Subfolder(t: Tree, p: Path, q: Path) { q in t && |q| == |p| + 1 && q[..|p|] == p }

  // ---- the focus ----------------------------------------------------------

  // q has nearly all of what changed in p.
  predicate NearlyAll(t: Tree, p: Path, q: Path)
    requires [] in t && p in t && q in t
  {
    10 * Weigh(t[[]], t[q]) >= 9 * Weigh(t[[]], t[p])
  }

  ghost predicate NearlyAllAt(t: Tree, focus: Path, i: int)
    requires [] in t
  {
    0 < i <= |focus| && focus[..i - 1] in t && focus[..i] in t && NearlyAll(t, focus[..i - 1], focus[..i])
  }

  // The focus is reached through folders that each have nearly all of the one
  // above, and no folder in it has that much again.
  ghost predicate IsFocus(t: Tree, focus: Path)
    requires [] in t
  {
    && focus in t && (forall i :: 0 < i <= |focus| ==> NearlyAllAt(t, focus, i))
    && (forall q :: Subfolder(t, focus, q) ==> !NearlyAll(t, focus, q))
  }

  lemma {:induction false} FirstExists(w: Path -> nat, p: Path, qs: set<Path>) returns (best: Path)
    requires Siblings(p, qs) && qs != {}
    ensures First(w, qs, best)
  {
    var q :| q in qs;
    var rest := qs - {q};
    assert qs == rest + {q};
    if rest == {} {
      best := q;
    } else {
      var other := FirstExists(w, p, rest);
      BetterFirst(w, p, rest, other, q);
      best := if Before(w, q, other) then q else other;
    }
  }

  // With something in the folder that nearly all is in, one of them is the
  // busiest and has it too.
  lemma NoneCarries(t: Tree, p: Path)
    requires [] in t && p in t && forall q :: !Carries(t, Weights(t), p, q)
    ensures forall q :: Subfolder(t, p, q) ==> !NearlyAll(t, p, q)
  {
    var w := Weights(t);
    ChildrenAreSiblings(t, p);
    if Children(t, p) != {} {
      var best := FirstExists(w, p, Children(t, p));
      WeighsAs(t, best);
      WeighsAs(t, p);
      forall q | Subfolder(t, p, q) ensures !NearlyAll(t, p, q) {
        WeighsAs(t, q);
        assert q in Children(t, p) && !Carries(t, w, p, best);
      }
    } else {
      assert forall q :: Subfolder(t, p, q) <==> q in Children(t, p);
    }
  }

  // From p down to the focus.
  ghost predicate LeadsTo(t: Tree, p: Path, focus: Path)
    requires [] in t
  {
    && |p| <= |focus| && focus[..|p|] == p
    && focus in t && (forall i :: |p| < i <= |focus| ==> NearlyAllAt(t, focus, i))
    && (forall q :: Subfolder(t, focus, q) ==> !NearlyAll(t, focus, q))
  }

  lemma OneFurther(t: Tree, p: Path, q: Path, focus: Path)
    requires [] in t && p in t && Subfolder(t, p, q) && NearlyAll(t, p, q) && LeadsTo(t, q, focus)
    ensures LeadsTo(t, p, focus)
  {
    hide NearlyAll;
    assert focus[..|p|] == focus[..|q|][..|p|] == p;
    forall i | |p| < i <= |focus| ensures NearlyAllAt(t, focus, i) {
      if i == |q| {
        assert focus[..i - 1] == p && focus[..i] == q;
      }
    }
  }

  lemma {:induction false} FocusLeads(t: Tree, p: Path)
    requires [] in t && p in t
    ensures LeadsTo(t, p, FocusFrom(t, Weights(t), p))
    decreases Deeper(t, p)
  {
    hide LeadsTo;
    var w := Weights(t);
    if exists q :: Carries(t, w, p, q) {
      var q :| Carries(t, w, p, q);
      DeeperShrinks(t, p, q);
      FocusGoesOn(t, w, p, q);
      WeighsAs(t, p);
      WeighsAs(t, q);
      FocusLeads(t, q);
      OneFurther(t, p, q, FocusFrom(t, w, q));
    } else {
      NoneCarries(t, p);
      NoFurther(t, p);
    }
  }

  lemma NoFurther(t: Tree, p: Path)
    requires [] in t && p in t && forall q :: Subfolder(t, p, q) ==> !NearlyAll(t, p, q)
    ensures LeadsTo(t, p, p)
  {
    assert p[..|p|] == p;
  }

  // The focus of a summary, none when what changed is spread out at the top.
  lemma FocusOfSummary(changes: map<Path, Change>, lower: string -> string, t: Tree, ranking: seq<Path>, s: Summary)
    requires Summarizes(changes, lower, t, ranking, s)
    ensures [] in t && IsFocus(t, if s.focus.Some? then s.focus.value else [])
    ensures s.focus != Some([])
  {
    hide IsFocus, LeadsTo, TreeOf, Sum, Shown, FilesLeft;
    FocusLeads(t, []);
    LeadsFromTop(t, FocusFrom(t, Weights(t), []));
  }

  lemma LeadsFromTop(t: Tree, focus: Path)
    requires [] in t && LeadsTo(t, [], focus)
    ensures IsFocus(t, focus)
  {
  }

  // ---- the level and its rows ---------------------------------------------

  // The level is reached through folders that are alone and hold all of the
  // one above, down to the last that has folders itself.
  ghost predicate IsLevel(t: Tree, level: Path)
    requires [] in t
  {
    && level in t && (forall i :: 0 < i <= |level| ==> AloneAt(t, level, i))
    && (forall q :: Alone(t, level, q) ==> !exists r :: Subfolder(t, q, r))
  }

  ghost predicate AloneAt(t: Tree, level: Path, i: int)
    requires [] in t
  {
    0 < i <= |level| && level[..i - 1] in t && Alone(t, level[..i - 1], level[..i])
  }

  // q is the only folder in p and has all of what changed in it.
  ghost predicate Alone(t: Tree, p: Path, q: Path)
    requires [] in t && p in t
  {
    && Subfolder(t, p, q) && Weigh(t[[]], t[q]) == Weigh(t[[]], t[p])
    && forall r :: Subfolder(t, p, r) ==> r == q
  }

  lemma SkipsAre(t: Tree, p: Path, q: Path)
    requires [] in t && p in t
    ensures Skips(t, Weights(t), p, q) <==> Alone(t, p, q) && exists r :: Subfolder(t, q, r)
  {
    forall a, b ensures b in Children(t, a) <==> Subfolder(t, a, b) {}
    WeighsAs(t, p);
    if q in t {
      WeighsAs(t, q);
    }
    if Alone(t, p, q) {
      assert Children(t, p) == {q};
    }
    if Skips(t, Weights(t), p, q) {
      assert q in Children(t, p);
      var r :| r in Children(t, q);
      assert Subfolder(t, q, r);
      forall r | Subfolder(t, p, r) ensures r == q { assert r in Children(t, p); }
    }
    if r :| Subfolder(t, q, r) {
      assert r in Children(t, q);
    }
  }

  ghost predicate SkipsTo(t: Tree, p: Path, level: Path)
    requires [] in t
  {
    && |p| <= |level| && level[..|p|] == p
    && level in t && (forall i :: |p| < i <= |level| ==> AloneAt(t, level, i))
    && (forall q :: Alone(t, level, q) ==> !exists r :: Subfolder(t, q, r))
  }

  lemma OneSkipped(t: Tree, p: Path, q: Path, level: Path)
    requires [] in t && p in t && q in t && Alone(t, p, q) && SkipsTo(t, q, level)
    ensures SkipsTo(t, p, level)
  {
    assert |q| == |p| + 1 && q[..|p|] == p;
    hide Alone, Subfolder;
    assert level[..|p|] == level[..|q|][..|p|] == p;
    forall i | |p| < i <= |level| ensures AloneAt(t, level, i) {
      if i == |q| {
        assert level[..i - 1] == p && level[..i] == q;
      }
    }
  }

  lemma {:induction false} LevelLeads(t: Tree, p: Path)
    requires [] in t && p in t
    ensures SkipsTo(t, p, LevelFrom(t, Weights(t), p))
    decreases Deeper(t, p)
  {
    hide SkipsTo, Alone, Subfolder;
    var w := Weights(t);
    if exists q :: Skips(t, w, p, q) {
      var q :| Skips(t, w, p, q);
      DeeperShrinks(t, p, q);
      SkipsAre(t, p, q);
      LevelLeads(t, q);
      OnlySkip(t, w, p, q);
      OneSkipped(t, p, q, LevelFrom(t, w, q));
    } else {
      forall q ensures !(Alone(t, p, q) && exists r :: Subfolder(t, q, r)) { SkipsAre(t, p, q); }
      NoneSkipped(t, p);
    }
  }

  lemma OnlySkip(t: Tree, w: Path -> nat, p: Path, q: Path)
    requires Skips(t, w, p, q)
    ensures LevelFrom(t, w, p) == LevelFrom(t, w, q)
  {
    forall r | Skips(t, w, p, r) ensures r == q {
      assert r in Children(t, p);
    }
  }

  lemma NoneSkipped(t: Tree, p: Path)
    requires [] in t && p in t && forall q :: !(Alone(t, p, q) && exists r :: Subfolder(t, q, r))
    ensures SkipsTo(t, p, p)
  {
    assert p[..|p|] == p;
  }

  // The rows are the folders of the level with their figures, the ones with
  // most of what changed first, six of them at most; a folder without a row has
  // no more than any row.
  ghost predicate RowsOfLevel(t: Tree, level: Path, rows: seq<Row>)
    requires [] in t
  {
    && |rows| <= 6
    && (forall i :: 0 <= i < |rows| ==> Subfolder(t, level, rows[i].path) && rows[i].figures == t[rows[i].path])
    && (forall i, j :: 0 <= i < j < |rows| ==>
          rows[i].path != rows[j].path && Weigh(t[[]], rows[i].figures) >= Weigh(t[[]], rows[j].figures))
    && (forall q :: Subfolder(t, level, q) ==>
          || (exists i :: 0 <= i < |rows| && rows[i].path == q)
          || (|rows| == 6 && forall i :: 0 <= i < |rows| ==> Weigh(t[[]], rows[i].figures) >= Weigh(t[[]], t[q])))
  }

  lemma LevelOfSummary(changes: map<Path, Change>, lower: string -> string, t: Tree, ranking: seq<Path>, s: Summary)
      returns (level: Path)
    requires Summarizes(changes, lower, t, ranking, s)
    ensures [] in t && s.total == t[[]] && IsLevel(t, level) && RowsOfLevel(t, level, s.folders)
  {
    hide IsLevel, SkipsTo, TreeOf, Sum, Shown, FilesLeft, Ranks, RowsOfLevel;
    TopIsThere(changes, t);
    level := Level(t);
    LevelLeads(t, []);
    SkipsFromTop(t, level);
    RowsAre(t, level, ranking);
  }

  lemma TopIsThere(changes: map<Path, Change>, t: Tree)
    requires TreeOf(Value(changes), changes.Keys, t)
    ensures [] in t
  {
  }

  lemma SkipsFromTop(t: Tree, level: Path)
    requires [] in t && SkipsTo(t, [], level)
    ensures IsLevel(t, level)
  {
  }

  lemma RowsAre(t: Tree, level: Path, ranking: seq<Path>)
    requires Ranks(t, level, ranking)
    ensures RowsOfLevel(t, level, RowsOf(t, Shown(ranking)))
  {
    var shown := Shown(ranking);
    var rows := RowsOf(t, shown);
    forall i | 0 <= i < |ranking| ensures Subfolder(t, level, ranking[i]) && ranking[i] in t {
      assert ranking[i] in ranking && ranking[i] in Children(t, level);
      WeighsAs(t, ranking[i]);
    }
    forall i, j | 0 <= i < j < |ranking| ensures Weigh(t[[]], t[ranking[i]]) >= Weigh(t[[]], t[ranking[j]]) {
      WeighsAs(t, ranking[i]);
      WeighsAs(t, ranking[j]);
      assert Before(Weights(t), ranking[i], ranking[j]);
    }
    forall q | Subfolder(t, level, q)
      ensures (exists i :: 0 <= i < |rows| && rows[i].path == q)
        || (|rows| == 6 && forall i :: 0 <= i < |rows| ==> Weigh(t[[]], rows[i].figures) >= Weigh(t[[]], t[q]))
    {
      assert q in Children(t, level);
      var k :| 0 <= k < |ranking| && ranking[k] == q;
      if k < |rows| {
        assert rows[k].path == q;
      }
    }
  }

  // A part of the path has one of the names of folders that apps rebuild.
  predicate HasRebuiltPart(path: Path, lower: string -> string) {
    exists i :: 0 <= i < |path| && (var part := lower(path[i]);
      || part == "index" || part == "indexes" || part == "indices" || part == "cache" || part == "caches"
      || part == ".cache" || part == "__pycache__" || part == "thumbnails" || part == "thumbnail" || part == "thumbs"
      || part == ".thumbnails" || part == "transcode" || part == "transcodes" || part == "tmp" || part == "temp"
      || part == ".tmp")
  }

  lemma RegenerableOfSummary(changes: map<Path, Change>, lower: string -> string, t: Tree, ranking: seq<Path>,
      s: Summary)
    requires Summarizes(changes, lower, t, ranking, s)
    ensures s.regenerable <==> s.focus.Some? && HasRebuiltPart(s.focus.value, lower)
  {
    hide TreeOf, Sum, Shown, FilesLeft, Ranks, Rebuilds, HasRebuiltPart;
    TopIsThere(changes, t);
    RebuiltPartIs(FocusFrom(t, Weights(t), []), lower);
    NoPartOfTop(lower);
  }

  lemma RebuiltPartIs(path: Path, lower: string -> string)
    ensures Rebuilds(path, lower) <==> HasRebuiltPart(path, lower)
  {
  }

  lemma NoPartOfTop(lower: string -> string)
    ensures !Rebuilds([], lower)
  {
  }
}
