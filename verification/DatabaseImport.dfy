// The data folder of a database import (db_dump_import.go and
// db_dump_import_mount.go): set aside, replaced by a fresh one, and put back
// when a step before the import itself fails. How each file and container call
// answers is a parameter; what a failing call leaves behind is not determined.
module DatabaseImport {
  import opened Wrappers
  import opened Ordering
  import StartOrder

  datatype Named = Named(name: string, tree: Tree)

  // What one entry of a folder is. Special is anything but a file, a folder or
  // a link.
  datatype Tree =
    | File(mode: nat, owner: nat, bytes: string)
    | Link(owner: nat, target: string)
    | Folder(mode: nat, owner: nat, entries: seq<Named>)
    | Special

  // Permission bits, which is all a copy keeps of a mode.
  function Perm(mode: nat): nat { mode % 512 }

  function Norm(t: Tree): Tree {
    match t
    case File(mode, owner, bytes) => File(Perm(mode), owner, bytes)
    case Link(_, _) => t
    case Folder(mode, owner, entries) => Folder(Perm(mode), owner, NormAll(entries))
    case Special => t
  }

  function NormAll(entries: seq<Named>): seq<Named> {
    if entries == [] then []
    else [Named(entries[0].name, Norm(entries[0].tree))] + NormAll(entries[1..])
  }

  // Two entries are the same data: equal but for the mode bits beyond the
  // permissions.
  predicate Same(t: Tree, u: Tree) { Norm(t) == Norm(u) }

  lemma {:induction false} NormTwice(t: Tree)
    ensures Norm(Norm(t)) == Norm(t)
  {
    if t.Folder? {
      NormAllTwice(t.entries);
    }
  }

  lemma {:induction false} NormAllTwice(entries: seq<Named>)
    ensures NormAll(NormAll(entries)) == NormAll(entries)
  {
    if entries != [] {
      NormTwice(entries[0].tree);
      NormAllTwice(entries[1..]);
      assert NormAll(entries)[1..] == NormAll(entries[1..]);
    }
  }

  lemma {:induction false} NormAllOneMore(entries: seq<Named>, i: nat)
    requires i < |entries|
    ensures NormAll(entries[..i + 1]) == NormAll(entries[..i]) + [Named(entries[i].name, Norm(entries[i].tree))]
  {
    if i == 0 {
      assert entries[..1] == [entries[0]];
    } else {
      assert entries[..i + 1][0] == entries[0] == entries[..i][0];
      assert entries[..i + 1][1..] == entries[1..][..i] && entries[..i][1..] == entries[1..][..i - 1];
      NormAllOneMore(entries[1..], i - 1);
    }
  }

  // Every mode in the tree is within the permission bits.
  predicate Plain(t: Tree) {
    match t
    case File(mode, _, _) => mode < 512
    case Link(_, _) => true
    case Folder(mode, _, entries) => mode < 512 && forall e :: e in entries ==> Plain(e.tree)
    case Special => true
  }

  // A copy is the very same tree exactly when no mode in it has a bit beyond
  // the permissions, such as the one for set-user-id.
  lemma {:induction false} CopyIsTheSame(t: Tree)
    ensures Norm(t) == t <==> Plain(t)
  {
    if t.Folder? {
      CopiesAreTheSame(t.entries);
    }
  }

  lemma {:induction false} CopiesAreTheSame(entries: seq<Named>)
    ensures NormAll(entries) == entries <==> forall e :: e in entries ==> Plain(e.tree)
  {
    if entries != [] {
      CopyIsTheSame(entries[0].tree);
      CopiesAreTheSame(entries[1..]);
      assert entries == [entries[0]] + entries[1..];
      assert NormAll(entries)[1..] == NormAll(entries[1..]) && NormAll(entries)[0].tree == Norm(entries[0].tree);
    }
  }

  // Two trees agree in everything, at every depth, but for mode bits above the
  // nine of the permissions.
  predicate Alike(t: Tree, u: Tree) {
    match t
    case File(mode, owner, bytes) =>
      u.File? && (mode - u.mode) % 512 == 0 && u.owner == owner && u.bytes == bytes
    case Link(owner, target) => u.Link? && u.owner == owner && u.target == target
    case Folder(mode, owner, entries) =>
      && u.Folder? && (mode - u.mode) % 512 == 0 && u.owner == owner && |u.entries| == |entries|
      && forall i :: 0 <= i < |entries| ==>
        u.entries[i].name == entries[i].name && Alike(entries[i].tree, u.entries[i].tree)
    case Special => u.Special?
  }

  lemma SameBits(m: nat, n: nat)
    ensures m % 512 == n % 512 <==> (m - n) % 512 == 0
  {
    assert m == 512 * (m / 512) + m % 512 && n == 512 * (n / 512) + n % 512;
  }

  // Being the same data is exactly that.
  lemma {:induction false} SameIsAlike(t: Tree, u: Tree)
    ensures Same(t, u) <==> Alike(t, u)
  {
    match (t, u)
    case (File(m, _, _), File(n, _, _)) => SameBits(m, n);
    case (Folder(m, _, es), Folder(n, _, fs)) =>
      SameBits(m, n);
      SameEntriesAlike(es, fs);
    case _ =>
  }

  lemma {:induction false} SameEntriesAlike(es: seq<Named>, fs: seq<Named>)
    ensures NormAll(es) == NormAll(fs) <==> |es| == |fs| && forall i :: 0 <= i < |es| ==>
      fs[i].name == es[i].name && Alike(es[i].tree, fs[i].tree)
  {
    if es != [] && fs != [] {
      SameIsAlike(es[0].tree, fs[0].tree);
      SameEntriesAlike(es[1..], fs[1..]);
      assert NormAll(es)[0] == Named(es[0].name, Norm(es[0].tree)) && NormAll(es)[1..] == NormAll(es[1..]);
      assert NormAll(fs)[0] == Named(fs[0].name, Norm(fs[0].tree)) && NormAll(fs)[1..] == NormAll(fs[1..]);
      assert forall i :: 0 < i < |es| ==> es[i] == es[1..][i - 1];
      assert forall i :: 0 < i < |fs| ==> fs[i] == fs[1..][i - 1];
      assert NormAll(es) == NormAll(fs) <==> NormAll(es)[0] == NormAll(fs)[0] && NormAll(es[1..]) == NormAll(fs[1..]);
    }
  }

  // What a copy makes of a tree: alike, and without any of those bits.
  lemma CopyIsAlike(t: Tree)
    ensures Alike(t, Norm(t)) && Plain(Norm(t))
  {
    NormTwice(t);
    SameIsAlike(t, Norm(t));
    CopyIsTheSame(Norm(t));
  }

  // A set-user-id file in a folder comes out of a copy without that bit.
  lemma SetUserIdIsLost(name: string, owner: nat, bytes: string)
    ensures
      var t := Folder(448, owner, [Named(name, File(2048 + 493, owner, bytes))]);
      Norm(t) == Folder(448, owner, [Named(name, File(493, owner, bytes))]) != t && Clonable(t) && !Plain(t)
  {
    var file := File(2048 + 493, owner, bytes);
    var t := Folder(448, owner, [Named(name, file)]);
    assert Norm(file) == File(493, owner, bytes) && Clonable(file);
    assert NormAll(t.entries[1..]) == [];
    assert t.entries[0].tree == file && t.entries[0] in t.entries;
    assert t.entries == [Named(name, file)] && NormAll(t.entries) == [Named(name, Norm(file))];
  }

  // Nothing in the tree that cannot be copied.
  predicate Clonable(t: Tree) {
    !t.Special? && (t.Folder? ==> forall e :: e in t.entries ==> Clonable(e.tree))
  }

  // Whether a copy breaks off at this call.
  method Breaks(intact: bool) returns (broken: bool)
    ensures broken ==> !intact
  {
    broken := false;
    if * {
      broken := !intact;
    }
  }

  // Copies one entry. intact says that every call on the way answers; without
  // it at least one fails, and what stands at the target is the part that was
  // made before.
  method CloneTree(t: Tree, intact: bool) returns (ok: bool, made: Option<Tree>)
    ensures ok <==> intact && Clonable(t)
    ensures ok ==> made == Some(Norm(t)) && Alike(t, made.value) && Plain(made.value)
    decreases t
  {
    CopyIsAlike(t);
    hide Alike, Plain;
    var broken := Breaks(intact);
    if broken {
      return false, None;
    }
    match t {
    case Link(_, _) =>
      made := Some(t);
    case Special =>
      return false, None;
    case File(mode, owner, bytes) =>
      made := Some(File(384, 0, []));
      broken := Breaks(intact);
      if broken {
        return false, made;
      }
      made := Some(File(Perm(mode), owner, bytes));
    case Folder(mode, owner, entries) =>
      var copies: seq<Named> := [];
      for i := 0 to |entries|
        invariant copies == NormAll(entries[..i])
        invariant forall e :: e in entries[..i] ==> Clonable(e.tree)
      {
        broken := Breaks(intact);
        var copied, child := CloneTree(entries[i].tree, !broken);
        if !copied {
          var part := match child case Some(c) => [Named(entries[i].name, c)] case None => [];
          made := Some(Folder(448, 0, copies + part));
          return false, made;
        }
        NormAllOneMore(entries, i);
        copies := copies + [Named(entries[i].name, child.value)];
      }
      assert entries[..|entries|] == entries;
      made := Some(Folder(448, 0, copies));
      broken := Breaks(intact);
      if broken {
        return false, made;
      }
      made := Some(Folder(Perm(mode), owner, copies));
    }
    // Giving the copy its owner is the last call.
    ok := intact;
  }

  // ---- the three folders an import deals with -------------------------------

  type Content = map<string, Tree>

  // The data folder, the one the old data is kept in, and the one a failed
  // import's fresh data goes to. The two stamped names are new.
  datatype Place = Data | Kept | Failed

  type Disk = map<Place, Content>

  // A folder holds exactly the entries of another.
  predicate Exactly(o: Content, c: Content) {
    c.Keys == o.Keys && forall n :: n in o ==> Same(o[n], c[n])
  }

  predicate HasEntry(d: Disk, p: Place, n: string, t: Tree) {
    p in d && n in d[p] && Same(d[p][n], t)
  }

  predicate Complete(d: Disk, n: string, t: Tree) {
    HasEntry(d, Data, n, t) || HasEntry(d, Kept, n, t) || HasEntry(d, Failed, n, t)
  }

  // Every entry is complete in at least one place.
  ghost predicate Conserved(o: Content, d: Disk) {
    forall n :: n in o ==> Complete(d, n, o[n])
  }

  // Two contents agree on every entry but one.
  ghost predicate OnlyAt(c: Content, d: Content, n: string) {
    forall k :: k != n ==> (k in c <==> k in d) && (k in c ==> c[k] == d[k])
  }

  // ---- how the calls answer ---------------------------------------------------

  // How moving one entry goes: the rename works, is refused, or finds another
  // file system. Then the entry is copied, with every call answering or not,
  // and what the move leaves over is removed. left is what stays of it where
  // that fails.
  datatype Renaming = Renamed | Refused | OtherDevice(intact: bool, gone: bool, left: Option<Tree>)

  // Whether a folder can be listed, and how each of its entries moves.
  datatype Moving = Moving(listed: bool, entry: string -> Renaming)

  // The new folder is not made, made without the right mode and owner, or made.
  datatype Making = Unmade | Halfmade | Made

  // table says whether the mount table can be read.
  datatype AsideCalls = AsideCalls(table: bool, renamed: bool, made: Making, mkdir: bool, move: Moving)

  datatype BackCalls = BackCalls(table: bool, away: bool, back: bool, mkdir: bool, clear: Moving, restore: Moving,
    removed: bool)

  // A start that is reported as failed may have left the server running.
  datatype Starting = Up | Unheard | Down

  datatype RollbackCalls = RollbackCalls(stop: bool, back: BackCalls, again: Starting)

  datatype ImportCalls = ImportCalls(
    stop: bool, stat: bool, aside: AsideCalls, start: Starting, ready: bool, fed: bool, rollback: RollbackCalls)

  // The entry ends complete at the target, and leaves nothing at the source.
  predicate Arrives(t: Tree, a: Renaming) { a.Renamed? || (a.OtherDevice? && a.intact && Clonable(t)) }

  predicate Leaves(t: Tree, a: Renaming) { Arrives(t, a) && (a.OtherDevice? ==> a.gone) }

  // What stands at the target of an entry that does not leave: the copy, or
  // what could not be removed of one that broke off.
  function Standing(t: Tree, a: Renaming): Option<Tree> {
    if Arrives(t, a) then Some(t) else if a.OtherDevice? && !a.gone then a.left else None
  }

  // It is the whole entry.
  predicate Whole(t: Tree, a: Renaming) { Standing(t, a).Some? && Same(Standing(t, a).value, t) }

  // How moving everything of one folder into an empty one ends: all of it
  // moved, or it stopped at the first entry by name that does not leave.
  ghost predicate Moved(s: Content, src: Content, dst: Content, ok: bool, m: Moving) {
    if ok then m.listed && AllLeave(s, m) && src == map[] && Exactly(s, dst)
    else (!m.listed && src == s && dst == map[]) || (m.listed && exists stuck :: StoppedAt(s, src, dst, stuck, m))
  }

  ghost predicate AllLeave(s: Content, m: Moving) { forall n :: n in s ==> Leaves(s[n], m.entry(n)) }

  predicate Gone(s: Content, src: Content, dst: Content, n: string)
    requires n in s
  {
    n !in src && n in dst && Same(dst[n], s[n])
  }

  predicate Untouched(s: Content, src: Content, dst: Content, n: string)
    requires n in s
  {
    n in src && src[n] == s[n] && n !in dst
  }

  ghost predicate StoppedAt(s: Content, src: Content, dst: Content, stuck: string, m: Moving) {
    && stuck in s && !Leaves(s[stuck], m.entry(stuck)) && src.Keys <= s.Keys && dst.Keys <= s.Keys
    && (forall n :: n in s && Less(n, stuck) ==> Leaves(s[n], m.entry(n)) && Gone(s, src, dst, n))
    && (forall n :: n in s && Less(stuck, n) ==> Untouched(s, src, dst, n))
    && StuckEntry(s[stuck], src, dst, stuck, m.entry(stuck))
  }

  // What the entry a move stopped at left on both sides.
  ghost predicate StuckEntry(t: Tree, src: Content, dst: Content, n: string, a: Renaming) {
    && (n in dst <==> Standing(t, a).Some?) && (n in dst ==> Same(dst[n], Standing(t, a).value))
    && (!Arrives(t, a) ==> n in src && src[n] == t)
  }

  // The first i names have moved.
  ghost predicate Halfway(s: Content, src: Content, dst: Content, names: seq<string>, i: nat, m: Moving) {
    && i <= |names| && StrictlyAscending(names) && (forall n :: n in names <==> n in s)
    && src.Keys <= s.Keys && dst.Keys <= s.Keys
    && (forall j :: 0 <= j < i ==>
         names[j] in s && Leaves(s[names[j]], m.entry(names[j])) && Gone(s, src, dst, names[j]))
    && (forall j :: i <= j < |names| ==> names[j] in s && Untouched(s, src, dst, names[j]))
  }

  lemma HalfwayOn(s: Content, src: Content, dst: Content, names: seq<string>, i: nat, m: Moving, src1: Content,
      dst1: Content)
    requires Halfway(s, src, dst, names, i, m) && i < |names|
    requires OnlyAt(src, src1, names[i]) && OnlyAt(dst, dst1, names[i])
    requires names[i] in s && Leaves(s[names[i]], m.entry(names[i])) && Gone(s, src1, dst1, names[i])
    ensures Halfway(s, src1, dst1, names, i + 1, m)
  {
    forall j | 0 <= j < |names| && j != i ensures names[j] != names[i] {
      Irreflexive(names[i]);
    }
  }

  lemma HalfwayStops(s: Content, src: Content, dst: Content, names: seq<string>, i: nat, m: Moving, src1: Content,
      dst1: Content)
    requires Halfway(s, src, dst, names, i, m) && i < |names|
    requires OnlyAt(src, src1, names[i]) && OnlyAt(dst, dst1, names[i]) && src1.Keys <= s.Keys
    requires names[i] in s && !Leaves(s[names[i]], m.entry(names[i]))
    requires StuckEntry(s[names[i]], src1, dst1, names[i], m.entry(names[i]))
    ensures StoppedAt(s, src1, dst1, names[i], m)
  {
    hide Leaves, Arrives, Standing, Same;
    var stuck := names[i];
    forall n | n in s && n != stuck ensures
      && (Less(n, stuck) ==> Leaves(s[n], m.entry(n)) && Gone(s, src1, dst1, n))
      && (Less(stuck, n) ==> Untouched(s, src1, dst1, n))
    {
      var j :| 0 <= j < |names| && names[j] == n;
      if j < i && Less(stuck, n) {
        Transitive(stuck, n, stuck);
      }
      if j > i && Less(n, stuck) {
        Transitive(stuck, n, stuck);
      }
      Irreflexive(stuck);
    }
    Irreflexive(stuck);
    assert dst1.Keys <= s.Keys by {
      forall k | k in dst1 ensures k in s { assert k == stuck || k in dst; }
    }
  }

  // A move never loses an entry.
  lemma MoveConserves(s: Content, src: Content, dst: Content, ok: bool, m: Moving, n: string)
    requires Moved(s, src, dst, ok, m) && n in s
    ensures (n in src && Same(src[n], s[n])) || (n in dst && Same(dst[n], s[n]))
  {
    if !ok && m.listed {
      var stuck :| StoppedAt(s, src, dst, stuck, m);
      Total(n, stuck);
    }
  }

  lemma MoveGoesThrough(s: Content, src: Content, dst: Content, ok: bool, m: Moving)
    requires Moved(s, src, dst, ok, m)
    ensures ok <==> m.listed && AllLeave(s, m)
    ensures ok ==> src == map[] && Exactly(s, dst)
  {
  }

  lemma MoveConservesAll(s: Content, d: Disk, src: Place, dst: Place, ok: bool, m: Moving)
    requires src in d && dst in d && Moved(s, d[src], d[dst], ok, m)
    ensures Conserved(s, d)
  {
    forall n | n in s ensures Complete(d, n, s[n]) {
      MoveConserves(s, d[src], d[dst], ok, m, n);
    }
  }

  lemma HeldWhole(d: Disk, p: Place)
    requires p in d
    ensures Conserved(d[p], d) && Exactly(d[p], d[p])
  {
  }

  lemma HeldExactly(o: Content, d: Disk, p: Place)
    requires p in d && Exactly(o, d[p])
    ensures Conserved(o, d)
  {
  }

  // The last entry by name.
  ghost predicate LastOf(s: Content, n: string) { forall k :: k in s ==> k == n || Less(k, n) }

  // Every entry leaves, and the last one stands whole at the target.
  ghost predicate AllArrive(s: Content, m: Moving) {
    s == map[] || (m.listed && forall n :: n in s ==>
      Leaves(s[n], m.entry(n)) || (Whole(s[n], m.entry(n)) && LastOf(s, n)))
  }

  // What arrives is the whole folder exactly when every entry arrives.
  lemma MovedIsWhole(s: Content, src: Content, dst: Content, ok: bool, m: Moving)
    requires Moved(s, src, dst, ok, m)
    ensures Exactly(s, dst) <==> AllArrive(s, m)
  {
    hide Leaves, Arrives, Standing, Norm;
    if !ok && m.listed {
      var stuck :| StoppedAt(s, src, dst, stuck, m);
      Irreflexive(stuck);
      forall n | n in s ensures n == stuck || Less(n, stuck) || Less(stuck, n) { Total(n, stuck); }
      if LastOf(s, stuck) {
        forall n | n in s && n != stuck ensures Gone(s, src, dst, n) && Leaves(s[n], m.entry(n)) {
          assert Less(n, stuck);
        }
        assert dst.Keys == s.Keys <==> stuck in dst;
      } else {
        var k :| k in s && k != stuck && !Less(k, stuck);
        assert Untouched(s, src, dst, k);
      }
    }
  }

  // ---- how setting the folder aside and putting it back can end ----------------

  // A mount point that is not seen as one cannot be renamed.
  ghost predicate SetAside(o: Content, d: Disk, ok: bool, mounted: bool, c: AsideCalls) {
    if mounted && c.table then
      if c.mkdir then d.Keys == {Data, Kept} && Moved(o, d[Data], d[Kept], ok, c.move)
      else !ok && d == map[Data := o]
    else if mounted || !c.renamed then !ok && d == map[Data := o]
    else ok == c.made.Made? && d == if c.made.Unmade? then map[Kept := o] else map[Kept := o, Data := map[]]
  }

  lemma SetAsideConserves(o: Content, d: Disk, ok: bool, mounted: bool, c: AsideCalls)
    requires SetAside(o, d, ok, mounted, c)
    ensures Conserved(o, d)
  {
    forall n | n in o ensures Complete(d, n, o[n]) {
      if mounted && c.table && c.mkdir {
        MoveConserves(o, d[Data], d[Kept], ok, c.move, n);
      }
    }
  }

  // The put-back can only go through when no call refuses, and does when every
  // rename works.
  ghost predicate MayGoBack(b: Disk, mounted: bool, c: BackCalls) {
    if mounted && c.table then
      Data in b && Kept in b && c.mkdir && c.clear.listed && AllLeave(b[Data], c.clear) && c.restore.listed
        && AllLeave(b[Kept], c.restore)
    else (Data in b ==> !mounted && c.away) && c.back
  }

  // How putting it back can end.
  ghost predicate PutBack(b: Disk, d: Disk, ok: bool) {
    && Kept in b
    && (ok ==> Data in d && Exactly(b[Kept], d[Data]) && (Kept in d ==> d[Kept] == map[]))
    && (ok && Data in b ==> Failed in d && Exactly(b[Data], d[Failed]))
    && Conserved(b[Kept], d)
    && (Data in b ==> Conserved(b[Data], d))
  }

  lemma PutBackConserves(o: Content, b: Disk, d: Disk, ok: bool)
    requires PutBack(b, d, ok) && Failed !in b && Conserved(o, b)
    ensures Conserved(o, d)
  {
    forall n | n in o ensures Complete(d, n, o[n]) {
      assert Complete(b, n, o[n]);
    }
  }

  datatype Outcome = Ready | DataBack | NotBack

  class Host {
    const mounted: bool
    var disk: Disk
    var running: bool

    constructor (mounted: bool, data: Content, running: bool)
      ensures this.mounted == mounted && disk == map[Data := data] && this.running == running
    {
      this.mounted, this.disk, this.running := mounted, map[Data := data], running;
    }

    // A mount table that cannot be read counts as no mount.
    method IsMount(table: bool) returns (r: bool)
      ensures r <==> mounted && table
    {
      r := mounted && table;
    }

    // The server may write anything into the data folder while it runs, and
    // starting it makes a missing one.
    method ServerWrites()
      modifies this`disk
      ensures Data in disk && disk.Keys == old(disk.Keys) + {Data}
      ensures forall p :: p in old(disk) && p != Data ==> disk[p] == old(disk[p])
    {
      var content: Content := *;
      disk := disk[Data := content];
    }

    // The server writes up to the moment it stands still.
    method Stop(answer: bool) returns (ok: bool)
      modifies this
      ensures ok == answer && (ok ==> !running)
      ensures !old(running) ==> disk == old(disk) && !running
      ensures forall p :: p != Data ==> (p in disk <==> p in old(disk)) && (p in disk ==> disk[p] == old(disk[p]))
      ensures Data in old(disk) ==> Data in disk
    {
      if running {
        ServerWrites();
      }
      if !answer {
        return false;
      }
      running := false;
      ok := true;
    }

    method Start(answer: Starting) returns (ok: bool)
      modifies this
      ensures ok <==> answer.Up?
      ensures running <==> old(running) || !answer.Down?
      ensures Data in disk
      ensures forall p :: p != Data ==> (p in disk <==> p in old(disk)) && (p in disk ==> disk[p] == old(disk[p]))
    {
      ServerWrites();
      running := running || !answer.Down?;
      ok := answer.Up?;
    }

    // The names in a folder, sorted.
    method ReadDir(p: Place) returns (names: seq<string>)
      requires p in disk
      ensures StrictlyAscending(names) && forall n :: n in names <==> n in disk[p]
    {
      names := [];
      var rest := disk[p].Keys;
      while rest != {}
        invariant StrictlyAscending(names) && rest <= disk[p].Keys
        invariant forall n :: n in disk[p] <==> n in rest || n in names
        decreases |rest|
      {
        var n :| n in rest;
        names := InsertKey(n, names);
        rest := rest - {n};
      }
    }

    // Moves every entry of one folder into another, an existing empty one.
    method MoveContents(src: Place, dst: Place, m: Moving) returns (ok: bool)
      requires src != dst && src in disk && dst in disk && disk[dst] == map[]
      modifies this`disk
      ensures disk.Keys == old(disk.Keys)
      ensures Moved(old(disk[src]), disk[src], disk[dst], ok, m)
      ensures forall p :: p in disk && p != src && p != dst ==> disk[p] == old(disk[p])
    {
      ghost var s := disk[src];
      if !m.listed {
        return false;
      }
      var names := ReadDir(src);
      for i := 0 to |names|
        invariant disk.Keys == old(disk.Keys)
        invariant forall p :: p in disk && p != src && p != dst ==> disk[p] == old(disk[p])
        invariant Halfway(s, disk[src], disk[dst], names, i, m)
      {
        ghost var from, to := disk[src], disk[dst];
        var moved := MoveEntry(src, dst, names[i], m.entry(names[i]));
        if !moved {
          HalfwayStops(s, from, to, names, i, m, disk[src], disk[dst]);
          return false;
        }
        HalfwayOn(s, from, to, names, i, m, disk[src], disk[dst]);
      }
      assert forall n :: n in s ==> n in names;
      forall n ensures n !in disk[src] {}
      ok := true;
    }

    // Moves one entry: by a rename, or across file systems by a copy that is
    // removed at the source afterwards.
    method MoveEntry(src: Place, dst: Place, n: string, a: Renaming) returns (ok: bool)
      requires src != dst && src in disk && dst in disk && n in disk[src] && n !in disk[dst]
      modifies this`disk
      ensures disk.Keys == old(disk.Keys)
      ensures forall p :: p in disk && p != src && p != dst ==> disk[p] == old(disk[p])
      ensures OnlyAt(old(disk[src]), disk[src], n) && OnlyAt(old(disk[dst]), disk[dst], n)
      ensures disk[src].Keys <= old(disk[src].Keys)
      ensures ok <==> Leaves(old(disk[src][n]), a)
      ensures ok ==> Gone(old(disk[src]), disk[src], disk[dst], n)
      ensures !ok ==> StuckEntry(old(disk[src][n]), disk[src], disk[dst], n, a)
    {
      match a {
      case Renamed =>
        var t := disk[src][n];
        disk := disk[dst := disk[dst][n := t]][src := disk[src] - {n}];
        ok := true;
      case Refused =>
        ok := false;
      case OtherDevice(intact, gone, left) =>
        ok := MoveByCopy(src, dst, n, intact, gone, left);
      }
    }

    method MoveByCopy(src: Place, dst: Place, n: string, intact: bool, gone: bool, left: Option<Tree>)
        returns (ok: bool)
      requires src != dst && src in disk && dst in disk && n in disk[src] && n !in disk[dst]
      modifies this`disk
      ensures disk.Keys == old(disk.Keys)
      ensures forall p :: p in disk && p != src && p != dst ==> disk[p] == old(disk[p])
      ensures OnlyAt(old(disk[src]), disk[src], n) && OnlyAt(old(disk[dst]), disk[dst], n)
      ensures disk[src].Keys <= old(disk[src].Keys)
      ensures ok <==> Leaves(old(disk[src][n]), OtherDevice(intact, gone, left))
      ensures ok ==> Gone(old(disk[src]), disk[src], disk[dst], n)
      ensures !ok ==> StuckEntry(old(disk[src][n]), disk[src], disk[dst], n, OtherDevice(intact, gone, left))
    {
      hide Norm, Clonable;
      ghost var t := disk[src][n];
      NormTwice(t);
      ok := CopyEntry(src, dst, n, intact, gone, left);
      if ok {
        ok := Remove(src, n, gone, left);
      }
    }

    // Copies one entry over, and removes the part of a copy that broke off.
    method CopyEntry(src: Place, dst: Place, n: string, intact: bool, gone: bool, left: Option<Tree>) returns (ok: bool)
      requires src != dst && src in disk && dst in disk && n in disk[src] && n !in disk[dst]
      modifies this`disk
      ensures disk.Keys == old(disk.Keys) && forall p :: p in disk && p != dst ==> disk[p] == old(disk[p])
      ensures OnlyAt(old(disk[dst]), disk[dst], n)
      ensures ok <==> intact && Clonable(old(disk[src][n]))
      ensures ok ==> n in disk[dst] && disk[dst][n] == Norm(old(disk[src][n]))
      ensures !ok ==> (n in disk[dst] <==> !gone && left.Some?) && (n in disk[dst] ==> disk[dst][n] == left.value)
    {
      var copied, made := CloneTree(disk[src][n], intact);
      hide Norm, Clonable;
      if made.Some? {
        disk := disk[dst := disk[dst][n := made.value]];
      }
      if !copied {
        var _ := Remove(dst, n, gone, left);
      }
      ok := copied;
    }

    // Removes one entry for good. left is what a failure leaves of it, which may
    // be nothing.
    method Remove(p: Place, n: string, gone: bool, left: Option<Tree>) returns (ok: bool)
      requires p in disk
      modifies this`disk
      ensures disk.Keys == old(disk.Keys) && forall q :: q in disk && q != p ==> disk[q] == old(disk[q])
      ensures OnlyAt(old(disk[p]), disk[p], n)
      ensures ok == gone && (n in disk[p] <==> !gone && left.Some?) && (n in disk[p] ==> disk[p][n] == left.value)
    {
      disk := disk[p := if gone || left.None? then disk[p] - {n} else disk[p][n := left.value]];
      ok := gone;
    }

    // Puts an empty folder where the old one was. The mode or the owner may
    // fail once it is there.
    method RecreateDataDir(made: Making) returns (ok: bool)
      requires Data !in disk
      modifies this`disk
      ensures ok <==> made.Made?
      ensures disk == if made.Unmade? then old(disk) else old(disk)[Data := map[]]
    {
      if made.Unmade? {
        return false;
      }
      disk := disk[Data := map[]];
      ok := made.Made?;
    }

    method SetDataDirAside(c: AsideCalls) returns (ok: bool)
      requires disk.Keys == {Data}
      modifies this`disk
      ensures SetAside(old(disk[Data]), disk, ok, mounted, c)
      ensures Failed !in disk && (mounted ==> Data in disk)
      ensures ok ==> Kept in disk && Exactly(old(disk[Data]), disk[Kept]) && Data in disk && disk[Data] == map[]
      ensures !mounted ==> Kept !in disk || disk[Kept] == old(disk[Data])
      ensures Kept !in disk ==> disk == old(disk)
      ensures mounted && (!c.table || !c.mkdir) ==> !ok && disk == old(disk)
      ensures !mounted && !c.renamed ==> !ok && disk == old(disk)
    {
      var mount := IsMount(c.table);
      if !mount {
        if mounted || !c.renamed {
          assert disk == map[Data := disk[Data]];
          return false;
        }
        disk := map[Kept := disk[Data]];
        ok := RecreateDataDir(c.made);
        return;
      }
      if !c.mkdir {
        assert disk == map[Data := disk[Data]];
        return false;
      }
      disk := disk[Kept := map[]];
      ok := MoveContents(Data, Kept, c.move);
    }

    // Reverses it: what the fresh server wrote goes to Failed, the kept
    // contents return. freshAt says where the fresh data is on a failure.
    method PutDataDirBack(c: BackCalls) returns (ok: bool, freshAt: Place)
      requires Kept in disk && Failed !in disk && (mounted ==> Data in disk)
      modifies this`disk
      ensures PutBack(old(disk), disk, ok)
      ensures ok <==> MayGoBack(old(disk), mounted, c)
      ensures ok ==> freshAt == Failed
      ensures freshAt == Failed && Data in old(disk) ==> Failed in disk && Exactly(old(disk[Data]), disk[Failed])
      ensures Kept in disk || ok
      ensures mounted && (!c.table || !c.mkdir) ==> !ok && disk == old(disk) && freshAt == Data
      ensures !mounted && Data in old(disk) && !c.away ==> !ok && disk == old(disk) && freshAt == Data
      ensures !mounted && !c.back ==> !ok && Kept in disk && disk[Kept] == old(disk[Kept])
    {
      hide Moved, Same, AllLeave, HasEntry, Complete;
      ghost var b := disk;
      var mount := IsMount(c.table);
      if !mount {
        if Data in disk {
          HeldWhole(disk, Data);
          if mounted || !c.away {
            HeldWhole(disk, Kept);
            return false, Data;
          }
          disk := (disk - {Data})[Failed := disk[Data]];
          HeldWhole(disk, Failed);
        }
        HeldWhole(disk, Kept);
        if !c.back {
          return false, Failed;
        }
        disk := (disk - {Kept})[Data := disk[Kept]];
        HeldWhole(disk, Data);
        if Data in b {
          HeldWhole(disk, Failed);
        }
        return true, Failed;
      }
      HeldWhole(disk, Data);
      HeldWhole(disk, Kept);
      if !c.mkdir {
        return false, Data;
      }
      disk := disk[Failed := map[]];
      var cleared := MoveContents(Data, Failed, c.clear);
      MoveGoesThrough(b[Data], disk[Data], disk[Failed], cleared, c.clear);
      MoveConservesAll(b[Data], disk, Data, Failed, cleared, c.clear);
      HeldWhole(disk, Kept);
      if !cleared {
        return false, Data;
      }
      var returned := MoveContents(Kept, Data, c.restore);
      MoveGoesThrough(b[Kept], disk[Kept], disk[Data], returned, c.restore);
      MoveConservesAll(b[Kept], disk, Kept, Data, returned, c.restore);
      HeldExactly(b[Data], disk, Failed);
      if !returned {
        return false, Failed;
      }
      if c.removed {
        disk := disk - {Kept};
      }
      HeldExactly(b[Data], disk, Failed);
      HeldExactly(b[Kept], disk, Data);
      return true, Failed;
    }

    // Puts the container back the way it was. left is the disk as the rollback
    // left it, before the server was started on it again. A server that does
    // not start again is not reported.
    method RollbackImport(moved: bool, c: RollbackCalls) returns (r: Outcome, ghost left: Disk)
      requires moved <==> Kept in disk
      requires Failed !in disk && (mounted || !moved ==> Data in disk)
      modifies this
      ensures r == DataBack || r == NotBack
      ensures !moved ==> r == DataBack && left == old(disk)
      ensures moved && r == DataBack ==> c.stop && Data in left && Exactly(old(disk[Kept]), left[Data])
      ensures moved ==> Conserved(old(disk[Kept]), left)
      ensures moved && !old(running) && Data in old(disk) ==> Conserved(old(disk[Data]), left)
      ensures moved && !old(running) && c.stop ==> PutBack(old(disk), left, r == DataBack)
      ensures moved && !old(running) ==> (r == DataBack <==> c.stop && MayGoBack(old(disk), mounted, c.back))
      ensures r == NotBack ==> left == disk
      ensures r == NotBack && (c.stop || !old(running)) ==> !running
      ensures r == DataBack ==> (running <==> !c.again.Down? || (!moved && old(running)))
    {
      if moved {
        var stopped := Stop(c.stop);
        if !stopped {
          left := disk;
          return NotBack, left;
        }
        var ok, _ := PutDataDirBack(c.back);
        if !ok {
          left := disk;
          return NotBack, left;
        }
      }
      left := disk;
      var _ := Start(c.again);
      r := DataBack;
    }

    // Stops the container, sets its data folder aside and lets the image fill
    // an empty one. o is what the folder held once the container stood still,
    // aside the disk when setting it aside ended and done whether that went
    // through, left the disk a rollback left.
    method FreshDataDirFor(c: ImportCalls)
      returns (r: Outcome, ghost o: Content, ghost aside: Disk, ghost done: bool, ghost left: Disk)
      requires disk.Keys == {Data}
      modifies this
      ensures !old(running) ==> o == old(disk[Data])
      ensures r == Ready <==> done && c.start.Up? && c.ready
      ensures r == Ready ==> Kept in disk && Exactly(o, disk[Kept]) && Data in disk && Failed !in disk
      ensures r != Ready ==> Conserved(o, left)
      ensures r == DataBack ==> Unwound(o, aside, left, done, mounted, c)
      ensures r == DataBack && (!mounted || done) ==> Data in left && Exactly(o, left[Data])
      ensures r == DataBack && c.stop ==> (running <==> !c.rollback.again.Down?)
      ensures Kept !in aside ==> r == DataBack
      ensures Interrupted(aside, done, c) ==> PutBack(aside, left, r == DataBack)
      ensures Interrupted(aside, done, c) ==> (r == DataBack <==> MayGoBack(aside, mounted, c.rollback.back))
      ensures if c.stop && c.stat then SetAside(o, aside, done, mounted, c.aside) else aside == map[Data := o]
      ensures r == NotBack ==> left == disk
    {
      hide Exactly, Conserved, PutBack, MayGoBack, SetAside;
      var stopped := Stop(c.stop);
      o, aside, done, left := disk[Data], disk, false, disk;
      assert disk == map[Data := o];
      NothingMoved(o);
      if !stopped {
        return DataBack, o, aside, done, left;
      }
      if !c.stat {
        r, left := RollbackImport(false, c.rollback);
        return r, o, aside, done, left;
      }
      var moved := SetDataDirAside(c.aside);
      aside, done := disk, moved;
      SetAsideConserves(o, aside, done, mounted, c.aside);
      if !moved {
        r, left := RollbackImport(Kept in disk, c.rollback);
        RolledBack(o, aside, left, r, done, mounted, c);
        return r, o, aside, done, left;
      }
      var started := Start(c.start);
      if !started {
        r, left := RollbackImport(true, c.rollback);
        RolledBack(o, aside, left, r, done, mounted, c);
        return r, o, aside, done, left;
      }
      ServerWrites();
      if !c.ready {
        r, left := RollbackImport(true, c.rollback);
        RolledBack(o, aside, left, r, done, mounted, c);
        return r, o, aside, done, left;
      }
      r := Ready;
    }

    // The whole import. The apps that were stopped for it start again unless it
    // failed with the old data not back.
    method ImportDBDump(c: ImportCalls, stopped: seq<Dependent>, up: string -> bool)
      returns (ok: bool, r: Outcome, down: seq<Dependent>, started: seq<Dependent>, ghost o: Content,
        ghost aside: Disk, ghost done: bool, ghost left: Disk)
      requires disk.Keys == {Data}
      modifies this
      ensures ok <==> r == Ready && c.fed
      ensures r == Ready <==> done && c.start.Up? && c.ready
      ensures r == Ready ==> Kept in disk && Exactly(o, disk[Kept])
      ensures r != Ready ==> Conserved(o, left)
      ensures r == DataBack ==> Unwound(o, aside, left, done, mounted, c)
      ensures r == DataBack && (!mounted || done) ==> Data in left && Exactly(o, left[Data])
      ensures r == DataBack ==>
        Data in left && (Exactly(o, left[Data]) <==> !LeftBehind(o, mounted, c))
      ensures r == DataBack && c.stop ==> (running <==> !c.rollback.again.Down?)
      ensures r == NotBack ==> left == disk
      ensures !ok && r != DataBack ==> started == [] && down == stopped
      ensures ok || r == DataBack ==> Restarted(stopped, up, started, down)
    {
      hide Exactly, Conserved, Restarted, SetAside, PutBack, LeftBehind;
      r, o, aside, done, left := FreshDataDirFor(c);
      if r == DataBack {
        DataIsBackExactly(o, aside, left, done, mounted, c);
      }
      ok := false;
      if r == Ready {
        // Feeding the dump: the server writes, and may not take all of it.
        ServerWrites();
        ok := c.fed;
      }
      if !ok && r != DataBack {
        down, started := stopped, [];
        return;
      }
      down, started := StartDependents(stopped, up);
    }
  }

  // ---- when the old data really is back --------------------------------------

  // Setting the folder aside failed on the way, and the container could be
  // stopped for the rollback.
  ghost predicate Interrupted(aside: Disk, done: bool, c: ImportCalls) {
    c.stop && c.stat && !done && Kept in aside && c.rollback.stop
  }

  // The rollback reported the data back: nothing had been moved, or the data
  // folder is what had been kept.
  ghost predicate Unwound(o: Content, aside: Disk, left: Disk, done: bool, mounted: bool, c: ImportCalls) {
    && Data in left
    && (Kept !in aside ==> left[Data] == o)
    && (Kept in aside ==> Exactly(aside[Kept], left[Data]))
    && if c.stop && c.stat then SetAside(o, aside, done, mounted, c.aside) else aside == map[Data := o]
  }

  lemma NothingMoved(o: Content)
    ensures Conserved(o, map[Data := o]) && Exactly(o, o)
  {
  }

  // What a rollback after setting aside leaves.
  lemma RolledBack(o: Content, aside: Disk, left: Disk, r: Outcome, done: bool, mounted: bool, c: ImportCalls)
    requires c.stop && c.stat && SetAside(o, aside, done, mounted, c.aside) && Conserved(o, aside)
    requires Kept !in aside ==> r == DataBack && left == aside
    requires Kept in aside ==> Conserved(aside[Kept], left)
    requires Kept in aside && !done && Data in aside ==> Conserved(aside[Data], left)
    requires Kept in aside && r == DataBack ==> Data in left && Exactly(aside[Kept], left[Data])
    ensures Conserved(o, left)
    ensures r == DataBack ==> Unwound(o, aside, left, done, mounted, c)
    ensures r == DataBack && (!mounted || done) ==> Exactly(o, left[Data])
  {
    forall n | n in o ensures Complete(left, n, o[n]) {
      assert Complete(aside, n, o[n]);
    }
  }

  // The move out of a mount is begun and does not bring every entry over.
  ghost predicate LeftBehind(o: Content, mounted: bool, c: ImportCalls) {
    && c.stop && c.stat && mounted && c.aside.table && c.aside.mkdir
    && !AllArrive(o, c.aside.move)
  }

  // Where the data is reported back the folder holds exactly the original
  // entries again if and only if the move out of a mount brought every entry
  // over. Of an ordinary folder it always does.
  lemma DataIsBackExactly(o: Content, aside: Disk, left: Disk, done: bool, mounted: bool, c: ImportCalls)
    requires Unwound(o, aside, left, done, mounted, c)
    ensures Exactly(o, left[Data]) <==> Kept !in aside || Exactly(o, aside[Kept])
    ensures Exactly(o, left[Data]) <==> !LeftBehind(o, mounted, c)
  {
    if Kept in aside && mounted {
      MovedIsWhole(o, aside[Data], aside[Kept], done, c.aside.move);
    }
  }

  // A run that ends that way. Of two entries in a mount the second cannot be
  // renamed; every call of the rollback answers, the data is reported back and
  // the server runs, on the first entry alone. The second is in the failed
  // folder.
  method HalfMovedMountIsSplit(a: string, b: string, t: Tree, u: Tree) returns (r: Outcome, ghost left: Disk)
    requires Less(a, b)
    ensures r == DataBack && Data in left && left[Data].Keys == {a} && Same(left[Data][a], t)
    ensures Failed in left && left[Failed].Keys == {b} && Same(left[Failed][b], u)
    ensures !Exactly(map[a := t, b := u], left[Data])
  {
    var refuse := n => if n == b then Refused else Renamed;
    var rename := (n: string) => Renamed;
    var answers := ImportCalls(
      true, true, AsideCalls(true, true, Made, true, Moving(true, refuse)), Up, true, true,
      RollbackCalls(true, BackCalls(true, true, true, true, Moving(true, rename), Moving(true, rename), true), Up));
    Irreflexive(a);
    var host := new Host(true, map[a := t, b := u], false);
    ghost var o, aside, done;
    r, o, aside, done, left := host.FreshDataDirFor(answers);
    SecondIsLeft(a, b, t, u, aside, done, answers.aside);
    assert AllLeave(aside[Data], Moving(true, rename)) && AllLeave(aside[Kept], Moving(true, rename));
  }

  lemma SecondIsLeft(a: string, b: string, t: Tree, u: Tree, aside: Disk, done: bool, c: AsideCalls)
    requires Less(a, b) && SetAside(map[a := t, b := u], aside, done, true, c)
    requires c.table && c.mkdir && c.move.listed && c.move.entry(a).Renamed? && c.move.entry(b).Refused?
    ensures !done && Data in aside && aside[Data] == map[b := u]
    ensures Kept in aside && aside[Kept].Keys == {a} && Same(aside[Kept][a], t)
  {
    Irreflexive(a);
    var o := map[a := t, b := u];
    assert b in o && !Leaves(o[b], c.move.entry(b));
    var stuck :| StoppedAt(o, aside[Data], aside[Kept], stuck, c.move);
    assert stuck == b;
    assert Gone(o, aside[Data], aside[Kept], a);
  }

  // A container that does not start again after a rollback is reported as one
  // that runs on its previous data.
  method StoppedServerIsReportedBack(data: Content, mounted: bool, other: ImportCalls)
      returns (r: Outcome, running: bool)
    ensures r == DataBack && !running
  {
    var answers := other.(stop := true, stat := false, rollback := other.rollback.(again := Down));
    var host := new Host(mounted, data, true);
    ghost var o, aside, done, left;
    r, o, aside, done, left := host.FreshDataDirFor(answers);
    running := host.running;
  }

  // ---- the apps that were stopped ----------------------------------------------

  datatype Dependent = Dependent(name: string, id: string, service: string, dependsOn: seq<string>)

  function Services(deps: seq<Dependent>): seq<string> { seq(|deps|, i requires 0 <= i < |deps| => deps[i].service) }

  function Needs(deps: seq<Dependent>): seq<seq<string>> {
    seq(|deps|, i requires 0 <= i < |deps| => deps[i].dependsOn)
  }

  // Of the apps taken in the given order, those whose start answers as asked.
  function Those(deps: seq<Dependent>, order: seq<nat>, up: string -> bool, answer: bool): seq<Dependent>
    requires forall k :: 0 <= k < |order| ==> order[k] < |deps|
  {
    if order == [] then []
    else
      var k := |order| - 1;
      Those(deps, order[..k], up, answer) + if up(deps[order[k]].id) == answer then [deps[order[k]]] else []
  }

  // Every app was tried once, in an order that follows the dependencies, and
  // is started or reported as down.
  ghost predicate Restarted(deps: seq<Dependent>, up: string -> bool, started: seq<Dependent>, down: seq<Dependent>) {
    && multiset(started) + multiset(down) == multiset(deps)
    && exists order, cut: nat ::
      && StartOrder.Follows(Services(deps), Needs(deps), order, cut)
      && started == Those(deps, order, up, true) && down == Those(deps, order, up, false)
  }

  method StartDependents(deps: seq<Dependent>, up: string -> bool)
      returns (down: seq<Dependent>, started: seq<Dependent>)
    ensures Restarted(deps, up, started, down)
  {
    var order, cut := StartOrder.StartOrder(Services(deps), Needs(deps));
    down, started := [], [];
    for k := 0 to |order|
      invariant started == Those(deps, order[..k], up, true) && down == Those(deps, order[..k], up, false)
    {
      assert order[..k + 1][..k] == order[..k];
      if up(deps[order[k]].id) {
        started := started + [deps[order[k]]];
      } else {
        down := down + [deps[order[k]]];
      }
    }
    assert order[..|order|] == order;
    TriedOnce(deps, order, up);
  }

  // Without cycles an app whose service another one depends on is tried before
  // that one.
  lemma ProvidersAreTriedFirst(deps: seq<Dependent>, up: string -> bool, started: seq<Dependent>,
      down: seq<Dependent>, rank: nat -> nat, i: nat, j: nat) returns (order: seq<nat>, p: nat, q: nat)
    requires Restarted(deps, up, started, down) && i < |deps| && j < |deps|
    requires forall a: nat, b: nat ::
      (a < |deps| && b < |deps| && a != b && deps[b].service != "" && deps[b].service in deps[a].dependsOn)
      ==> rank(b) < rank(a)
    requires i != j && deps[j].service != "" && deps[j].service in deps[i].dependsOn
    ensures q < p < |order| && order[p] == i && order[q] == j
    ensures forall k :: 0 <= k < |order| ==> order[k] < |deps|
    ensures started == Those(deps, order, up, true) && down == Those(deps, order, up, false)
  {
    var cut: nat;
    order, cut :| StartOrder.Follows(Services(deps), Needs(deps), order, cut)
      && started == Those(deps, order, up, true) && down == Those(deps, order, up, false);
    p, q := StartOrder.ProvidersFirst(Services(deps), Needs(deps), order, cut, rank, i, j);
  }

  lemma TriedOnce(deps: seq<Dependent>, order: seq<nat>, up: string -> bool)
    requires StartOrder.EachOnce(order, |deps|)
    ensures multiset(Those(deps, order, up, true)) + multiset(Those(deps, order, up, false)) == multiset(deps)
  {
    EitherWay(deps, order, up);
    Rearranged(deps, order, |deps|);
    assert deps[..|deps|] == deps;
  }

  function Tried(deps: seq<Dependent>, order: seq<nat>): seq<Dependent>
    requires forall k :: 0 <= k < |order| ==> order[k] < |deps|
  {
    seq(|order|, k requires 0 <= k < |order| => deps[order[k]])
  }

  lemma {:induction false} EitherWay(deps: seq<Dependent>, order: seq<nat>, up: string -> bool)
    requires forall k :: 0 <= k < |order| ==> order[k] < |deps|
    ensures multiset(Those(deps, order, up, true)) + multiset(Those(deps, order, up, false))
      == multiset(Tried(deps, order))
  {
    if order != [] {
      var k := |order| - 1;
      EitherWay(deps, order[..k], up);
      hide Those, Tried;
      var rest := order[..k];
      var on, off, all := Those(deps, rest, up, true), Those(deps, rest, up, false), Tried(deps, rest);
      TriedOneMore(deps, order);
      ThoseOneMore(deps, order, up, true);
      ThoseOneMore(deps, order, up, false);
      OneMoreTried(on, off, all, deps[order[k]]);
    }
  }

  lemma TriedOneMore(deps: seq<Dependent>, order: seq<nat>)
    requires order != [] && forall k :: 0 <= k < |order| ==> order[k] < |deps|
    ensures Tried(deps, order) == Tried(deps, order[..|order| - 1]) + [deps[order[|order| - 1]]]
  {
  }

  lemma ThoseOneMore(deps: seq<Dependent>, order: seq<nat>, up: string -> bool, answer: bool)
    requires order != [] && forall k :: 0 <= k < |order| ==> order[k] < |deps|
    ensures
      var k := |order| - 1;
      && (up(deps[order[k]].id) == answer ==>
           Those(deps, order, up, answer) == Those(deps, order[..k], up, answer) + [deps[order[k]]])
      && (up(deps[order[k]].id) != answer ==> Those(deps, order, up, answer) == Those(deps, order[..k], up, answer))
  {
  }

  lemma OneMoreTried(on: seq<Dependent>, off: seq<Dependent>, all: seq<Dependent>, d: Dependent)
    requires multiset(on) + multiset(off) == multiset(all)
    ensures multiset(on + [d]) + multiset(off) == multiset(all + [d]) == multiset(on) + multiset(off + [d])
  {
  }

  lemma TakenOut(deps: seq<Dependent>, order: seq<nat>, p: nat)
    requires p < |order| && forall k :: 0 <= k < |order| ==> order[k] < |deps|
    ensures multiset(Tried(deps, order)) == multiset(Tried(deps, order[..p] + order[p + 1..]))
      + multiset{deps[order[p]]}
  {
    var rest := order[..p] + order[p + 1..];
    var head, tail := Tried(deps, order[..p]), Tried(deps, order[p + 1..]);
    assert Tried(deps, order) == head + [deps[order[p]]] + tail;
    assert Tried(deps, rest) == head + tail;
  }

  lemma WithoutOne(order: seq<nat>, p: nat, n: nat)
    requires StartOrder.EachOnce(order, n) && p < n && order[p] == n - 1
    ensures StartOrder.EachOnce(order[..p] + order[p + 1..], n - 1)
  {
    var rest := order[..p] + order[p + 1..];
    forall k | 0 <= k < |rest| ensures rest[k] == (if k < p then order[k] else order[k + 1]) && rest[k] < n - 1 {}
    forall i: nat | i < n - 1 ensures i in rest {
      assert i in order;
      var q :| 0 <= q < n && order[q] == i;
      assert i == if q < p then rest[q] else rest[q - 1];
    }
  }

  // Taking each of the first n apps once takes them all.
  lemma {:induction false} Rearranged(deps: seq<Dependent>, order: seq<nat>, n: nat)
    requires StartOrder.EachOnce(order, n) && n <= |deps|
    ensures multiset(Tried(deps, order)) == multiset(deps[..n])
  {
    if n > 0 {
      var last := n - 1;
      assert last in order;
      var p :| 0 <= p < n && order[p] == last;
      var rest := order[..p] + order[p + 1..];
      WithoutOne(order, p, n);
      Rearranged(deps, rest, last);
      TakenOut(deps, order, p);
      assert deps[..n] == deps[..last] + [deps[last]];
    }
  }
}
