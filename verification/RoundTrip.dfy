// What restoring gives back of an archived tree.
module RoundTrip {
  import opened GoStrings
  import opened Paths
  import opened FileSystems
  import opened TreeWalk
  import opened Archive

  // ---------- unpacking, seen from inside the restored directory ----------

  function Put(g: Fs, p: Path, n: Node): Option<Fs> {
    match n
    case Directory => MkdirAll(g, p)
    case File(c) => WriteFile(g, p, c)
  }

  function Replay(g: Fs, t: Fs, todo: seq<Path>): Restored
    requires forall p :: p in todo ==> p in t
    decreases |todo|
  {
    if todo == [] then Restored(g, true)
    else
      match Put(g, todo[0], t[todo[0]])
      case None => Restored(g, false)
      case Some(h) => Replay(h, t, todo[1..])
  }

  // Once the paths of done are unpacked, p is there: it is one of them, or it is on the way
  // to a directory among them.
  ghost predicate Present(t: Fs, done: seq<Path>, p: Path)
    requires forall q :: q in done ==> q in t
  {
    p == [] || p in done || exists q :: q in done && t[q].Directory? && Within(p, q)
  }

  ghost function Image(t: Fs, done: seq<Path>): Fs
    requires forall q :: q in done ==> q in t
  {
    map p | p in t && Present(t, done, p) :: t[p]
  }

  lemma ImageWellFormed(t: Fs, done: seq<Path>)
    requires WellFormed(t) && forall q :: q in done ==> q in t
    requires Supported(t, done)
    ensures WellFormed(Image(t, done))
  {
    var g := Image(t, done);
    forall q, p | p in g && Above(q, p) ensures q in g && g[q].Directory? {
      if q != [] {
        if r :| r in done && t[r].Directory? && Within(p, r) {
          assert r[..|q|] == p[..|q|];
          assert Within(q, r);
        } else {
          assert p in done;
          var i :| 0 <= i < |done| && done[i] == p;
          if t[p].Directory? {
            assert Within(q, p);
          } else {
            assert Present(t, done[..i], Parent(p));
            assert Within(q, Parent(p)) by { assert Parent(p)[..|q|] == p[..|q|]; }
            AboveSupported(t, done, i, q);
          }
        }
      }
    }
  }

  lemma AboveSupported(t: Fs, done: seq<Path>, i: nat, q: Path)
    requires WellFormed(t) && forall r :: r in done ==> r in t
    requires Supported(t, done) && i < |done| && done[i] != [] && t[done[i]].File?
    requires Within(q, Parent(done[i]))
    ensures Present(t, done, q)
  {
    var up := Parent(done[i]);
    assert Present(t, done[..i], up);
    if up == [] {
      assert q == [];
    } else {
      assert Above(up, done[i]) && t[up].Directory?;
      if up in done[..i] {
        assert up in done && Within(q, up);
      } else {
        var r :| r in done[..i] && t[r].Directory? && Within(up, r);
        assert r in done;
        assert r[..|q|] == up[..|q|];
        assert Within(q, r);
      }
    }
  }

  // Every file of todo finds its directory there when its turn comes.
  ghost predicate Supported(t: Fs, todo: seq<Path>)
    requires forall q :: q in todo ==> q in t
  {
    forall i {:trigger todo[i]} :: 0 <= i < |todo| && todo[i] != [] && t[todo[i]].File? ==>
        Present(t, todo[..i], Parent(todo[i]))
  }

  lemma PresentMonotone(t: Fs, done: seq<Path>, more: seq<Path>, p: Path)
    requires forall q :: q in done + more ==> q in t
    requires Present(t, done, p)
    ensures Present(t, done + more, p)
  {
    if p != [] && p !in done {
      var q :| q in done && t[q].Directory? && Within(p, q);
      assert q in done + more;
    }
  }

  lemma PutImage(t: Fs, done: seq<Path>, p: Path)
    requires WellFormed(t) && p in t && p != []
    requires forall q :: q in done ==> q in t
    requires Supported(t, done)
    ensures Put(Image(t, done), p, t[p]).Some? <==> (t[p].File? ==> Present(t, done, Parent(p)))
    ensures Put(Image(t, done), p, t[p]).Some? ==> Put(Image(t, done), p, t[p]).value == Image(t, done + [p])
  {
    var g := Image(t, done);
    var h := Image(t, done + [p]);
    ImageWellFormed(t, done);
    assert Above(Parent(p), p);
    match t[p]
    case Directory =>
      MkdirAllAdds(g, p);
      forall q | Within(q, p) ensures q in t && t[q].Directory? {
        assert q == p || Above(q, p);
      }
      var r := MkdirAll(g, p).value;
      forall q ensures q in h <==> q in r {
        PresentExtend(t, done, p, q);
      }
      assert r == h;
    case File(c) =>
      if Parent(p) in g {
        var r := g[p := File(c)];
        forall q ensures q in h <==> q in r {
          PresentExtend(t, done, p, q);
        }
        assert r == h;
      }
  }

  lemma PresentExtend(t: Fs, done: seq<Path>, p: Path, q: Path)
    requires p in t && forall r :: r in done ==> r in t
    ensures Present(t, done + [p], q) <==> Present(t, done, q) || q == p || (t[p].Directory? && Within(q, p))
  {
    if Present(t, done, q) {
      PresentMonotone(t, done, [p], q);
    }
    assert p in done + [p];
  }

  // Unpacking succeeds just when every file finds its directory, and then gives the image.
  lemma {:induction false} ReplayImage(t: Fs, done: seq<Path>, todo: seq<Path>)
    requires WellFormed(t) && forall q :: q in done + todo ==> q in t && q != []
    requires Supported(t, done)
    ensures Replay(Image(t, done), t, todo).ok <==> Supported(t, done + todo)
    ensures Supported(t, done + todo) ==> Replay(Image(t, done), t, todo).fs == Image(t, done + todo)
    decreases |todo|
  {
    if todo == [] {
      assert done + todo == done;
    } else {
      var p := todo[0];
      var all := done + todo;
      assert p in all;
      assert forall q :: q in done ==> q in all;
      PutImage(t, done, p);
      assert all[|done|] == p && all[..|done|] == done;
      assert (done + [p]) + todo[1..] == all;
      SupportedSnoc(t, done, p);
      if Put(Image(t, done), p, t[p]).Some? {
        ReplayImage(t, done + [p], todo[1..]);
      }
    }
  }

  lemma {:induction false} ReplayFromEmpty(t: Fs, kept: seq<Path>)
    requires WellFormed(t) && forall q :: q in kept ==> q in t && q != []
    ensures Replay(EmptyDir(), t, kept).ok <==> Supported(t, kept)
    ensures Supported(t, kept) ==> Replay(EmptyDir(), t, kept).fs == Image(t, kept)
  {
    assert Image(t, []) == EmptyDir();
    assert [] + kept == kept;
    ReplayImage(t, [], kept);
  }

  lemma SupportedSnoc(t: Fs, done: seq<Path>, p: Path)
    requires p in t && p != [] && forall q :: q in done ==> q in t
    requires Supported(t, done)
    ensures Supported(t, done + [p]) <==> (t[p].File? ==> Present(t, done, Parent(p)))
  {
    var s := done + [p];
    assert s[|done|] == p && s[..|done|] == done;
    forall i | 0 <= i < |done| ensures s[i] == done[i] && s[..i] == done[..i] {}
  }

  // ---------- when the round trip is exact ----------

  // The tree without the files that the archive leaves out.
  function Pruned(t: Fs): Fs {
    map p | p in t && (t[p].Directory? || p == [] || !Skipped(Last(p))) :: t[p]
  }

  // The first archived path below directory d is a directory.
  ghost predicate FirstBelowIsDir(t: Fs, kept: seq<Path>, d: Path)
    requires forall p :: p in kept ==> p in t
  {
    exists i :: 0 <= i < |kept| && Above(d, kept[i]) && t[kept[i]].Directory? && forall p :: p in kept[..i] ==>
        !Above(d, p)
  }

  // Every directory with a skipped name has a directory as the first archived path below it.
  ghost predicate Restorable(t: Fs)
    requires WellFormed(t)
  {
    forall d :: d in t && d != [] && t[d].Directory? && Skipped(Last(d)) ==> FirstBelowIsDir(t, KeptPaths(t), d)
  }

  lemma KeptPathsFacts(t: Fs)
    requires WellFormed(t)
    ensures forall p :: p in KeptPaths(t) <==> p in t && p != [] && !Skipped(Last(p))
  {
    KeptMembers(Walk(t));
    WalkVisits(t);
  }

  // A kept directory comes before the kept paths below it.
  lemma KeptParentsFirst(t: Fs, i: nat, q: Path)
    requires WellFormed(t) && i < |KeptPaths(t)| && Above(q, KeptPaths(t)[i])
    requires q != [] && !Skipped(Last(q))
    ensures q in KeptPaths(t)[..i]
  {
    WalkVisits(t);
    KeptOrder(Walk(t), i, q);
  }

  lemma {:induction false} KeptOrder(visits: seq<Path>, i: nat, q: Path)
    requires i < |Kept(visits)| && Above(q, Kept(visits)[i]) && q != [] && !Skipped(Last(q))
    requires forall j {:trigger visits[j]} :: 0 <= j < |visits| && Above(q, visits[j]) ==> q in visits[..j]
    ensures q in Kept(visits)[..i]
  {
    var n := |visits| - 1;
    var front := visits[..n];
    if i < |Kept(front)| {
      forall j | 0 <= j < |front| && Above(q, front[j]) ensures q in front[..j] {
        assert visits[j] == front[j] && visits[..j] == front[..j];
      }
      KeptOrder(front, i, q);
      assert Kept(visits)[..i] == Kept(front)[..i];
    } else {
      assert Kept(visits)[i] == visits[n];
      KeptMembers(front);
      assert Kept(visits)[..i] == Kept(front);
    }
  }

  lemma PresentSkipped(t: Fs, kept: seq<Path>, i: nat, d: Path)
    requires forall p :: p in kept ==> p in t
    requires i < |kept| && Above(d, kept[i]) && t[kept[i]].File? && FirstBelowIsDir(t, kept, d)
    ensures Present(t, kept[..i], d)
  {
    var k :| 0 <= k < |kept| && Above(d, kept[k]) && t[kept[k]].Directory? && forall p :: p in kept[..k] ==>
        !Above(d, p);
    if i < k {
      InPrefix(kept, i, k);
      assert false;
    }
    InPrefix(kept, k, i);
    assert Within(d, kept[k]);
  }

  // Every directory with a skipped name that has something archived below it has a directory
  // as the first of these.
  ghost predicate Replayable(t: Fs)
    requires WellFormed(t)
  {
    forall d, p {:trigger Above(d, p)} :: p in KeptPaths(t) && Above(d, p) && d != [] && Skipped(Last(d)) ==>
      FirstBelowIsDir(t, KeptPaths(t), d)
  }

  lemma ReplayableSupports(t: Fs)
    requires WellFormed(t) && Replayable(t)
    ensures Supported(t, KeptPaths(t))
  {
    var kept := KeptPaths(t);
    KeptPathsFacts(t);
    forall i | 0 <= i < |kept| && t[kept[i]].File?
      ensures Present(t, kept[..i], Parent(kept[i]))
    {
      var d := Parent(kept[i]);
      assert kept[i] in kept && Above(d, kept[i]);
      if d != [] {
        if Skipped(Last(d)) {
          PresentSkipped(t, kept, i, d);
        } else {
          KeptParentsFirst(t, i, d);
        }
      }
    }
  }

  lemma FirstBelowSupported(t: Fs, d: Path, k: nat)
    requires WellFormed(t) && Supported(t, KeptPaths(t))
    requires k < |KeptPaths(t)| && Above(d, KeptPaths(t)[k]) && d != [] && Skipped(Last(d))
    ensures FirstBelowIsDir(t, KeptPaths(t), d)
  {
    var kept := KeptPaths(t);
    KeptPathsFacts(t);
    var i := FirstBelow(kept, d, k);
    if t[kept[i]].File? {
      var up := Parent(kept[i]);
      assert kept[i] in kept && d !in kept;
      assert Within(d, up) by { assert up[..|d|] == kept[i][..|d|]; }
      var p := PresentBelow(t, kept[..i], d, up);
      assert false;
    }
  }

  // Unpacking the archive of t into an empty directory succeeds exactly for these trees.
  lemma {:induction false} ReplaySucceeds(t: Fs)
    requires WellFormed(t)
    ensures Replay(EmptyDir(), t, KeptPaths(t)).ok <==> Replayable(t)
    ensures Replayable(t) ==> Replay(EmptyDir(), t, KeptPaths(t)).fs == Image(t, KeptPaths(t))
  {
    var kept := KeptPaths(t);
    ReplayFromEmpty(t, kept);
    if Replayable(t) {
      ReplayableSupports(t);
    } else if Supported(t, kept) {
      var d, p :| p in kept && Above(d, p) && d != [] && Skipped(Last(d)) && !FirstBelowIsDir(t, kept, d);
      var k :| 0 <= k < |kept| && kept[k] == p;
      FirstBelowSupported(t, d, k);
    }
  }

  lemma RestorableSupports(t: Fs)
    requires WellFormed(t) && Restorable(t)
    ensures Supported(t, KeptPaths(t))
  {
    KeptPathsFacts(t);
    ReplayableSupports(t);
  }

  lemma RestorableImage(t: Fs)
    requires WellFormed(t) && Restorable(t)
    ensures Image(t, KeptPaths(t)) == Pruned(t)
  {
    var kept := KeptPaths(t);
    KeptPathsFacts(t);
    forall p ensures p in Image(t, kept) <==> p in Pruned(t) {
      if p in t && p != [] && t[p].Directory? && Skipped(Last(p)) {
        var k :| 0 <= k < |kept| && Above(p, kept[k]) && t[kept[k]].Directory? && forall q :: q in kept[..k] ==>
            !Above(p, q);
        assert kept[k] in kept && Within(p, kept[k]);
      }
      if p in t && Present(t, kept, p) && p != [] && p !in kept {
        var q :| q in kept && t[q].Directory? && Within(p, q);
        assert p == q || Above(p, q);
      }
    }
  }

  lemma {:induction false} FirstBelow(kept: seq<Path>, d: Path, k: nat) returns (i: nat)
    requires k < |kept| && Above(d, kept[k])
    ensures i <= k && Above(d, kept[i]) && forall p :: p in kept[..i] ==> !Above(d, p)
  {
    i := 0;
    while !Above(d, kept[i])
      invariant i <= k && forall p :: p in kept[..i] ==> !Above(d, p)
      decreases k - i
    {
      assert kept[..i + 1] == kept[..i] + [kept[i]];
      i := i + 1;
    }
  }

  lemma ExactMeansRestorable(t: Fs)
    requires WellFormed(t)
    requires Supported(t, KeptPaths(t)) && Image(t, KeptPaths(t)) == Pruned(t)
    ensures Restorable(t)
  {
    var kept := KeptPaths(t);
    KeptPathsFacts(t);
    forall d | d in t && d != [] && t[d].Directory? && Skipped(Last(d))
      ensures FirstBelowIsDir(t, kept, d)
    {
      assert d in Pruned(t);
      assert d in Image(t, kept) && d !in kept;
      var q :| q in kept && t[q].Directory? && Within(d, q);
      assert q != d;
      var k :| 0 <= k < |kept| && kept[k] == q;
      assert Above(d, kept[k]);
      FirstBelowSupported(t, d, k);
    }
  }

  lemma InPrefix(s: seq<Path>, i: int, k: int)
    requires 0 <= i < k <= |s|
    ensures s[i] in s[..k]
  {
    assert s[..k][i] == s[i];
  }

  // If a directory at or below d is there, then so is something archived below d, unless d
  // itself was archived.
  lemma PresentBelow(t: Fs, done: seq<Path>, d: Path, up: Path) returns (p: Path)
    requires forall q :: q in done ==> q in t
    requires d != [] && d !in done && Within(d, up) && Present(t, done, up)
    ensures p in done && Above(d, p)
  {
    if up in done {
      p := up;
    } else {
      p :| p in done && t[p].Directory? && Within(up, p);
      assert p[..|d|] == p[..|up|][..|d|] == d;
    }
    assert p == p[..|p|];
  }

  // The round trip inside the directory: it gives back the tree without the skipped files
  // just when the tree is restorable.
  lemma {:induction false} ReplayExact(t: Fs)
    requires WellFormed(t)
    ensures var r := Replay(EmptyDir(), t, KeptPaths(t));
            r == Restored(Pruned(t), true) <==> Restorable(t)
  {
    var kept := KeptPaths(t);
    ReplayFromEmpty(t, kept);
    if Restorable(t) {
      RestorableSupports(t);
      RestorableImage(t);
    } else if Replay(EmptyDir(), t, kept) == Restored(Pruned(t), true) {
      ExactMeansRestorable(t);
    }
  }

  // ---------- the same on the whole disk, with the path strings ----------

  // An entry is put where the restored directory has the path that it was made from.
  lemma RestoreEntryPuts(g: Fs, dst: Path, src: Path, t: Fs, p: Path)
    requires src != [] && dst != [] && Last(src) == Last(dst) && PlainPath(dst)
    requires p in t && p != [] && PlainPath(p)
    ensures RestoreEntry(g, Dir(Abs(dst)), EntryFor(src, t, p)) == Put(g, dst + p, t[p])
  {
    DirAbs(dst);
    var name := [Last(src)] + p;
    assert Plain(Last(dst));
    RestorePath(Parent(dst), name);
    assert Parent(dst) + name == dst + p;
  }

  lemma RestoreStep(g: Fs, f: Fs, dst: Path, h: Fs, src: Path, t: Fs, p: Path)
    requires Mounted(g, f, dst, h) && [] in h
    requires src != [] && dst != [] && Last(src) == Last(dst) && PlainPath(dst)
    requires p in t && p != [] && PlainPath(p)
    ensures var r := RestoreEntry(g, Dir(Abs(dst)), EntryFor(src, t, p));
            var s := Put(h, p, t[p]);
            && (r.Some? <==> s.Some?)
            && (s.Some? ==> Mounted(r.value, f, dst, s.value) && [] in s.value)
  {
    RestoreEntryPuts(g, dst, src, t, p);
    MountedPut(g, f, dst, h, p, t[p]);
  }

  lemma MountedPut(g: Fs, f: Fs, dst: Path, h: Fs, p: Path, n: Node)
    requires Mounted(g, f, dst, h) && [] in h && p != []
    ensures Put(g, dst + p, n).Some? <==> Put(h, p, n).Some?
    ensures Put(h, p, n).Some? ==>
              Mounted(Put(g, dst + p, n).value, f, dst, Put(h, p, n).value) && [] in Put(h, p, n).value
  {
    match n
    case Directory => MountedMkdirAll(g, f, dst, h, p);
    case File(c) => MountedWriteFile(g, f, dst, h, p, c);
  }

  lemma {:induction false} EntriesHead(src: Path, t: Fs, kept: seq<Path>)
    requires src != [] && kept != [] && forall p :: p in kept ==> p in t
    ensures EntriesFor(src, t, kept)[0] == EntryFor(src, t, kept[0])
    ensures EntriesFor(src, t, kept)[1..] == EntriesFor(src, t, kept[1..])
  {
    assert forall i :: 0 <= i < |kept| - 1 ==> kept[1..][i] == kept[i + 1];
  }

  lemma {:induction false} RestoreIsReplay(g: Fs, f: Fs, dst: Path, h: Fs, src: Path, t: Fs, kept: seq<Path>,
      base: string)
    requires Mounted(g, f, dst, h) && [] in h
    requires src != [] && dst != [] && Last(src) == Last(dst) && PlainPath(dst)
    requires forall p :: p in kept ==> p in t && p != [] && PlainPath(p)
    requires base == Dir(Abs(dst))
    ensures var r := RestoreAll(g, base, EntriesFor(src, t, kept));
            var s := Replay(h, t, kept);
            r.ok == s.ok && Mounted(r.fs, f, dst, s.fs)
    decreases |kept|
  {
    if kept != [] {
      var p := kept[0];
      EntriesHead(src, t, kept);
      RestoreStep(g, f, dst, h, src, t, p);
      var r, s := RestoreEntry(g, base, EntryFor(src, t, p)), Put(h, p, t[p]);
      if s.Some? {
        RestoreIsReplay(r.value, f, dst, s.value, src, t, kept[1..], base);
      }
    }
  }

  // A disk on which tree h is found at dst.
  ghost predicate Holds(f: Fs, dst: Path, h: Fs) {
    WellFormed(f) && dst != [] && PlainPath(dst) && dst in f && f[dst].Directory? && Subtree(f, dst) == h
  }

  lemma {:induction false} ParentThere(f: Fs, dst: Path, h: Fs)
    requires Holds(f, dst, h)
    ensures MkdirAll(f, Resolve(Dir(Abs(dst)))) == Some(f)
    ensures Mounted(f, f, dst, h) && [] in h
  {
    DirAbs(dst);
    ResolveAbs(Parent(dst));
    assert Above(Parent(dst), dst);
    SubtreeMounted(f, dst);
    SubtreeAt(f, dst, []);
    assert dst + [] == dst;
  }

  // With its directory in place, restoring is replaying the entries.
  lemma {:induction false} RestoresEntries(f: Fs, dst: Path, h: Fs, entries: seq<Entry>)
    requires Holds(f, dst, h)
    ensures RestoreResult(f, Encoded(entries, true), Abs(dst)) == RestoreAll(f, Dir(Abs(dst)), entries)
  {
    ParentThere(f, dst, h);
  }

  lemma {:induction false} RestoreResultIsReplay(f: Fs, dst: Path, h: Fs, src: Path, t: Fs)
    requires Holds(f, dst, h) && WellFormed(t) && PlainNames(t)
    requires src != [] && Last(src) == Last(dst)
    ensures var r := RestoreResult(f, Encoded(ArchiveOf(src, t), true), Abs(dst));
            var s := Replay(h, t, KeptPaths(t));
            r.ok == s.ok && Mounted(r.fs, f, dst, s.fs)
  {
    ParentThere(f, dst, h);
    RestoresEntries(f, dst, h, ArchiveOf(src, t));
    RestoreIsReplay(f, f, dst, h, src, t, KeptPaths(t), Dir(Abs(dst)));
  }

  // Archiving the directory src of one disk and restoring the archive into an empty directory
  // with the same last component, on any disk and below any parent, succeeds and gives back
  // exactly the tree without the skipped files just when the tree is restorable. Nothing
  // outside that directory changes either way.
  lemma ArchiveRestoreExact(f: Fs, src: Path, t: Fs, f': Fs, dst: Path)
    requires Holds(f, src, t) && PlainNames(f)
    requires Holds(f', dst, EmptyDir()) && Last(src) == Last(dst)
    ensures WellFormed(t)
    ensures var r := RestoreResult(f', Encoded(ArchiveOf(src, t), true), Abs(dst));
            && (r.ok && Subtree(r.fs, dst) == Pruned(t) <==> Restorable(t))
            && (forall q :: !Within(dst, q) ==> (q in r.fs <==> q in f'))
            && (forall q :: !Within(dst, q) && q in f' ==> r.fs[q] == f'[q])
  {
    SubtreeWellFormed(f, src);
    RestoreResultIsReplay(f', dst, EmptyDir(), src, t);
    ReplayExact(t);
    var s := Replay(EmptyDir(), t, KeptPaths(t));
    MountedSubtree(RestoreResult(f', Encoded(ArchiveOf(src, t), true), Abs(dst)).fs, f', dst, s.fs);
  }

  lemma {:induction false} ReplayAgain(t: Fs, g: Fs, todo: seq<Path>)
    requires WellFormed(g) && forall p :: p in todo ==> p in t && p != [] && p in g && g[p] == t[p]
    ensures Replay(g, t, todo) == Restored(g, true)
    decreases |todo|
  {
    if todo != [] {
      var p := todo[0];
      assert Above(Parent(p), p);
      if t[p].File? {
        assert g[p := t[p]] == g;
      }
      ReplayAgain(t, g, todo[1..]);
    }
  }

  lemma {:induction false} ReplaySplit(g: Fs, t: Fs, a: seq<Path>, b: seq<Path>)
    requires forall p :: p in a + b ==> p in t
    ensures var r := Replay(g, t, a);
            Replay(g, t, a + b) == if r.ok then Replay(r.fs, t, b) else r
    decreases |a|
  {
    if a == [] {
      assert a + b == b;
    } else {
      assert a[0] in a + b;
      assert (a + b)[0] == a[0] && (a + b)[1..] == a[1..] + b;
      if Put(g, a[0], t[a[0]]).Some? {
        ReplaySplit(Put(g, a[0], t[a[0]]).value, t, a[1..], b);
      }
    }
  }

  // The first n paths are in g as they are in t.
  ghost predicate PutSoFar(t: Fs, g: Fs, kept: seq<Path>, n: nat)
    requires n <= |kept|
  {
    WellFormed(g) && forall p :: p in kept[..n] ==> p in t && p in g && g[p] == t[p]
  }

  lemma PutNext(t: Fs, g: Fs, kept: seq<Path>, n: nat)
    requires n < |kept| && kept[n] in t && kept[n] != [] && PutSoFar(t, g, kept, n)
    requires Put(g, kept[n], t[kept[n]]).Some?
    ensures PutSoFar(t, Put(g, kept[n], t[kept[n]]).value, kept, n + 1)
  {
    var p := kept[n];
    assert kept[..n + 1] == kept[..n] + [p];
    match t[p]
    case Directory =>
      MkdirAllAdds(g, p);
      assert Within(p, p);
    case File(c) =>
      WriteFileWellFormed(g, p, c);
  }

  // Unpacking everything again finds what is there, and fails where it failed.
  lemma {:induction false} ReplayTwice(t: Fs, g: Fs, kept: seq<Path>, n: nat)
    requires forall q :: q in kept ==> q in t && q != []
    requires n <= |kept| && PutSoFar(t, g, kept, n)
    ensures var r := Replay(g, t, kept[n..]);
            WellFormed(r.fs) && Replay(r.fs, t, kept) == r
    decreases |kept| - n
  {
    assert kept[..n] + kept[n..] == kept;
    if n == |kept| || Put(g, kept[n], t[kept[n]]).None? {
      ReplayAgain(t, g, kept[..n]);
      ReplaySplit(g, t, kept[..n], kept[n..]);
    } else {
      PutNext(t, g, kept, n);
      assert kept[n..][0] == kept[n] && kept[n..][1..] == kept[n + 1..];
      ReplayTwice(t, Put(g, kept[n], t[kept[n]]).value, kept, n + 1);
    }
  }

  lemma {:induction false} EmptyTwice(t: Fs)
    requires WellFormed(t)
    ensures var r := Replay(EmptyDir(), t, KeptPaths(t));
            WellFormed(r.fs) && Replay(r.fs, t, KeptPaths(t)) == r
  {
    assert KeptPaths(t)[0..] == KeptPaths(t);
    ReplayTwice(t, EmptyDir(), KeptPaths(t), 0);
  }

  // Restoring a second time changes nothing, whatever was in the directory before and even
  // after a restore that failed half-way.
  lemma RestoreTwice(f: Fs, dst: Path, h: Fs, src: Path, t: Fs)
    requires Holds(f, dst, h) && WellFormed(t) && PlainNames(t)
    requires src != [] && Last(src) == Last(dst)
    ensures var config := Encoded(ArchiveOf(src, t), true);
            var r := RestoreResult(f, config, Abs(dst));
            RestoreResult(r.fs, config, Abs(dst)) == r
  {
    var config := Encoded(ArchiveOf(src, t), true);
    var kept := KeptPaths(t);
    var r := RestoreResult(f, config, Abs(dst));
    RestoreResultIsReplay(f, dst, h, src, t);
    SubtreeWellFormed(f, dst);
    assert kept[0..] == kept;
    ReplayTwice(t, h, kept, 0);
    var h' := Replay(h, t, kept).fs;
    MountedSubtree(r.fs, f, dst, h');
    MountedKeepsWellFormed(r.fs, f, dst, h');
    RestoreResultIsReplay(r.fs, dst, h', src, t);
    var r2 := RestoreResult(r.fs, config, Abs(dst));
    SubtreeMounted(r.fs, dst);
    MountedUnique(r.fs, r2.fs, r.fs, dst, h');
  }

  // ---------- trees in which no directory has a skipped name ----------

  ghost predicate NoSkippedDirs(t: Fs) {
    forall d :: d in t && d != [] && t[d].Directory? ==> !Skipped(Last(d))
  }

  // Such trees are restorable, and every prefix of their archive holds the parent of each of
  // its entries.
  lemma NoSkippedDirsRestorable(t: Fs)
    requires WellFormed(t) && NoSkippedDirs(t)
    ensures Restorable(t)
    ensures forall i :: 0 <= i < |KeptPaths(t)| ==>
              Parent(KeptPaths(t)[i]) == [] || Parent(KeptPaths(t)[i]) in KeptPaths(t)[..i]
  {
    var kept := KeptPaths(t);
    forall i | 0 <= i < |kept| && Parent(kept[i]) != [] ensures Parent(kept[i]) in kept[..i] {
      assert kept[i] in kept;
      assert Above(Parent(kept[i]), kept[i]);
      KeptParentsFirst(t, i, Parent(kept[i]));
    }
  }

  // The names that are left out, letter by letter.
  predicate LeftOut(name: string) {
    var n := |name|;
    || (n >= 4 && name[n - 4] == '.' && name[n - 3] == 'i' && name[n - 2] == 's' && name[n - 1] == 'o')
    || (n >= 4 && name[n - 4] == '.' && name[n - 3] == 'i' && name[n - 2] == 'm' && name[n - 1] == 'g')
    || (n >= 5 && name[n - 5] == '.' && name[n - 4] == 'v' && name[n - 3] == 'm' && name[n - 2] == 'd'
        && name[n - 1] == 'k')
    || (n >= 7 && name[n - 7] == '.' && name[n - 6] == 't' && name[n - 5] == 'a' && name[n - 4] == 'r'
        && name[n - 3] == '.' && name[n - 2] == 'g' && name[n - 1] == 'z')
  }

  lemma EndsInFour(s: string, a: char, b: char, c: char, d: char)
    ensures var n := |s|;
            HasSuffix(s, [a, b, c, d]) <==>
                (n >= 4 && s[n - 4] == a && s[n - 3] == b && s[n - 2] == c && s[n - 1] == d)
  {
    var n := |s|;
    if n >= 4 {
      assert s[n - 4..] == [s[n - 4], s[n - 3], s[n - 2], s[n - 1]];
    }
  }

  lemma EndsInMore(s: string, a: char, suffix: string)
    requires suffix != ""
    ensures HasSuffix(s, [a] + suffix) <==>
        (HasSuffix(s, suffix) && |s| > |suffix| && s[|s| - |suffix| - 1] == a)
  {
    var n, m := |s|, |suffix|;
    if n > m {
      assert s[n - m - 1..] == [s[n - m - 1]] + s[n - m..];
      assert ([a] + suffix)[1..] == suffix;
    }
  }

  lemma EndsInVmdk(name: string)
    ensures var n := |name|;
            HasSuffix(name, ".vmdk") <==>
                (n >= 5 && name[n - 5] == '.' && name[n - 4] == 'v' && name[n - 3] == 'm' && name[n - 2] == 'd'
                 && name[n - 1] == 'k')
  {
    EndsInFour(name, 'v', 'm', 'd', 'k');
    EndsInMore(name, '.', ['v', 'm', 'd', 'k']);
    assert ".vmdk" == ['.'] + ['v', 'm', 'd', 'k'];
  }

  lemma EndsInTarGz(name: string)
    ensures var n := |name|;
            HasSuffix(name, ".tar.gz") <==>
                (n >= 7 && name[n - 7] == '.' && name[n - 6] == 't' && name[n - 5] == 'a' && name[n - 4] == 'r'
                 && name[n - 3] == '.' && name[n - 2] == 'g' && name[n - 1] == 'z')
  {
    var end := ['r', '.', 'g', 'z'];
    EndsInFour(name, 'r', '.', 'g', 'z');
    EndsInMore(name, 'a', end);
    EndsInMore(name, 't', ['a'] + end);
    EndsInMore(name, '.', ['t'] + (['a'] + end));
    assert ".tar.gz" == ['.'] + (['t'] + (['a'] + end));
  }

  lemma SkippedMeans(name: string)
    ensures Skipped(name) <==> LeftOut(name)
  {
    EndsInFour(name, '.', 'i', 's', 'o');
    EndsInFour(name, '.', 'i', 'm', 'g');
    EndsInVmdk(name);
    EndsInTarGz(name);
  }

  // Of any tree the archive holds one entry, with its content, for every path below the root
  // whose last name does not end in .iso, .img, .vmdk or .tar.gz, and none for any other.
  lemma ArchiveHolds(src: Path, t: Fs)
    requires src != [] && WellFormed(t)
    ensures forall e :: e in ArchiveOf(src, t) <==> exists p :: ArchivedAs(src, t, p, e)
  {
    var kept := KeptPaths(t);
    KeptPathsFacts(t);
    forall e ensures e in ArchiveOf(src, t) <==> exists p :: ArchivedAs(src, t, p, e) {
      if e in ArchiveOf(src, t) {
        var i :| 0 <= i < |kept| && EntriesFor(src, t, kept)[i] == e;
        assert kept[i] in kept;
        SkippedMeans(Last(kept[i]));
        assert ArchivedAs(src, t, kept[i], e);
      }
      if exists p :: ArchivedAs(src, t, p, e) {
        var p :| ArchivedAs(src, t, p, e);
        SkippedMeans(Last(p));
        var i :| 0 <= i < |kept| && kept[i] == p;
        assert EntriesFor(src, t, kept)[i] == e;
      }
    }
  }

  ghost predicate ArchivedAs(src: Path, t: Fs, p: Path, e: Entry)
    requires src != []
  {
    && p in t && p != [] && !LeftOut(Last(p)) && e.name == Slashed([Last(src)] + p)
    && (if t[p].Directory? then e.isDir && e.content == Text("") else !e.isDir && e.content == t[p].content)
  }

  // A restored tree has every directory, and every file whose name is not left out.
  lemma PrunedMeans(t: Fs, p: Path)
    ensures p in Pruned(t) <==> p in t && (t[p].Directory? || p == [] || !LeftOut(Last(p)))
    ensures p in Pruned(t) ==> Pruned(t)[p] == t[p]
  {
    if p != [] {
      SkippedMeans(Last(p));
    }
  }

  // A directory with a skipped name that holds an archived file, and below which no directory
  // is archived, makes the restore fail.
  lemma {:induction false} SkippedDirOfFiles(t: Fs, d: Path, q: Path)
    requires WellFormed(t) && d in t && d != [] && t[d].Directory? && Skipped(Last(d))
    requires q in KeptPaths(t) && t[q].File? && Parent(q) == d
    requires forall p :: p in KeptPaths(t) && Above(d, p) ==> t[p].File?
    ensures !Restorable(t)
    ensures !Replay(EmptyDir(), t, KeptPaths(t)).ok
  {
    KeptPathsFacts(t);
    NotFirstBelow(t, KeptPaths(t), d);
    Unsupported(t, KeptPaths(t), d, q);
    ReplayFromEmpty(t, KeptPaths(t));
  }

  lemma NotFirstBelow(t: Fs, kept: seq<Path>, d: Path)
    requires forall p :: p in kept ==> p in t
    requires forall p :: p in kept && Above(d, p) ==> t[p].File?
    ensures !FirstBelowIsDir(t, kept, d)
  {
  }

  lemma Unsupported(t: Fs, kept: seq<Path>, d: Path, q: Path)
    requires forall p :: p in kept ==> p in t
    requires d != [] && d !in kept && q in kept && q != [] && t[q].File? && Parent(q) == d
    requires forall p :: p in kept && Above(d, p) ==> t[p].File?
    ensures !Supported(t, kept)
  {
    var i :| 0 <= i < |kept| && kept[i] == q;
    if Present(t, kept[..i], d) {
      var p := PresentBelowDir(t, kept[..i], d);
      assert false;
    }
  }

  lemma PresentBelowDir(t: Fs, done: seq<Path>, d: Path) returns (p: Path)
    requires forall q :: q in done ==> q in t
    requires d != [] && d !in done && Present(t, done, d)
    ensures p in done && Above(d, p) && t[p].Directory?
  {
    p :| p in done && t[p].Directory? && Within(d, p);
    assert p == p[..|p|];
  }

  // The smallest tree that is lost, whatever its one file holds.
  ghost predicate IsLostTree(t: Fs) {
    exists c :: t == map[[] := Directory, ["a.iso"] := Directory, ["a.iso", "f"] := File(c)]
  }

  lemma LostTreeFacts(t: Fs)
    requires IsLostTree(t)
    ensures WellFormed(t)
    ensures forall p :: p in KeptPaths(t) <==> p == ["a.iso", "f"]
    ensures Skipped(Last(["a.iso"]))
  {
    var d, q := ["a.iso"], ["a.iso", "f"];
    forall a, p | p in t && Above(a, p) ensures a in t && t[a].Directory? {
      assert a == p[..|a|];
      assert a == [] || a == d;
    }
    KeptPathsFacts(t);
    assert "a.iso"[1..] == ".iso";
    assert Last(d) == "a.iso" && Last(q) == "f" && !Skipped("f");
    forall p | p in KeptPaths(t) ensures p == q {
      assert p in t;
      assert p == [] || p == d || p == q;
    }
  }

  lemma {:induction false} LostTreeIsLost(t: Fs)
    requires IsLostTree(t)
    ensures WellFormed(t) && !Restorable(t)
    ensures !Replay(EmptyDir(), t, KeptPaths(t)).ok
  {
    LostTreeFacts(t);
    assert Parent(["a.iso", "f"]) == ["a.iso"];
    SkippedDirOfFiles(t, ["a.iso"], ["a.iso", "f"]);
  }
}
