// A file system as a map from paths to nodes, and the operations the handlers use on it.
module FileSystems {
  import opened GoStrings
  import opened Paths

  // What a file holds: plain text, docker-machine's record of the machine it made,
  // or a gzipped tar archive.
  datatype Content = Text(text: string) | MachineConfig(id: nat) | TarGz(entries: seq<Entry>)

  datatype Entry = Entry(name: string, isDir: bool, content: Content)

  datatype Node = Directory | File(content: Content)

  type Fs = map<Path, Node>

  // p is q or lies below it
  predicate Within(q: Path, p: Path) {
    |q| <= |p| && p[..|q|] == q
  }

  // p lies strictly below q
  predicate Above(q: Path, p: Path) {
    |q| < |p| && p[..|q|] == q
  }

  // Everything lies in directories, up to the root.
  ghost predicate WellFormed(fs: Fs) {
    && [] in fs && fs[[]].Directory?
    && forall q, p {:trigger Above(q, p)} :: p in fs && Above(q, p) ==> q in fs && fs[q].Directory?
  }

  ghost predicate PlainNames(fs: Fs) {
    forall p :: p in fs ==> PlainPath(p)
  }

  function EmptyDir(): Fs {
    map[[] := Directory]
  }

  // os.MkdirAll
  function MkdirAll(fs: Fs, p: Path): Option<Fs> {
    if p in fs then (if fs[p].Directory? then Some(fs) else None)
    else if p == [] then None
    else
      match MkdirAll(fs, Parent(p))
      case None => None
      case Some(g) => Some(g[p := Directory])
  }

  // os.OpenFile with O_CREATE and O_TRUNC, then a full write
  function WriteFile(fs: Fs, p: Path, content: Content): Option<Fs> {
    if p == [] || (p in fs && fs[p].Directory?) then None
    else if Parent(p) !in fs || !fs[Parent(p)].Directory? then None
    else Some(fs[p := File(content)])
  }

  // os.RemoveAll
  function RemoveAll(fs: Fs, p: Path): Fs {
    map q | q in fs && !Within(p, q) :: fs[q]
  }

  // The tree at p, with paths relative to p.
  function Subtree(fs: Fs, p: Path): Fs {
    var rels := set q | q in fs && Within(p, q) :: q[|p|..];
    map r | r in rels && p + r in fs :: fs[p + r]
  }

  lemma SubtreeAt(fs: Fs, p: Path, r: Path)
    ensures r in Subtree(fs, p) <==> p + r in fs
    ensures r in Subtree(fs, p) ==> Subtree(fs, p)[r] == fs[p + r]
  {
    if p + r in fs {
      assert Within(p, p + r) && (p + r)[|p|..] == r;
    }
  }

  lemma SubtreeWellFormed(fs: Fs, p: Path)
    requires WellFormed(fs) && p in fs && fs[p].Directory?
    ensures WellFormed(Subtree(fs, p))
    ensures PlainNames(fs) ==> PlainNames(Subtree(fs, p))
  {
    var t := Subtree(fs, p);
    SubtreeAt(fs, p, []);
    assert p + [] == p;
    forall q, r | r in t && Above(q, r) ensures q in t && t[q].Directory? {
      SubtreeAt(fs, p, r);
      SubtreeAt(fs, p, q);
      assert (p + r)[..|p + q|] == p + q;
      assert Above(p + q, p + r);
    }
    if PlainNames(fs) {
      forall r | r in t ensures PlainPath(r) {
        SubtreeAt(fs, p, r);
        forall c | c in r ensures Plain(c) { assert c in p + r; }
      }
    }
  }

  // MkdirAll in a well-formed file system: it fails just when a file is in the way, and
  // otherwise adds exactly the missing directories down to p.
  lemma {:induction false} MkdirAllAdds(fs: Fs, p: Path)
    requires WellFormed(fs)
    ensures MkdirAll(fs, p).Some? <==> forall q :: Within(q, p) && q in fs ==> fs[q].Directory?
    ensures MkdirAll(fs, p).Some? ==>
              var g := MkdirAll(fs, p).value;
              && WellFormed(g)
              && (forall q :: q in g <==> q in fs || Within(q, p))
              && (forall q :: q in g ==> g[q] == if q in fs then fs[q] else Directory)
  {
    if p in fs {
      assert Within(p, p);
      forall q | Within(q, p) ensures q in fs && (fs[p].Directory? ==> fs[q].Directory?) {
        assert q == p || Above(q, p);
      }
    } else {
      assert p != [];
      MkdirAllAdds(fs, Parent(p));
      forall q | Within(q, p) ensures q == p || Within(q, Parent(p)) {
        if |q| < |p| { assert Parent(p)[..|q|] == p[..|q|]; }
      }
      forall q | Within(q, Parent(p)) ensures Within(q, p) {
        assert p[..|q|] == Parent(p)[..|q|];
      }
      if MkdirAll(fs, Parent(p)).Some? {
        var h := MkdirAll(fs, Parent(p)).value;
        var g := h[p := Directory];
        forall q, r | r in g && Above(q, r) ensures q in g && g[q].Directory? {
          if r == p {
            assert Within(q, p) && q != p;
            assert Within(q, Parent(p));
            assert q in h;
            if q in fs { assert h[q] == fs[q]; }
          }
        }
      }
    }
  }

  lemma {:induction false} MkdirAllPlain(fs: Fs, p: Path)
    requires PlainNames(fs) && PlainPath(p) && MkdirAll(fs, p).Some?
    ensures PlainNames(MkdirAll(fs, p).value)
  {
    if p !in fs && p != [] {
      MkdirAllPlain(fs, Parent(p));
    }
  }

  lemma WriteFileWellFormed(fs: Fs, p: Path, content: Content)
    requires WellFormed(fs) && WriteFile(fs, p, content).Some?
    ensures WellFormed(WriteFile(fs, p, content).value)
  {
    var g := WriteFile(fs, p, content).value;
    forall q, r | r in g && Above(q, r) ensures q in g && g[q].Directory? {
      if r == p {
        if q != Parent(p) {
          assert Parent(p)[..|q|] == p[..|q|];
          assert Above(q, Parent(p));
        }
      } else {
        assert q in fs && fs[q].Directory?;
        assert q != p;
      }
    }
  }

  lemma RemoveAllWellFormed(fs: Fs, p: Path)
    requires WellFormed(fs) && p != []
    ensures WellFormed(RemoveAll(fs, p))
  {
    var g := RemoveAll(fs, p);
    forall q, r | r in g && Above(q, r) ensures q in g && g[q].Directory? {
      assert Within(p, q) ==> Within(p, r);
    }
  }

  // g is f with the tree h in place of what f has at d.
  ghost predicate Mounted(g: Fs, f: Fs, d: Path, h: Fs) {
    && (forall r :: d + r in g <==> r in h)
    && (forall r :: r in h ==> g[d + r] == h[r])
    && (forall q :: !Within(d, q) ==> (q in g <==> q in f))
    && (forall q :: !Within(d, q) && q in f ==> g[q] == f[q])
  }

  lemma MountedSubtree(g: Fs, f: Fs, d: Path, h: Fs)
    requires Mounted(g, f, d, h)
    ensures Subtree(g, d) == h
  {
    forall r ensures r in Subtree(g, d) <==> r in h {
      SubtreeAt(g, d, r);
    }
    forall r | r in h ensures Subtree(g, d)[r] == h[r] {
      SubtreeAt(g, d, r);
    }
  }

  lemma SubtreeMounted(f: Fs, d: Path)
    ensures Mounted(f, f, d, Subtree(f, d))
  {
    forall r ensures d + r in f <==> r in Subtree(f, d) { SubtreeAt(f, d, r); }
    forall r | r in Subtree(f, d) ensures f[d + r] == Subtree(f, d)[r] { SubtreeAt(f, d, r); }
  }

  lemma MountedUnique(g: Fs, g': Fs, f: Fs, d: Path, h: Fs)
    requires Mounted(g, f, d, h) && Mounted(g', f, d, h)
    ensures g == g'
  {
    forall q ensures q in g <==> q in g' {
      if Within(d, q) { assert d + q[|d|..] == q; }
    }
    forall q | q in g ensures g[q] == g'[q] {
      if Within(d, q) { assert d + q[|d|..] == q; }
    }
  }

  // Creating or writing below d in g is creating or writing in the tree mounted there.
  lemma {:induction false} MountedMkdirAll(g: Fs, f: Fs, d: Path, h: Fs, r: Path)
    requires Mounted(g, f, d, h) && [] in h
    ensures MkdirAll(g, d + r).Some? <==> MkdirAll(h, r).Some?
    ensures MkdirAll(h, r).Some? ==>
              Mounted(MkdirAll(g, d + r).value, f, d, MkdirAll(h, r).value) && [] in MkdirAll(h, r).value
  {
    if r !in h {
      assert r != [];
      assert Parent(d + r) == d + Parent(r);
      MountedMkdirAll(g, f, d, h, Parent(r));
      if MkdirAll(h, r).Some? {
        MountedUpdate(MkdirAll(g, d + Parent(r)).value, f, d, MkdirAll(h, Parent(r)).value, r, Directory);
      }
    }
  }

  lemma MountedUpdate(g: Fs, f: Fs, d: Path, h: Fs, r: Path, n: Node)
    requires Mounted(g, f, d, h)
    ensures Mounted(g[d + r := n], f, d, h[r := n])
  {
    forall s | d + s == d + r ensures s == r {
      assert (d + s)[|d|..] == s && (d + r)[|d|..] == r;
    }
    assert Within(d, d + r);
  }

  lemma MountedWriteFile(g: Fs, f: Fs, d: Path, h: Fs, r: Path, c: Content)
    requires Mounted(g, f, d, h) && r != []
    ensures WriteFile(g, d + r, c).Some? <==> WriteFile(h, r, c).Some?
    ensures WriteFile(h, r, c).Some? ==>
              Mounted(WriteFile(g, d + r, c).value, f, d, WriteFile(h, r, c).value)
    ensures WriteFile(h, r, c).Some? && [] in h ==> [] in WriteFile(h, r, c).value
  {
    assert Parent(d + r) == d + Parent(r);
    if WriteFile(h, r, c).Some? {
      MountedUpdate(g, f, d, h, r, File(c));
    }
  }

  lemma MountedKeepsWellFormed(g: Fs, f: Fs, d: Path, h: Fs)
    requires Mounted(g, f, d, h) && WellFormed(f) && WellFormed(h) && d != []
    requires d in f && f[d].Directory?
    ensures WellFormed(g) && d in g && g[d].Directory?
  {
    assert d + [] == d;
    forall q, p | p in g && Above(q, p) ensures q in g && g[q].Directory? {
      if Within(d, p) {
        assert d + p[|d|..] == p;
        if Within(d, q) {
          assert d + q[|d|..] == q;
          assert Above(q[|d|..], p[|d|..]);
        } else {
          assert q == d[..|q|] by { assert p[..|d|][..|q|] == p[..|q|]; }
          assert Above(q, d);
        }
      } else {
        assert Within(d, q) ==> Within(d, p);
      }
    }
  }

  // f with the tree h in place of what it has at d.
  function Planted(f: Fs, d: Path, h: Fs): Fs {
    var below := set r | r in h :: d + r;
    RemoveAll(f, d) + (map q | q in below && q[|d|..] in h :: h[q[|d|..]])
  }

  lemma PlantedMounted(f: Fs, d: Path, h: Fs)
    ensures Mounted(Planted(f, d, h), f, d, h)
  {
    forall r ensures (d + r)[|d|..] == r && Within(d, d + r) {}
    forall q, r | q == d + r ensures Within(d, q) {}
  }

  // The disk that the handlers write to.
  class Disk {
    var nodes: Fs

    constructor (fs: Fs)
      ensures nodes == fs
    {
      nodes := fs;
    }

    method Mkdir(p: Path) returns (ok: bool)
      modifies this
      ensures ok == MkdirAll(old(nodes), p).Some?
      ensures nodes == if ok then MkdirAll(old(nodes), p).value else old(nodes)
    {
      match MkdirAll(nodes, p)
      case None => ok := false;
      case Some(g) => nodes, ok := g, true;
    }

    method Write(p: Path, c: Content) returns (ok: bool)
      modifies this
      ensures ok == WriteFile(old(nodes), p, c).Some?
      ensures nodes == if ok then WriteFile(old(nodes), p, c).value else old(nodes)
    {
      match WriteFile(nodes, p, c)
      case None => ok := false;
      case Some(g) => nodes, ok := g, true;
    }

    method Remove(p: Path)
      modifies this
      ensures nodes == RemoveAll(old(nodes), p)
    {
      nodes := RemoveAll(nodes, p);
    }
  }
}
