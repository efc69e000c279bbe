// path/filepath on slash-separated strings, and its meaning on sequences of path components.
module Paths {
  import opened GoStrings

  // An absolute path as the kernel sees it: its components, the root being the empty sequence.
  type Path = seq<string>

  // A component that filepath.Clean leaves alone.
  predicate Plain(c: string) {
    c != "" && '/' !in c && c != "." && c != ".."
  }

  predicate PlainPath(p: Path) {
    forall c :: c in p ==> Plain(c)
  }

  function Parent(p: Path): Path
    requires p != []
  {
    p[..|p| - 1]
  }

  function Last(p: Path): string
    requires p != []
  {
    p[|p| - 1]
  }

  function Slashed(parts: seq<string>): string {
    JoinWith(parts, '/')
  }

  // The absolute path string of p.
  function Abs(p: Path): string {
    "/" + Slashed(p)
  }

  // The element loop of path.Clean: "" and "." vanish, ".." takes back one element.
  function CleanElems(elems: seq<string>, rooted: bool, out: seq<string>): seq<string>
    decreases |elems|
  {
    if elems == [] then out
    else if elems[0] == "" || elems[0] == "." then CleanElems(elems[1..], rooted, out)
    else if elems[0] == ".." then
      if out != [] && Last(out) != ".." then CleanElems(elems[1..], rooted, Parent(out))
      else if rooted then CleanElems(elems[1..], rooted, out)
      else CleanElems(elems[1..], rooted, out + [".."])
    else CleanElems(elems[1..], rooted, out + [elems[0]])
  }

  function Clean(s: string): string {
    if s == "" then "."
    else
      var rooted := s[0] == '/';
      var out := CleanElems(Split(s, '/'), rooted, []);
      if rooted then "/" + Slashed(out)
      else if out == [] then "."
      else Slashed(out)
  }

  // filepath.Join of two elements
  function Join(a: string, b: string): string {
    if a != "" then Clean(a + "/" + b)
    else if b != "" then Clean(b)
    else ""
  }

  function StripSlashes(s: string): string {
    if s != "" && s[|s| - 1] == '/' then StripSlashes(s[..|s| - 1]) else s
  }

  function Base(s: string): string {
    if s == "" then "."
    else
      var t := StripSlashes(s);
      if t == "" then "/" else Last(Split(t, '/'))
  }

  lemma {:induction false} SplitLastLength(s: string)
    ensures |Last(Split(s, '/'))| <= |s|
  {
    if s != "" {
      SplitLastLength(s[1..]);
    }
  }

  // filepath.Dir: everything up to the last slash, cleaned
  function Dir(s: string): string {
    SplitLastLength(s);
    Clean(s[..|s| - |Last(Split(s, '/'))|])
  }

  // The components that a path string names in the file system.
  function Resolve(s: string): Path {
    CleanElems(Split(s, '/'), true, [])
  }

  lemma {:induction false} SplitNoSlash(s: string)
    ensures forall c :: c in Split(s, '/') ==> '/' !in c
  {
    if s != "" {
      SplitNoSlash(s[1..]);
    }
  }

  lemma {:induction false} CleanElemsPlain(elems: seq<string>, out: seq<string>)
    requires PlainPath(out) && forall c :: c in elems ==> '/' !in c
    ensures PlainPath(CleanElems(elems, true, out))
    decreases |elems|
  {
    if elems != [] {
      var rest := elems[1..];
      if elems[0] == "" || elems[0] == "." {
        CleanElemsPlain(rest, out);
      } else if elems[0] == ".." {
        if out != [] {
          assert Plain(Last(out));
          CleanElemsPlain(rest, Parent(out));
        } else {
          CleanElemsPlain(rest, out);
        }
      } else {
        CleanElemsPlain(rest, out + [elems[0]]);
      }
    }
  }

  lemma ResolvePlain(s: string)
    ensures PlainPath(Resolve(s))
  {
    SplitNoSlash(s);
    CleanElemsPlain(Split(s, '/'), []);
  }

  lemma {:induction false} CleanPlain(p: Path, rooted: bool, out: seq<string>)
    requires PlainPath(p)
    ensures CleanElems(p, rooted, out) == out + p
  {
    if p == [] {
      assert out + p == out;
    } else {
      assert Plain(p[0]);
      CleanPlain(p[1..], rooted, out + [p[0]]);
      assert out + [p[0]] + p[1..] == out + p;
    }
  }

  lemma {:induction false} SplitSlashed(p: Path)
    requires PlainPath(p) && p != []
    ensures Split(Slashed(p), '/') == p
    ensures Slashed(p) != "" && Slashed(p)[0] != '/' && Slashed(p)[|Slashed(p)| - 1] != '/'
  {
    forall c | c in p ensures '/' !in c { assert Plain(c); }
    SplitJoin(p, '/');
    EndsPlain(p);
  }

  lemma {:induction false} EndsPlain(p: Path)
    requires PlainPath(p) && p != []
    ensures Slashed(p) != "" && Slashed(p)[0] != '/' && Slashed(p)[|Slashed(p)| - 1] != '/'
  {
    assert Plain(p[0]);
    if |p| > 1 {
      EndsPlain(p[1..]);
    }
  }

  lemma SplitAbs(p: Path)
    requires PlainPath(p) && p != []
    ensures Split(Abs(p), '/') == [""] + p
  {
    SplitSlashed(p);
    SplitAppend("", Slashed(p), '/');
    assert "" + ['/'] + Slashed(p) == Abs(p);
  }

  // The string of a path names exactly that path.
  lemma ResolveAbs(p: Path)
    requires PlainPath(p)
    ensures Resolve(Abs(p)) == p
  {
    if p == [] {
      assert Abs(p) == "/";
      assert Split("/", '/') == ["", ""];
      assert ["", ""][1..] == [""];
    } else {
      SplitAbs(p);
      assert ([""] + p)[1..] == p;
      CleanPlain(p, true, []);
    }
  }

  lemma BaseAbs(p: Path)
    requires PlainPath(p) && p != []
    ensures Base(Abs(p)) == Last(p)
  {
    SplitSlashed(p);
    SplitAbs(p);
  }

  lemma {:induction false} AbsAppend(p: Path, q: Path)
    requires q != []
    ensures p != [] ==> Abs(p + q) == Abs(p) + "/" + Slashed(q)
  {
    if p != [] {
      JoinAppend(p, q, '/');
    }
  }

  lemma DirAbs(p: Path)
    requires PlainPath(p) && p != []
    ensures Dir(Abs(p)) == Abs(Parent(p))
  {
    SplitAbs(p);
    var up := Parent(p);
    assert p == up + [Last(p)];
    if up == [] {
      assert Abs(p) == "/" + Last(p);
      assert Abs(p)[..1] == "/";
      assert Clean("/") == "/" by { ResolveAbs([]); assert Split("/", '/') == ["", ""]; }
    } else {
      AbsAppend(up, [Last(p)]);
      var s := Abs(p)[..|Abs(p)| - |Last(p)|];
      assert s == Abs(up) + "/";
      SplitAppend(Abs(up), "", '/');
      assert Abs(up) + ['/'] + "" == s;
      SplitAbs(up);
      CleanTrailing(up);
      assert ([""] + up + [""])[1..] == up + [""];
    }
  }

  lemma {:induction false} CleanTrailing(p: Path)
    requires PlainPath(p)
    ensures CleanElems(p + [""], true, []) == p
  {
    CleanTrailingFrom(p, []);
    assert [] + p == p;
  }

  lemma {:induction false} CleanTrailingFrom(p: Path, out: Path)
    requires PlainPath(p)
    ensures CleanElems(p + [""], true, out) == out + p
  {
    if p == [] {
      assert (p + [""])[1..] == [];
    } else {
      assert Plain(p[0]);
      assert (p + [""])[1..] == p[1..] + [""];
      CleanTrailingFrom(p[1..], out + [p[0]]);
      assert out + [p[0]] + p[1..] == out + p;
    }
  }

  // What addDirToArchive writes as an entry's name: the source's last component, then the rest.
  lemma RebaseName(src: Path, rel: Path)
    requires PlainPath(src) && PlainPath(rel) && src != [] && rel != []
    ensures Join(Base(Abs(src)), TrimPrefix(Abs(src + rel), Abs(src))) == Slashed([Last(src)] + rel)
  {
    BaseAbs(src);
    AbsAppend(src, rel);
    var tail := "/" + Slashed(rel);
    assert Abs(src + rel) == Abs(src) + tail;
    assert TrimPrefix(Abs(src + rel), Abs(src)) == tail;
    var b := Last(src);
    assert Plain(b);
    SplitAbs(rel);
    SplitAppend(b, tail, '/');
    SplitAbsent(b, '/');
    assert b + "/" + tail == b + ['/'] + tail;
    assert Split(b + "/" + tail, '/') == [b] + ([""] + rel);
    var elems := [b] + ([""] + rel);
    CleanPlain(rel, false, [b]);
    calc {
      CleanElems(elems, false, []);
    ==  { assert elems[0] == b && [] + [b] == [b]; }
      CleanElems(elems[1..], false, [b]);
    ==  { assert elems[1..] == [""] + rel && ([""] + rel)[1..] == rel; }
      CleanElems(rel, false, [b]);
    ==
      [b] + rel;
    }
  }

  // Where restoreMachineDir puts an entry: below the parent of the directory it restores into.
  lemma RestorePath(up: Path, name: Path)
    requires PlainPath(up) && PlainPath(name) && name != []
    ensures Resolve(Join(Abs(up), Slashed(name))) == up + name
  {
    var s := Abs(up) + "/" + Slashed(name);
    SplitSlashed(name);
    SplitAppend(Abs(up), Slashed(name), '/');
    assert Abs(up) + ['/'] + Slashed(name) == s;
    if up == [] {
      assert Split("/", '/') == ["", ""];
      var elems := ["", ""] + name;
      assert Split(s, '/') == elems;
      CleanPlain(name, true, []);
      calc {
        CleanElems(elems, true, []);
      ==
        CleanElems(elems[1..], true, []);
      ==  { assert elems[1..] == [""] + name && ([""] + name)[1..] == name; }
        CleanElems(name, true, []);
      ==
        name;
      ==
        up + name;
      }
    } else {
      SplitAbs(up);
      assert Split(s, '/') == [""] + (up + name);
      assert ([""] + (up + name))[1..] == up + name;
      CleanPlain(up + name, true, []);
    }
    assert s[0] == '/' && CleanElems(Split(s, '/'), true, []) == up + name;
    assert Abs(up) != "" && Abs(up) + "/" + Slashed(name) == s;
    assert Join(Abs(up), Slashed(name)) == Abs(up + name);
    ResolveAbs(up + name);
  }
}
