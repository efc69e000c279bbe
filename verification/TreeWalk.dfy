// filepath.Walk: which paths of a tree it visits, and in which order.
module TreeWalk {
  import opened GoStrings
  import opened Paths
  import opened FileSystems
  import Sorting

  ghost function Below(t: Fs, p: Path): set<Path> {
    set q | q in t && Within(p, q)
  }

  function NamesIn(t: Fs, p: Path): set<string> {
    set q | q in t && |q| == |p| + 1 && Within(p, q) :: q[|p|]
  }

  // The names in directory p, in lexical order.
  ghost function Children(t: Fs, p: Path): (names: seq<string>)
    ensures forall n :: n in names <==> p + [n] in t
  {
    var s := NamesIn(t, p);
    var names := Sorting.SetToSeq(s);
    Sorting.SortSorts(names);
    forall n ensures n in Sorting.Sort(names) <==> p + [n] in t {
      assert n in Sorting.Sort(names) <==> n in multiset(Sorting.Sort(names));
      assert n in names <==> n in multiset(names);
      if n in s {
        var q :| q in t && |q| == |p| + 1 && Within(p, q) && q[|p|] == n;
        assert q == p + [n];
      }
      if p + [n] in t {
        assert Within(p, p + [n]) && (p + [n])[|p|] == n;
      }
    }
    Sorting.Sort(names)
  }

  lemma BelowShrinks(t: Fs, p: Path, n: string)
    requires p in t
    ensures |Below(t, p + [n])| < |Below(t, p)|
  {
    forall q | q in Below(t, p + [n]) ensures q in Below(t, p) {
      assert q[..|p|] == (p + [n])[..|p|];
    }
    assert p in Below(t, p) && p !in Below(t, p + [n]);
    Smaller(Below(t, p + [n]), Below(t, p));
  }

  lemma Smaller<T>(a: set<T>, b: set<T>)
    requires a < b
    ensures |a| < |b|
  {
    var x :| x in b && x !in a;
    assert a <= b - {x};
    Monotone(a, b - {x});
  }

  lemma {:induction false} Monotone<T>(a: set<T>, b: set<T>)
    requires a <= b
    ensures |a| <= |b|
  {
    if a != {} {
      var x :| x in a;
      Monotone(a - {x}, b - {x});
    }
  }

  // The paths that filepath.Walk visits in tree t from p on, in its order: a directory first,
  // then what lies in it, name by name.
  ghost function WalkFrom(t: Fs, p: Path): seq<Path>
    requires p in t
    decreases |Below(t, p)|, 1, 0
  {
    [p] + WalkEach(t, p, Children(t, p))
  }

  ghost function WalkEach(t: Fs, p: Path, names: seq<string>): seq<Path>
    requires p in t
    requires forall n :: n in names ==> p + [n] in t
    decreases |Below(t, p)|, 0, |names|
  {
    if names == [] then []
    else
      BelowShrinks(t, p, names[0]);
      WalkFrom(t, p + [names[0]]) + WalkEach(t, p, names[1..])
  }

  ghost function Walk(t: Fs): seq<Path>
    requires [] in t
  {
    WalkFrom(t, [])
  }

  // In visits, every directory strictly below p comes before what is in it.
  ghost predicate ParentsFirst(visits: seq<Path>, p: Path) {
    forall i, q {:trigger Above(q, visits[i])} :: 0 <= i < |visits| && Above(q, visits[i]) && Above(p, q) ==>
      q in visits[..i]
  }

  lemma ParentsFirstAppend(a: seq<Path>, b: seq<Path>, p: Path)
    requires ParentsFirst(a, p) && ParentsFirst(b, p)
    ensures ParentsFirst(a + b, p)
  {
    var r := a + b;
    forall i, q | 0 <= i < |r| && Above(q, r[i]) && Above(p, q)
      ensures q in r[..i]
    {
      if i < |a| {
        assert r[..i] == a[..i];
        assert Above(q, a[i]);
      } else {
        assert Above(q, b[i - |a|]);
        assert r[..i] == a + b[..i - |a|];
      }
    }
  }

  lemma WithinChild(p: Path, n: string, q: Path)
    ensures Within(p + [n], q) <==> Above(p, q) && q[|p|] == n
  {
    var c := p + [n];
    if Within(c, q) {
      assert q[..|p|] == c[..|p|] == p && q[|p|] == c[|p|];
    }
    if |c| <= |q| {
      assert q[..|c|] == q[..|p|] + [q[|p|]];
    }
  }

  lemma {:induction false} WalkFromVisits(t: Fs, p: Path)
    requires WellFormed(t) && p in t
    ensures forall q :: q in WalkFrom(t, p) <==> q in t && Within(p, q)
    decreases |Below(t, p)|, 1, 0
  {
    var names := Children(t, p);
    WalkEachVisits(t, p, names);
    forall q ensures q in WalkFrom(t, p) <==> q in t && Within(p, q) {
      if q in t && Within(p, q) && q != p {
        var c := p + [q[|p|]];
        assert q[..|c|] == c;
        assert c == q || Above(c, q);
        assert q[|p|] in names;
      }
    }
  }

  lemma {:induction false} WalkEachVisits(t: Fs, p: Path, names: seq<string>)
    requires WellFormed(t) && p in t
    requires forall n :: n in names ==> p + [n] in t
    ensures forall q :: q in WalkEach(t, p, names) <==> q in t && Above(p, q) && q[|p|] in names
    decreases |Below(t, p)|, 0, |names|
  {
    if names != [] {
      var c := p + [names[0]];
      BelowShrinks(t, p, names[0]);
      WalkFromVisits(t, c);
      WalkEachVisits(t, p, names[1..]);
      var r := WalkEach(t, p, names);
      assert r == WalkFrom(t, c) + WalkEach(t, p, names[1..]);
      forall q ensures q in r <==> q in t && Above(p, q) && q[|p|] in names {
        WithinChild(p, names[0], q);
        assert q in r <==> q in WalkFrom(t, c) || q in WalkEach(t, p, names[1..]);
        assert Above(p, q) ==> (q[|p|] in names <==> q[|p|] == names[0] || q[|p|] in names[1..]);
      }
    }
  }

  lemma {:induction false} WalkFromOrder(t: Fs, p: Path)
    requires WellFormed(t) && p in t
    ensures ParentsFirst(WalkFrom(t, p), p)
    decreases |Below(t, p)|, 1, 0
  {
    var names := Children(t, p);
    WalkEachOrder(t, p, names);
    ParentsFirstAppend([p], WalkEach(t, p, names), p);
  }

  lemma {:induction false} WalkEachOrder(t: Fs, p: Path, names: seq<string>)
    requires WellFormed(t) && p in t
    requires forall n :: n in names ==> p + [n] in t
    ensures ParentsFirst(WalkEach(t, p, names), p)
    decreases |Below(t, p)|, 0, |names|
  {
    if names != [] {
      var c := p + [names[0]];
      BelowShrinks(t, p, names[0]);
      WalkFromOrder(t, c);
      WalkFromVisits(t, c);
      WalkEachOrder(t, p, names[1..]);
      var a := WalkFrom(t, c);
      forall i, q | 0 <= i < |a| && Above(q, a[i]) && Above(p, q)
        ensures q in a[..i]
      {
        assert a[i] in a && Within(c, a[i]);
        assert q[..|c|] == a[i][..|c|];
        if q != c {
          assert Above(c, q);
        } else {
          assert i > 0 && a[0] == c;
        }
      }
      ParentsFirstAppend(a, WalkEach(t, p, names[1..]), p);
    }
  }

  // filepath.Walk visits exactly the tree, and each directory before what is in it.
  lemma WalkVisits(t: Fs)
    requires WellFormed(t)
    ensures forall q :: q in Walk(t) <==> q in t
    ensures forall i, q {:trigger Above(q, Walk(t)[i])} :: 0 <= i < |Walk(t)| && Above(q, Walk(t)[i]) ==>
              q in Walk(t)[..i]
  {
    WalkFromVisits(t, []);
    WalkFromOrder(t, []);
    forall q ensures Within([], q) {}
    var v := Walk(t);
    assert v[0] == [];
    forall i, q | 0 <= i < |v| && Above(q, v[i]) ensures q in v[..i] {
      if q == [] {
        assert v[..i][0] == [];
      } else {
        assert Above([], q);
      }
    }
  }

  // p comes before q: it lies above, or has the smaller name where they first differ.
  ghost predicate Before(p: Path, q: Path) {
    Above(p, q) || exists k :: ForkAt(p, q, k) && Sorting.Le(p[k], q[k])
  }

  predicate ForkAt(p: Path, q: Path, k: int) {
    0 <= k < |p| && k < |q| && p[..k] == q[..k] && p[k] != q[k]
  }

  ghost predicate InOrder(visits: seq<Path>) {
    forall i, j :: 0 <= i < j < |visits| ==> Before(visits[i], visits[j])
  }

  predicate Ascending(names: seq<string>) {
    forall i, j :: 0 <= i < j < |names| ==> names[i] != names[j] && Sorting.Le(names[i], names[j])
  }

  lemma ChildrenAscend(t: Fs, p: Path)
    ensures Ascending(Children(t, p))
  {
    var s := NamesIn(t, p);
    var names := Sorting.SetToSeq(s);
    Sorting.SortSorts(names);
    var r := Sorting.Sort(names);
    forall i, j | 0 <= i < j < |r| ensures r[i] != r[j] {
      assert multiset(r) == multiset(s);
      assert r == r[..j] + r[j..];
      assert r[..j][i] == r[i] && r[j..][0] == r[j];
      assert multiset(r) == multiset(r[..j]) + multiset(r[j..]);
      assert r[i] in multiset(r[..j]) && r[j] in multiset(r[j..]);
      assert multiset(s)[r[i]] <= 1;
    }
  }

  lemma InOrderAppend(a: seq<Path>, b: seq<Path>)
    requires InOrder(a) && InOrder(b) && forall x, y :: x in a && y in b ==> Before(x, y)
    ensures InOrder(a + b)
  {
    var r := a + b;
    forall i, j | 0 <= i < j < |r| ensures Before(r[i], r[j]) {
      assert i < |a| <= j ==> r[i] in a && r[j] in b;
    }
  }

  lemma {:induction false} WalkFromInOrder(t: Fs, p: Path)
    requires WellFormed(t) && p in t
    ensures InOrder(WalkFrom(t, p))
    decreases |Below(t, p)|, 1, 0
  {
    var names := Children(t, p);
    ChildrenAscend(t, p);
    WalkEachInOrder(t, p, names);
    WalkEachVisits(t, p, names);
    InOrderAppend([p], WalkEach(t, p, names));
  }

  lemma {:induction false} WalkEachInOrder(t: Fs, p: Path, names: seq<string>)
    requires WellFormed(t) && p in t && Ascending(names)
    requires forall n :: n in names ==> p + [n] in t
    ensures InOrder(WalkEach(t, p, names))
    decreases |Below(t, p)|, 0, |names|
  {
    if names != [] {
      var c := p + [names[0]];
      BelowShrinks(t, p, names[0]);
      WalkFromInOrder(t, c);
      WalkFromVisits(t, c);
      WalkEachInOrder(t, p, names[1..]);
      WalkEachVisits(t, p, names[1..]);
      var a, b := WalkFrom(t, c), WalkEach(t, p, names[1..]);
      forall x, y | x in a && y in b ensures Before(x, y) {
        WithinChild(p, names[0], x);
        assert x[..|p|] == p && y[..|p|] == p;
        var j :| 0 <= j < |names[1..]| && names[1..][j] == y[|p|];
        assert names[j + 1] == y[|p|];
        assert ForkAt(x, y, |p|);
      }
      InOrderAppend(a, b);
    }
  }

  // And in lexical order, name by name.
  lemma WalkOrder(t: Fs)
    requires WellFormed(t)
    ensures forall i, j :: 0 <= i < j < |Walk(t)| ==> Before(Walk(t)[i], Walk(t)[j])
  {
    WalkFromInOrder(t, []);
  }

  method ReadDirNames(t: Fs, p: Path) returns (names: seq<string>)
    ensures names == Children(t, p)
  {
    var s := NamesIn(t, p);
    var rest := s;
    var got := [];
    while rest != {}
      invariant rest <= s
      invariant multiset(got) + multiset(rest) == multiset(s)
      decreases |rest|
    {
      var x :| x in rest;
      got := got + [x];
      rest := rest - {x};
    }
    names := Sorting.Sort(got);
    Sorting.SortForgetsOrder(got, Sorting.SetToSeq(s));
  }

  lemma {:induction false} WalkEachStep(t: Fs, p: Path, names: seq<string>, i: nat)
    requires p in t && i < |names| && forall n :: n in names ==> p + [n] in t
    ensures WalkEach(t, p, names[i..]) == WalkFrom(t, p + [names[i]]) + WalkEach(t, p, names[i + 1..])
  {
    assert names[i..][0] == names[i] && names[i..][1..] == names[i + 1..];
  }

  method WalkTree(t: Fs, p: Path) returns (visits: seq<Path>)
    requires p in t
    ensures visits == WalkFrom(t, p)
    decreases |Below(t, p)|, 1
  {
    var names := ReadDirNames(t, p);
    visits := [p];
    var i := 0;
    while i < |names|
      invariant 0 <= i <= |names|
      invariant forall n :: n in names ==> p + [n] in t
      invariant visits + WalkEach(t, p, names[i..]) == WalkFrom(t, p)
    {
      BelowShrinks(t, p, names[i]);
      var below := WalkTree(t, p + [names[i]]);
      WalkEachStep(t, p, names, i);
      visits := visits + below;
      i := i + 1;
    }
    assert names[i..] == [];
  }
}
