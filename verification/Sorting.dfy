// sort.Strings and the byte-wise order of Go strings.
module Sorting {

  predicate Le(a: string, b: string) {
    a == "" || (b != "" && (a[0] < b[0] || (a[0] == b[0] && Le(a[1..], b[1..]))))
  }

  // The order byte by byte: a is the beginning of b, or smaller where they first differ.
  lemma {:induction false} LeMeans(a: string, b: string)
    ensures Le(a, b) <==>
        (a <= b || exists k :: 0 <= k < |a| && k < |b| && a[..k] == b[..k] && a[k] < b[k])
  {
    if a != "" && b != "" && a[0] == b[0] {
      var x, y := a[1..], b[1..];
      LeMeans(x, y);
      assert a == [a[0]] + x && b == [b[0]] + y;
      if k :| 0 <= k < |x| && k < |y| && x[..k] == y[..k] && x[k] < y[k] {
        assert a[..k + 1] == [a[0]] + x[..k] && b[..k + 1] == [b[0]] + y[..k];
        assert a[k + 1] < b[k + 1];
      }
      if k :| 0 <= k < |a| && k < |b| && a[..k] == b[..k] && a[k] < b[k] {
        assert k > 0 && x[..k - 1] == a[..k][1..] && y[..k - 1] == b[..k][1..] && x[k - 1] < y[k - 1];
      }
      assert a <= b <==> x <= y;
    } else if a != "" && b != "" {
      assert a[..0] == b[..0];
      assert a[0] != b[0];
    }
  }

  lemma {:induction false} LeTotal(a: string, b: string)
    ensures Le(a, b) || Le(b, a)
  {
    if a != "" && b != "" {
      LeTotal(a[1..], b[1..]);
    }
  }

  lemma {:induction false} LeTransitive(a: string, b: string, c: string)
    requires Le(a, b) && Le(b, c)
    ensures Le(a, c)
  {
    if a != "" && a[0] == b[0] == c[0] {
      LeTransitive(a[1..], b[1..], c[1..]);
    }
  }

  lemma {:induction false} LeAntisymmetric(a: string, b: string)
    requires Le(a, b) && Le(b, a)
    ensures a == b
  {
    if a != "" {
      LeAntisymmetric(a[1..], b[1..]);
      assert a == [a[0]] + a[1..] && b == [b[0]] + b[1..];
    }
  }

  predicate Sorted(s: seq<string>) {
    forall i, j :: 0 <= i < j < |s| ==> Le(s[i], s[j])
  }

  function Insert(x: string, s: seq<string>): seq<string> {
    if s == [] then [x]
    else if Le(x, s[0]) then [x] + s
    else [s[0]] + Insert(x, s[1..])
  }

  function Sort(s: seq<string>): seq<string> {
    if s == [] then [] else Insert(s[0], Sort(s[1..]))
  }

  lemma {:induction false} InsertMembers(x: string, s: seq<string>)
    ensures multiset(Insert(x, s)) == multiset{x} + multiset(s)
    ensures forall y :: y in Insert(x, s) ==> y == x || y in s
  {
    if s != [] {
      assert s == [s[0]] + s[1..];
      InsertMembers(x, s[1..]);
    }
  }

  lemma {:induction false} SortedCons(x: string, s: seq<string>)
    requires Sorted(s) && forall y :: y in s ==> Le(x, y)
    ensures Sorted([x] + s)
  {
    var r := [x] + s;
    forall i, j | 0 <= i < j < |r| ensures Le(r[i], r[j]) {
      if i == 0 {
        assert r[j] == s[j - 1] && s[j - 1] in s;
      } else {
        assert r[i] == s[i - 1] && r[j] == s[j - 1];
      }
    }
  }

  lemma {:induction false} HeadLeast(s: seq<string>, x: string)
    requires Sorted(s) && x in s
    ensures Le(s[0], x)
  {
    LeTotal(x, x);
  }

  lemma TailSorted(s: seq<string>)
    requires Sorted(s) && s != []
    ensures Sorted(s[1..])
  {
    forall i, j | 0 <= i < j < |s| - 1 ensures Le(s[1..][i], s[1..][j]) {
      assert s[1..][i] == s[i + 1] && s[1..][j] == s[j + 1];
    }
  }

  lemma {:induction false} InsertSorted(x: string, s: seq<string>)
    requires Sorted(s)
    ensures Sorted(Insert(x, s))
  {
    if s != [] {
      LeTotal(x, s[0]);
      if Le(x, s[0]) {
        forall y | y in s ensures Le(x, y) {
          HeadLeast(s, y);
          LeTransitive(x, s[0], y);
        }
        SortedCons(x, s);
      } else {
        TailSorted(s);
        InsertSorted(x, s[1..]);
        InsertMembers(x, s[1..]);
        forall y | y in Insert(x, s[1..]) ensures Le(s[0], y) {
          if y != x {
            assert y in s;
            HeadLeast(s, y);
          }
        }
        SortedCons(s[0], Insert(x, s[1..]));
      }
    }
  }

  lemma {:induction false} SortSorts(s: seq<string>)
    ensures Sorted(Sort(s)) && multiset(Sort(s)) == multiset(s)
  {
    if s != [] {
      SortSorts(s[1..]);
      InsertSorted(s[0], Sort(s[1..]));
      InsertMembers(s[0], Sort(s[1..]));
      assert s == [s[0]] + s[1..];
    }
  }

  lemma SameHead(s: seq<string>, t: seq<string>)
    requires Sorted(s) && Sorted(t) && multiset(s) == multiset(t) && s != [] && t != []
    ensures s[0] == t[0]
  {
    assert s[0] in multiset(t) && t[0] in multiset(s);
    HeadLeast(t, s[0]);
    HeadLeast(s, t[0]);
    LeAntisymmetric(s[0], t[0]);
  }

  // A sorted arrangement of given strings is unique.
  lemma {:induction false} SortedUnique(s: seq<string>, t: seq<string>)
    requires Sorted(s) && Sorted(t) && multiset(s) == multiset(t)
    ensures s == t
  {
    assert |t| == |multiset(t)| == |multiset(s)| == |s|;
    if s != [] {
      SameHead(s, t);
      assert s == [s[0]] + s[1..] && t == [t[0]] + t[1..];
      assert multiset(s[1..]) == multiset(s) - multiset{s[0]};
      assert multiset(t[1..]) == multiset(t) - multiset{t[0]};
      TailSorted(s);
      TailSorted(t);
      SortedUnique(s[1..], t[1..]);
    }
  }

  // So sorting forgets the order its input came in.
  lemma {:induction false} SortForgetsOrder(s: seq<string>, t: seq<string>)
    requires multiset(s) == multiset(t)
    ensures Sort(s) == Sort(t)
  {
    SortSorts(s);
    SortSorts(t);
    SortedUnique(Sort(s), Sort(t));
  }

  // The elements of a set, in some order.
  ghost function SetToSeq(s: set<string>): (r: seq<string>)
    ensures multiset(r) == multiset(s)
  {
    if s == {} then []
    else
      var x :| x in s;
      [x] + SetToSeq(s - {x})
  }
}
