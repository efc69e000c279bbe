// What a loop that keeps some elements of a list, in order, leaves of it.
module Selections {

  // kept holds the elements at the places ks: all those, and only those, that keep accepts.
  ghost predicate Places<T(!new)>(ks: seq<nat>, all: seq<T>, keep: T -> bool, kept: seq<T>) {
    && |ks| == |kept|
    && (forall j, l :: 0 <= j < l < |ks| ==> ks[j] < ks[l])
    && (forall j :: 0 <= j < |ks| ==> ks[j] < |all| && keep(all[ks[j]]) && kept[j] == all[ks[j]])
    && (forall i :: 0 <= i < |all| && keep(all[i]) ==> i in ks)
  }

  ghost predicate Selected<T(!new)>(all: seq<T>, keep: T -> bool, kept: seq<T>) {
    exists ks :: Places(ks, all, keep, kept)
  }

  lemma SelectedOne<T(!new)>(x: T, keep: T -> bool)
    ensures Selected([x], keep, if keep(x) then [x] else [])
  {
    assert Places(if keep(x) then [0] else [], [x], keep, if keep(x) then [x] else []);
  }

  lemma SelectedNone<T(!new)>(keep: T -> bool)
    ensures Selected([], keep, [])
  {
    assert Places([], [], keep, []);
  }

  lemma PlacesAppend<T(!new)>(ks: seq<nat>, a: seq<T>, ka: seq<T>, ls: seq<nat>, b: seq<T>, kb: seq<T>, keep: T -> bool)
    requires Places(ks, a, keep, ka) && Places(ls, b, keep, kb)
    ensures Selected(a + b, keep, ka + kb)
  {
    var moved := seq(|ls|, j requires 0 <= j < |ls| => |a| + ls[j]);
    var all, ms := a + b, ks + moved;
    forall i | 0 <= i < |all| && keep(all[i]) ensures i in ms {
      if i < |a| {
        assert all[i] == a[i] && i in ks;
      } else {
        assert all[i] == b[i - |a|] && i - |a| in ls;
        var j :| 0 <= j < |ls| && ls[j] == i - |a|;
        assert moved[j] == i && moved[j] in moved;
      }
    }
    InPlace(ks, a, ka, ls, b, kb, keep, moved);
    assert Places(ms, all, keep, ka + kb);
  }

  lemma InPlace<T(!new)>(ks: seq<nat>, a: seq<T>, ka: seq<T>, ls: seq<nat>, b: seq<T>, kb: seq<T>, keep: T -> bool,
      moved: seq<nat>)
    requires Places(ks, a, keep, ka) && Places(ls, b, keep, kb)
    requires |moved| == |ls| && forall j :: 0 <= j < |ls| ==> moved[j] == |a| + ls[j]
    ensures var all, ms := a + b, ks + moved;
            && (forall j, l :: 0 <= j < l < |ms| ==> ms[j] < ms[l])
            && (forall j :: 0 <= j < |ms| ==> ms[j] < |all| && keep(all[ms[j]]) && (ka + kb)[j] == all[ms[j]])
  {
  }

  lemma SelectedAppend<T(!new)>(a: seq<T>, ka: seq<T>, b: seq<T>, kb: seq<T>, keep: T -> bool)
    requires Selected(a, keep, ka) && Selected(b, keep, kb)
    ensures Selected(a + b, keep, ka + kb)
  {
    var ks :| Places(ks, a, keep, ka);
    var ls :| Places(ls, b, keep, kb);
    PlacesAppend(ks, a, ka, ls, b, kb, keep);
  }

  // One more element.
  lemma SelectedSnoc<T(!new)>(all: seq<T>, n: nat, keep: T -> bool, kept: seq<T>)
    requires n < |all| && Selected(all[..n], keep, kept)
    ensures Selected(all[..n + 1], keep, kept + (if keep(all[n]) then [all[n]] else []))
  {
    SelectedOne(all[n], keep);
    SelectedAppend(all[..n], kept, [all[n]], if keep(all[n]) then [all[n]] else [], keep);
    assert all[..n] + [all[n]] == all[..n + 1];
  }
}
