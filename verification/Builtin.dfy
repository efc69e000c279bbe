// dynamic/builtin.go: the built-in driver records brought in line with docker-machine's core drivers.
module Builtin {
  import opened GoStrings

  datatype Driver = Driver(name: string, builtin: bool, state: string, defaultActive: bool, removed: bool)

  const IGNORED_DRIVERS := {"none", "virtualbox", "vmwarefusion", "hyperv"}

  // A record that has not been removed, of the built-in driver of that name.
  predicate IsCopy(d: Driver, name: string) {
    d.builtin && !d.removed && d.name == name
  }

  function Copies(records: seq<Driver>, name: string): nat {
    if records == [] then 0
    else
      var n := |records| - 1;
      Copies(records[..n], name) + (if IsCopy(records[n], name) then 1 else 0)
  }

  function LastCopy(records: seq<Driver>, name: string): Option<nat> {
    if records == [] then None
    else
      var n := |records| - 1;
      if IsCopy(records[n], name) then Some(n) else LastCopy(records[..n], name)
  }

  lemma {:induction false} LastCopyFacts(records: seq<Driver>, name: string)
    ensures LastCopy(records, name).Some? <==> Copies(records, name) > 0
    ensures LastCopy(records, name).Some? ==>
              LastCopy(records, name).value < |records| && IsCopy(records[LastCopy(records, name).value], name)
  {
    if records != [] {
      LastCopyFacts(records[..|records| - 1], name);
    }
  }

  // ---------- one run ----------

  // The core names that get a new record, in order. One that comes a second time always does: the
  // first time took it out of the installed ones.
  function Missing(records: seq<Driver>, core: seq<string>, ignored: set<string>): seq<string> {
    if core == [] then []
    else
      var n := |core| - 1;
      Missing(records, core[..n], ignored) +
        (if core[n] !in ignored && (LastCopy(records, core[n]).None? || core[n] in core[..n]) then [core[n]] else [])
  }

  // The record of a stale name that is deleted: the last one listed.
  predicate Victim(records: seq<Driver>, i: nat, core: seq<string>)
    requires i < |records|
  {
    records[i].name !in core && LastCopy(records, records[i].name) == Some(i)
  }

  predicate Dormant(d: Driver) {
    !d.removed && d.state == "inactive" && d.defaultActive
  }

  function Activate(d: Driver): Driver {
    if Dormant(d) then d.(state := "activating") else d
  }

  function Created(name: string): Driver {
    Driver(name, true, "requested", false, false)
  }

  function CreatedAll(missing: seq<string>): seq<Driver> {
    seq(|missing|, i requires 0 <= i < |missing| => Created(missing[i]))
  }

  // What a run makes of the records.
  function Synced(records: seq<Driver>, core: seq<string>, ignored: set<string>): (r: seq<Driver>)
    ensures |r| == |records| + |Missing(records, core, ignored)|
  {
    var missing := Missing(records, core, ignored);
    seq(|records|, i requires 0 <= i < |records| =>
        var d := Activate(records[i]); if Victim(records, i, core) then d.(removed := true) else d)
    + CreatedAll(missing)
  }

  lemma {:induction false} ActivationKeepsCopies(a: seq<Driver>, b: seq<Driver>, name: string)
    requires |a| == |b| && forall i :: 0 <= i < |a| ==> (IsCopy(a[i], name) <==> IsCopy(b[i], name))
    ensures LastCopy(a, name) == LastCopy(b, name)
    ensures Copies(a, name) == Copies(b, name)
  {
    if a != [] {
      var n := |a| - 1;
      ActivationKeepsCopies(a[..n], b[..n], name);
    }
  }

  class Api {
    var records: seq<Driver>

    constructor (records: seq<Driver>)
      ensures this.records == records
    {
      this.records := records;
    }

    // The first loop: the listed built-in drivers by name, and the activations.
    method CollectInstalled() returns (installed: map<string, nat>)
      modifies this
      ensures |records| == |old(records)|
      ensures forall i :: 0 <= i < |records| ==> records[i] == Activate(old(records)[i])
      ensures forall n :: n in installed <==> LastCopy(old(records), n).Some?
      ensures forall n :: n in installed ==> LastCopy(old(records), n) == Some(installed[n])
    {
      ghost var was := records;
      installed := map[];
      for i := 0 to |records|
        invariant |records| == |was|
        invariant forall k :: 0 <= k < |was| ==> records[k] == if k < i then Activate(was[k]) else was[k]
        invariant forall n :: n in installed <==> LastCopy(was[..i], n).Some?
        invariant forall n :: n in installed ==> LastCopy(was[..i], n) == Some(installed[n])
      {
        assert was[..i + 1][..i] == was[..i];
        var driver := records[i];
        if !driver.removed {
          if driver.builtin {
            installed := installed[driver.name := i];
          }
          if driver.state == "inactive" && driver.defaultActive {
            records := records[i := driver.(state := "activating")];
          }
        }
      }
      assert was[..|was|] == was;
    }

    // The second loop: missing core drivers are created, and all core drivers are settled.
    method InstallMissing(installed: map<string, nat>, core: seq<string>, ignored: set<string>,
        ghost listed: seq<Driver>)
      returns (stale: map<string, nat>)
      requires forall n :: n in installed <==> LastCopy(listed, n).Some?
      modifies this
      ensures records == old(records) + CreatedAll(Missing(listed, core, ignored))
      ensures forall n :: n in stale <==> n in installed && n !in core
      ensures forall n :: n in stale ==> stale[n] == installed[n]
    {
      stale := installed;
      ghost var created: seq<string> := [];
      for j := 0 to |core|
        invariant created == Missing(listed, core[..j], ignored)
        invariant records == old(records) + CreatedAll(created)
        invariant forall n :: n in stale <==> n in installed && n !in core[..j]
        invariant forall n :: n in stale ==> stale[n] == installed[n]
      {
        assert core[..j + 1][..j] == core[..j];
        if core[j] !in stale && core[j] !in ignored {
          records := records + [Created(core[j])];
          created := created + [core[j]];
        }
        stale := stale - {core[j]};
      }
      assert core[..|core|] == core;
    }

    // The third loop, in any order.
    method DeleteStale(stale: map<string, nat>)
      requires forall n :: n in stale ==> stale[n] < |records|
      modifies this
      ensures |records| == |old(records)|
      ensures forall i :: 0 <= i < |records| ==>
                records[i] == if i in stale.Values then old(records)[i].(removed := true) else old(records)[i]
    {
      ghost var was := records;
      var rest := stale;
      ghost var gone: set<nat> := {};
      while rest.Keys != {}
        invariant forall n :: n in rest ==> n in stale && rest[n] == stale[n]
        invariant gone + rest.Values == stale.Values
        invariant |records| == |was|
        invariant forall i :: 0 <= i < |was| ==> records[i] == if i in gone then was[i].(removed := true) else was[i]
        decreases |rest|
      {
        var name :| name in rest;
        var i := rest[name];
        records := records[i := records[i].(removed := true)];
        gone := gone + {i};
        TakeOut(rest, name);
        rest := rest - {name};
      }
      assert rest == map[];
    }

    method SyncBuiltin(core: seq<string>)
      modifies this
      ensures records == Synced(old(records), core, IGNORED_DRIVERS)
      ensures |records| >= |old(records)|
      ensures forall i :: |old(records)| <= i < |records| ==>
                records[i].name !in {"none", "virtualbox", "vmwarefusion", "hyperv"} &&
                    records[i].name in core && records[i].builtin
      ensures forall n :: n in core && n !in {"none", "virtualbox", "vmwarefusion", "hyperv"} ==>
                exists i :: 0 <= i < |records| && records[i].builtin && !records[i].removed && records[i].name == n
    {
      ghost var was := records;
      var installed := CollectInstalled();
      var stale := InstallMissing(installed, core, IGNORED_DRIVERS, was);
      SyncedHasCore(was, core, IGNORED_DRIVERS);
      StaleInRange(was, stale);
      DeleteStale(stale);
      forall i | 0 <= i < |records| ensures records[i] == Synced(was, core, IGNORED_DRIVERS)[i] {
        if i < |was| {
          StaleIsVictim(was, core, stale, i);
        }
      }
    }
  }

  lemma TakeOut(m: map<string, nat>, k: string)
    requires k in m
    ensures m.Values == (m - {k}).Values + {m[k]}
    ensures |m - {k}| < |m|
  {
    var r := m - {k};
    forall v | v in m.Values ensures v in r.Values + {m[k]} {
      var n :| n in m && m[n] == v;
      if n != k { assert n in r; }
    }
    assert r.Keys == m.Keys - {k};
    assert |r| == |r.Keys| && |m| == |m.Keys|;
  }

  lemma {:induction false} StaleInRange(was: seq<Driver>, stale: map<string, nat>)
    requires forall n :: n in stale ==> LastCopy(was, n) == Some(stale[n])
    ensures forall n :: n in stale ==> stale[n] < |was|
    ensures forall v :: v in stale.Values ==> v < |was|
  {
    forall n | n in stale ensures stale[n] < |was| {
      LastCopyFacts(was, n);
    }
  }

  lemma {:induction false} StaleIsVictim(was: seq<Driver>, core: seq<string>, stale: map<string, nat>, i: nat)
    requires i < |was|
    requires forall n :: n in stale <==> LastCopy(was, n).Some? && n !in core
    requires forall n :: n in stale ==> LastCopy(was, n) == Some(stale[n])
    ensures i in stale.Values <==> Victim(was, i, core)
  {
    if i in stale.Values {
      var n :| n in stale && stale[n] == i;
      LastCopyFacts(was, n);
    }
    if Victim(was, i, core) {
      assert was[i].name in stale && stale[was[i].name] == i;
    }
  }

  // ---------- what one run does to each name ----------

  lemma {:induction false} CopiesAppend(a: seq<Driver>, b: seq<Driver>, name: string)
    ensures Copies(a + b, name) == Copies(a, name) + Copies(b, name)
  {
    if b == [] {
      assert a + b == a;
    } else {
      var n := |b| - 1;
      CopiesAppend(a, b[..n], name);
      assert (a + b)[..|a + b| - 1] == a + b[..n];
    }
  }

  // Taking away the last copy leaves one less.
  lemma {:induction false} LastTaken(a: seq<Driver>, b: seq<Driver>, name: string)
    requires |a| == |b|
    requires forall i :: 0 <= i < |a| ==> (IsCopy(b[i], name) <==> IsCopy(a[i], name) && LastCopy(a, name) != Some(i))
    ensures Copies(b, name) == if Copies(a, name) > 0 then Copies(a, name) - 1 else 0
  {
    if a != [] {
      var n := |a| - 1;
      if IsCopy(a[n], name) {
        ActivationKeepsCopies(a[..n], b[..n], name);
      } else {
        LastTaken(a[..n], b[..n], name);
      }
    }
  }

  // Only ignored names stand more than once in the core list.
  predicate RepeatsIgnored(core: seq<string>, ignored: set<string>) {
    forall i, j :: 0 <= i < j < |core| && core[i] == core[j] ==> core[i] in ignored
  }

  lemma {:induction false} MissingCopies(records: seq<Driver>, core: seq<string>, ignored: set<string>, name: string)
    requires RepeatsIgnored(core, ignored)
    ensures Copies(CreatedAll(Missing(records, core, ignored)), name) ==
              if name in core && name !in ignored && Copies(records, name) == 0 then 1 else 0
  {
    if core != [] {
      var n := |core| - 1;
      var before := Missing(records, core[..n], ignored);
      MissingCopies(records, core[..n], ignored, name);
      LastCopyFacts(records, core[n]);
      assert core[n] !in core[..n] || core[n] in ignored;
      assert name in core <==> name in core[..n] || name == core[n];
      if core[n] in ignored || Copies(records, core[n]) > 0 {
        assert Missing(records, core, ignored) == before;
      } else {
        assert CreatedAll(before + [core[n]]) == CreatedAll(before) + [Created(core[n])];
        CopiesAppend(CreatedAll(before), [Created(core[n])], name);
        OneCopy(Created(core[n]), name);
      }
    }
  }

  lemma {:induction false} OneCopy(d: Driver, name: string)
    ensures Copies([d], name) == if IsCopy(d, name) then 1 else 0
  {
    assert [d][..0] == [];
  }

  // One run gives every core name outside the ignored ones a built-in record, takes exactly one
  // record from every stale name, and leaves the other counts alone.
  lemma {:induction false} OneRun(records: seq<Driver>, core: seq<string>, ignored: set<string>, name: string)
    requires RepeatsIgnored(core, ignored)
    ensures var before, after := Copies(records, name), Copies(Synced(records, core, ignored), name);
            after == if name in core then (if before == 0 && name !in ignored then 1 else before)
                     else if before > 0 then before - 1 else 0
  {
    var missing := Missing(records, core, ignored);
    var kept := Synced(records, core, ignored)[..|records|];
    assert Synced(records, core, ignored) == kept + CreatedAll(missing);
    CopiesAppend(kept, CreatedAll(missing), name);
    MissingCopies(records, core, ignored, name);
    if name in core {
      ActivationKeepsCopies(records, kept, name);
    } else {
      LastTaken(records, kept, name);
    }
  }

  // No run creates a record that is not built in, or removes one.
  lemma OthersStay(records: seq<Driver>, core: seq<string>, ignored: set<string>, i: nat)
    requires i < |Synced(records, core, ignored)|
    ensures var r := Synced(records, core, ignored);
            if i >= |records| then r[i].builtin && !r[i].removed && r[i].name in core && r[i].name !in ignored
            else
              && (r[i] != records[i] ==> !records[i].removed)
              && r[i].name == records[i].name && r[i].builtin == records[i].builtin
              && r[i].defaultActive == records[i].defaultActive
              && r[i].state == (if !records[i].removed && records[i].state == "inactive" && records[i].defaultActive
                                then "activating" else records[i].state)
              && (r[i].removed != records[i].removed ==> records[i].builtin && records[i].name !in core)
  {
    if i < |records| {
      LastCopyFacts(records, records[i].name);
    } else {
      MissingFromCore(records, core, ignored, i - |records|);
    }
  }

  lemma {:induction false} MissingFromCore(records: seq<Driver>, core: seq<string>, ignored: set<string>, i: nat)
    requires i < |Missing(records, core, ignored)|
    ensures Missing(records, core, ignored)[i] in core && Missing(records, core, ignored)[i] !in ignored
  {
    var n := |core| - 1;
    if i < |Missing(records, core[..n], ignored)| {
      MissingFromCore(records, core[..n], ignored, i);
    }
  }

  lemma {:induction false} CopyThere(records: seq<Driver>, name: string)
    ensures Copies(records, name) > 0 <==> exists i :: 0 <= i < |records| && IsCopy(records[i], name)
  {
    if records != [] {
      var n := |records| - 1;
      CopyThere(records[..n], name);
      if i :| 0 <= i < |records| && IsCopy(records[i], name) {
        assert i < n ==> records[..n][i] == records[i];
      }
      if i :| 0 <= i < n && IsCopy(records[..n][i], name) {
        assert records[i] == records[..n][i];
      }
    }
  }

  lemma {:induction false} MissingHas(records: seq<Driver>, core: seq<string>, ignored: set<string>, name: string)
    requires name in core && name !in ignored && LastCopy(records, name).None?
    ensures name in Missing(records, core, ignored)
  {
    var n := |core| - 1;
    assert core == core[..n] + [core[n]];
    if name != core[n] {
      MissingHas(records, core[..n], ignored, name);
    }
  }

  // After a run every core name that is not ignored has a live built-in record, and only such
  // names have new ones.
  lemma SyncedHasCore(records: seq<Driver>, core: seq<string>, ignored: set<string>)
    ensures var r := Synced(records, core, ignored);
            && (forall i :: |records| <= i < |r| ==> r[i].name !in ignored && r[i].name in core && r[i].builtin)
            && (forall n :: n in core && n !in ignored ==> exists i :: 0 <= i < |r| && IsCopy(r[i], n))
  {
    var r := Synced(records, core, ignored);
    forall i | |records| <= i < |r| ensures r[i].name !in ignored && r[i].name in core && r[i].builtin {
      OthersStay(records, core, ignored, i);
    }
    forall n | n in core && n !in ignored ensures exists i :: 0 <= i < |r| && IsCopy(r[i], n) {
      LastCopyFacts(records, n);
      if LastCopy(records, n).Some? {
        var i := LastCopy(records, n).value;
        assert IsCopy(r[i], n);
      } else {
        MissingHas(records, core, ignored, n);
        var j :| 0 <= j < |Missing(records, core, ignored)| && Missing(records, core, ignored)[j] == n;
        assert IsCopy(r[|records| + j], n);
      }
    }
  }

  // ---------- repeated runs ----------

  function SyncedTimes(records: seq<Driver>, core: seq<string>, ignored: set<string>, k: nat): seq<Driver> {
    if k == 0 then records else Synced(SyncedTimes(records, core, ignored, k - 1), core, ignored)
  }

  lemma {:induction false} CopiesAfter(records: seq<Driver>, core: seq<string>, ignored: set<string>, k: nat,
      name: string)
    requires RepeatsIgnored(core, ignored)
    ensures var before, after := Copies(records, name), Copies(SyncedTimes(records, core, ignored, k), name);
            after == if name in core then (if before == 0 && name !in ignored && k > 0 then 1 else before)
                     else if before > k then before - k else 0
  {
    if k > 0 {
      CopiesAfter(records, core, ignored, k - 1, name);
      OneRun(SyncedTimes(records, core, ignored, k - 1), core, ignored, name);
    }
  }

  // The next run neither creates nor deletes.
  ghost predicate Quiet(records: seq<Driver>, core: seq<string>, ignored: set<string>) {
    Missing(records, core, ignored) == [] && forall i :: 0 <= i < |records| ==> !Victim(records, i, core)
  }

  lemma {:induction false} NothingMissing(records: seq<Driver>, core: seq<string>, ignored: set<string>)
    requires RepeatsIgnored(core, ignored)
    ensures Missing(records, core, ignored) == [] <==> forall n :: n in core && n !in ignored ==> Copies(records, n) > 0
  {
    if core != [] {
      var n := |core| - 1;
      NothingMissing(records, core[..n], ignored);
      LastCopyFacts(records, core[n]);
      assert core[n] !in core[..n] || core[n] in ignored;
      assert forall x :: x in core <==> x in core[..n] || x == core[n];
    }
  }

  lemma {:induction false} NothingStale(records: seq<Driver>, core: seq<string>)
    ensures (forall i :: 0 <= i < |records| ==> !Victim(records, i, core)) <==> forall n :: n !in core ==>
        Copies(records, n) == 0
  {
    forall n | n !in core && Copies(records, n) > 0 ensures exists i :: 0 <= i < |records| && Victim(records, i, core) {
      LastCopyFacts(records, n);
      assert Victim(records, LastCopy(records, n).value, core);
    }
    if forall n :: n !in core ==> Copies(records, n) == 0 {
      forall i | 0 <= i < |records| ensures !Victim(records, i, core) {
        LastCopyFacts(records, records[i].name);
      }
    }
  }

  // After k runs there is nothing left to do exactly if no stale name had more than k records,
  // and at least one run was made unless nothing was missing to begin with.
  lemma {:induction false} Converges(records: seq<Driver>, core: seq<string>, ignored: set<string>, k: nat)
    requires RepeatsIgnored(core, ignored)
    ensures Quiet(SyncedTimes(records, core, ignored, k), core, ignored) <==>
              (forall n :: n !in core ==> Copies(records, n) <= k) && (k > 0 || Missing(records, core, ignored) == [])
  {
    var after := SyncedTimes(records, core, ignored, k);
    NothingMissing(after, core, ignored);
    NothingMissing(records, core, ignored);
    NothingStale(after, core);
    forall n ensures Copies(after, n) == if n in core then
        (if Copies(records, n) == 0 && n !in ignored && k > 0 then 1 else Copies(records, n))
                                         else if Copies(records, n) > k then Copies(records, n) - k else 0 {
      CopiesAfter(records, core, ignored, k, n);
    }
  }

  // A core name listed twice and not ignored always leaves something to do.
  lemma DuplicateNeverQuiet(records: seq<Driver>, core: seq<string>, ignored: set<string>, j: nat)
    requires j < |core| && core[j] in core[..j] && core[j] !in ignored
    ensures !Quiet(records, core, ignored)
  {
    AlwaysMissing(records, core, ignored, j);
  }

  // From any records, some number of runs comes to rest exactly if every name listed twice is
  // ignored.
  lemma ComesToRest(records: seq<Driver>, core: seq<string>, ignored: set<string>)
    ensures (exists k :: Quiet(SyncedTimes(records, core, ignored, k), core, ignored)) <==>
        RepeatsIgnored(core, ignored)
  {
    if RepeatsIgnored(core, ignored) {
      var k := |records| + 1;
      forall n ensures Copies(records, n) <= k {
        CopiesAtMost(records, n);
      }
      Converges(records, core, ignored, k);
    } else {
      var i, j :| 0 <= i < j < |core| && core[i] == core[j] && core[i] !in ignored;
      assert core[..j][i] == core[j];
      forall k ensures !Quiet(SyncedTimes(records, core, ignored, k), core, ignored) {
        DuplicateNeverQuiet(SyncedTimes(records, core, ignored, k), core, ignored, j);
      }
    }
  }

  lemma {:induction false} CopiesAtMost(records: seq<Driver>, name: string)
    ensures Copies(records, name) <= |records|
  {
    if records != [] {
      CopiesAtMost(records[..|records| - 1], name);
    }
  }

  lemma {:induction false} AlwaysMissing(records: seq<Driver>, core: seq<string>, ignored: set<string>, j: nat)
    requires j < |core| && core[j] in core[..j] && core[j] !in ignored
    ensures Missing(records, core, ignored) != []
  {
    var n := |core| - 1;
    if j < n {
      assert core[..n][..j] == core[..j];
      AlwaysMissing(records, core[..n], ignored, j);
    }
  }
}
