// handlers/machine_driver.go: activating a driver and removing it again.
module Activation {
  import opened GoStrings
  import opened DriverCache
  import opened CacheSafety
  import opened CacheSteps

  function Friendly(name: string): string {
    TrimPrefix(name, PREFIX)
  }

  // What activate does once the driver is staged. active holds the names of the active drivers,
  // unless they cannot be listed.
  function AfterStaging(env: Env, d: Driver, files: Files, active: Option<seq<string>>, o: Opening): (seq<Op>, bool) {
    if active.None? || Friendly(d.name) in active.value then ([], false)
    else InstallEffect(env, d, files, o)
  }

  // What activate does to the disk, and whether it gets to the driver's schema.
  function Activated(env: Env, d: Driver, files: Files, call: Call, active: Option<seq<string>>,
      o: Opening): (seq<Op>, bool) {
    var s := StageEffect(env, d, files, call);
    if s.result.Err? then (s.ops, false)
    else
      var i := AfterStaging(env, d.(name := s.result.name), Apply(files, s.ops), active, o);
      (s.ops + i.0, i.1)
  }

  method InstallStaged(driver: DriverObject, active: Option<seq<string>>, o: Opening) returns (ok: bool)
    modifies driver.store
    ensures var r := AfterStaging(driver.env, driver.This(), old(driver.store.files), active, o);
            ok == r.1 && driver.Did(r.0)
  {
    if active.None? || driver.FriendlyName() in active.value {
      return false;
    }
    ok := driver.Install(o);
  }

  method Activate(driver: DriverObject, call: Call, active: Option<seq<string>>, o: Opening) returns (ok: bool)
    modifies driver`name, driver.store
    ensures ok == Activated(driver.env, old(driver.This()), old(driver.store.files), call, active, o).1
    ensures driver.Did(Activated(driver.env, old(driver.This()), old(driver.store.files), call, active, o).0)
  {
    ghost var start, log := driver.store.files, driver.store.ops;
    ghost var s := StageEffect(driver.env, driver.This(), start, call);
    var staged := driver.Stage(call);
    if staged.Err? {
      return false;
    }
    ghost var mid, log1 := driver.store.files, driver.store.ops;
    ok := InstallStaged(driver, active, o);
    BothDone(start, s.ops, mid, AfterStaging(driver.env, driver.This(), mid, active, o).0, driver.store.files, log,
        log1, driver.store.ops);
  }

  // The removal of a driver's files, unless it has a checksum and is only deactivated.
  method RemoveDriver(driver: DriverObject, delete: bool)
    modifies driver.store
    ensures driver.Did(if driver.hash == "" || delete
                       then RemoveOps(old(driver.store.files), Key(driver.env, driver.This())) else [])
  {
    if driver.hash == "" || delete {
      driver.Remove();
    }
  }

  lemma {:induction false} InstallResult(env: Env, d: Driver, files: Files, o: Opening)
    requires !d.builtin && InstallEffect(env, d, files, o).1
    ensures var g := Apply(files, InstallEffect(env, d, files, o).0);
            var src := StagedFile(Key(env, d), d.name);
            && src in files && File(Bin, d.name) in g && g[File(Bin, d.name)] == files[src]
            && forall f: File :: f.dir == Cache ==> SameFile(files, g, f)
  {
    var ops := InstallEffect(env, d, files, o).0;
    assert ops[..|ops|] == ops;
    NotTemporary(d.name);
    InstallAtomic(env, d, files, o, |ops|, File(Bin, d.name));
    forall f: File | f.dir == Cache ensures SameFile(files, Apply(files, ops), f) {
      InstallAtomic(env, d, files, o, |ops|, f);
    }
  }

  // After an activation the cache is safe, and if the marker found before had no blanks around
  // its name, the installed binary is what the marker names: the complete binary of a download
  // that was accepted, just now for the driver itself if nothing was installed before. It keeps
  // the marker's name exactly in that case.
  lemma {:induction false} ActivatedIsGenuine(env: Env, got: set<Delivery>, d: Driver, files: Files, call: Call,
      active: Option<seq<string>>, o: Opening)
    requires ValidEnv(env) && Safe(env, got, files) && !d.builtin
    requires Activated(env, d, files, call, active, o).1
    ensures var name := StageEffect(env, d, files, call).result.name;
            var g := Apply(files, Activated(env, d, files, call, active, o).0);
            var k, all := Key(env, d), got + FetchedBy(env, d, files, call);
            && Safe(env, all, g)
            && active.Some? && Friendly(name) !in active.value
            && Marker(k) in g
            && (name == g[Marker(k)] <==>
                  Installed(files, k) == "" || TrimSpace(files[Marker(k)]) == files[Marker(k)])
            && (name == g[Marker(k)] ==>
                  File(Bin, name) in g && Genuine(env, all, d.url + d.hash, name, g[File(Bin, name)]))
            && (Installed(files, k) == "" ==>
                  Delivers(env, d.url + d.hash, Delivery(d.url, d.hash, call.download.content), name,
                           g[File(Bin, name)]))
  {
    var s := StageEffect(env, d, files, call);
    var mid := Apply(files, s.ops);
    var k, all := Key(env, d), got + FetchedBy(env, d, files, call);
    var e := d.(name := s.result.name);
    var i := InstallEffect(env, e, mid, o);
    ApplySplit(files, s.ops, i.0);
    MoreSafe(env, got, FetchedBy(env, d, files, call), files);
    StageThroughout(env, all, d, files, call);
    ThroughoutEnd(env, all, files, s.ops);
    InstallThroughout(env, all, e, mid, o);
    ThroughoutEnd(env, all, mid, i.0);
    StageSucceeds(env, all, d, files, call);
    InstallResult(env, e, mid, o);
    assert SameFile(mid, Apply(mid, i.0), Marker(k));
  }

  // If no download so far was made for the same url + hash and a hash of another length, the
  // installed binary has the driver's own digest.
  lemma ActivatedHasDigest(env: Env, got: set<Delivery>, d: Driver, files: Files, call: Call,
      active: Option<seq<string>>, o: Opening) returns (content: string)
    requires ValidEnv(env) && Safe(env, got, files) && !d.builtin
    requires Activated(env, d, files, call, active, o).1
    requires var k := Key(env, d);
             Installed(files, k) == "" || TrimSpace(files[Marker(k)]) == files[Marker(k)]
    requires forall x :: x in got && x.url + x.hash == d.url + d.hash ==> |x.hash| == |d.hash|
    ensures var name := StageEffect(env, d, files, call).result.name;
            var g := Apply(files, Activated(env, d, files, call, active, o).0);
            && File(Bin, name) in g
            && Accepts(env, d.hash, content)
            && Unpack(env, d.url, content) == Unpacked(name, g[File(Bin, name)])
  {
    ActivatedIsGenuine(env, got, d, files, call, active, o);
    var name := StageEffect(env, d, files, call).result.name;
    var g := Apply(files, Activated(env, d, files, call, active, o).0);
    var s, all := d.url + d.hash, got + FetchedBy(env, d, files, call);
    var x :| x in all && Delivers(env, s, x, name, g[File(Bin, name)]);
    SameKey(d, x.url, x.hash);
    content := x.content;
  }

  // Removing it right away takes its binary, its staged copy and its marker, and nothing else of
  // the cache.
  lemma {:induction false} ActivateThenRemove(env: Env, got: set<Delivery>, d: Driver, files: Files, call: Call,
      active: Option<seq<string>>, o: Opening)
    requires ValidEnv(env) && Safe(env, got, files) && !d.builtin
    requires Activated(env, d, files, call, active, o).1
    ensures var k := Key(env, d);
            var g := Apply(files, Activated(env, d, files, call, active, o).0);
            var h := Apply(g, RemoveOps(g, k));
            && Marker(k) in g
            && File(Bin, g[Marker(k)]) !in h && StagedFile(k, g[Marker(k)]) !in h && Marker(k) !in h
            && (forall f :: f != File(Bin, g[Marker(k)]) && f != StagedFile(k, g[Marker(k)]) && f != Marker(k) ==>
                  SameFile(g, h, f))
            && Safe(env, got + FetchedBy(env, d, files, call), h)
  {
    var k := Key(env, d);
    var g := Apply(files, Activated(env, d, files, call, active, o).0);
    ActivatedIsGenuine(env, got, d, files, call, active, o);
    RemoveState(g, k, 3);
    var ops := RemoveOps(g, k);
    assert ops[..3] == ops;
    MarkerApart(k, g[Marker(k)]);
    RemovedSafe(env, got + FetchedBy(env, d, files, call), g, d.url + d.hash);
  }
}
