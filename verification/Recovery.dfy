// A machine whose creation was recorded in the API can be found again, and deleted.
module Recovery {
  import opened GoStrings
  import opened Paths
  import opened FileSystems
  import opened Archive
  import opened RoundTrip
  import opened Lifecycle
  import opened Runs

  // ---------- what is archived ----------

  // The tree that docker-machine left, with the created stamp if it could be written.
  function StampedTree(h: Host, tree: Fs): Fs {
    match WriteFile(tree, ["machines", h.hostname, "created"], Text(""))
    case None => tree
    case Some(g) => g
  }

  // The same with the archive that is being written.
  function SavedTree(h: Host, tree: Fs): Fs {
    StampedTree(h, tree)[[h.hostname + ".tar.gz"] := File(Text(""))]
  }

  // docker-machine create worked, the archive could be written and read, and an update of the
  // host's ExtractedConfig went through.
  ghost predicate MachineSaved(w: World, h: Host, e: CreateEvent) {
    && MachineCreated(w, h, e)
    && !IsDir(e.creation.command.tree, [h.hostname + ".tar.gz"])
    && e.creation.archiving.Archives?
    && Updated(e.creation.updates)
  }

  ghost predicate SameOutside(f: Fs, g: Fs, d: Path) {
    && (forall q :: !Within(d, q) ==> (q in f <==> q in g))
    && (forall q :: !Within(d, q) && q in f ==> f[q] == g[q])
  }

  lemma EmptiedSame(f: Fs, g: Fs, d: Path)
    requires SameOutside(f, g, d)
    ensures RemoveAll(f, d) == RemoveAll(g, d)
  {
  }

  lemma TouchOutside(w: World, h: Host)
    ensures SameOutside(Touch(w, h).w.fs, w.fs, HostDir(h))
  {
    assert Within(HostDir(h), CreatedStamp(h));
  }

  lemma StampedMounted(w: World, f: Fs, h: Host, tree: Fs)
    requires Mounted(w.fs, f, HostDir(h), tree)
    ensures Mounted(Touch(w, h).w.fs, f, HostDir(h), StampedTree(h, tree))
  {
    var p := ["machines", h.hostname, "created"];
    assert CreatedStamp(h) == HostDir(h) + p;
    MountedWriteFile(w.fs, f, HostDir(h), tree, p, Text(""));
  }

  lemma SavedRecord(h: Host, tree: Fs)
    ensures RecordIn(SavedTree(h, tree), h) == RecordIn(tree, h)
  {
    var p := ["machines", h.hostname, "config.json"];
    var s := ["machines", h.hostname, "created"];
    assert s[2] != p[2];
  }

  // The archive is made of the saved tree.
  lemma ExtractSaves(w: World, f: Fs, h: Host, tree: Fs, updates: nat -> bool)
    requires ValidHost(h) && Ready(w, h) && Mounted(w.fs, f, HostDir(h), tree)
    requires !IsDir(tree, [h.hostname + ".tar.gz"]) && Updated(updates)
    ensures var t := tree[[h.hostname + ".tar.gz"] := File(Text(""))];
            var r := Extract(w, h, Archives, updates);
            && WellFormed(t) && PlainNames(t)
            && r.ok && r.w.config == ArchiveConfig(h, t)
            && Ready(r.w, h) && SameOutside(r.w.fs, f, HostDir(h))
  {
    var d := HostDir(h);
    var name := [h.hostname + ".tar.gz"];
    var tar := TarPath(d, h.hostname);
    assert tar == d + name;
    HostPaths(h);
    PlainTarName(h.hostname);
    assert Parent(tar) == d;
    assert WriteFile(w.fs, tar, Text("")).Some?;
    WriteKeeps(w.fs, tar, Text(""));
    MountedUpdate(w.fs, f, d, tree, name, File(Text("")));
    var g := w.fs[tar := File(Text(""))];
    MountedSubtree(g, f, d, tree[name := File(Text(""))]);
    SubtreeWellFormed(g, d);
    ExtractKeeps(w, h, Archives, updates);
    assert Within(d, tar) && tar != d;
  }

  // docker-machine create and the stamp, on the mounted tree.
  lemma CommandSaves(u: World, h: Host, c: Command)
    requires ValidHost(h) && Ready(u, h) && Orderly(c.tree)
    ensures var v := Touch(AfterCommand(u, h, c), h).w;
            Ready(v, h) && Mounted(v.fs, u.fs, HostDir(h), StampedTree(h, c.tree))
  {
    CommandKeeps(u, h, c);
    PlantedMounted(u.fs, HostDir(h), c.tree);
    var w := AfterCommand(u, h, c);
    TouchKeeps(w, h);
    StampedMounted(w, u.fs, h, c.tree);
  }

  lemma StampedHasNoDir(h: Host, tree: Fs, p: Path)
    requires !IsDir(tree, p)
    ensures !IsDir(StampedTree(h, tree), p)
  {
  }

  // A create event that saves its machine.
  lemma TrySaves(u: World, h: Host, e: Creation)
    requires ValidHost(h) && Ready(u, h) && ValidCreation(e)
    requires CommandRuns(e) && Handle(u.fs, h, e.handling).Some? && e.command.ok
    requires !IsDir(e.command.tree, [h.hostname + ".tar.gz"]) && e.archiving.Archives? && Updated(e.updates)
    ensures var a := Try(u, h, e);
            var t := SavedTree(h, e.command.tree);
            && WellFormed(t) && PlainNames(t)
            && a.ok && a.machineCreated && a.w.config == ArchiveConfig(h, t)
            && Ready(a.w, h) && SameOutside(a.w.fs, u.fs, HostDir(h))
  {
    HandleKeeps(u, h, e.handling);
    var w := u.(fs := Handle(u.fs, h, e.handling).value);
    HandleOutside(u.fs, h, e.handling);
    CommandSaves(w, h, e.command);
    StampedHasNoDir(h, e.command.tree, [h.hostname + ".tar.gz"]);
    var v := Touch(AfterCommand(w, h, e.command), h).w;
    ExtractSaves(v, w.fs, h, StampedTree(h, e.command.tree), e.updates);
    TryTakes(u, h, e, w, v);
    OutsideTrans(Extract(v, h, Archives, e.updates).w.fs, w.fs, u.fs, HostDir(h));
  }

  lemma TryTakes(u: World, h: Host, e: Creation, w: World, v: World)
    requires CommandRuns(e) && Handle(u.fs, h, e.handling).Some? && e.command.ok
    requires w == u.(fs := Handle(u.fs, h, e.handling).value)
    requires v == Touch(AfterCommand(w, h, e.command), h).w
    ensures var r := Extract(v, h, e.archiving, e.updates);
            Try(u, h, e) == Attempt(r.w, true, r.ok)
  {
  }

  lemma OutsideTrans(f: Fs, g: Fs, k: Fs, d: Path)
    requires SameOutside(f, g, d) && SameOutside(g, k, d)
    ensures SameOutside(f, k, d)
  {
  }

  lemma HandleOutside(fs: Fs, h: Host, handling: Handling)
    requires Handle(fs, h, handling).Some?
    ensures SameOutside(Handle(fs, h, handling).value, fs, HostDir(h))
  {
    if handling.Save? {
      assert Within(HostDir(h), HostDir(h) + [handling.name]);
    }
  }

  // ---------- after the machine was saved ----------

  // Between events: the host's record holds the archive of t, and its directory is gone, empty,
  // or as a failed restore left it.
  ghost predicate Settled(w: World, h: Host, t: Fs) {
    && Orderly(w.fs) && WellFormed(t) && PlainNames(t)
    && w.config == ArchiveConfig(h, t)
    && HostDir(h) != [] && IsDir(w.fs, Parent(HostDir(h)))
    && (HostDir(h) in w.fs ==> IsDir(w.fs, HostDir(h)) && PartlyRestored(Subtree(w.fs, HostDir(h)), t))
  }

  ghost predicate PartlyRestored(g: Fs, t: Fs)
    requires WellFormed(t)
  {
    g == EmptyDir() || g == Replay(EmptyDir(), t, KeptPaths(t)).fs
  }

  // With the parent of the host directory in place, the host directory can be made.
  lemma {:induction false} DirectoryMade(fs: Fs, d: Path)
    requires WellFormed(fs) && d != [] && d !in fs && IsDir(fs, Parent(d))
    ensures MkdirAll(fs, d) == Some(fs[d := Directory])
  {
    assert MkdirAll(fs, Parent(d)) == Some(fs);
  }

  lemma SettledFetch(w: World, h: Host, t: Fs, found: bool)
    requires ValidHost(h) && Settled(w, h, t)
    ensures Fetch(w, h, found).Some? <==> found
    ensures found ==>
              var v := Fetch(w, h, found).value;
              Settled(v, h, t) && Ready(v, h) && v == w.(fs := v.fs)
  {
    var d := HostDir(h);
    if d in w.fs {
      FetchAgain(w, h, found);
    } else if found {
      DirectoryMade(w.fs, d);
      FetchEmpties(w, h, found);
      assert Parent(d) != d;
    }
  }

  // Restoring succeeds exactly for a replayable tree.
  lemma {:induction false} SettledRestores(v: World, h: Host, t: Fs)
    requires ValidHost(h) && Settled(v, h, t) && Ready(v, h)
    ensures var r := RestoreResult(v.fs, v.config, Abs(HostDir(h)));
            var s := Replay(EmptyDir(), t, KeptPaths(t));
            && (r.ok <==> Replayable(t))
            && Subtree(r.fs, HostDir(h)) == s.fs
            && SameOutside(r.fs, v.fs, HostDir(h))
            && Ready(v.(fs := r.fs), h)
  {
    var d := HostDir(h);
    var g := Subtree(v.fs, d);
    HostPaths(h);
    KeptPathsFacts(t);
    EmptyTwice(t);
    ReplaySucceeds(t);
    RestoreResultIsReplay(v.fs, d, g, d, t);
    RestoreKeeps(v.fs, v.config, Abs(d));
    var r := RestoreResult(v.fs, v.config, Abs(d));
    var s := Replay(EmptyDir(), t, KeptPaths(t));
    assert Replay(g, t, KeptPaths(t)) == s;
    MountedSubtree(r.fs, v.fs, d, s.fs);
    MountedKeepsWellFormed(r.fs, v.fs, d, s.fs);
  }

  lemma SettledEmptied(v: World, x: World, h: Host, t: Fs)
    requires ValidHost(h) && Settled(v, h, t)
    requires SameOutside(x.fs, v.fs, HostDir(h)) && x.config == v.config
    ensures Settled(Emptied(x, h), h, t)
  {
    EmptiedSame(x.fs, v.fs, HostDir(h));
    AllGone(v, h);
    assert !Within(HostDir(h), Parent(HostDir(h)));
  }

  // What follows the restore, or createMachine, stays in the host directory.
  lemma ActivatedOutside(w: World, h: Host, e: CreateEvent)
    requires Provide(w, h, e).ok ==> IsDir(Provide(w, h, e).w.fs, HostDir(h))
    ensures var r, r0 := Activated(w, h, e), Provide(w, h, e);
            SameOutside(r.w.fs, r0.w.fs, HostDir(h)) && r.w.config == r0.w.config
  {
    var r0 := Provide(w, h, e);
    if r0.ok {
      FetchAgain(r0.w, h, e.agent.found);
      TouchOutside(Register(r0.w, h, e.agent).w, h);
    }
  }

  lemma SettledCreate(w: World, h: Host, t: Fs, e: CreateEvent)
    requires ValidHost(h) && Settled(w, h, t)
    ensures Settled(Create(w, h, e).w, h, t)
  {
    SettledFetch(w, h, t, e.found);
    if e.found {
      var v := Fetch(w, h, e.found).value;
      SettledRestores(v, h, t);
      ActivatedOutside(v, h, e);
      SettledEmptied(v, Activated(v, h, e).w, h, t);
    }
  }

  lemma MachineDirBelow(h: Host, q: Path)
    requires Within(MachineDir(h), q)
    ensures Within(HostDir(h), q)
  {
    assert q[..|HostDir(h)|] == MachineDir(h)[..|HostDir(h)|];
  }

  lemma RemoveOutside(w: World, h: Host, rm: Rm)
    ensures var x := Remove(w, h, rm).w;
            SameOutside(x.fs, w.fs, HostDir(h)) && x.config == w.config
  {
    forall q | Within(MachineDir(h), q) ensures Within(HostDir(h), q) {
      MachineDirBelow(h, q);
    }
  }

  lemma OnlyRemoves(u: World, h: Host, e: PurgeEvent)
    ensures var x := PurgeRestored(u, h, e).w;
            x.config == u.config && (x.fs == u.fs || x.fs == Remove(u, h, e.rm).w.fs)
  {
    var r := Remove(u, h, e.rm);
    assert r.w.config == u.config;
    assert Remember(r.w, e.later).fs == r.w.fs && Remember(u, e.later).fs == u.fs;
  }

  lemma RestoredOutside(u: World, h: Host, e: PurgeEvent)
    ensures var x := PurgeRestored(u, h, e).w;
            SameOutside(x.fs, u.fs, HostDir(h)) && x.config == u.config
  {
    RemoveOutside(u, h, e.rm);
    OnlyRemoves(u, h, e);
  }

  lemma SettledPurge(w: World, h: Host, t: Fs, e: PurgeEvent)
    requires ValidHost(h) && Settled(w, h, t)
    ensures Settled(Purge(w, h, e).w, h, t)
  {
    SettledFetch(w, h, t, e.found);
    if !CacheHit(w, e.now) && e.found {
      var v := Fetch(w, h, e.found).value;
      SettledRestores(v, h, t);
      var r := RestoreResult(v.fs, v.config, Abs(HostDir(h)));
      var u := v.(fs := r.fs);
      if r.ok {
        RestoredOutside(u, h, e);
        SettledEmptied(v, PurgeRestored(u, h, e).w, h, t);
      } else {
        assert !Within(HostDir(h), Parent(HostDir(h)));
      }
    }
  }

  lemma SettledStep(w: World, h: Host, t: Fs, e: Event)
    requires ValidHost(h) && Settled(w, h, t) && !e.ApiUpdate?
    ensures Settled(Step(w, h, e), h, t)
  {
    if e.CreateHost? {
      SettledCreate(w, h, t, e.create);
    } else {
      SettledPurge(w, h, t, e.purge);
    }
  }

  lemma {:induction false} RunStaysSettled(w: World, h: Host, t: Fs, events: seq<Event>)
    requires ValidHost(h) && Settled(w, h, t) && forall e :: e in events ==> !e.ApiUpdate?
    ensures Settled(Run(w, h, events), h, t)
  {
    if events != [] {
      var n := |events| - 1;
      RunStaysSettled(w, h, t, events[..n]);
      SettledStep(Run(w, h, events[..n]), h, t, events[n]);
    }
  }

  // ---------- the theorem ----------

  lemma SavingSettles(w: World, h: Host, e: CreateEvent)
    requires ValidHost(h) && Tidy(w, h) && ValidCreation(e.creation) && MachineSaved(w, h, e)
    ensures Settled(Create(w, h, e).w, h, SavedTree(h, e.creation.command.tree))
  {
    var t := SavedTree(h, e.creation.command.tree);
    FetchEmpties(w, h, e.found);
    var v := Fetch(w, h, e.found).value;
    FetchAgain(v, h, e.creation.found);
    TrySaves(v, h, e.creation);
    var r0 := Provide(v, h, e);
    assert r0.w == Try(v, h, e.creation).w && r0.ok;
    ActivatedOutside(v, h, e);
    var x := Activated(v, h, e).w;
    EmptiedSame(x.fs, v.fs, HostDir(h));
    AllGone(v, h);
    HostPaths(h);
    assert Above(Parent(HostDir(h)), HostDir(h));
    assert !Within(HostDir(h), Parent(HostDir(h)));
  }

  // What a purge that misses the cache does to a settled host.
  lemma PurgeDeletes(v: World, h: Host, t: Fs, p: PurgeEvent, id: nat)
    requires ValidHost(h) && Settled(v, h, t) && RecordIn(t, h) == Some(id)
    requires !CacheHit(v, p.now) && p.found && p.ls.LsOk? && p.rm.RmOk?
    ensures var r := Purge(v, h, p);
            && (Replayable(t) ==> r.w.log == v.log + [Deleted(id), Reply(p.reply)] && r.w.machines == v.machines - {id})
            && (!Replayable(t) ==> !r.ok && r.w.log == v.log && r.w.machines == v.machines)
  {
    SettledFetch(v, h, t, p.found);
    var v1 := Fetch(v, h, p.found).value;
    SettledRestores(v1, h, t);
    var r := RestoreResult(v1.fs, v1.config, Abs(HostDir(h)));
    var u := v1.(fs := r.fs);
    if Replayable(t) {
      ReplaySucceeds(t);
      ImageRecord(t, h);
      RecordedIn(u.fs, h);
      RecordListed(u.fs, h);
      DeletesAndReplies(u, h, p, id);
    }
  }

  lemma DeletesAndReplies(u: World, h: Host, p: PurgeEvent, id: nat)
    requires Recorded(u.fs, h) == Some(id) && Lists(u.fs, h, p.ls) && p.rm.RmOk?
    ensures var r := PurgeRestored(u, h, p);
            r.w.log == u.log + [Deleted(id), Reply(p.reply)] && r.w.machines == u.machines - {id}
  {
    ExistsMeans(u.fs, h, p.ls);
    assert u.log + [Deleted(id)] + [Reply(p.reply)] == u.log + [Deleted(id), Reply(p.reply)];
  }

  // docker-machine's record is archived.
  lemma ImageRecord(t: Fs, h: Host)
    requires WellFormed(t) && RecordIn(t, h).Some?
    ensures forall p :: p in KeptPaths(t) ==> p in t
    ensures RecordIn(Image(t, KeptPaths(t)), h) == RecordIn(t, h)
  {
    var p := ["machines", h.hostname, "config.json"];
    KeptPathsFacts(t);
    assert Last(p) == "config.json";
    RecordNotSkipped();
  }

  lemma RecordNotSkipped()
    ensures !Skipped("config.json")
  {
    var n := "config.json";
    assert n[|n| - 1] == 'n';
  }

  // A machine that a create event saved is found and deleted by any later purge that misses the
  // cache, whatever creates and purges come between, exactly if the archived tree is replayable.
  lemma {:induction false} SavedMachineRecoverable(w: World, h: Host, before: seq<Event>, e: CreateEvent,
      between: seq<Event>,
      p: PurgeEvent)
    requires ValidHost(h) && Tidy(w, h) && forall x :: x in before ==> ValidEvent(x)
    requires forall x :: x in between ==> !x.ApiUpdate?
    requires var v := Run(w, h, before);
             ValidCreation(e.creation) && Faithful(v, h, e.creation.command) && MachineSaved(v, h, e)
    requires !CacheHit(Run(Create(Run(w, h, before), h, e).w, h, between), p.now)
    requires p.found && p.ls.LsOk? && p.rm.RmOk?
    ensures var t := SavedTree(h, e.creation.command.tree);
            var v := Run(Create(Run(w, h, before), h, e).w, h, between);
            var r := Purge(v, h, p);
            var id := e.creation.command.made.value;
            && WellFormed(t)
            && (Replayable(t) ==> r.w.log == v.log + [Deleted(id), Reply(p.reply)] && id !in r.w.machines)
            && (!Replayable(t) ==> !r.ok && r.w.log == v.log && r.w.machines == v.machines)
  {
    var t := SavedTree(h, e.creation.command.tree);
    RunKeepsTidy(w, h, before);
    SavingSettles(Run(w, h, before), h, e);
    RunStaysSettled(Create(Run(w, h, before), h, e).w, h, t, between);
    SavedRecord(h, e.creation.command.tree);
    PurgeDeletes(Run(Create(Run(w, h, before), h, e).w, h, between), h, t, p, e.creation.command.made.value);
  }

  // So it is for a hostname without a skipped suffix, if docker-machine made no other directory
  // with one.
  lemma PlainHostnameReplayable(h: Host, tree: Fs)
    requires ValidHost(h) && WellFormed(tree) && WellFormed(SavedTree(h, tree))
    requires !Skipped(h.hostname)
    requires forall d :: IsDir(tree, d) && d != [] && Last(d) != h.hostname ==> !Skipped(Last(d))
    ensures Replayable(SavedTree(h, tree))
  {
    var t := SavedTree(h, tree);
    forall d | d in t && d != [] && t[d].Directory? ensures !Skipped(Last(d)) {
      assert IsDir(tree, d);
    }
    NoSkippedDirsRestorable(t);
    KeptPathsFacts(t);
  }

  // ---------- it can happen ----------

  // What docker-machine leaves at the least.
  function LeastTree(h: Host, id: nat): Fs {
    map[[] := Directory,
        ["machines"] := Directory,
        ["machines", h.hostname] := Directory,
        ["machines", h.hostname, "config.json"] := File(MachineConfig(id))]
  }

  lemma LeastTreeFacts(h: Host, id: nat)
    requires ValidHost(h)
    ensures Orderly(LeastTree(h, id)) && RecordIn(LeastTree(h, id), h) == Some(id)
    ensures !IsDir(LeastTree(h, id), [h.hostname + ".tar.gz"])
  {
    var t := LeastTree(h, id);
    var p := ["machines", h.hostname, "config.json"];
    assert Plain("machines") && Plain("config.json");
    forall a, q | q in t && Above(a, q) ensures a in t && t[a].Directory? {
      assert a == q[..|a|] && q[..|q|] == q;
      assert |q| <= 3 && q == p[..|q|];
      assert a == p[..|a|];
      assert p[..0] == [] && p[..1] == ["machines"] && p[..2] == ["machines", h.hostname];
    }
    var name := h.hostname + ".tar.gz";
    var other := "machines";
    assert name[|name| - 1] == 'z' && other[|other| - 1] == 's';
    assert [name][0] == name && [other][0] == other;
  }

  // A create event in which every call of createMachine works.
  function SmoothEvent(h: Host, id: nat): CreateEvent {
    var creation := Creation(true, true, true, true, NoFile, true, true, Command(LeastTree(h, id), Some(id), true),
                             Archives, i => true, LsOk, RmOk);
    CreateEvent(true, LsOk, creation, Agent(true, true, true, true, true, true, i => ListFails, i => PollFails), true)
  }

  function NewWorld(): World {
    World(EmptyDir(), Unset, {}, None, [])
  }

  // In a new world a create event can save its machine, for any host.
  lemma SavingIsPossible(h: Host, id: nat)
    requires ValidHost(h)
    ensures var w, e := NewWorld(), SmoothEvent(h, id);
            Tidy(w, h) && ValidCreation(e.creation) && Faithful(w, h, e.creation.command) && MachineSaved(w, h, e)
  {
    var w, e := NewWorld(), SmoothEvent(h, id);
    var d := HostDir(h);
    LeastTreeFacts(h, id);
    HostPaths(h);
    MkdirAllAdds(w.fs, d);
    assert Fetch(w, h, true).Some?;
    FetchEmpties(w, h, true);
    var v := Fetch(w, h, true).value;
    FetchAgain(v, h, true);
    NoStamp(v.fs, h);
    assert e.creation.updates(0);
  }

  // ---------- a delete between two recorded purges ----------

  // A settled host whose machine can be restored: a purge that misses the cache records its
  // success exactly if rm succeeds, and issues the delete also if rm fails after it.
  lemma PurgeOfSettled(v: World, h: Host, t: Fs, p: PurgeEvent, id: nat)
    requires ValidHost(h) && Settled(v, h, t) && RecordIn(t, h) == Some(id) && Replayable(t)
    requires !CacheHit(v, p.now) && p.found && p.ls.LsOk?
    ensures Records(v, h, p) <==> p.rm.RmOk?
    ensures p.rm == RmFails(true) ==> var r := Purge(v, h, p); !r.ok && r.w.log == v.log + [Deleted(id)]
  {
    SettledFetch(v, h, t, p.found);
    var v1 := Fetch(v, h, p.found).value;
    SettledRestores(v1, h, t);
    var r := RestoreResult(v1.fs, v1.config, Abs(HostDir(h)));
    var u := v1.(fs := r.fs);
    ReplaySucceeds(t);
    ImageRecord(t, h);
    RecordedIn(u.fs, h);
    RecordListed(u.fs, h);
    assert Remove(u, h, p.rm).ok <==> p.rm.RmOk?;
  }

  function PurgeAt(time: int, rm: Rm): Event {
    PurgeHost(PurgeEvent(time, true, LsOk, rm, time, true))
  }

  // A create, a recorded purge, one after the lifetime whose rm deletes the machine and fails, and
  // a recorded purge again.
  function LateDelete(h: Host, id: nat): seq<Event> {
    [CreateHost(SmoothEvent(h, id)),
     PurgeAt(0, RmOk), PurgeAt(LIFETIME + 1, RmFails(true)), PurgeAt(LIFETIME + 2, RmOk)]
  }

  lemma {:induction false} RunPrefixes(w: World, h: Host, events: seq<Event>)
    requires |events| == 4
    ensures var w1 := Step(w, h, events[0]);
            var w2 := Step(w1, h, events[1]);
            && Run(w, h, events[..1]) == w1
            && Run(w, h, events[..2]) == w2
            && Run(w, h, events[..3]) == Step(w2, h, events[2])
  {
    assert events[..0] == [];
    RunStep(w, h, events, 0);
    RunStep(w, h, events, 1);
    RunStep(w, h, events, 2);
  }

  // Three purges of a settled host that none was recorded for.
  lemma ThreePurges(w1: World, h: Host, t: Fs, id: nat, p1: PurgeEvent, p2: PurgeEvent, p3: PurgeEvent)
    requires ValidHost(h) && Settled(w1, h, t) && RecordIn(t, h) == Some(id) && Replayable(t) && w1.expiry.None?
    requires p1 == PurgeAt(0, RmOk).purge && p2 == PurgeAt(LIFETIME + 1, RmFails(true)).purge
    requires p3 == PurgeAt(LIFETIME + 2, RmOk).purge
    ensures var w2 := Purge(w1, h, p1).w;
            var r3 := Purge(w2, h, p2);
            && Records(w1, h, p1)
            && !Records(w2, h, p2) && r3.w.log == w2.log + [Deleted(id)]
            && Records(r3.w, h, p3)
  {
    PurgeOfSettled(w1, h, t, p1, id);
    PurgeExpiry(w1, h, p1);
    SettledPurge(w1, h, t, p1);
    var w2 := Purge(w1, h, p1).w;
    PurgeOfSettled(w2, h, t, p2, id);
    PurgeExpiry(w2, h, p2);
    SettledPurge(w2, h, t, p2);
    PurgeOfSettled(Purge(w2, h, p2).w, h, t, p3, id);
  }

  lemma SmoothSettles(h: Host, id: nat)
    requires ValidHost(h) && !Skipped(h.hostname)
    ensures var t := SavedTree(h, LeastTree(h, id));
            var w1 := Create(NewWorld(), h, SmoothEvent(h, id)).w;
            && WellFormed(t) && Settled(w1, h, t) && RecordIn(t, h) == Some(id) && Replayable(t) && w1.expiry.None?
  {
    SavingIsPossible(h, id);
    SavingSettles(NewWorld(), h, SmoothEvent(h, id));
    SavedRecord(h, LeastTree(h, id));
    LeastTreeFacts(h, id);
    LeastTreePlain(h, id);
    PlainHostnameReplayable(h, LeastTree(h, id));
    CreateExpiry(NewWorld(), h, SmoothEvent(h, id));
  }

  lemma {:induction false} OnRun(w: World, h: Host, events: seq<Event>, w1: World, id: nat)
    requires |events| == 4 && events[1].PurgeHost? && events[2].PurgeHost? && events[3].PurgeHost?
    requires w1 == Step(w, h, events[0]) && Records(w1, h, events[1].purge)
    requires var w2 := Purge(w1, h, events[1].purge).w;
             var r3 := Purge(w2, h, events[2].purge);
             !Records(w2, h, events[2].purge) && r3.w.log == w2.log + [Deleted(id)] && Records(r3.w, h, events[3].purge)
    ensures Records(Run(w, h, events[..1]), h, events[1].purge)
    ensures Records(Run(w, h, events[..3]), h, events[3].purge)
    ensures NoneRecorded(w, h, events, 1, 3)
    ensures Run(w, h, events[..3]).log == Run(w, h, events[..2]).log + [Deleted(id)]
  {
    RunPrefixes(w, h, events);
  }

  // So purges between two recorded ones do issue deletes, once the lifetime is over.
  lemma {:induction false} DeleteBetweenPurges(h: Host, id: nat)
    requires ValidHost(h) && !Skipped(h.hostname)
    ensures var w, events := NewWorld(), LateDelete(h, id);
            && Clocked(events)
            && Records(Run(w, h, events[..1]), h, events[1].purge)
            && Records(Run(w, h, events[..3]), h, events[3].purge)
            && NoneRecorded(w, h, events, 1, 3)
            && Run(w, h, events[..3]).log == Run(w, h, events[..2]).log + [Deleted(id)]
  {
    LateDeleteClocked(h, id);
    LateDeletePurges(h, id);
    OnRun(NewWorld(), h, LateDelete(h, id), Create(NewWorld(), h, SmoothEvent(h, id)).w, id);
  }

  lemma LateDeleteClocked(h: Host, id: nat)
    ensures Clocked(LateDelete(h, id))
  {
  }

  lemma LateDeletePurges(h: Host, id: nat)
    requires ValidHost(h) && !Skipped(h.hostname)
    ensures var w1 := Create(NewWorld(), h, SmoothEvent(h, id)).w;
            var p1, p2, p3 := LateDelete(h, id)[1].purge, LateDelete(h, id)[2].purge, LateDelete(h, id)[3].purge;
            var w2 := Purge(w1, h, p1).w;
            var r3 := Purge(w2, h, p2);
            && Records(w1, h, p1)
            && !Records(w2, h, p2) && r3.w.log == w2.log + [Deleted(id)]
            && Records(r3.w, h, p3)
  {
    SmoothSettles(h, id);
    var w1, t := Create(NewWorld(), h, SmoothEvent(h, id)).w, SavedTree(h, LeastTree(h, id));
    ThreePurges(w1, h, t, id, PurgeAt(0, RmOk).purge, PurgeAt(LIFETIME + 1, RmFails(true)).purge,
                PurgeAt(LIFETIME + 2, RmOk).purge);
  }

  lemma LeastTreePlain(h: Host, id: nat)
    requires ValidHost(h)
    ensures forall d :: IsDir(LeastTree(h, id), d) && d != [] && Last(d) != h.hostname ==> !Skipped(Last(d))
  {
    var m := "machines";
    assert m[|m| - 1] == 's' && !Skipped(m);
    forall d | IsDir(LeastTree(h, id), d) && d != [] && Last(d) != h.hostname ensures !Skipped(Last(d)) {
      assert d == [m] || d == [m, h.hostname];
    }
  }
}
