// When create and purge events succeed, and what they leave and reply, call by call.
module EventOutcomes {
  import opened GoStrings
  import opened Paths
  import opened FileSystems
  import opened TreeWalk
  import opened Archive
  import opened RoundTrip
  import opened Lifecycle
  import opened Runs
  import opened Recovery

  // ---------- purges ----------

  // The host directory as the purge restores it.
  ghost function AfterRestore(w: World, h: Host): Restored {
    match MkdirAll(w.fs, HostDir(h))
    case None => Restored(w.fs, false)
    case Some(fs) => RestoreResult(fs, w.config, Abs(HostDir(h)))
  }

  ghost predicate CachedAt(w: World, now: int) {
    w.expiry.Some? && now <= w.expiry.value
  }

  // Nothing happened but on the disk.
  ghost predicate NothingDone(w: World, v: World) {
    v.config == w.config && v.machines == w.machines && v.expiry == w.expiry && v.log == w.log
  }

  // What docker-machine's record at that place names.
  ghost predicate RecordsMachine(fs: Fs, h: Host, id: nat) {
    var p := HostDir(h) + ["machines", h.hostname, "config.json"];
    p in fs && fs[p] == File(MachineConfig(id))
  }

  // It names this machine, or none.
  ghost predicate RecordIs(fs: Fs, h: Host, id: Option<nat>) {
    match id
    case Some(n) => RecordsMachine(fs, h, n)
    case None => forall n :: !RecordsMachine(fs, h, n)
  }

  lemma RecordedMeans(fs: Fs, h: Host, id: Option<nat>)
    requires RecordIs(fs, h, id)
    ensures Recorded(fs, h) == id
  {
    assert MachineDir(h) + ["config.json"] == HostDir(h) + ["machines", h.hostname, "config.json"];
    if Recorded(fs, h).Some? {
      assert RecordsMachine(fs, h, Recorded(fs, h).value);
    }
  }

  // Within the cache's lifetime a purge only publishes its reply.
  lemma PurgeCached(w: World, h: Host, e: PurgeEvent)
    requires CachedAt(w, e.now)
    ensures Purge(w, h, e) == Outcome(w.(log := w.log + [Reply(e.reply)]), e.reply)
  {
  }

  // A purge that cannot fetch or restore the host fails, and does nothing else.
  lemma PurgeUnrestored(w: World, h: Host, e: PurgeEvent)
    requires WellFormed(w.fs) && !CachedAt(w, e.now)
    requires !e.found || !DirectoryFree(w.fs, h) || !AfterRestore(w, h).ok
    ensures !Purge(w, h, e).ok && NothingDone(w, Purge(w, h, e).w)
    ensures Purge(w, h, e).w.fs == if e.found then AfterRestore(w, h).fs else w.fs
  {
    FetchMeans(w, h, e.found);
  }

  // So it does for a configuration that cannot be read to its end.
  lemma BrokenConfiguration(w: World, h: Host, entries: seq<Entry>)
    requires w.config == Encoded(entries, false)
    ensures !AfterRestore(w, h).ok
    ensures AfterRestore(w, h).fs == AfterRestore(w.(config := Encoded(entries, true)), h).fs
  {
  }

  // One for which docker-machine ls fails before it prints the hostname does so, too.
  lemma PurgeUnlisted(w: World, h: Host, e: PurgeEvent)
    requires WellFormed(w.fs) && !CachedAt(w, e.now) && e.ls.LsFails? && !Lists(AfterRestore(w, h).fs, h, e.ls)
    ensures !Purge(w, h, e).ok && NothingDone(w, Purge(w, h, e).w)
  {
    FetchMeans(w, h, e.found);
    ExistsMeans(AfterRestore(w, h).fs, h, e.ls);
  }

  lemma RestoredPurge(w: World, h: Host, e: PurgeEvent)
    requires WellFormed(w.fs) && !CachedAt(w, e.now) && e.found && DirectoryFree(w.fs, h) && AfterRestore(w, h).ok
    ensures Fetch(w, h, e.found).Some?
    ensures var p := PurgeRestored(w.(fs := AfterRestore(w, h).fs), h, e);
            Purge(w, h, e) == Outcome(Emptied(p.w, h), p.ok)
  {
    FetchMeans(w, h, e.found);
  }

  lemma RestoredWithoutMachine(u: World, h: Host, e: PurgeEvent)
    requires !CachedAt(u, e.later) && e.ls.LsOk? && !Lists(u.fs, h, e.ls)
    ensures PurgeRestored(u, h, e) ==
              Outcome(u.(log := u.log + [Reply(e.reply)], expiry := Some(e.later + 300_000_000_000)), e.reply)
  {
    ExistsMeans(u.fs, h, e.ls);
  }

  // When the restored directory holds no such machine and the listing works, the purge deletes
  // nothing, records its success for five minutes, and replies.
  lemma PurgeWithoutMachine(w: World, h: Host, e: PurgeEvent)
    requires WellFormed(w.fs) && !CachedAt(w, e.now) && e.now <= e.later
    requires e.found && DirectoryFree(w.fs, h) && AfterRestore(w, h).ok
    requires e.ls.LsOk? && !Lists(AfterRestore(w, h).fs, h, e.ls)
    ensures var r := Purge(w, h, e);
            && r.ok == e.reply
            && r.w.log == w.log + [Reply(e.reply)] && r.w.machines == w.machines && r.w.config == w.config
            && r.w.expiry == Some(e.later + 300_000_000_000)
            && r.w.fs == RemoveAll(AfterRestore(w, h).fs, HostDir(h))
  {
    RestoredPurge(w, h, e);
    RestoredWithoutMachine(w.(fs := AfterRestore(w, h).fs), h, e);
  }

  function Gone(id: Option<nat>): set<nat> {
    if id.Some? then {id.value} else {}
  }

  function Told(id: Option<nat>): seq<Observation> {
    if id.Some? then [Deleted(id.value)] else []
  }

  lemma RestoredOfMachine(u: World, h: Host, e: PurgeEvent, id: Option<nat>)
    requires !CachedAt(u, e.later) && Lists(u.fs, h, e.ls) && RecordIs(u.fs, h, id)
    ensures var r := PurgeRestored(u, h, e);
            match e.rm
            case RmOk =>
              && r.ok == e.reply && r.w.log == u.log + Told(id) + [Reply(e.reply)]
              && r.w.machines == u.machines - Gone(id) && r.w.expiry == Some(e.later + 300_000_000_000)
            case RmFails(gone) =>
              && !r.ok && r.w.expiry == u.expiry
              && r.w.log == u.log + (if gone then Told(id) else [])
              && r.w.machines == u.machines - (if gone then Gone(id) else {})
  {
    ExistsMeans(u.fs, h, e.ls);
    RecordedMeans(u.fs, h, id);
    assert Remove(u, h, e.rm).w.expiry == u.expiry;
  }

  // When it does, the purge deletes the machine that docker-machine recorded, if any; if that
  // works it records its success and replies, and otherwise it fails, whether or not the machine
  // is gone.
  lemma PurgeOfMachine(w: World, h: Host, e: PurgeEvent, id: Option<nat>)
    requires WellFormed(w.fs) && !CachedAt(w, e.now) && e.now <= e.later
    requires e.found && DirectoryFree(w.fs, h) && AfterRestore(w, h).ok
    requires Lists(AfterRestore(w, h).fs, h, e.ls) && RecordIs(AfterRestore(w, h).fs, h, id)
    ensures var r := Purge(w, h, e);
            match e.rm
            case RmOk =>
              && r.ok == e.reply && r.w.log == w.log + Told(id) + [Reply(e.reply)]
              && r.w.machines == w.machines - Gone(id) && r.w.expiry == Some(e.later + 300_000_000_000)
            case RmFails(gone) =>
              && !r.ok && r.w.expiry == w.expiry
              && r.w.log == w.log + (if gone then Told(id) else [])
              && r.w.machines == w.machines - (if gone then Gone(id) else {})
    ensures var v := Purge(w, h, e).w;
            v.config == w.config && HostDir(h) !in v.fs && SameOutside(v.fs, AfterRestore(w, h).fs, HostDir(h))
  {
    RestoredPurge(w, h, e);
    var u := w.(fs := AfterRestore(w, h).fs);
    RestoredOfMachine(u, h, e, id);
    RestoredOutside(u, h, e);
    assert Within(HostDir(h), HostDir(h));
  }

  // ---------- creating a new host ----------

  // The directories of the host directory are those of the tree.
  ghost predicate DirectoriesOf(fs: Fs, h: Host, tree: Fs) {
    forall r :: DirectoryAt(fs, HostDir(h) + r) <==> DirectoryAt(tree, r)
  }

  lemma MountedDirectories(g: Fs, f: Fs, h: Host, tree: Fs)
    requires Mounted(g, f, HostDir(h), tree)
    ensures DirectoriesOf(g, h, tree)
  {
  }

  // Writing a file changes no directory.
  lemma WriteKeepsDirectories(fs: Fs, h: Host, tree: Fs, p: Path, c: Content)
    requires DirectoriesOf(fs, h, tree) && WriteFile(fs, p, c).Some?
    ensures DirectoriesOf(WriteFile(fs, p, c).value, h, tree)
  {
    var g := WriteFile(fs, p, c).value;
    forall q ensures DirectoryAt(g, q) <==> DirectoryAt(fs, q) {}
  }

  // The stamp can be written exactly if docker-machine made the machine's directory, and nothing
  // like a directory in place of the stamp.
  ghost predicate Stampable(tree: Fs, h: Host) {
    DirectoryAt(tree, ["machines", h.hostname]) && !DirectoryAt(tree, ["machines", h.hostname, "created"])
  }

  lemma TouchWorks(w: World, h: Host, tree: Fs)
    requires DirectoriesOf(w.fs, h, tree)
    ensures Touch(w, h).ok <==> Stampable(tree, h)
    ensures DirectoriesOf(Touch(w, h).w.fs, h, tree)
  {
    assert CreatedStamp(h) == HostDir(h) + ["machines", h.hostname, "created"];
    assert Parent(CreatedStamp(h)) == HostDir(h) + ["machines", h.hostname];
    if Touch(w, h).ok {
      WriteKeepsDirectories(w.fs, h, tree, CreatedStamp(h), Text(""));
    }
  }

  // The archive can be made and read.
  lemma ExtractWorks(w: World, h: Host, tree: Fs, archiving: Archiving, updates: nat -> bool)
    requires ValidHost(h) && Ready(w, h) && DirectoriesOf(w.fs, h, tree)
    ensures var r := Extract(w, h, archiving, updates);
            && (r.ok <==> archiving.Archives? && !DirectoryAt(tree, [h.hostname + ".tar.gz"]))
            && (r.ok ==> DirectoriesOf(r.w.fs, h, tree) && Ready(r.w, h))
  {
    var tar := TarPath(HostDir(h), h.hostname);
    assert tar == HostDir(h) + [h.hostname + ".tar.gz"] && Parent(tar) == HostDir(h);
    HostPaths(h);
    PlainTarName(h.hostname);
    ExtractKeeps(w, h, archiving, updates);
    if WriteFile(w.fs, tar, Text("")).Some? {
      WriteKeeps(w.fs, tar, Text(""));
      SubtreeWellFormed(w.fs[tar := File(Text(""))], HostDir(h));
      var config := ArchiveConfig(h, ArchivedTree(w.fs, h));
      WriteKeepsDirectories(w.fs, h, tree, tar, TarGz(config.entries));
      assert Parent(tar) != tar;
    }
  }

  ghost predicate HandlingWorks(handling: Handling) {
    handling.NoFile? || handling.Save?
  }

  lemma HandleWorks(v: World, h: Host, handling: Handling)
    requires Ready(v, h) && Subtree(v.fs, HostDir(h)) == EmptyDir()
    ensures Handle(v.fs, h, handling).Some? <==> HandlingWorks(handling)
  {
    if handling.Save? {
      SubtreeAt(v.fs, HostDir(h), [handling.name]);
      assert Parent(HostDir(h) + [handling.name]) == HostDir(h);
    }
  }

  // Everything that createMachine needs.
  ghost predicate MachineComesUp(h: Host, e: Creation) {
    && e.found && e.templated && e.template && HandlingWorks(e.handling) && e.built && e.started && e.command.ok
    && e.archiving.Archives? && !DirectoryAt(e.command.tree, [h.hostname + ".tar.gz"])
  }

  lemma CommandStamped(w1: World, h: Host, c: Command)
    requires ValidHost(h) && Ready(w1, h) && Orderly(c.tree)
    ensures var v := Touch(AfterCommand(w1, h, c), h).w;
            Ready(v, h) && DirectoriesOf(v.fs, h, c.tree)
  {
    CommandSaves(w1, h, c);
    PlantedMounted(w1.fs, HostDir(h), c.tree);
    var w2 := AfterCommand(w1, h, c);
    MountedDirectories(w2.fs, w1.fs, h, c.tree);
    TouchWorks(w2, h, c.tree);
  }

  lemma TryWorks(v: World, h: Host, e: Creation)
    requires ValidHost(h) && Ready(v, h) && Subtree(v.fs, HostDir(h)) == EmptyDir() && ValidCreation(e)
    requires e.found && e.templated
    ensures var a := Try(v, h, e);
            && (a.ok <==> MachineComesUp(h, e))
            && (a.ok ==> a.machineCreated && DirectoriesOf(a.w.fs, h, e.command.tree) && Ready(a.w, h))
  {
    HandleWorks(v, h, e.handling);
    HandleKeeps(v, h, e.handling);
    if CommandRuns(e) && HandlingWorks(e.handling) && e.command.ok {
      var w1 := v.(fs := Handled(v.fs, h, e.handling));
      CommandStamped(w1, h, e.command);
      var w3 := Touch(AfterCommand(w1, h, e.command), h).w;
      ExtractWorks(w3, h, e.command.tree, e.archiving, e.updates);
      TryTakes(v, h, e, w1, w3);
    }
  }

  lemma CreatingWorks(v: World, h: Host, e: Creation)
    requires ValidHost(h) && Ready(v, h) && Subtree(v.fs, HostDir(h)) == EmptyDir() && ValidCreation(e)
    ensures var r := Creating(v, h, e);
            && (r.ok <==> MachineComesUp(h, e))
            && (r.ok ==> r.w == Try(v, h, e).w && DirectoriesOf(r.w.fs, h, e.command.tree) && Ready(r.w, h))
  {
    FetchAgain(v, h, e.found);
    NoStamp(v.fs, h);
    if e.found && e.templated {
      TryWorks(v, h, e);
    }
  }

  // From the agent's registration on.
  lemma ActivationWorks(w: World, h: Host, e: CreateEvent, tree: Fs)
    requires WellFormed(Provide(w, h, e).w.fs)
    requires Provide(w, h, e).ok ==>
      DirectoriesOf(Provide(w, h, e).w.fs, h, tree) && IsDir(Provide(w, h, e).w.fs, HostDir(h))
    ensures Activated(w, h, e).ok <==> Provide(w, h, e).ok && AgentComesUp(e.agent) && Stampable(tree, h) && e.reply
  {
    var r0 := Provide(w, h, e);
    if r0.ok {
      FetchAgain(r0.w, h, e.agent.found);
      AgentFoundMeans(e.agent.containers);
      AgentIdShownMeans(e.agent.polls);
      TouchWorks(Register(r0.w, h, e.agent).w, h, tree);
    }
  }

  // A create event for a host without a configuration succeeds exactly if every one of its calls
  // does, docker-machine leaves what is needed, and the agent shows up with an id.
  lemma NewHostCreated(w: World, h: Host, e: CreateEvent)
    requires ValidHost(h) && Tidy(w, h) && w.config.Unset? && ValidCreation(e.creation)
    ensures Create(w, h, e).ok <==>
              (e.found && DirectoryFree(w.fs, h) && MachineComesUp(h, e.creation)
               && AgentComesUp(e.agent) && Stampable(e.creation.command.tree, h) && e.reply)
  {
    FetchMeans(w, h, e.found);
    if Fetch(w, h, e.found).Some? {
      FetchEmpties(w, h, e.found);
      var v := Fetch(w, h, e.found).value;
      CreatingWorks(v, h, e.creation);
      CreatingKeeps(v, h, e.creation);
      ActivationWorks(v, h, e, e.creation.command.tree);
    }
  }

  function MadeSet(made: Option<nat>): set<nat> {
    if made.Some? then {made.value} else {}
  }

  function MadeTold(made: Option<nat>): seq<Observation> {
    if made.Some? then [Made(made.value)] else []
  }

  // What docker-machine create and the stamp tell, and leave of the rest.
  lemma CommandTells(w: World, h: Host, c: Command)
    ensures var x := Touch(AfterCommand(w, h, c), h).w;
            && x.log == w.log + MadeTold(c.made) && x.machines == w.machines + MadeSet(c.made)
            && x.expiry == w.expiry && x.config == w.config
  {
  }

  lemma TryTells(v: World, h: Host, e: Creation)
    requires CommandRuns(e) && Handle(v.fs, h, e.handling).Some? && e.command.ok
    requires Handle(v.fs, h, e.handling).value == Handled(v.fs, h, e.handling)
    ensures var x := Try(v, h, e).w;
            && x.log == v.log + MadeTold(e.command.made) && x.machines == v.machines + MadeSet(e.command.made)
            && x.expiry == v.expiry
            && ((forall i :: 0 <= i < 100 ==> !e.updates(i)) ==> x.config == v.config)
  {
    var w1 := v.(fs := Handled(v.fs, h, e.handling));
    var w3 := Touch(AfterCommand(w1, h, e.command), h).w;
    CommandTells(w1, h, e.command);
    TryTakes(v, h, e, w1, w3);
    ExtractLeaves(w3, h, e.archiving, e.updates);
    if forall i :: 0 <= i < 100 ==> !e.updates(i) {
      ExtractConfigKept(w3, h, e.archiving, e.updates);
    }
  }

  lemma ExtractConfigKept(w: World, h: Host, archiving: Archiving, updates: nat -> bool)
    requires forall i :: 0 <= i < 100 ==> !updates(i)
    ensures Extract(w, h, archiving, updates).w.config == w.config
  {
  }

  // What createMachine leaves when it succeeds.
  ghost predicate MachineLeft(v: World, x: World, h: Host, e: Creation) {
    var t := SavedTree(h, e.command.tree);
    && x.log == v.log + MadeTold(e.command.made) && x.machines == v.machines + MadeSet(e.command.made)
    && x.expiry == v.expiry && WellFormed(t)
    && ((exists i :: 0 <= i < 100 && e.updates(i)) ==> x.config == Encoded(ArchiveOf(HostDir(h), t), true))
    && ((forall i :: 0 <= i < 100 ==> !e.updates(i)) ==> x.config == v.config)
  }

  lemma CreatingLeaves(v: World, h: Host, e: Creation)
    requires ValidHost(h) && Ready(v, h) && Subtree(v.fs, HostDir(h)) == EmptyDir() && ValidCreation(e)
    requires MachineComesUp(h, e)
    ensures MachineLeft(v, Creating(v, h, e).w, h, e)
  {
    CreatingWorks(v, h, e);
    HandleWorks(v, h, e.handling);
    HandleKeeps(v, h, e.handling);
    TryTells(v, h, e);
    SavedFormed(v, h, e);
    if exists i :: 0 <= i < 100 && e.updates(i) {
      assert Updated(e.updates);
      TrySaves(v, h, e);
    }
  }

  // When it succeeds, it has replied once, right after it saw the agent's id; the machine is
  // there, the record holds the archive of what docker-machine left if one of the first hundred
  // updates worked, and the host directory is gone.
  lemma NewHostLeaves(w: World, h: Host, e: CreateEvent)
    requires ValidHost(h) && Tidy(w, h) && w.config.Unset? && ValidCreation(e.creation) && Create(w, h, e).ok
    ensures var v, made, t := Create(w, h, e).w, e.creation.command.made, SavedTree(h, e.creation.command.tree);
            && v.log == w.log + MadeTold(made) + [AgentSeen, Reply(true)]
            && v.machines == w.machines + MadeSet(made) && v.expiry == w.expiry
            && HostDir(h) !in v.fs && WellFormed(t)
            && ((exists i :: 0 <= i < 100 && e.creation.updates(i)) ==>
                  v.config == Encoded(ArchiveOf(HostDir(h), t), true))
            && ((forall i :: 0 <= i < 100 ==> !e.creation.updates(i)) ==> v.config == Unset)
  {
    NewHostCreated(w, h, e);
    FetchMeans(w, h, e.found);
    FetchEmpties(w, h, e.found);
    var v := Fetch(w, h, e.found).value;
    CreatingWorks(v, h, e.creation);
    CreatingLeaves(v, h, e.creation);
    assert Provide(v, h, e) == Creating(v, h, e.creation);
    ActivatedLeaves(v, h, e);
    assert Within(HostDir(h), HostDir(h));
  }

  // What activation adds when it succeeds.
  lemma ActivatedLeaves(v: World, h: Host, e: CreateEvent)
    requires Activated(v, h, e).ok && Ready(Provide(v, h, e).w, h)
    ensures var x, y := Activated(v, h, e).w, Provide(v, h, e).w;
            && x.log == y.log + [AgentSeen, Reply(true)]
            && x.config == y.config && x.machines == y.machines && x.expiry == y.expiry
  {
    ActivatedReplies(v, h, e);
    ActivatedKeepsRest(v, h, e);
  }

  // The tree that is archived is a tree, whatever becomes of the updates.
  lemma SavedFormed(v: World, h: Host, e: Creation)
    requires ValidHost(h) && Ready(v, h) && ValidCreation(e)
    requires CommandRuns(e) && Handle(v.fs, h, e.handling).Some? && e.command.ok
    requires !IsDir(e.command.tree, [h.hostname + ".tar.gz"])
    ensures WellFormed(SavedTree(h, e.command.tree))
  {
    var other := e.(archiving := Archives, updates := i => true);
    assert other.updates(0);
    TrySaves(v, h, other);
  }

  lemma ActivatedKeepsRest(w: World, h: Host, e: CreateEvent)
    requires WellFormed(Provide(w, h, e).w.fs)
    requires Provide(w, h, e).ok ==> IsDir(Provide(w, h, e).w.fs, HostDir(h))
    ensures var x, y := Activated(w, h, e).w, Provide(w, h, e).w;
            x.config == y.config && x.machines == y.machines && x.expiry == y.expiry
  {
    if Provide(w, h, e).ok {
      FetchAgain(Provide(w, h, e).w, h, e.agent.found);
    }
  }

  // ---------- a host that has a configuration ----------

  lemma {:induction false} EntriesKeepDirectories(fs: Fs, base: string, entries: seq<Entry>, p: Path)
    requires WellFormed(fs) && DirectoryAt(fs, p)
    ensures DirectoryAt(RestoreAll(fs, base, entries).fs, p)
    decreases |entries|
  {
    if entries != [] && RestoreEntry(fs, base, entries[0]).Some? {
      var q := Resolve(Join(base, entries[0].name));
      var g := RestoreEntry(fs, base, entries[0]).value;
      if entries[0].isDir {
        MkdirAllAdds(fs, q);
      } else {
        WriteFileWellFormed(fs, q, entries[0].content);
      }
      EntriesKeepDirectories(g, base, entries[1..], p);
    }
  }

  lemma RestoreKeepsDirectory(fs: Fs, config: Config, base: string, p: Path)
    requires WellFormed(fs) && DirectoryAt(fs, p)
    ensures DirectoryAt(RestoreResult(fs, config, base).fs, p)
  {
    var up := Resolve(Dir(base));
    MkdirAllAdds(fs, up);
    if MkdirAll(fs, up).Some? && config.Encoded? {
      EntriesKeepDirectories(MkdirAll(fs, up).value, Dir(base), config.entries, p);
    }
  }

  lemma SubtreeDirectories(fs: Fs, h: Host)
    ensures DirectoriesOf(fs, h, Subtree(fs, HostDir(h)))
  {
    forall r ensures DirectoryAt(fs, HostDir(h) + r) <==> DirectoryAt(Subtree(fs, HostDir(h)), r) {
      SubtreeAt(fs, HostDir(h), r);
    }
  }

  // The machines can be listed, or the hostname is printed before the listing fails.
  ghost predicate Listing(w: World, h: Host, ls: Ls) {
    ls.LsOk? || Lists(AfterRestore(w, h).fs, h, ls)
  }

  lemma ProvideRestores(w: World, h: Host, e: CreateEvent)
    requires ValidHost(h) && Orderly(w.fs) && w.config.Encoded? && Fetch(w, h, e.found).Some?
    ensures var r0 := Provide(Fetch(w, h, e.found).value, h, e);
            && r0 == Outcome(w.(fs := AfterRestore(w, h).fs), AfterRestore(w, h).ok && Listing(w, h, e.ls))
            && WellFormed(r0.w.fs) && IsDir(r0.w.fs, HostDir(h))
  {
    FetchKeeps(w, h, e.found);
    var v := Fetch(w, h, e.found).value;
    RestoreKeeps(v.fs, v.config, Abs(HostDir(h)));
    RestoreKeepsDirectory(v.fs, v.config, Abs(HostDir(h)), HostDir(h));
    ExistsMeans(AfterRestore(w, h).fs, h, e.ls);
  }

  // A create event for a host with a configuration succeeds exactly if that can be restored, the
  // machines can be listed, the agent shows up, and the restored directory takes the stamp. It
  // creates nothing and changes no record.
  lemma RestoredHostCreated(w: World, h: Host, e: CreateEvent)
    requires ValidHost(h) && Orderly(w.fs) && w.config.Encoded?
    ensures var r := Create(w, h, e);
            && (r.ok <==>
                  (e.found && DirectoryFree(w.fs, h) && AfterRestore(w, h).ok && Listing(w, h, e.ls)
                   && AgentComesUp(e.agent) && Stampable(Subtree(AfterRestore(w, h).fs, HostDir(h)), h) && e.reply))
            && (r.ok ==> r.w.log == w.log + [AgentSeen, Reply(true)])
            && r.w.machines == w.machines && r.w.config == w.config && r.w.expiry == w.expiry
  {
    FetchMeans(w, h, e.found);
    if Fetch(w, h, e.found).Some? {
      var v := Fetch(w, h, e.found).value;
      ProvideRestores(w, h, e);
      SubtreeDirectories(AfterRestore(w, h).fs, h);
      ActivationWorks(v, h, e, Subtree(AfterRestore(w, h).fs, HostDir(h)));
      ActivatedReplies(v, h, e);
      ActivatedKeepsRest(v, h, e);
    }
  }

  // ---------- no reply without the agent ----------

  // Only machines made and deleted were noted since.
  ghost predicate QuietSince(a: seq<Observation>, b: seq<Observation>) {
    a <= b && forall i :: |a| <= i < |b| ==> b[i].Made? || b[i].Deleted?
  }

  lemma QuietSnoc(a: seq<Observation>, b: seq<Observation>, o: Observation)
    requires QuietSince(a, b) && (o.Made? || o.Deleted?)
    ensures QuietSince(a, b + [o])
  {
  }

  lemma CleanupQuiet(a: seq<Observation>, w: World, h: Host, ls: Ls, rm: Rm)
    requires QuietSince(a, w.log)
    ensures QuietSince(a, Cleanup(w, h, ls, rm).log)
  {
    if Recorded(w.fs, h).Some? {
      QuietSnoc(a, w.log, Deleted(Recorded(w.fs, h).value));
    }
  }

  lemma TryQuiet(v: World, h: Host, e: Creation)
    ensures QuietSince(v.log, TryAndClean(v, h, e).w.log)
  {
    TryLeaves(v, h, e);
    if e.command.made.Some? {
      QuietSnoc(v.log, v.log, Made(e.command.made.value));
    }
    CleanupQuiet(v.log, Try(v, h, e).w, h, e.ls, e.rm);
  }

  lemma ProvideQuiet(v: World, h: Host, e: CreateEvent)
    requires v.config.Unset? ==> Ready(v, h) && Subtree(v.fs, HostDir(h)) == EmptyDir()
    ensures QuietSince(v.log, Provide(v, h, e).w.log)
  {
    if v.config.Unset? {
      FetchAgain(v, h, e.creation.found);
      NoStamp(v.fs, h);
      TryQuiet(v, h, e.creation);
    }
  }

  // An event without an agent that shows up with an id fails and replies nothing; so does one
  // that cannot list the machines of a restored host.
  lemma NoAgentNoReply(w: World, h: Host, e: CreateEvent)
    requires ValidHost(h) && Tidy(w, h)
    requires !AgentComesUp(e.agent) || (w.config.Encoded? && !Listing(w, h, e.ls))
    ensures !Create(w, h, e).ok && QuietSince(w.log, Create(w, h, e).w.log)
  {
    FetchMeans(w, h, e.found);
    if Fetch(w, h, e.found).Some? {
      var v := Fetch(w, h, e.found).value;
      if w.config.Unset? {
        FetchEmpties(w, h, e.found);
      } else {
        ProvideRestores(w, h, e);
      }
      ProvideQuiet(v, h, e);
      NotRegistered(v, h, e);
    }
  }

  lemma NotRegistered(v: World, h: Host, e: CreateEvent)
    requires !AgentComesUp(e.agent) || !Provide(v, h, e).ok
    ensures !Activated(v, h, e).ok && Activated(v, h, e).w.log == Provide(v, h, e).w.log
  {
    AgentFoundMeans(e.agent.containers);
    AgentIdShownMeans(e.agent.polls);
  }
}
