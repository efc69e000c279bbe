// What holds over whole runs of create and purge events for one host.
module Runs {
  import opened GoStrings
  import opened Paths
  import opened FileSystems
  import opened Archive
  import opened Lifecycle

  datatype Event =
    | CreateHost(create: CreateEvent)
    | PurgeHost(purge: PurgeEvent)
    | ApiUpdate(config: Config)   // somebody else sets the host's ExtractedConfig

  // The configuration is never cleared.
  ghost predicate ValidEvent(e: Event) {
    match e
    case CreateHost(c) => ValidCreation(c.creation)
    case PurgeHost(p) => true
    case ApiUpdate(config) => config.Encoded?
  }

  ghost function Step(w: World, h: Host, e: Event): World {
    match e
    case CreateHost(c) => Create(w, h, c).w
    case PurgeHost(p) => Purge(w, h, p).w
    case ApiUpdate(config) => w.(config := config)
  }

  ghost function Run(w: World, h: Host, events: seq<Event>): World {
    if events == [] then w
    else
      var n := |events| - 1;
      Step(Run(w, h, events[..n]), h, events[n])
  }

  lemma {:induction false} RunStep(w: World, h: Host, events: seq<Event>, n: nat)
    requires n < |events|
    ensures Run(w, h, events[..n + 1]) == Step(Run(w, h, events[..n]), h, events[n])
  {
    assert events[..n + 1][..n] == events[..n];
  }

  // ---------- the host directory between events ----------

  ghost predicate EmptyOrAbsent(fs: Fs, d: Path) {
    d !in fs || (fs[d].Directory? && Subtree(fs, d) == EmptyDir())
  }

  // Between events, a host without a stored configuration has nothing in its directory.
  ghost predicate Tidy(w: World, h: Host) {
    Orderly(w.fs) && (w.config.Unset? ==> EmptyOrAbsent(w.fs, HostDir(h)))
  }

  ghost predicate IsDir(fs: Fs, d: Path) {
    d in fs && fs[d].Directory?
  }

  lemma AbsentSubtree(fs: Fs, d: Path)
    requires WellFormed(fs) && d !in fs
    ensures forall r :: d + r !in fs
  {
    forall r ensures d + r !in fs {
      if r == [] {
        assert d + r == d;
      } else {
        assert Above(d, d + r);
      }
    }
  }

  lemma FetchEmpties(w: World, h: Host, found: bool)
    requires ValidHost(h) && Orderly(w.fs) && EmptyOrAbsent(w.fs, HostDir(h)) && Fetch(w, h, found).Some?
    ensures var v := Fetch(w, h, found).value;
            && Orderly(v.fs) && IsDir(v.fs, HostDir(h)) && Subtree(v.fs, HostDir(h)) == EmptyDir()
            && v == w.(fs := v.fs)
  {
    var d := HostDir(h);
    FetchKeeps(w, h, found);
    var v := Fetch(w, h, found).value;
    if d !in w.fs {
      MkdirAllAdds(w.fs, d);
      AbsentSubtree(w.fs, d);
      forall r ensures r in Subtree(v.fs, d) <==> r == [] {
        SubtreeAt(v.fs, d, r);
        assert d + [] == d;
        assert Within(d + r, d) ==> |r| == 0;
      }
      SubtreeAt(v.fs, d, []);
    }
  }

  lemma FetchAgain(w: World, h: Host, found: bool)
    requires IsDir(w.fs, HostDir(h))
    ensures Fetch(w, h, found) == if found then Some(w) else None
  {
  }

  // In an empty host directory there is no stamp.
  lemma {:induction false} NoStamp(fs: Fs, h: Host)
    requires WellFormed(fs) && IsDir(fs, HostDir(h)) && Subtree(fs, HostDir(h)) == EmptyDir()
    ensures NotExist(fs, CreatedStamp(h))
  {
    var d := HostDir(h);
    var m := ["machines", h.hostname];
    SubtreeAt(fs, d, m + ["created"]);
    SubtreeAt(fs, d, m);
    SubtreeAt(fs, d, ["machines"]);
    assert CreatedStamp(h) == d + (m + ["created"]);
    assert Parent(CreatedStamp(h)) == d + m;
    assert Parent(d + m) == d + ["machines"];
    assert Parent(d + ["machines"]) == d;
    assert NotExist(fs, d + ["machines"]);
    assert NotExist(fs, d + m);
  }

  lemma AllGone(w: World, h: Host)
    requires ValidHost(h) && Orderly(w.fs)
    ensures Orderly(Emptied(w, h).fs) && HostDir(h) !in Emptied(w, h).fs
  {
    RemoveKeeps(w.fs, HostDir(h));
    assert Within(HostDir(h), HostDir(h));
  }

  // ---------- every part of an event keeps the file system in order ----------

  ghost predicate Ready(w: World, h: Host) {
    Orderly(w.fs) && IsDir(w.fs, HostDir(h))
  }

  lemma HandleKeeps(w: World, h: Host, handling: Handling)
    requires ValidHost(h) && Ready(w, h) && ValidHandling(handling)
    ensures Ready(w.(fs := Handled(w.fs, h, handling)), h)
    ensures Handle(w.fs, h, handling).Some? ==> Handle(w.fs, h, handling).value == Handled(w.fs, h, handling)
  {
    HostPaths(h);
    if handling.Save? || handling.Garbled? {
      var p, c := HostDir(h) + [handling.name], Text(if handling.Save? then handling.data else "");
      if WriteFile(w.fs, p, c).Some? {
        WriteKeeps(w.fs, p, c);
      }
    }
  }

  lemma TouchKeeps(w: World, h: Host)
    requires ValidHost(h) && Orderly(w.fs)
    ensures Orderly(Touch(w, h).w.fs) && (Ready(w, h) ==> Ready(Touch(w, h).w, h))
  {
    HostPaths(h);
    if WriteFile(w.fs, CreatedStamp(h), Text("")).Some? {
      WriteKeeps(w.fs, CreatedStamp(h), Text(""));
    }
  }

  lemma TarKeeps(w: World, h: Host, entries: seq<Entry>)
    requires ValidHost(h) && Ready(w, h) && WriteFile(w.fs, TarPath(HostDir(h), h.hostname), Text("")).Some?
    ensures Orderly(w.fs[TarPath(HostDir(h), h.hostname) := File(TarGz(entries))])
  {
    HostPaths(h);
    PlainTarName(h.hostname);
    WriteKeeps(w.fs, TarPath(HostDir(h), h.hostname), TarGz(entries));
  }

  lemma ExtractKeeps(w: World, h: Host, archiving: Archiving, updates: nat -> bool)
    requires ValidHost(h) && Ready(w, h)
    ensures Orderly(Extract(w, h, archiving, updates).w.fs)
  {
    var config := ArchiveConfig(h, ArchivedTree(w.fs, h));
    if WriteFile(w.fs, TarPath(HostDir(h), h.hostname), Text("")).Some? && config.Encoded? {
      TarKeeps(w, h, if archiving.WalkFails? then Front(config.entries, archiving.entries) else config.entries);
    }
  }

  lemma RemoveRmKeeps(w: World, h: Host, rm: Rm)
    requires ValidHost(h) && Orderly(w.fs)
    ensures Orderly(Remove(w, h, rm).w.fs)
  {
    RemoveKeeps(w.fs, MachineDir(h));
  }

  lemma CleanupKeeps(w: World, h: Host, ls: Ls, rm: Rm)
    requires ValidHost(h) && Orderly(w.fs)
    ensures Orderly(Cleanup(w, h, ls, rm).fs)
  {
    RemoveRmKeeps(w, h, rm);
    RemoveKeeps(Remove(w, h, rm).w.fs, HostDir(h));
  }

  lemma TryKeeps(w: World, h: Host, e: Creation)
    requires ValidHost(h) && Ready(w, h) && ValidCreation(e)
    ensures Orderly(Try(w, h, e).w.fs)
  {
    if e.template {
      HandleKeeps(w, h, e.handling);
      var w1 := w.(fs := Handled(w.fs, h, e.handling));
      CommandKeeps(w1, h, e.command);
      var w2 := AfterCommand(w1, h, e.command);
      TouchKeeps(w2, h);
      ExtractKeeps(Touch(w2, h).w, h, e.archiving, e.updates);
    }
  }

  lemma CreatingKeeps(w: World, h: Host, e: Creation)
    requires ValidHost(h) && Orderly(w.fs) && ValidCreation(e)
    ensures Orderly(Creating(w, h, e).w.fs)
  {
    if Fetch(w, h, e.found).Some? {
      FetchKeeps(w, h, e.found);
      var v := Fetch(w, h, e.found).value;
      TryKeeps(v, h, e);
      CleanupKeeps(Try(v, h, e).w, h, e.ls, e.rm);
    }
  }

  lemma ActivatedKeeps(w: World, h: Host, e: CreateEvent)
    requires ValidHost(h) && Orderly(w.fs) && ValidCreation(e.creation)
    ensures Orderly(Activated(w, h, e).w.fs)
  {
    CreatingKeeps(w, h, e.creation);
    RestoreKeeps(w.fs, w.config, Abs(HostDir(h)));
    var r0 := Provide(w, h, e);
    if Fetch(r0.w, h, e.agent.found).Some? {
      FetchKeeps(r0.w, h, e.agent.found);
    }
    TouchKeeps(Register(r0.w, h, e.agent).w, h);
  }

  // Without a configuration there is nothing to restore.
  lemma NothingToRestore(w: World, h: Host)
    requires ValidHost(h) && Ready(w, h) && w.config.Unset?
    ensures RestoreResult(w.fs, w.config, Abs(HostDir(h))) == Restored(w.fs, true)
  {
    HostPaths(h);
    DirAbs(HostDir(h));
    ResolveAbs(Parent(HostDir(h)));
    assert Above(Parent(HostDir(h)), HostDir(h));
  }

  // ---------- the invariant ----------

  lemma CreateKeepsTidy(w: World, h: Host, e: CreateEvent)
    requires ValidHost(h) && Tidy(w, h) && ValidCreation(e.creation)
    ensures Tidy(Create(w, h, e).w, h)
  {
    if Fetch(w, h, e.found).Some? {
      FetchKeeps(w, h, e.found);
      var v := Fetch(w, h, e.found).value;
      ActivatedKeeps(v, h, e);
      AllGone(Activated(v, h, e).w, h);
    }
  }

  lemma PurgeKeepsTidy(w: World, h: Host, e: PurgeEvent)
    requires ValidHost(h) && Tidy(w, h)
    ensures Tidy(Purge(w, h, e).w, h)
  {
    if !CacheHit(w, e.now) && Fetch(w, h, e.found).Some? {
      FetchKeeps(w, h, e.found);
      var v := Fetch(w, h, e.found).value;
      RestoreKeeps(v.fs, v.config, Abs(HostDir(h)));
      var r := RestoreResult(v.fs, v.config, Abs(HostDir(h)));
      if r.ok {
        var u := v.(fs := r.fs);
        RemoveRmKeeps(u, h, e.rm);
        AllGone(PurgeRestored(u, h, e).w, h);
      } else if v.config.Unset? {
        NothingToRestore(v, h);
      }
    }
  }

  lemma StepKeepsTidy(w: World, h: Host, e: Event)
    requires ValidHost(h) && Tidy(w, h) && ValidEvent(e)
    ensures Tidy(Step(w, h, e), h)
  {
    match e
    case CreateHost(c) => CreateKeepsTidy(w, h, c);
    case PurgeHost(p) => PurgeKeepsTidy(w, h, p);
    case ApiUpdate(config) =>
  }

  // In every run, an unset ExtractedConfig means an absent or empty host directory.
  lemma {:induction false} RunKeepsTidy(w: World, h: Host, events: seq<Event>)
    requires ValidHost(h) && Tidy(w, h) && forall e :: e in events ==> ValidEvent(e)
    ensures Tidy(Run(w, h, events), h)
  {
    if events != [] {
      var n := |events| - 1;
      RunKeepsTidy(w, h, events[..n]);
      StepKeepsTidy(Run(w, h, events[..n]), h, events[n]);
    }
  }

  // ---------- one final reply ----------

  function Replies(log: seq<Observation>): nat {
    if log == [] then 0
    else
      var n := |log| - 1;
      Replies(log[..n]) + (if log[n].Reply? then 1 else 0)
  }

  lemma {:induction false} RepliesSnoc(log: seq<Observation>, o: Observation)
    ensures Replies(log + [o]) == Replies(log) + (if o.Reply? then 1 else 0)
  {
    assert (log + [o])[..|log|] == log;
  }

  lemma CleanupReplies(w: World, h: Host, ls: Ls, rm: Rm)
    ensures Replies(Remove(w, h, rm).w.log) == Replies(w.log)
    ensures Replies(Cleanup(w, h, ls, rm).log) == Replies(w.log)
  {
    match Recorded(w.fs, h)
    case None =>
    case Some(id) => RepliesSnoc(w.log, Deleted(id));
  }

  // The archive is nobody else's business.
  lemma ExtractLeaves(w: World, h: Host, archiving: Archiving, updates: nat -> bool)
    ensures var x := Extract(w, h, archiving, updates).w;
            x.log == w.log && x.machines == w.machines && x.expiry == w.expiry
  {
  }

  lemma TryLeaves(w: World, h: Host, e: Creation)
    ensures var x := Try(w, h, e).w;
            x.expiry == w.expiry && (x.log == w.log ||
                (e.command.made.Some? && x.log == w.log + [Made(e.command.made.value)]))
  {
    var w2 := AfterCommand(w.(fs := Handled(w.fs, h, e.handling)), h, e.command);
    ExtractLeaves(Touch(w2, h).w, h, e.archiving, e.updates);
  }

  lemma TryReplies(w: World, h: Host, e: Creation)
    ensures Replies(Try(w, h, e).w.log) == Replies(w.log)
  {
    TryLeaves(w, h, e);
    if e.command.made.Some? {
      RepliesSnoc(w.log, Made(e.command.made.value));
    }
  }

  // createMachine found a stamp, and replied on its own.
  ghost predicate RepliedEarly(w: World, h: Host, e: Creation) {
    match Fetch(w, h, e.found)
    case None => false
    case Some(v) => e.templated && !NotExist(v.fs, CreatedStamp(h))
  }

  lemma CreatingReplies(w: World, h: Host, e: Creation)
    ensures Replies(Creating(w, h, e).w.log) == Replies(w.log) + (if RepliedEarly(w, h, e) then 1 else 0)
  {
    match Fetch(w, h, e.found)
    case None =>
    case Some(v) =>
      RepliesSnoc(v.log, Reply(e.earlyReply));
      TryReplies(v, h, e);
      CleanupReplies(Try(v, h, e).w, h, e.ls, e.rm);
  }

  // The early reply of a create event, if there is one.
  ghost predicate EarlyReply(w: World, h: Host, e: CreateEvent) {
    match Fetch(w, h, e.found)
    case None => false
    case Some(v) => v.config.Unset? && RepliedEarly(v, h, e.creation)
  }

  lemma TidyMeansNoEarlyReply(w: World, h: Host, e: CreateEvent)
    requires ValidHost(h) && Tidy(w, h)
    ensures !EarlyReply(w, h, e)
  {
    match Fetch(w, h, e.found)
    case None =>
    case Some(v) =>
      if v.config.Unset? {
        FetchEmpties(w, h, e.found);
        FetchAgain(v, h, e.creation.found);
        NoStamp(v.fs, h);
      }
  }

  // A create event that returns nil has just seen the agent's id and then replied.
  lemma ActivatedReplies(w: World, h: Host, e: CreateEvent)
    ensures var r, r0 := Activated(w, h, e), Provide(w, h, e);
            && (r.ok ==> r.w.log == r0.w.log + [AgentSeen, Reply(true)])
            && (!r.ok ==> r.w.log in {r0.w.log, r0.w.log + [AgentSeen], r0.w.log + [AgentSeen, Reply(false)]})
  {
    var r0 := Provide(w, h, e);
    assert r0.w.log + [AgentSeen] + [Reply(e.reply)] == r0.w.log + [AgentSeen, Reply(e.reply)];
  }

  lemma CreateReplies(w: World, h: Host, e: CreateEvent)
    ensures var r := Create(w, h, e);
            var n := Replies(r.w.log) - Replies(w.log);
            var early := if EarlyReply(w, h, e) then 1 else 0;
            && (r.ok ==> n == early + 1 && |r.w.log| >= 2 && r.w.log[|r.w.log| - 2..] == [AgentSeen, Reply(true)])
            && (!r.ok ==> early <= n <= early + 1)
  {
    match Fetch(w, h, e.found)
    case None =>
    case Some(v) =>
      var r0 := Provide(v, h, e);
      CreatingReplies(v, h, e.creation);
      ActivatedReplies(v, h, e);
      forall b: bool ensures Replies(r0.w.log + [AgentSeen, Reply(b)]) == Replies(r0.w.log) + 1 {
        RepliesSnoc(r0.w.log, AgentSeen);
        RepliesSnoc(r0.w.log + [AgentSeen], Reply(b));
        assert r0.w.log + [AgentSeen] + [Reply(b)] == r0.w.log + [AgentSeen, Reply(b)];
      }
      RepliesSnoc(r0.w.log, AgentSeen);
  }

  // In every run that starts tidy, a create event publishes exactly one final reply when it
  // returns nil, right after it saw an agent id, and at most one otherwise.
  lemma {:induction false} OneFinalReply(w: World, h: Host, events: seq<Event>, e: CreateEvent)
    requires ValidHost(h) && Tidy(w, h) && forall x :: x in events ==> ValidEvent(x)
    ensures var v := Run(w, h, events);
            var r := Create(v, h, e);
            && (r.ok ==> Replies(r.w.log) == Replies(v.log) + 1 && |r.w.log| >= 2
                         && r.w.log[|r.w.log| - 2..] == [AgentSeen, Reply(true)])
            && (!r.ok ==> Replies(v.log) <= Replies(r.w.log) <= Replies(v.log) + 1)
            && !EarlyReply(v, h, e)
  {
    RunKeepsTidy(w, h, events);
    TidyMeansNoEarlyReply(Run(w, h, events), h, e);
    CreateReplies(Run(w, h, events), h, e);
  }

  // ---------- no left-over machine ----------

  // The machine that docker-machine's record in the tree of a host directory names.
  function RecordIn(t: Fs, h: Host): Option<nat> {
    var p := ["machines", h.hostname, "config.json"];
    if p in t && t[p].File? && t[p].content.MachineConfig? then Some(t[p].content.id) else None
  }

  // What docker-machine create can be relied on for: it makes a new machine and records it, or
  // it makes and records none, and then it fails.
  ghost predicate Faithful(w: World, h: Host, c: Command) {
    && RecordIn(c.tree, h) == c.made
    && (c.ok ==> c.made.Some?)
    && (c.made.Some? ==> c.made.value !in w.machines)
  }

  lemma RecordedIn(fs: Fs, h: Host)
    ensures Recorded(fs, h) == RecordIn(Subtree(fs, HostDir(h)), h)
  {
    var p := ["machines", h.hostname, "config.json"];
    SubtreeAt(fs, HostDir(h), p);
    assert MachineDir(h) + ["config.json"] == HostDir(h) + p;
  }

  ghost predicate CommandRuns(e: Creation) {
    e.template && e.built && e.started
  }

  // The host directory as docker-machine create finds it, if the event gets that far.
  ghost function BeforeCommand(w: World, h: Host, e: CreateEvent): Option<World> {
    match Fetch(w, h, e.found)
    case None => None
    case Some(v) =>
      if !v.config.Unset? then None
      else
        match Fetch(v, h, e.creation.found)
        case None => None
        case Some(u) =>
          if e.creation.templated && NotExist(u.fs, CreatedStamp(h)) && CommandRuns(e.creation) then
            match Handle(u.fs, h, e.creation.handling)
            case None => None
            case Some(fs) => Some(u.(fs := fs))
          else None
  }

  // createMachine set machineCreated.
  ghost predicate MachineCreated(w: World, h: Host, e: CreateEvent) {
    BeforeCommand(w, h, e).Some? && e.creation.command.ok
  }

  // The cleanup finds the machine and gets rid of it.
  ghost predicate CleansUp(fs: Fs, h: Host, e: Creation) {
    Lists(fs, h, e.ls) && (e.rm.RmOk? || e.rm.gone)
  }

  lemma CleanupMachines(w: World, h: Host, e: Creation)
    requires HostDir(h) in w.fs
    ensures Cleanup(w, h, e.ls, e.rm).machines ==
              if CleansUp(w.fs, h, e) && Recorded(w.fs, h).Some? then w.machines - {Recorded(w.fs, h).value}
                  else w.machines
  {
    ExistsMeans(w.fs, h, e.ls);
  }

  // Handling adds at most one file, so no record.
  lemma HandledRecord(w: World, h: Host, handling: Handling)
    requires Ready(w, h) && Subtree(w.fs, HostDir(h)) == EmptyDir()
    ensures Recorded(w.fs, h).None?
    ensures Recorded(Handled(w.fs, h, handling), h).None?
  {
    var p := ["machines", h.hostname, "config.json"];
    SubtreeAt(w.fs, HostDir(h), p);
    assert MachineDir(h) + ["config.json"] == HostDir(h) + p;
    if handling.Save? || handling.Garbled? {
      assert |HostDir(h) + [handling.name]| == |HostDir(h)| + 1;
    }
  }

  // A recorded machine is listed.
  lemma RecordListed(fs: Fs, h: Host)
    requires WellFormed(fs) && Recorded(fs, h).Some?
    ensures Lists(fs, h, LsOk)
  {
    assert Above(MachineDir(h), MachineDir(h) + ["config.json"]);
    assert MachineDir(h) == HostDir(h) + ["machines"] + [h.hostname];
    assert Exists(fs, h, LsOk) == Some(true);
    ExistsMeans(fs, h, LsOk);
  }

  lemma NothingMade(u: World, h: Host, e: Creation, fs: Fs)
    requires HostDir(h) in fs && Recorded(fs, h).None?
    ensures Cleanup(u.(fs := fs), h, e.ls, e.rm).machines == u.machines
  {
    CleanupMachines(u.(fs := fs), h, e);
  }

  // What becomes of the machine that docker-machine create made.
  lemma CommandMachines(w: World, h: Host, e: Creation)
    requires ValidHost(h) && Ready(w, h) && ValidCreation(e) && Faithful(w, h, e.command) && !e.command.ok
    ensures var v := AfterCommand(w, h, e.command);
            var made := e.command.made;
            Cleanup(v, h, e.ls, e.rm).machines ==
              if made.Some? && !CleansUp(v.fs, h, e) then w.machines + {made.value} else w.machines
  {
    CommandKeeps(w, h, e.command);
    var v := AfterCommand(w, h, e.command);
    RecordedIn(v.fs, h);
    CleanupMachines(v, h, e);
  }

  lemma TryMachines(u: World, h: Host, e: Creation)
    requires ValidHost(h) && Ready(u, h) && ValidCreation(e) && Faithful(u, h, e.command)
    requires Subtree(u.fs, HostDir(h)) == EmptyDir()
    requires !(CommandRuns(e) && Handle(u.fs, h, e.handling).Some? && e.command.ok)
    ensures var r := TryAndClean(u, h, e).w;
            var made := e.command.made;
            if !CommandRuns(e) || Handle(u.fs, h, e.handling).None? then r.machines == u.machines
            else
              var v := AfterCommand(u.(fs := Handle(u.fs, h, e.handling).value), h, e.command);
              r.machines == if made.Some? && !CleansUp(v.fs, h, e) then u.machines + {made.value} else u.machines
  {
    HandledRecord(u, h, e.handling);
    HandleKeeps(u, h, e.handling);
    var fs := Handled(u.fs, h, e.handling);
    if !e.template {
      NothingMade(u, h, e, u.fs);
    } else if Handle(u.fs, h, e.handling).None? || !e.built || !e.started {
      NothingMade(u, h, e, fs);
    } else {
      CommandMachines(u.(fs := fs), h, e);
    }
  }

  // A machine made by an event that did not get to machineCreated is left over exactly when the
  // cleanup cannot list it or cannot delete it.
  lemma LeftOverMachine(w: World, h: Host, e: CreateEvent)
    requires ValidHost(h) && Tidy(w, h) && ValidCreation(e.creation) && Faithful(w, h, e.creation.command)
    requires !MachineCreated(w, h, e)
    ensures var r := Create(w, h, e).w;
            var c := e.creation.command;
            match BeforeCommand(w, h, e)
            case None => r.machines == w.machines
            case Some(v) =>
              r.machines == if c.made.Some? && !CleansUp(AfterCommand(v, h, c).fs, h, e.creation)
                            then w.machines + {c.made.value} else w.machines
  {
    ActivatedMachines(w, h, e);
    match Fetch(w, h, e.found)
    case None =>
    case Some(v) =>
      if v.config.Unset? {
        FetchEmpties(w, h, e.found);
        FetchAgain(v, h, e.creation.found);
        if e.creation.found && e.creation.templated && NotExist(v.fs, CreatedStamp(h)) {
          TryMachines(v, h, e.creation);
        }
      }
  }

  // After createMachine nothing happens to machines.
  lemma ActivatedMachines(w: World, h: Host, e: CreateEvent)
    ensures match Fetch(w, h, e.found)
            case None => Create(w, h, e).w.machines == w.machines
            case Some(v) =>
              Create(w, h, e).w.machines == if v.config.Unset? then Creating(v, h, e.creation).w.machines
                  else w.machines
  {
  }

  // If ls and rm succeed whenever they are called, none is.
  lemma {:induction false} NoMachineLeftOver(w: World, h: Host, events: seq<Event>, e: CreateEvent)
    requires ValidHost(h) && Tidy(w, h) && forall x :: x in events ==> ValidEvent(x)
    requires var v := Run(w, h, events);
             ValidCreation(e.creation) && Faithful(v, h, e.creation.command) && !MachineCreated(v, h, e)
    requires e.creation.ls.LsOk? && e.creation.rm.RmOk?
    ensures Create(Run(w, h, events), h, e).w.machines == Run(w, h, events).machines
  {
    var v := Run(w, h, events);
    RunKeepsTidy(w, h, events);
    LeftOverMachine(v, h, e);
    var u := BeforeCommand(v, h, e);
    if u.Some? && e.creation.command.made.Some? {
      FetchEmpties(v, h, e.found);
      var v1 := Fetch(v, h, e.found).value;
      FetchAgain(v1, h, e.creation.found);
      HandleKeeps(v1, h, e.creation.handling);
      var c := e.creation.command;
      CommandKeeps(u.value, h, c);
      RecordedIn(AfterCommand(u.value, h, c).fs, h);
      RecordListed(AfterCommand(u.value, h, c).fs, h);
    }
  }

  // The cleanup has to come before the removal of the host directory: after it, it does nothing.
  lemma CleanupTooLate(w: World, h: Host, ls: Ls, rm: Rm)
    ensures Cleanup(Emptied(w, h), h, ls, rm) == Emptied(w, h)
  {
    assert Within(HostDir(h), HostDir(h));
  }

  // ---------- purges ----------

  // The purge gets past the cache lookup and records its success.
  ghost predicate Records(w: World, h: Host, e: PurgeEvent) {
    !CacheHit(w, e.now) &&
    match Fetch(w, h, e.found)
    case None => false
    case Some(v) =>
      var r := RestoreResult(v.fs, v.config, Abs(HostDir(h)));
      var u := v.(fs := r.fs);
      r.ok && (e.ls.LsOk? || Lists(u.fs, h, e.ls)) && (Lists(u.fs, h, e.ls) ==> e.rm.RmOk?)
  }

  lemma RestoredExpiry(u: World, h: Host, e: PurgeEvent)
    requires !CacheHit(u, e.now) && e.now <= e.later
    ensures PurgeRestored(u, h, e).w.expiry ==
              if (e.ls.LsOk? || Lists(u.fs, h, e.ls)) && (Lists(u.fs, h, e.ls) ==> e.rm.RmOk?)
              then Some(e.later + LIFETIME) else u.expiry
  {
    ExistsMeans(u.fs, h, e.ls);
    assert Remove(u, h, e.rm).w.expiry == u.expiry;
  }

  lemma PurgeExpiry(w: World, h: Host, e: PurgeEvent)
    requires e.now <= e.later
    ensures Purge(w, h, e).w.expiry == if Records(w, h, e) then Some(e.later + LIFETIME) else w.expiry
  {
    if !CacheHit(w, e.now) && Fetch(w, h, e.found).Some? {
      var v := Fetch(w, h, e.found).value;
      var r := RestoreResult(v.fs, v.config, Abs(HostDir(h)));
      RestoredExpiry(v.(fs := r.fs), h, e);
    }
  }

  lemma CreateExpiry(w: World, h: Host, e: CreateEvent)
    ensures Create(w, h, e).w.expiry == w.expiry
  {
    match Fetch(w, h, e.found)
    case None =>
    case Some(v) =>
      CreatingExpiry(v, h, e.creation);
      assert Provide(v, h, e).w.expiry == w.expiry;
      assert Activated(v, h, e).w.expiry == w.expiry;
  }

  lemma CreatingExpiry(w: World, h: Host, e: Creation)
    ensures Creating(w, h, e).w.expiry == w.expiry
  {
    match Fetch(w, h, e.found)
    case None =>
    case Some(v) => TryLeaves(v, h, e);
  }

  // The clock does not go back during or between purges.
  ghost predicate Clocked(events: seq<Event>) {
    && (forall i :: 0 <= i < |events| && events[i].PurgeHost? ==> events[i].purge.now <= events[i].purge.later)
    && (forall i, j :: 0 <= i < j < |events| && events[i].PurgeHost? && events[j].PurgeHost? ==>
          events[i].purge.later <= events[j].purge.now)
  }

  ghost predicate ExpiresAfter(w: World, time: int) {
    w.expiry.Some? && w.expiry.value >= time + LIFETIME
  }

  ghost predicate NotBefore(e: Event, time: int) {
    e.PurgeHost? ==> time <= e.purge.now <= e.purge.later
  }

  // No step lets the expiry go back.
  lemma StepExpiry(w: World, h: Host, e: Event, time: int)
    requires ExpiresAfter(w, time) && NotBefore(e, time)
    ensures ExpiresAfter(Step(w, h, e), time)
  {
    match e
    case CreateHost(c) => CreateExpiry(w, h, c);
    case PurgeHost(p) => PurgeExpiry(w, h, p);
    case ApiUpdate(config) =>
  }

  lemma {:induction false} ExpiryHolds(w: World, h: Host, events: seq<Event>, i: nat, n: nat, time: int)
    requires i <= n <= |events| && ExpiresAfter(Run(w, h, events[..i]), time)
    requires forall k :: i <= k < |events| ==> NotBefore(events[k], time)
    ensures ExpiresAfter(Run(w, h, events[..n]), time)
  {
    if i < n {
      ExpiryHolds(w, h, events, i, n - 1, time);
      StepExpiry(Run(w, h, events[..n - 1]), h, events[n - 1], time);
      RunStep(w, h, events, n - 1);
    }
  }

  lemma {:induction false} ExpiryGrows(w: World, h: Host, events: seq<Event>, i: nat, n: nat)
    requires Clocked(events) && i < n <= |events| && events[i].PurgeHost?
    requires Records(Run(w, h, events[..i]), h, events[i].purge)
    ensures ExpiresAfter(Run(w, h, events[..n]), events[i].purge.later)
  {
    var time := events[i].purge.later;
    PurgeExpiry(Run(w, h, events[..i]), h, events[i].purge);
    RunStep(w, h, events, i);
    ExpiryHolds(w, h, events, i + 1, n, time);
  }

  // Two recorded purges of the host are more than the cache's lifetime apart, and any purge
  // within that lifetime only publishes its reply.
  lemma {:induction false} PurgesSpaced(w: World, h: Host, events: seq<Event>, i: nat, j: nat)
    requires Clocked(events) && i < j < |events| && events[i].PurgeHost? && events[j].PurgeHost?
    requires Records(Run(w, h, events[..i]), h, events[i].purge)
    ensures var v := Run(w, h, events[..j]);
            var e := events[j].purge;
            && (Records(v, h, e) ==> e.now > events[i].purge.later + LIFETIME)
            && (e.now <= events[i].purge.later + LIFETIME ==>
                  Purge(v, h, e) == Outcome(v.(log := v.log + [Reply(e.reply)]), e.reply))
  {
    ExpiryGrows(w, h, events, i, j);
  }

  // No purge from i + 1 to n - 1 records its success.
  ghost predicate NoneRecorded(w: World, h: Host, events: seq<Event>, i: nat, n: nat)
    requires n <= |events|
  {
    forall k :: i < k < n && events[k].PurgeHost? ==> !Records(Run(w, h, events[..k]), h, events[k].purge)
  }

  lemma StepKeepsExpiry(w: World, h: Host, e: Event)
    requires KeepsExpiry(w, h, e)
    ensures Step(w, h, e).expiry == w.expiry
  {
    match e
    case CreateHost(c) => CreateExpiry(w, h, c);
    case PurgeHost(p) => PurgeExpiry(w, h, p);
    case ApiUpdate(config) =>
  }

  ghost predicate KeepsExpiry(w: World, h: Host, e: Event) {
    e.PurgeHost? ==> e.purge.now <= e.purge.later && !Records(w, h, e.purge)
  }

  lemma {:induction false} ExpiryKept(w: World, h: Host, events: seq<Event>, i: nat, n: nat, expiry: Option<int>)
    requires i <= n <= |events| && Run(w, h, events[..i]).expiry == expiry
    requires forall k :: i <= k < n ==> KeepsExpiry(Run(w, h, events[..k]), h, events[k])
    ensures Run(w, h, events[..n]).expiry == expiry
  {
    if i < n {
      ExpiryKept(w, h, events, i, n - 1, expiry);
      StepKeepsExpiry(Run(w, h, events[..n - 1]), h, events[n - 1]);
      RunStep(w, h, events, n - 1);
    }
  }

  lemma {:induction false} ExpiryStays(w: World, h: Host, events: seq<Event>, i: nat, n: nat)
    requires Clocked(events) && i < n <= |events| && events[i].PurgeHost?
    requires Records(Run(w, h, events[..i]), h, events[i].purge) && NoneRecorded(w, h, events, i, n)
    ensures Run(w, h, events[..n]).expiry == Some(events[i].purge.later + LIFETIME)
  {
    RunStep(w, h, events, i);
    PurgeExpiry(Run(w, h, events[..i]), h, events[i].purge);
    ExpiryKept(w, h, events, i + 1, n, Some(events[i].purge.later + LIFETIME));
  }

  // After a recorded purge, and until the next one, a purge finds the cache entry exactly if it
  // comes within the lifetime; then it only publishes its reply.
  lemma {:induction false} PurgesBetween(w: World, h: Host, events: seq<Event>, i: nat, j: nat)
    requires Clocked(events) && i < j < |events| && events[i].PurgeHost? && events[j].PurgeHost?
    requires Records(Run(w, h, events[..i]), h, events[i].purge) && NoneRecorded(w, h, events, i, j)
    ensures var v, e := Run(w, h, events[..j]), events[j].purge;
            && (CacheHit(v, e.now) <==> e.now <= events[i].purge.later + LIFETIME)
            && (CacheHit(v, e.now) ==> Purge(v, h, e) == Outcome(v.(log := v.log + [Reply(e.reply)]), e.reply))
  {
    ExpiryStays(w, h, events, i, j);
  }
}
