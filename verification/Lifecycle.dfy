// handlers/create.go, handlers/remove.go and handlers/common.go: what create and purge events do
// to a host's directory, its record in the API, the provider's machines and the purge cache.
module Lifecycle {
  import opened GoStrings
  import opened Paths
  import opened FileSystems
  import opened TreeWalk
  import opened Archive

  // ---------- the host, and the world around it ----------

  // What no event changes: the service's work directory and the host's names.
  datatype Host = Host(work: Path, uuid: string, hostname: string)

  predicate ValidHost(h: Host) {
    PlainPath(h.work) && Plain(h.uuid) && Plain(h.hostname)
  }

  function HostDir(h: Host): Path {
    h.work + ["machines", h.uuid]
  }

  function MachineDir(h: Host): Path {
    HostDir(h) + ["machines", h.hostname]
  }

  function CreatedStamp(h: Host): Path {
    MachineDir(h) + ["created"]
  }

  datatype Observation =
    | Reply(published: bool)
    | AgentSeen
    | Made(id: nat)
    | Deleted(id: nat)

  datatype World = World(
    fs: Fs,
    config: Config,         // ExtractedConfig of the host in the API
    machines: set<nat>,     // what runs at the provider
    expiry: Option<int>,    // when the host's entry in removeCache expires
    log: seq<Observation>)

  datatype Outcome = Outcome(w: World, ok: bool)

  // Five minutes, in nanoseconds.
  const LIFETIME := 300_000_000_000

  // ---------- what the environment does during one event ----------

  // docker-machine ls, when it fails, fails after printing some names.
  datatype Ls = LsOk | LsFails(printed: nat)

  // docker-machine rm, when it fails, may still have deleted the machine.
  datatype Rm = RmOk | RmFails(gone: bool)

  // The provider handler's preparation; a file whose data cannot be decoded is left empty.
  datatype Handling = NoFile | Save(name: string, data: string) | Garbled(name: string) | Refused

  // The archive of the host directory: made and read back, or given up after so many entries, or
  // made and not read.
  datatype Archiving = Archives | WalkFails(entries: nat) | ReadFails

  // docker-machine create: what it leaves in the host directory, the machine it made, its exit.
  datatype Command = Command(tree: Fs, made: Option<nat>, ok: bool)

  datatype Creation = Creation(
    found: bool, templated: bool, earlyReply: bool, template: bool, handling: Handling,
    built: bool, started: bool, command: Command, archiving: Archiving, updates: nat -> bool, ls: Ls, rm: Rm)

  datatype Containers = ListFails | Listed(names: seq<seq<string>>)

  datatype Poll = PollFails | Polled(agentId: string)

  datatype Agent = Agent(
    found: bool, registration: bool, client: bool, pulled: bool, created: bool, started: bool,
    containers: nat -> Containers, polls: nat -> Poll)

  datatype CreateEvent = CreateEvent(found: bool, ls: Ls, creation: Creation, agent: Agent, reply: bool)

  datatype PurgeEvent = PurgeEvent(now: int, found: bool, ls: Ls, rm: Rm, later: int, reply: bool)

  predicate ValidHandling(handling: Handling) {
    handling.Save? || handling.Garbled? ==> Plain(handling.name)
  }

  ghost predicate ValidCreation(e: Creation) {
    && WellFormed(e.command.tree) && PlainNames(e.command.tree)
    && ValidHandling(e.handling)
  }

  // ---------- the parts that both handlers use ----------

  // getHostAndHostDir
  ghost function Fetch(w: World, h: Host, found: bool): Option<World> {
    if !found then None
    else
      match MkdirAll(w.fs, HostDir(h))
      case None => None
      case Some(fs) => Some(w.(fs := fs))
  }

  // What docker-machine ls prints before it ends.
  ghost function Printed(fs: Fs, h: Host, ls: Ls): seq<string> {
    var names := Children(fs, HostDir(h) + ["machines"]);
    if ls.LsFails? && ls.printed <= |names| then names[..ls.printed] else names
  }

  ghost function Exists(fs: Fs, h: Host, ls: Ls): Option<bool> {
    if h.hostname in Printed(fs, h, ls) then Some(true)
    else if ls.LsOk? then Some(false)
    else None
  }

  // The machine that docker-machine's record of the host names.
  function Recorded(fs: Fs, h: Host): Option<nat> {
    var p := MachineDir(h) + ["config.json"];
    if p in fs && fs[p].File? && fs[p].content.MachineConfig? then Some(fs[p].content.id) else None
  }

  function Delete(w: World, h: Host): World {
    match Recorded(w.fs, h)
    case None => w
    case Some(id) => w.(machines := w.machines - {id}, log := w.log + [Deleted(id)])
  }

  // docker-machine rm -f
  ghost function Remove(w: World, h: Host, rm: Rm): Outcome {
    match rm
    case RmOk => Outcome(Delete(w, h).(fs := RemoveAll(w.fs, MachineDir(h))), true)
    case RmFails(gone) => Outcome(if gone then Delete(w, h) else w, false)
  }

  ghost function Emptied(w: World, h: Host): World {
    w.(fs := RemoveAll(w.fs, HostDir(h)))
  }

  // cleanupResources
  ghost function Cleanup(w: World, h: Host, ls: Ls, rm: Rm): World {
    if HostDir(h) in w.fs && Exists(w.fs, h, ls) == Some(true) then
      var r := Remove(w, h, rm);
      if r.ok then Emptied(r.w, h) else r.w
    else w
  }

  // os.Stat fails, and with an error that os.IsNotExist accepts.
  predicate NotExist(fs: Fs, p: Path) {
    p !in fs && (p == [] || (if Parent(p) in fs then fs[Parent(p)].Directory? else NotExist(fs, Parent(p))))
  }

  ghost function Touch(w: World, h: Host): Outcome {
    match WriteFile(w.fs, CreatedStamp(h), Text(""))
    case None => Outcome(w, false)
    case Some(fs) => Outcome(w.(fs := fs), true)
  }

  function Publish(w: World, works: bool): Outcome {
    Outcome(w.(log := w.log + [Reply(works)]), works)
  }

  // ---------- createMachine ----------

  ghost function Handle(fs: Fs, h: Host, handling: Handling): Option<Fs> {
    match handling
    case NoFile => Some(fs)
    case Save(name, data) => WriteFile(fs, HostDir(h) + [name], Text(data))
    case Garbled(_) => None
    case Refused => None
  }

  // The disk after the handling, whether it worked or not.
  ghost function Handled(fs: Fs, h: Host, handling: Handling): Fs {
    var written := match handling
      case NoFile => None
      case Save(name, data) => WriteFile(fs, HostDir(h) + [name], Text(data))
      case Garbled(name) => WriteFile(fs, HostDir(h) + [name], Text(""))
      case Refused => None;
    match written
    case None => fs
    case Some(g) => g
  }

  ghost function AfterCommand(w: World, h: Host, c: Command): World {
    var fs := Planted(w.fs, HostDir(h), c.tree);
    match c.made
    case None => w.(fs := fs)
    case Some(id) => w.(fs := fs, machines := w.machines + {id}, log := w.log + [Made(id)])
  }

  const UPDATES := 100

  ghost predicate Updated(updates: nat -> bool) {
    exists i :: 0 <= i < UPDATES && updates(i)
  }

  // The tree that the archive is made from.
  ghost function ArchivedTree(fs: Fs, h: Host): Fs {
    TreeToArchive(fs, HostDir(h), h.hostname)
  }

  ghost function ArchiveConfig(h: Host, t: Fs): Config {
    if WellFormed(t) then Encoded(ArchiveOf(HostDir(h), t), true) else Unset
  }

  // createExtractedConfig, encodeFile and the updates
  ghost function Extract(w: World, h: Host, archiving: Archiving, updates: nat -> bool): Outcome {
    var tar := TarPath(HostDir(h), h.hostname);
    var config := ArchiveConfig(h, ArchivedTree(w.fs, h));
    if WriteFile(w.fs, tar, Text("")).None? || config.Unset? then Outcome(w, false)
    else
      match archiving
      case WalkFails(n) => Outcome(w.(fs := w.fs[tar := File(TarGz(Front(config.entries, n)))]), false)
      case ReadFails => Outcome(w.(fs := w.fs[tar := File(TarGz(config.entries))]), false)
      case Archives =>
        Outcome(w.(fs := w.fs[tar := File(TarGz(config.entries))],
                   config := if Updated(updates) then config else w.config), true)
  }

  datatype Attempt = Attempt(w: World, machineCreated: bool, ok: bool)

  // From the registration of the deferred cleanup on.
  ghost function Try(w: World, h: Host, e: Creation): Attempt {
    if !e.template then Attempt(w, false, false)
    else
      var w1 := w.(fs := Handled(w.fs, h, e.handling));
      if Handle(w.fs, h, e.handling).None? || !e.built || !e.started then Attempt(w1, false, false)
      else
        var w2 := AfterCommand(w1, h, e.command);
        if !e.command.ok then Attempt(w2, false, false)
        else
          var r := Extract(Touch(w2, h).w, h, e.archiving, e.updates);
          Attempt(r.w, true, r.ok)
  }

  ghost function TryAndClean(w: World, h: Host, e: Creation): Outcome {
    var a := Try(w, h, e);
    Outcome(if a.machineCreated then a.w else Cleanup(a.w, h, e.ls, e.rm), a.ok)
  }

  ghost function Creating(w: World, h: Host, e: Creation): Outcome {
    match Fetch(w, h, e.found)
    case None => Outcome(w, false)
    case Some(v) =>
      if !e.templated then Outcome(v, false)
      else if !NotExist(v.fs, CreatedStamp(h)) then Publish(v, e.earlyReply)
      else TryAndClean(v, h, e)
  }

  // ---------- registerRancherAgent ----------

  const LISTINGS := 30
  const POLLS := 150
  const AGENT_NAME := "/rancher-agent"

  predicate HasAgent(c: Containers) {
    c.Listed? && exists j :: 0 <= j < |c.names| && c.names[j] != [] && c.names[j][0] == AGENT_NAME
  }

  // Every listing works, and one of them shows the agent.
  ghost predicate AgentListed(containers: nat -> Containers) {
    && (forall i :: 0 <= i < LISTINGS ==> containers(i).Listed?)
    && (exists i :: 0 <= i < LISTINGS && HasAgent(containers(i)))
  }

  predicate HasAgentId(p: Poll) {
    p.Polled? && p.agentId != ""
  }

  ghost predicate AgentRegistered(polls: nat -> Poll) {
    exists i :: 0 <= i < POLLS && HasAgentId(polls(i))
  }

  ghost predicate AgentRuns(a: Agent) {
    a.registration && a.client && a.pulled && a.created && a.started && AgentListed(a.containers) &&
        AgentRegistered(a.polls)
  }

  ghost function Register(w: World, h: Host, a: Agent): Outcome {
    match Fetch(w, h, a.found)
    case None => Outcome(w, false)
    case Some(v) => if AgentRuns(a) then Outcome(v.(log := v.log + [AgentSeen]), true) else Outcome(v, false)
  }

  // ---------- the two events ----------

  // isHostAlreadyCreated, or else createMachine
  ghost function Provide(w: World, h: Host, e: CreateEvent): Outcome {
    if w.config.Unset? then Creating(w, h, e.creation)
    else
      var r := RestoreResult(w.fs, w.config, Abs(HostDir(h)));
      Outcome(w.(fs := r.fs), r.ok && Exists(r.fs, h, e.ls).Some?)
  }

  ghost function Activated(w: World, h: Host, e: CreateEvent): Outcome {
    var r0 := Provide(w, h, e);
    if !r0.ok then r0
    else
      var r1 := Register(r0.w, h, e.agent);
      if !r1.ok then r1
      else
        var r2 := Touch(r1.w, h);
        if !r2.ok then r2 else Publish(r2.w, e.reply)
  }

  ghost function Create(w: World, h: Host, e: CreateEvent): Outcome {
    match Fetch(w, h, e.found)
    case None => Outcome(w, false)
    case Some(v) => var r := Activated(v, h, e); Outcome(Emptied(r.w, h), r.ok)
  }

  predicate CacheHit(w: World, now: int) {
    w.expiry.Some? && now <= w.expiry.value
  }

  // removeCache.Add keeps an entry that has not expired.
  function Remember(w: World, now: int): World {
    if CacheHit(w, now) then w else w.(expiry := Some(now + LIFETIME))
  }

  ghost function PurgeRestored(w: World, h: Host, e: PurgeEvent): Outcome {
    match Exists(w.fs, h, e.ls)
    case None => Outcome(w, false)
    case Some(exists_) =>
      var r := if exists_ then Remove(w, h, e.rm) else Outcome(w, true);
      if !r.ok then r else Publish(Remember(r.w, e.later), e.reply)
  }

  ghost function Purge(w: World, h: Host, e: PurgeEvent): Outcome {
    if CacheHit(w, e.now) then Publish(w, e.reply)
    else
      match Fetch(w, h, e.found)
      case None => Outcome(w, false)
      case Some(v) =>
        var r := RestoreResult(v.fs, v.config, Abs(HostDir(h)));
        if !r.ok then Outcome(v.(fs := r.fs), false)
        else
          var p := PurgeRestored(v.(fs := r.fs), h, e);
          Outcome(Emptied(p.w, h), p.ok)
  }

  // ---------- what keeps the file system in order ----------

  ghost predicate Orderly(fs: Fs) {
    WellFormed(fs) && PlainNames(fs)
  }

  lemma HostPaths(h: Host)
    requires ValidHost(h)
    ensures PlainPath(HostDir(h)) && PlainPath(MachineDir(h)) && PlainPath(CreatedStamp(h))
    ensures HostDir(h) != [] && Last(HostDir(h)) == h.uuid
  {
    assert Plain("machines") && Plain("created");
  }

  lemma FetchKeeps(w: World, h: Host, found: bool)
    requires ValidHost(h) && Orderly(w.fs) && Fetch(w, h, found).Some?
    ensures var v := Fetch(w, h, found).value;
            Orderly(v.fs) && HostDir(h) in v.fs && v.fs[HostDir(h)].Directory?
  {
    HostPaths(h);
    MkdirAllAdds(w.fs, HostDir(h));
    MkdirAllPlain(w.fs, HostDir(h));
    var g := MkdirAll(w.fs, HostDir(h)).value;
    assert Within(HostDir(h), HostDir(h));
  }

  lemma RemoveKeeps(fs: Fs, p: Path)
    requires Orderly(fs) && p != []
    ensures Orderly(RemoveAll(fs, p))
  {
    RemoveAllWellFormed(fs, p);
  }

  lemma WriteKeeps(fs: Fs, p: Path, c: Content)
    requires Orderly(fs) && PlainPath(p) && WriteFile(fs, p, c).Some?
    ensures Orderly(WriteFile(fs, p, c).value)
    ensures forall q :: q in fs && fs[q].Directory? ==>
        q in WriteFile(fs, p, c).value && WriteFile(fs, p, c).value[q].Directory?
  {
    WriteFileWellFormed(fs, p, c);
  }

  lemma CommandKeeps(w: World, h: Host, c: Command)
    requires ValidHost(h) && Orderly(w.fs) && HostDir(h) in w.fs && w.fs[HostDir(h)].Directory?
    requires Orderly(c.tree)
    ensures var v := AfterCommand(w, h, c);
            && Orderly(v.fs) && HostDir(h) in v.fs && v.fs[HostDir(h)].Directory?
            && Subtree(v.fs, HostDir(h)) == c.tree && Mounted(v.fs, w.fs, HostDir(h), c.tree)
  {
    var d := HostDir(h);
    var g := Planted(w.fs, d, c.tree);
    HostPaths(h);
    PlantedMounted(w.fs, d, c.tree);
    MountedSubtree(g, w.fs, d, c.tree);
    MountedKeepsWellFormed(g, w.fs, d, c.tree);
    forall p | p in g ensures PlainPath(p) {
      if Within(d, p) {
        assert d + p[|d|..] == p;
        assert p[|d|..] in c.tree;
      }
    }
  }

  // ---------- what the parts mean ----------

  // Nothing is in the way of the host directory.
  ghost predicate DirectoryFree(fs: Fs, h: Host) {
    forall q :: Within(q, HostDir(h)) && q in fs ==> fs[q].Directory?
  }

  lemma FetchMeans(w: World, h: Host, found: bool)
    requires WellFormed(w.fs)
    ensures Fetch(w, h, found).Some? <==> found && DirectoryFree(w.fs, h)
  {
    MkdirAllAdds(w.fs, HostDir(h));
  }

  // Stat says that p does not exist if nothing is there and no file stands in the way.
  lemma {:induction false} NotExistMeans(fs: Fs, p: Path)
    requires WellFormed(fs)
    ensures NotExist(fs, p) <==> p !in fs && forall q :: Above(q, p) && q in fs ==> fs[q].Directory?
  {
    if p !in fs && p != [] {
      var up := Parent(p);
      assert Above(up, p);
      forall q ensures Above(q, p) <==> q == up || Above(q, up) {
        if Above(q, p) && |q| < |up| { assert up[..|q|] == p[..|q|]; }
        if Above(q, up) { assert p[..|q|] == up[..|q|]; }
      }
      if up !in fs {
        NotExistMeans(fs, up);
      }
    }
  }

  // docker-machine ls prints the hostname: it is a name in machines, and comes, in lexical order,
  // before ls fails.
  ghost predicate Lists(fs: Fs, h: Host, ls: Ls) {
    var names := Children(fs, HostDir(h) + ["machines"]);
    exists k :: 0 <= k < |names| && names[k] == h.hostname && (ls.LsFails? ==> k < ls.printed)
  }

  lemma ExistsMeans(fs: Fs, h: Host, ls: Ls)
    ensures Exists(fs, h, ls) == if Lists(fs, h, ls) then Some(true) else if ls.LsOk? then Some(false) else None
  {
    var names := Children(fs, HostDir(h) + ["machines"]);
    assert Printed(fs, h, ls) <= names;
    if h.hostname in Printed(fs, h, ls) {
      var k :| 0 <= k < |Printed(fs, h, ls)| && Printed(fs, h, ls)[k] == h.hostname;
      assert names[k] == h.hostname;
    }
    if Lists(fs, h, ls) {
      var k :| 0 <= k < |names| && names[k] == h.hostname && (ls.LsFails? ==> k < ls.printed);
      assert Printed(fs, h, ls)[k] == h.hostname;
    }
  }

  predicate DirectoryAt(fs: Fs, p: Path) {
    p in fs && fs[p].Directory?
  }

  // One of the containers shows the agent's name first, in one of thirty listings that all work.
  ghost predicate AgentFound(containers: nat -> Containers) {
    && (forall i :: 0 <= i < 30 ==> containers(i).Listed?)
    && (exists i, names, j :: 0 <= i < 30 && containers(i) == Listed(names) && 0 <= j < |names| &&
          names[j] != [] && names[j][0] == "/rancher-agent")
  }

  lemma AgentFoundMeans(containers: nat -> Containers)
    ensures AgentListed(containers) <==> AgentFound(containers)
  {
    if AgentListed(containers) {
      var i :| 0 <= i < LISTINGS && HasAgent(containers(i));
      var names := containers(i).names;
      var j :| 0 <= j < |names| && names[j] != [] && names[j][0] == AGENT_NAME;
      assert containers(i) == Listed(names);
    }
    if AgentFound(containers) {
      var i, names, j :| 0 <= i < 30 && containers(i) == Listed(names) && 0 <= j < |names| &&
        names[j] != [] && names[j][0] == "/rancher-agent";
      assert HasAgent(containers(i));
    }
  }

  // One of 150 polls works and shows an agent id.
  ghost predicate AgentIdShown(polls: nat -> Poll) {
    exists i :: 0 <= i < 150 && polls(i).Polled? && polls(i).agentId != ""
  }

  // Every call of registerRancherAgent works, and the agent shows up.
  ghost predicate AgentComesUp(a: Agent) {
    && a.found && a.registration && a.client && a.pulled && a.created && a.started
    && AgentFound(a.containers) && AgentIdShown(a.polls)
  }

  lemma AgentIdShownMeans(polls: nat -> Poll)
    ensures AgentRegistered(polls) <==> AgentIdShown(polls)
  {
    if AgentRegistered(polls) {
      var i :| 0 <= i < POLLS && HasAgentId(polls(i));
    }
    if AgentIdShown(polls) {
      var i :| 0 <= i < 150 && polls(i).Polled? && polls(i).agentId != "";
      assert HasAgentId(polls(i));
    }
  }

  // ---------- the handlers ----------

  class Service {
    const host: Host
    const disk: Disk
    var config: Config
    var machines: set<nat>
    var expiry: Option<int>
    var log: seq<Observation>

    constructor (host: Host, disk: Disk, config: Config)
      requires ValidHost(host) && Orderly(disk.nodes)
      ensures Valid() && this.host == host && this.disk == disk
      ensures Now() == World(disk.nodes, config, {}, None, [])
    {
      this.host, this.disk, this.config := host, disk, config;
      machines, expiry, log := {}, None, [];
    }

    ghost predicate Valid()
      reads this, disk
    {
      ValidHost(host) && Orderly(disk.nodes)
    }

    ghost function Now(): World
      reads this, disk
    {
      World(disk.nodes, config, machines, expiry, log)
    }

    // The host directory is there.
    ghost predicate Ready()
      reads this, disk
    {
      Valid() && HostDir(host) in disk.nodes && disk.nodes[HostDir(host)].Directory?
    }

    method GetHostAndHostDir(found: bool) returns (ok: bool)
      requires Valid()
      modifies disk
      ensures Valid() && (ok ==> Ready())
      ensures ok <==> found && DirectoryFree(old(disk.nodes), host)
      ensures ok <==> Fetch(old(Now()), host, found).Some?
      ensures Now() == if ok then Fetch(old(Now()), host, found).value else old(Now())
    {
      FetchMeans(Now(), host, found);
      if !found {
        return false;
      }
      ghost var w := Now();
      ok := disk.Mkdir(HostDir(host));
      if ok {
        FetchKeeps(w, host, found);
      }
    }

    method PublishReply(works: bool) returns (ok: bool)
      modifies this`log
      ensures Outcome(Now(), ok) == Publish(old(Now()), works)
    {
      log := log + [Reply(works)];
      return works;
    }

    method MachineExists(ls: Ls) returns (found: Option<bool>)
      ensures found == Exists(disk.nodes, host, ls)
      ensures found == Some(true) <==> Lists(disk.nodes, host, ls)
      ensures found == Some(false) <==> ls.LsOk? && !Lists(disk.nodes, host, ls)
    {
      var names := ReadDirNames(disk.nodes, HostDir(host) + ["machines"]);
      if ls.LsFails? && ls.printed <= |names| {
        names := names[..ls.printed];
      }
      found := if ls.LsOk? then Some(false) else None;
      for k := 0 to |names|
        invariant host.hostname !in names[..k]
      {
        if names[k] == host.hostname {
          found := Some(true);
          break;
        }
        assert names[..k + 1] == names[..k] + [names[k]];
      }
      assert names[..|names|] == names;
      assert found == Exists(disk.nodes, host, ls);
      ExistsMeans(disk.nodes, host, ls);
    }

    // docker-machine rm -f, waited for
    method DeleteMachine(rm: Rm) returns (ok: bool)
      requires Valid()
      modifies this`machines, this`log, disk
      ensures Valid()
      ensures Outcome(Now(), ok) == Remove(old(Now()), host, rm)
      ensures ok <==> rm.RmOk?
      ensures disk.nodes == if rm.RmOk? then RemoveAll(old(disk.nodes), MachineDir(host)) else old(disk.nodes)
      ensures var id := Recorded(old(disk.nodes), host);
              if id.Some? && (rm.RmOk? || rm.gone)
              then machines == old(machines) - {id.value} && log == old(log) + [Deleted(id.value)]
              else machines == old(machines) && log == old(log)
    {
      if rm.RmOk? || rm.gone {
        match Recorded(disk.nodes, host)
        case None =>
        case Some(id) => machines, log := machines - {id}, log + [Deleted(id)];
      }
      if rm.RmOk? {
        RemoveKeeps(disk.nodes, MachineDir(host));
        disk.Remove(MachineDir(host));
      }
      return rm.RmOk?;
    }

    method CleanupResources(ls: Ls, rm: Rm)
      requires Valid()
      modifies this`machines, this`log, disk
      ensures Valid()
      ensures Now() == Cleanup(old(Now()), host, ls, rm)
      ensures HostDir(host) in old(disk.nodes) && Lists(old(disk.nodes), host, ls) ==>
                disk.nodes == if rm.RmOk? then RemoveAll(RemoveAll(old(disk.nodes), MachineDir(host)), HostDir(host))
                              else old(disk.nodes)
      ensures HostDir(host) !in old(disk.nodes) || !Lists(old(disk.nodes), host, ls) ==> Now() == old(Now())
    {
      if HostDir(host) !in disk.nodes {
        return;
      }
      var found := MachineExists(ls);
      if found != Some(true) {
        return;
      }
      var ok := DeleteMachine(rm);
      if ok {
        RemoveKeeps(disk.nodes, HostDir(host));
        disk.Remove(HostDir(host));
      }
    }

    method TouchStamp() returns (ok: bool)
      requires Valid()
      modifies disk
      ensures Valid() && (old(Ready()) ==> Ready())
      ensures Outcome(Now(), ok) == Touch(old(Now()), host)
      ensures ok <==>
          (DirectoryAt(old(disk.nodes), MachineDir(host)) &&
           !DirectoryAt(old(disk.nodes), MachineDir(host) + ["created"]))
      ensures disk.nodes == if ok then old(disk.nodes)[MachineDir(host) + ["created"] := File(Text(""))]
                            else old(disk.nodes)
    {
      assert Parent(CreatedStamp(host)) == MachineDir(host);
      HostPaths(host);
      if WriteFile(disk.nodes, CreatedStamp(host), Text("")).Some? {
        WriteKeeps(disk.nodes, CreatedStamp(host), Text(""));
      }
      ok := disk.Write(CreatedStamp(host), Text(""));
    }

    method HandleCreate(handling: Handling) returns (ok: bool)
      requires Ready() && ValidHandling(handling)
      modifies disk
      ensures Ready()
      ensures ok <==> Handle(old(disk.nodes), host, handling).Some?
      ensures disk.nodes == Handled(old(disk.nodes), host, handling)
      ensures ok <==>
          handling.NoFile? || (handling.Save? && !DirectoryAt(old(disk.nodes), HostDir(host) + [handling.name]))
      ensures handling.Save? && ok ==>
          disk.nodes == old(disk.nodes)[HostDir(host) + [handling.name] := File(Text(handling.data))]
      ensures handling.NoFile? || handling.Refused? ==> disk.nodes == old(disk.nodes)
    {
      match handling
      case NoFile => ok := true;
      case Refused => ok := false;
      case Save(name, data) => ok := SaveFile(name, data);
      case Garbled(name) =>
        var written := SaveFile(name, "");
        ok := false;
    }

    method SaveFile(name: string, data: string) returns (ok: bool)
      requires Ready() && Plain(name)
      modifies disk
      ensures Ready()
      ensures ok <==> WriteFile(old(disk.nodes), HostDir(host) + [name], Text(data)).Some?
      ensures disk.nodes == if ok then WriteFile(old(disk.nodes), HostDir(host) + [name], Text(data)).value
                            else old(disk.nodes)
    {
      HostPaths(host);
      if WriteFile(disk.nodes, HostDir(host) + [name], Text(data)).Some? {
        WriteKeeps(disk.nodes, HostDir(host) + [name], Text(data));
      }
      ok := disk.Write(HostDir(host) + [name], Text(data));
    }

    // docker-machine create, waited for
    method RunCommand(c: Command) returns (ok: bool)
      requires Ready() && Orderly(c.tree)
      modifies this`machines, this`log, disk
      ensures Ready()
      ensures Now() == AfterCommand(old(Now()), host, c) && ok == c.ok
      ensures Mounted(disk.nodes, old(disk.nodes), HostDir(host), c.tree)
    {
      CommandKeeps(Now(), host, c);
      disk.nodes := Planted(disk.nodes, HostDir(host), c.tree);
      match c.made {
        case None =>
        case Some(id) => machines, log := machines + {id}, log + [Made(id)];
      }
      return c.ok;
    }

    method UpdateConfig(extractedConf: Config, updates: nat -> bool)
      modifies this`config
      ensures (exists i :: 0 <= i < 100 && updates(i)) ==> config == extractedConf
      ensures (forall i :: 0 <= i < 100 ==> !updates(i)) ==> config == old(config)
      ensures config == if Updated(updates) then extractedConf else old(config)
    {
      var i := 0;
      while i < UPDATES
        invariant 0 <= i <= UPDATES && config == old(config)
        invariant forall j :: 0 <= j < i ==> !updates(j)
      {
        if updates(i) {
          config := extractedConf;
          return;
        }
        i := i + 1;
      }
    }

    method ExtractConfig(archiving: Archiving, updates: nat -> bool) returns (ok: bool)
      requires Ready()
      modifies this`config, disk
      ensures Valid()
      ensures Outcome(Now(), ok) == Extract(old(Now()), host, archiving, updates)
    {
      var destFile := MakeArchive(archiving);
      if destFile.None? || archiving.ReadFails? {
        return false;
      }
      var extractedConf := EncodeFile(disk, destFile.value);
      if extractedConf.None? {
        return false;
      }
      UpdateConfig(extractedConf.value, updates);
      return true;
    }

    // createExtractedConfig for the host
    method MakeArchive(archiving: Archiving) returns (destFile: Option<Path>)
      requires Ready()
      modifies disk
      ensures Valid()
      ensures var tar := TarPath(HostDir(host), host.hostname);
              var config := ArchiveConfig(host, ArchivedTree(old(disk.nodes), host));
              if WriteFile(old(disk.nodes), tar, Text("")).None? then destFile.None? && disk.nodes == old(disk.nodes)
              else
                && config.Encoded? && config.intact
                && destFile == (if archiving.WalkFails? then None else Some(tar))
                && disk.nodes == old(disk.nodes)[tar := File(TarGz(if archiving.WalkFails?
                                                                   then Front(config.entries, archiving.entries)
                                                                   else config.entries))]
    {
      HostPaths(host);
      var fails := if archiving.WalkFails? then Some(archiving.entries) else None;
      destFile := CreateExtractedConfig(disk, HostDir(host), host.hostname, fails);
    }

    // The part of createMachine that runs under the deferred cleanup.
    method TryCreate(e: Creation) returns (machineCreated: bool, ok: bool)
      requires Ready() && ValidCreation(e)
      modifies this`config, this`machines, this`log, disk
      ensures Valid()
      ensures Attempt(Now(), machineCreated, ok) == Try(old(Now()), host, e)
    {
      machineCreated := false;
      if !e.template {
        return false, false;
      }
      ok := HandleCreate(e.handling);
      if !ok || !e.built || !e.started {
        return false, false;
      }
      ok := RunCommand(e.command);
      if !ok {
        return false, false;
      }
      machineCreated := true;
      var touched := TouchStamp();
      ok := ExtractConfig(e.archiving, e.updates);
    }

    method CreateMachine(e: Creation) returns (ok: bool)
      requires Valid() && ValidCreation(e)
      modifies this`config, this`machines, this`log, disk
      ensures Valid()
      ensures Outcome(Now(), ok) == Creating(old(Now()), host, e)
    {
      ok := GetHostAndHostDir(e.found);
      if !ok || !e.templated {
        return false;
      }
      if !NotExist(disk.nodes, CreatedStamp(host)) {
        ok := PublishReply(e.earlyReply);
        return;
      }
      var machineCreated;
      machineCreated, ok := TryCreate(e);
      if !machineCreated {
        CleanupResources(e.ls, e.rm);
      }
    }

    method FindAgent(containers: nat -> Containers) returns (ok: bool)
      ensures ok <==> AgentListed(containers)
      ensures ok <==> AgentFound(containers)
    {
      AgentFoundMeans(containers);
      var found := false;
      for i := 0 to LISTINGS
        invariant forall k :: 0 <= k < i ==> containers(k).Listed?
        invariant found <==> exists k :: 0 <= k < i && HasAgent(containers(k))
      {
        var c := containers(i);
        if c.ListFails? {
          return false;
        }
        ghost var before := found;
        for j := 0 to |c.names|
          invariant found == before
          invariant forall k :: 0 <= k < j ==> c.names[k] == [] || c.names[k][0] != AGENT_NAME
        {
          if c.names[j] != [] && c.names[j][0] == AGENT_NAME {
            found := true;
            break;
          }
        }
        assert found <==> before || HasAgent(containers(i));
      }
      return found;
    }

    method AwaitAgentId(polls: nat -> Poll) returns (ok: bool)
      ensures ok <==> AgentRegistered(polls)
      ensures ok <==> AgentIdShown(polls)
    {
      AgentIdShownMeans(polls);
      for i := 0 to POLLS
        invariant forall k :: 0 <= k < i ==> !HasAgentId(polls(k))
      {
        if polls(i).PollFails? {
          continue;
        }
        if polls(i).agentId != "" {
          assert HasAgentId(polls(i));
          return true;
        }
      }
      return false;
    }

    method RegisterRancherAgent(a: Agent) returns (ok: bool)
      requires Valid()
      modifies this`log, disk
      ensures Valid()
      ensures Outcome(Now(), ok) == Register(old(Now()), host, a)
      ensures ok <==> DirectoryFree(old(disk.nodes), host) && AgentComesUp(a)
    {
      ok := GetHostAndHostDir(a.found);
      if !ok || !a.registration || !a.client || !a.pulled || !a.created || !a.started {
        return false;
      }
      ok := FindAgent(a.containers);
      if !ok {
        return false;
      }
      ok := AwaitAgentId(a.polls);
      if ok {
        log := log + [AgentSeen];
      }
    }

    method IsHostAlreadyCreated(ls: Ls) returns (restored: bool, ok: bool)
      requires Valid()
      modifies disk
      ensures Valid()
      ensures restored ==> ok
      ensures old(config.Unset?) ==> ok && !restored && Now() == old(Now())
      ensures !old(config.Unset?) ==>
                var r := RestoreResult(old(disk.nodes), config, Abs(HostDir(host)));
                && Now() == old(Now()).(fs := r.fs)
                && restored == ok == (r.ok && Exists(r.fs, host, ls).Some?)
                && (restored <==> r.ok && (ls.LsOk? || Lists(r.fs, host, ls)))
    {
      if config.Unset? {
        return false, true;
      }
      RestoreKeeps(disk.nodes, config, Abs(HostDir(host)));
      ok := RestoreMachineDir(disk, config, Abs(HostDir(host)));
      if !ok {
        return false, false;
      }
      var found := MachineExists(ls);
      return found.Some?, found.Some?;
    }

    // The part of CreateMachineAndActivateMachine that runs under the deferred removal.
    method TryActivate(e: CreateEvent) returns (ok: bool)
      requires Valid() && ValidCreation(e.creation)
      modifies this`config, this`machines, this`log, disk
      ensures Valid()
      ensures Outcome(Now(), ok) == Activated(old(Now()), host, e)
    {
      var restored;
      restored, ok := IsHostAlreadyCreated(e.ls);
      if !ok {
        return;
      }
      if !restored {
        ok := CreateMachine(e.creation);
        if !ok {
          return;
        }
      }
      ok := RegisterRancherAgent(e.agent);
      if !ok {
        return;
      }
      ok := TouchStamp();
      if !ok {
        return;
      }
      ok := PublishReply(e.reply);
    }

    method CreateMachineAndActivateMachine(e: CreateEvent) returns (ok: bool)
      requires Valid() && ValidCreation(e.creation)
      modifies this`config, this`machines, this`log, disk
      ensures Valid()
      ensures Outcome(Now(), ok) == Create(old(Now()), host, e)
    {
      ok := GetHostAndHostDir(e.found);
      if !ok {
        return;
      }
      ok := TryActivate(e);
      RemoveKeeps(disk.nodes, HostDir(host));
      disk.Remove(HostDir(host));
    }

    // What PurgeMachine does once the machine, if any, is deleted.
    method RecordPurge(later: int, works: bool) returns (ok: bool)
      requires Valid()
      modifies this`expiry, this`log
      ensures Valid()
      ensures Outcome(Now(), ok) == Publish(Remember(old(Now()), later), works)
    {
      if expiry.None? || later > expiry.value {
        expiry := Some(later + LIFETIME);
      }
      ok := PublishReply(works);
    }

    // The part of PurgeMachine that runs under the deferred removal.
    method TryPurge(e: PurgeEvent) returns (ok: bool)
      requires Valid()
      modifies this`machines, this`expiry, this`log, disk
      ensures Valid()
      ensures Outcome(Now(), ok) == PurgeRestored(old(Now()), host, e)
    {
      var mExists := MachineExists(e.ls);
      if mExists.None? {
        return false;
      }
      if mExists.value {
        ok := DeleteMachine(e.rm);
        if !ok {
          return;
        }
      }
      ok := RecordPurge(e.later, e.reply);
    }

    method PurgeMachine(e: PurgeEvent) returns (ok: bool)
      requires Valid()
      modifies this`machines, this`expiry, this`log, disk
      ensures Valid()
      ensures Outcome(Now(), ok) == Purge(old(Now()), host, e)
    {
      if expiry.Some? && e.now <= expiry.value {
        ok := PublishReply(e.reply);
        return;
      }
      ok := GetHostAndHostDir(e.found);
      if !ok {
        return;
      }
      RestoreKeeps(disk.nodes, config, Abs(HostDir(host)));
      ok := RestoreMachineDir(disk, config, Abs(HostDir(host)));
      if !ok {
        return;
      }
      ok := TryPurge(e);
      RemoveKeeps(disk.nodes, HostDir(host));
      disk.Remove(HostDir(host));
    }
  }
}
