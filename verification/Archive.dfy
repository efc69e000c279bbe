// handlers/config.go: the host directory packed into a tar archive, and unpacked again.
module Archive {
  import opened GoStrings
  import opened Paths
  import opened FileSystems
  import opened TreeWalk

  // A host's ExtractedConfig: unset, or base64 of a gzipped tar stream. A stream that is not
  // intact yields its entries and then a read error.
  datatype Config = Unset | Encoded(entries: seq<Entry>, intact: bool)

  // Names that are left out of the archive.
  predicate Skipped(name: string) {
    HasSuffix(name, ".iso") || HasSuffix(name, ".tar.gz") || HasSuffix(name, ".vmdk") || HasSuffix(name, ".img")
  }

  // ---------- addDirToArchive ----------

  // The visited paths, relative to the source, that get an entry.
  function Kept(visits: seq<Path>): seq<Path> {
    if visits == [] then []
    else
      var r := visits[|visits| - 1];
      Kept(visits[..|visits| - 1]) + (if r == [] || Skipped(Last(r)) then [] else [r])
  }

  function EntryFor(src: Path, t: Fs, r: Path): Entry
    requires src != [] && r in t
  {
    Entry(Slashed([Last(src)] + r), t[r].Directory?, if t[r].Directory? then Text("") else t[r].content)
  }

  function EntriesFor(src: Path, t: Fs, kept: seq<Path>): (entries: seq<Entry>)
    requires src != [] && forall r :: r in kept ==> r in t
    ensures |entries| == |kept|
    ensures forall i :: 0 <= i < |kept| ==> entries[i] == EntryFor(src, t, kept[i])
  {
    if kept == [] then []
    else
      var n := |kept| - 1;
      EntriesFor(src, t, kept[..n]) + [EntryFor(src, t, kept[n])]
  }

  lemma {:induction false} KeptMembers(visits: seq<Path>)
    ensures forall r :: r in Kept(visits) <==> r in visits && r != [] && !Skipped(Last(r))
  {
    if visits != [] {
      var n := |visits| - 1;
      KeptMembers(visits[..n]);
      assert visits == visits[..n] + [visits[n]];
    }
  }

  ghost function KeptPaths(t: Fs): (r: seq<Path>)
    requires WellFormed(t)
    ensures forall p :: p in r ==> p in t && p != []
  {
    KeptMembers(Walk(t));
    WalkVisits(t);
    Kept(Walk(t))
  }

  // The entries of the archive of tree t found at src: one for every kept path, named by its
  // path below the parent of src, in the order of the walk.
  ghost function ArchiveOf(src: Path, t: Fs): seq<Entry>
    requires src != [] && WellFormed(t)
  {
    var kept := KeptPaths(t);
    EntriesFor(src, t, kept)
  }

  // The function that addDirToArchive hands to filepath.Walk, at path p.
  function WalkFunc(fs: Fs, source: string, baseDir: string, p: Path): Option<Entry>
    requires p in fs && p != []
  {
    var path := Abs(p);
    if path == source || Skipped(Last(p)) then None
    else
      Some(Entry(Join(baseDir, TrimPrefix(path, source)), fs[p].Directory?,
                 if fs[p].Directory? then Text("") else fs[p].content))
  }

  method AddDirToArchive(disk: Disk, src: Path) returns (entries: seq<Entry>)
    requires WellFormed(disk.nodes) && PlainNames(disk.nodes)
    requires src != [] && src in disk.nodes && disk.nodes[src].Directory?
    ensures WellFormed(Subtree(disk.nodes, src))
    ensures entries == ArchiveOf(src, Subtree(disk.nodes, src))
  {
    var fs := disk.nodes;
    var t := Subtree(fs, src);
    SubtreeWellFormed(fs, src);
    WalkVisits(t);
    KeptMembers(Walk(t));
    var source := Abs(src);
    var baseDir := Base(source);
    var visits := WalkTree(t, []);
    entries := WriteEntries(fs, src, source, baseDir, visits);
  }

  // The entries for the visited paths.
  method WriteEntries(fs: Fs, src: Path, source: string, baseDir: string, visits: seq<Path>)
    returns (entries: seq<Entry>)
    requires PlainNames(fs) && src != [] && source == Abs(src) && baseDir == Base(source)
    requires forall r :: r in visits ==> r in Subtree(fs, src)
    ensures forall r :: r in Kept(visits) ==> r in Subtree(fs, src)
    ensures entries == EntriesFor(src, Subtree(fs, src), Kept(visits))
  {
    ghost var t := Subtree(fs, src);
    entries := [];
    for i := 0 to |visits|
      invariant EntriesSoFar(src, t, visits, i, entries)
    {
      assert visits[i] in visits;
      var entry := VisitPath(fs, src, source, baseDir, visits[i]);
      EntriesStep(src, t, visits, i, entries, entry);
      if entry.Some? {
        entries := entries + [entry.value];
      }
    }
    assert visits[..|visits|] == visits;
  }

  // One call of the function that walks.
  method VisitPath(fs: Fs, src: Path, source: string, baseDir: string, r: Path) returns (entry: Option<Entry>)
    requires PlainNames(fs) && src != [] && r in Subtree(fs, src)
    requires source == Abs(src) && baseDir == Base(source)
    ensures entry == if r == [] || Skipped(Last(r)) then None else Some(EntryFor(src, Subtree(fs, src), r))
  {
    ArchiveStep(fs, src, r);
    entry := WalkFunc(fs, source, baseDir, src + r);
  }

  ghost predicate EntriesSoFar(src: Path, t: Fs, visits: seq<Path>, i: nat, entries: seq<Entry>)
    requires src != [] && i <= |visits|
  {
    && (forall r :: r in Kept(visits[..i]) ==> r in t)
    && entries == EntriesFor(src, t, Kept(visits[..i]))
  }

  lemma EntriesStep(src: Path, t: Fs, visits: seq<Path>, i: nat, entries: seq<Entry>, entry: Option<Entry>)
    requires src != [] && i < |visits| && visits[i] in t && EntriesSoFar(src, t, visits, i, entries)
    requires var r := visits[i]; entry == if r == [] || Skipped(Last(r)) then None else Some(EntryFor(src, t, r))
    ensures EntriesSoFar(src, t, visits, i + 1, if entry.Some? then entries + [entry.value] else entries)
  {
    KeptStep(visits, i);
    if entry.Some? {
      EntriesSnoc(src, t, Kept(visits[..i]), visits[i]);
    }
  }

  lemma {:induction false} EntriesSnoc(src: Path, t: Fs, kept: seq<Path>, r: Path)
    requires src != [] && r in t && forall q :: q in kept ==> q in t
    ensures forall q :: q in kept + [r] ==> q in t
    ensures EntriesFor(src, t, kept + [r]) == EntriesFor(src, t, kept) + [EntryFor(src, t, r)]
  {
    assert (kept + [r])[..|kept|] == kept;
  }

  lemma KeptStep(visits: seq<Path>, i: nat)
    requires i < |visits|
    ensures var r := visits[i];
            Kept(visits[..i + 1]) == Kept(visits[..i]) + (if r == [] || Skipped(Last(r)) then [] else [r])
  {
    assert visits[..i + 1][..i] == visits[..i];
  }

  // On the components, WalkFunc keeps the paths of Kept and makes the entries of EntryFor.
  lemma ArchiveStep(fs: Fs, src: Path, r: Path)
    requires PlainNames(fs) && src != [] && r in Subtree(fs, src)
    ensures src + r in fs && src + r != []
    ensures WalkFunc(fs, Abs(src), Base(Abs(src)), src + r) ==
              if r == [] || Skipped(Last(r)) then None else Some(EntryFor(src, Subtree(fs, src), r))
  {
    SubtreeAt(fs, src, r);
    assert PlainPath(src + r);
    forall c | c in src ensures Plain(c) { assert c in src + r; }
    forall c | c in r ensures Plain(c) { assert c in src + r; }
    ResolveAbs(src + r);
    ResolveAbs(src);
    assert |src + r| == |src| + |r|;
    if r == [] {
      assert src + r == src;
    } else {
      RebaseName(src, r);
    }
  }

  // ---------- restoreMachineDir ----------

  datatype Restored = Restored(fs: Fs, ok: bool)

  // One tar entry, put below machineBaseDir.
  function RestoreEntry(fs: Fs, machineBaseDir: string, e: Entry): Option<Fs> {
    var filePath := Resolve(Join(machineBaseDir, e.name));
    if e.isDir then MkdirAll(fs, filePath) else WriteFile(fs, filePath, e.content)
  }

  function RestoreAll(fs: Fs, machineBaseDir: string, entries: seq<Entry>): Restored
    decreases |entries|
  {
    if entries == [] then Restored(fs, true)
    else
      match RestoreEntry(fs, machineBaseDir, entries[0])
      case None => Restored(fs, false)
      case Some(g) => RestoreAll(g, machineBaseDir, entries[1..])
  }

  // The result of restoring config into baseDir.
  function RestoreResult(fs: Fs, config: Config, baseDir: string): Restored {
    var machineBaseDir := Dir(baseDir);
    match MkdirAll(fs, Resolve(machineBaseDir))
    case None => Restored(fs, false)
    case Some(g) =>
      if config.Unset? then Restored(g, true)
      else
        var r := RestoreAll(g, machineBaseDir, config.entries);
        Restored(r.fs, r.ok && config.intact)
  }

  method RestoreMachineDir(disk: Disk, config: Config, baseDir: string) returns (ok: bool)
    modifies disk
    ensures Restored(disk.nodes, ok) == RestoreResult(old(disk.nodes), config, baseDir)
  {
    var machineBaseDir := Dir(baseDir);
    ok := disk.Mkdir(Resolve(machineBaseDir));
    if !ok || config.Unset? {
      return;
    }
    ok := RestoreEntries(disk, config.entries, machineBaseDir);
    ok := ok && config.intact;
  }

  // The loop of restoreMachineDir over the tar entries.
  method RestoreEntries(disk: Disk, entries: seq<Entry>, machineBaseDir: string) returns (ok: bool)
    modifies disk
    ensures Restored(disk.nodes, ok) == RestoreAll(old(disk.nodes), machineBaseDir, entries)
  {
    var i := 0;
    while i < |entries|
      invariant 0 <= i <= |entries|
      invariant RestoreAll(disk.nodes, machineBaseDir, entries[i..]) ==
          RestoreAll(old(disk.nodes), machineBaseDir, entries)
    {
      var header := entries[i];
      assert entries[i..][0] == header && entries[i..][1..] == entries[i + 1..];
      ok := RestoreHeader(disk, header, machineBaseDir);
      if !ok {
        return;
      }
      i := i + 1;
    }
    ok := true;
  }

  method RestoreHeader(disk: Disk, header: Entry, machineBaseDir: string) returns (ok: bool)
    modifies disk
    ensures ok <==> RestoreEntry(old(disk.nodes), machineBaseDir, header).Some?
    ensures disk.nodes == if ok then RestoreEntry(old(disk.nodes), machineBaseDir, header).value else old(disk.nodes)
  {
    var filePath := Resolve(Join(machineBaseDir, header.name));
    if header.isDir {
      ok := disk.Mkdir(filePath);
    } else {
      ok := disk.Write(filePath, header.content);
    }
  }

  // Whatever is restored, the file system stays well formed, with plain names.
  lemma RestoreEntryKeeps(fs: Fs, machineBaseDir: string, e: Entry)
    requires WellFormed(fs) && PlainNames(fs) && RestoreEntry(fs, machineBaseDir, e).Some?
    ensures WellFormed(RestoreEntry(fs, machineBaseDir, e).value)
    ensures PlainNames(RestoreEntry(fs, machineBaseDir, e).value)
  {
    var p := Resolve(Join(machineBaseDir, e.name));
    ResolvePlain(Join(machineBaseDir, e.name));
    if e.isDir {
      MkdirAllAdds(fs, p);
      MkdirAllPlain(fs, p);
    } else {
      WriteFileWellFormed(fs, p, e.content);
    }
  }

  lemma {:induction false} RestoreAllKeeps(fs: Fs, machineBaseDir: string, entries: seq<Entry>)
    requires WellFormed(fs) && PlainNames(fs)
    ensures var r := RestoreAll(fs, machineBaseDir, entries);
            WellFormed(r.fs) && PlainNames(r.fs)
    decreases |entries|
  {
    if entries != [] && RestoreEntry(fs, machineBaseDir, entries[0]).Some? {
      RestoreEntryKeeps(fs, machineBaseDir, entries[0]);
      RestoreAllKeeps(RestoreEntry(fs, machineBaseDir, entries[0]).value, machineBaseDir, entries[1..]);
    }
  }

  lemma RestoreKeeps(fs: Fs, config: Config, baseDir: string)
    requires WellFormed(fs) && PlainNames(fs)
    ensures var r := RestoreResult(fs, config, baseDir);
            WellFormed(r.fs) && PlainNames(r.fs)
  {
    var up := Resolve(Dir(baseDir));
    ResolvePlain(Dir(baseDir));
    if MkdirAll(fs, up).Some? {
      MkdirAllAdds(fs, up);
      MkdirAllPlain(fs, up);
      if config.Encoded? {
        RestoreAllKeeps(MkdirAll(fs, up).value, Dir(baseDir), config.entries);
      }
    }
  }

  // ---------- createExtractedConfig and encodeFile ----------

  function TarPath(src: Path, hostname: string): Path {
    src + [hostname + ".tar.gz"]
  }

  // The tree of the host directory while it is being archived: the archive's own, still
  // unfinished, file is in it.
  ghost function TreeToArchive(fs: Fs, src: Path, hostname: string): Fs {
    Subtree(fs[TarPath(src, hostname) := File(Text(""))], src)
  }

  function Front(entries: seq<Entry>, n: nat): seq<Entry> {
    if n <= |entries| then entries[..n] else entries
  }

  // fails is when the walk or the writing of an entry fails: after so many entries.
  method CreateExtractedConfig(disk: Disk, src: Path, hostname: string, fails: Option<nat>)
    returns (destFile: Option<Path>)
    requires WellFormed(disk.nodes) && PlainNames(disk.nodes)
    requires src != [] && src in disk.nodes && disk.nodes[src].Directory?
    requires Plain(hostname)
    modifies disk
    ensures destFile.Some? <==> WriteFile(old(disk.nodes), TarPath(src, hostname), Text("")).Some? && fails.None?
    ensures destFile.Some? ==> destFile.value == TarPath(src, hostname)
    ensures if WriteFile(old(disk.nodes), TarPath(src, hostname), Text("")).None? then disk.nodes == old(disk.nodes)
            else
              var t := TreeToArchive(old(disk.nodes), src, hostname);
              && WellFormed(t)
              && disk.nodes == old(disk.nodes)[TarPath(src, hostname) :=
                   File(TarGz(if fails.Some? then Front(ArchiveOf(src, t), fails.value) else ArchiveOf(src, t)))]
    ensures WellFormed(disk.nodes) && PlainNames(disk.nodes)
  {
    TarPathString(src, hostname);
    var dest := Resolve(Join(Abs(src), hostname + ".tar.gz"));
    var ok := disk.Write(dest, Text(""));
    if !ok {
      return None;
    }
    TarWritten(old(disk.nodes), src, dest, Text(""));
    var entries := AddDirToArchive(disk, src);
    if fails.Some? {
      entries := Front(entries, fails.value);
    }
    ghost var mid := disk.nodes;
    ok := disk.Write(dest, TarGz(entries));
    TarWritten(mid, src, dest, TarGz(entries));
    assert mid[dest := File(TarGz(entries))] == old(disk.nodes)[dest := File(TarGz(entries))];
    return if fails.Some? then None else Some(dest);
  }

  lemma TarWritten(fs: Fs, src: Path, dest: Path, c: Content)
    requires WellFormed(fs) && PlainNames(fs) && PlainPath(dest)
    requires src in fs && fs[src].Directory? && dest != src
    requires WriteFile(fs, dest, c).Some?
    ensures var g := fs[dest := File(c)];
            && WriteFile(fs, dest, c) == Some(g)
            && WellFormed(g) && PlainNames(g) && src in g && g[src].Directory?
            && forall d :: WriteFile(g, dest, d) == Some(fs[dest := File(d)])
  {
    WriteFileWellFormed(fs, dest, c);
    var g := fs[dest := File(c)];
    forall d ensures WriteFile(g, dest, d) == Some(fs[dest := File(d)]) {
      assert g[dest := File(d)] == fs[dest := File(d)];
      assert Parent(dest) != dest;
    }
  }

  lemma PlainTarName(hostname: string)
    requires Plain(hostname)
    ensures Plain(hostname + ".tar.gz") && Skipped(hostname + ".tar.gz")
  {
    var n := hostname + ".tar.gz";
    assert n[|n| - 7..] == ".tar.gz";
    assert |n| > 7;
  }

  lemma TarPathString(src: Path, hostname: string)
    requires PlainPath(src) && Plain(hostname)
    ensures Resolve(Join(Abs(src), hostname + ".tar.gz")) == TarPath(src, hostname)
    ensures PlainPath(TarPath(src, hostname))
  {
    var name := hostname + ".tar.gz";
    PlainTarName(hostname);
    RestorePath(src, [name]);
    assert Slashed([name]) == name;
  }

  method EncodeFile(disk: Disk, destFile: Path) returns (config: Option<Config>)
    ensures config.Some? <==> destFile in disk.nodes && disk.nodes[destFile].File?
    ensures config.Some? && disk.nodes[destFile].content.TarGz? ==>
              config.value == Encoded(disk.nodes[destFile].content.entries, true)
    ensures config.Some? && !disk.nodes[destFile].content.TarGz? ==> config.value == Encoded([], false)
  {
    if destFile in disk.nodes && disk.nodes[destFile].File? {
      match disk.nodes[destFile].content
      case TarGz(entries) => return Some(Encoded(entries, true));
      case _ => return Some(Encoded([], false));
    } else {
      return None;
    }
  }
}
