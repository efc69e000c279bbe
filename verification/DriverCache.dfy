// dynamic/driver.go: machine driver binaries, staged in a cache directory and installed from it.
module DriverCache {
  import opened GoStrings
  import Paths

  // ---------- the disk, operation by operation ----------

  datatype Dir = Cache | Bin

  datatype File = File(dir: Dir, name: string)

  type Files = map<File, string>

  // One step that a crash cannot split.
  datatype Op =
    | Create(file: File)                // create, or truncate
    | Append(file: File, data: string)
    | Delete(file: File)
    | Rename(file: File, to: File)

  function Do(files: Files, op: Op): Files {
    match op
    case Create(f) => files[f := ""]
    case Append(f, data) => if f in files then files[f := files[f] + data] else files
    case Delete(f) => files - {f}
    case Rename(f, g) => if f in files then (files - {f})[g := files[f]] else files
  }

  function Apply(files: Files, ops: seq<Op>): Files {
    if ops == [] then files
    else
      var n := |ops| - 1;
      Do(Apply(files, ops[..n]), ops[n])
  }

  class Store {
    var files: Files
    var ops: seq<Op>   // all that was done so far

    constructor (files: Files)
      ensures this.files == files && ops == []
    {
      this.files, ops := files, [];
    }

    method Perform(op: Op)
      modifies this
      ensures files == Do(old(files), op) && ops == old(ops) + [op]
    {
      files := Do(files, op);
      ops := ops + [op];
    }
  }

  // ---------- the environment ----------

  // sha256 of url + hash, the hash functions by the length of their hexadecimal output, the path
  // of a URL, and the base names and contents of the files in an archive, in walk order.
  datatype Env = Env(
    key: string -> string,
    digest: (nat, string) -> string,
    urlPath: string -> Option<string>,
    extract: string -> Option<seq<(string, string)>>)

  function KeyOf(env: Env, s: string): string {
    env.key(s)
  }

  function DigestOf(env: Env, length: nat, content: string): string {
    env.digest(length, content)
  }

  predicate IsHex(c: char) {
    IsDigit(c) || 'a' <= c <= 'f'
  }

  predicate AllHex(s: string) {
    forall c :: c in s ==> IsHex(c)
  }

  // No two texts have one key.
  ghost predicate ValidKeys(env: Env) {
    && (forall s {:trigger KeyOf(env, s)} :: AllHex(KeyOf(env, s)))
    && (forall s, t {:trigger KeyOf(env, s), KeyOf(env, t)} :: KeyOf(env, s) == KeyOf(env, t) ==> s == t)
  }

  ghost predicate ValidDigests(env: Env) {
    forall n, s {:trigger DigestOf(env, n, s)} :: |DigestOf(env, n, s)| == n && AllHex(DigestOf(env, n, s))
  }

  ghost predicate ValidEnv(env: Env) {
    ValidKeys(env) && ValidDigests(env)
  }

  // Every character in unary.
  function Unary(s: string): string {
    if s == "" then "" else seq(s[0] as nat, _ => 'a') + ['b'] + Unary(s[1..])
  }

  lemma {:induction false} UnaryFacts(s: string)
    ensures AllHex(Unary(s))
    ensures s != "" ==>
              var n := s[0] as nat;
              && n < |Unary(s)| && Unary(s)[n] == 'b' && (forall i :: 0 <= i < n ==> Unary(s)[i] == 'a')
              && Unary(s)[n + 1..] == Unary(s[1..])
  {
    if s != "" {
      UnaryFacts(s[1..]);
    }
  }

  lemma {:induction false} UnaryInjective(s: string, t: string)
    requires Unary(s) == Unary(t)
    ensures s == t
  {
    UnaryFacts(s);
    UnaryFacts(t);
    if s != "" && t != "" {
      assert s[0] as nat == t[0] as nat;
      UnaryInjective(s[1..], t[1..]);
      assert s == [s[0]] + s[1..] && t == [t[0]] + t[1..];
    }
  }

  // There is such an environment.
  lemma ValidEnvExists() returns (env: Env)
    ensures ValidEnv(env)
  {
    env := Env(s => Unary(s), (n: nat, s) => seq(n, _ => '0'), s => None, s => None);
    forall s ensures AllHex(KeyOf(env, s)) {
      UnaryFacts(s);
    }
    forall s, t | KeyOf(env, s) == KeyOf(env, t) ensures s == t {
      UnaryInjective(s, t);
    }
  }

  datatype Result = Ok(name: string) | Err(msg: string)

  datatype Download = Downloaded(content: string) | DownloadFails(msg: string)

  datatype Marking = Marked | Unopened(msg: string) | Emptied(msg: string)

  // How the outside world behaves during one Stage: an error in reading the marker, an error
  // before the download, the download, an error before the copy, an error after so many copied
  // bytes, the write of the marker.
  datatype Call = Call(
    read: Option<string>, temp: Option<string>, download: Download, open: Option<string>,
        copy: Option<(nat, string)>, marking: Marking)

  // ---------- names ----------

  datatype Driver = Driver(builtin: bool, url: string, hash: string, name: string)

  function Key(env: Env, d: Driver): string {
    KeyOf(env, d.url + d.hash)
  }

  function Marker(k: string): File {
    File(Cache, k)
  }

  function ErrorFile(k: string): File {
    File(Cache, k + ".error")
  }

  function StagedFile(k: string, name: string): File {
    File(Cache, k + "-" + name)
  }

  const PREFIX := "docker-machine-driver-"

  predicate IsDriverName(name: string) {
    HasPrefix(name, PREFIX)
  }

  // ---------- hashes ----------

  predicate HashLength(n: nat) {
    n == 32 || n == 40 || n == 64 || n == 128
  }

  // compare, for a hasher of getHasher
  predicate Compare(env: Env, hash: string, content: string) {
    hash == "" || DigestOf(env, |hash|, content) == TrimSpace(ToLower(hash))
  }

  // ---------- what a download holds ----------

  predicate IsElf(content: string) {
    HasPrefix(content, [0x7f as char, 'E', 'L', 'F'])
  }

  datatype Unpacked = Unpacked(name: string, data: string) | Rejected(msg: string)

  // The last file with a driver's name.
  function FindDriver(files: seq<(string, string)>): Option<(string, string)> {
    if files == [] then None
    else
      var n := |files| - 1;
      if IsDriverName(files[n].0) then Some(files[n]) else FindDriver(files[..n])
  }

  function Unpack(env: Env, url: string, content: string): Unpacked {
    if IsElf(content) then
      match env.urlPath(url)
      case None => Rejected("cannot parse " + url)
      case Some(p) =>
        var name := Split(Paths.Base(p), '_')[0];
        if IsDriverName(name) then Unpacked(name, content) else Rejected("Invalid URL " + url)
    else
      match env.extract(content)
      case None => Rejected("Failed to extract")
      case Some(files) =>
        match FindDriver(files)
        case None => Rejected("Failed to find machine driver in archive")
        case Some(f) => Unpacked(f.0, f.1)
  }

  // ---------- Stage ----------

  datatype Staged = Staged(ops: seq<Op>, result: Result)

  // io.Copy into a fresh file; a crash can come after any byte.
  function CopyOps(f: File, data: string): seq<Op> {
    [Create(f)] + seq(|data|, i requires 0 <= i < |data| => Append(f, [data[i]]))
  }

  function MarkingOps(k: string, name: string, marking: Marking): seq<Op> {
    match marking
    case Marked => [Create(Marker(k)), Append(Marker(k), name)]
    case Unopened(_) => []
    case Emptied(_) => [Create(Marker(k))]
  }

  function MarkingResult(name: string, marking: Marking): Result {
    match marking
    case Marked => Ok(name)
    case Unopened(msg) => Err(msg)
    case Emptied(msg) => Err(msg)
  }

  function Copied(env: Env, d: Driver, content: string, call: Call): Staged {
    var k := Key(env, d);
    match Unpack(env, d.url, content)
    case Rejected(msg) => Staged([], Err(msg))
    case Unpacked(name, data) =>
      var f := StagedFile(k, name);
      if call.open.Some? then Staged([], Err(call.open.value))
      else if call.copy.Some? then
        Staged(CopyOps(f, if call.copy.value.0 <= |data| then data[..call.copy.value.0] else data),
            Err(call.copy.value.1))
      else
        Staged(CopyOps(f, data) + MarkingOps(k, name, call.marking), MarkingResult(name, call.marking))
  }

  function Installed(files: Files, k: string): string {
    if Marker(k) in files then TrimSpace(files[Marker(k)]) else ""
  }

  // A real attempt to stage.
  function Attempt(env: Env, d: Driver, files: Files, call: Call): Staged {
    if d.builtin then Staged([], Ok(d.name))
    else if call.read.Some? then Staged([], Err(call.read.value))
    else if Installed(files, Key(env, d)) != "" then Staged([], Ok(Installed(files, Key(env, d))))
    else if call.temp.Some? then Staged([], Err(call.temp.value))
    else if d.hash != "" && !HashLength(|d.hash|) then Staged([], Err("Invalid hash format: " + d.hash))
    else
      match call.download
      case DownloadFails(msg) => Staged([], Err(msg))
      case Downloaded(content) =>
        if Compare(env, d.hash, content) then Copied(env, d, content, call)
        else Staged([], Err("Hash does not match, expected " + d.hash))
  }

  // The driver's name after the attempt: one that cannot read the marker clears it.
  function NameAfter(d: Driver, call: Call, result: Result): string {
    if result.Ok? then result.name
    else if !d.builtin && call.read.Some? then ""
    else d.name
  }

  // An earlier error is returned once, instead of an attempt.
  predicate Replays(env: Env, d: Driver, files: Files) {
    ErrorFile(Key(env, d)) in files
  }

  function ErrorOps(k: string, msg: string): seq<Op> {
    [Create(ErrorFile(k)), Append(ErrorFile(k), msg)]
  }

  function StageEffect(env: Env, d: Driver, files: Files, call: Call): Staged {
    var k := Key(env, d);
    if Replays(env, d, files) then Staged([Delete(ErrorFile(k))], Err(files[ErrorFile(k)]))
    else
      var a := Attempt(env, d, files, call);
      match a.result
      case Ok(_) => a
      case Err(msg) => Staged(a.ops + ErrorOps(k, msg), a.result)
  }

  // ---------- Install and Remove ----------

  datatype Opening = Opened | OpenFails | CopyFails(copied: nat) | RenameFails

  function Temporary(name: string): File {
    File(Bin, name + "-tmp")
  }

  function InstallEffect(env: Env, d: Driver, files: Files, o: Opening): (r: (seq<Op>, bool)) {
    var src := StagedFile(Key(env, d), d.name);
    var tmp := Temporary(d.name);
    if d.builtin then ([], true)
    else if o.OpenFails? then ([], false)
    else if src !in files then ([Create(tmp)], false)
    else if o.CopyFails? then (CopyOps(tmp, if o.copied <= |files[src]| then files[src][..o.copied] else files[src]),
        false)
    else if o.RenameFails? then (CopyOps(tmp, files[src]), false)
    else (CopyOps(tmp, files[src]) + [Rename(tmp, File(Bin, d.name))], true)
  }

  // Remove goes by the marker's content as it is, not trimmed.
  function RemoveOps(files: Files, k: string): seq<Op> {
    if Marker(k) !in files then []
    else
      var name := files[Marker(k)];
      [Delete(File(Bin, name)), Delete(StagedFile(k, name)), Delete(Marker(k))]
  }

  // ---------- the name in a path ----------

  // The last component of the path is n, or n and more from an underscore on.
  ghost predicate PathNames(path: string, n: string) {
    exists dir, rest, slashes :: PathParts(path, dir, n, rest, slashes)
  }

  predicate PathParts(path: string, dir: string, n: string, rest: string, slashes: string) {
    && path == dir + n + rest + slashes && n + rest != ""
    && (dir == "" || dir[|dir| - 1] == '/') && (forall i :: 0 <= i < |slashes| ==> slashes[i] == '/')
    && '/' !in n && '_' !in n && '/' !in rest && (rest == "" || rest[0] == '_')
  }

  lemma {:induction false} StripAll(s: string, slashes: string)
    requires s != "" && s[|s| - 1] != '/' && forall i :: 0 <= i < |slashes| ==> slashes[i] == '/'
    ensures Paths.StripSlashes(s + slashes) == s
    decreases |slashes|
  {
    if slashes == "" {
      assert s + slashes == s;
    } else {
      assert (s + slashes)[..|s + slashes| - 1] == s + slashes[..|slashes| - 1];
      StripAll(s, slashes[..|slashes| - 1]);
    }
  }

  lemma BaseOf(dir: string, name: string, slashes: string)
    requires name != "" && '/' !in name && (dir == "" || dir[|dir| - 1] == '/')
    requires forall i :: 0 <= i < |slashes| ==> slashes[i] == '/'
    ensures Paths.Base(dir + name + slashes) == name
  {
    var s := dir + name;
    assert name[|name| - 1] in name && s[|s| - 1] == name[|name| - 1];
    StripAll(s, slashes);
    SplitAbsent(name, '/');
    if dir == "" {
      assert s == name;
    } else {
      var up := dir[..|dir| - 1];
      assert s == up + ['/'] + name;
      SplitAppend(up, name, '/');
    }
  }

  lemma {:induction false} FirstOf(n: string, rest: string)
    requires '_' !in n && (rest == "" || rest[0] == '_')
    ensures Split(n + rest, '_')[0] == n
  {
    SplitAbsent(n, '_');
    if rest == "" {
      assert n + rest == n;
    } else {
      assert n + rest == n + ['_'] + rest[1..];
      SplitAppend(n, rest[1..], '_');
    }
  }

  lemma PathGives(path: string, n: string)
    requires PathNames(path, n)
    ensures Split(Paths.Base(path), '_')[0] == n
  {
    var dir, rest, slashes :| PathParts(path, dir, n, rest, slashes);
    assert path == dir + (n + rest) + slashes;
    BaseOf(dir, n + rest, slashes);
    FirstOf(n, rest);
  }

  lemma {:induction false} StripParts(s: string) returns (slashes: string)
    ensures s == Paths.StripSlashes(s) + slashes && forall i :: 0 <= i < |slashes| ==> slashes[i] == '/'
    ensures var t := Paths.StripSlashes(s); t == "" || t[|t| - 1] != '/'
    decreases |s|
  {
    if s != "" && s[|s| - 1] == '/' {
      var before := StripParts(s[..|s| - 1]);
      slashes := before + "/";
      assert s == s[..|s| - 1] + "/";
    } else {
      slashes := "";
    }
  }

  predicate EndsWith(s: string, dir: string, last: string) {
    s == dir + last && '/' !in last && (dir == "" || dir[|dir| - 1] == '/')
  }

  lemma EndsWithMore(s: string, dir: string, last: string)
    requires s != "" && EndsWith(s[1..], dir, last) && (s[0] == '/' || '/' in s[1..])
    ensures EndsWith(s, [s[0]] + dir, last)
  {
    var longer := [s[0]] + dir;
    assert s == [s[0]] + s[1..] == longer + last;
    if dir == "" {
      assert s[1..] == last;
    } else {
      assert longer[|longer| - 1] == dir[|dir| - 1];
    }
  }

  lemma {:induction false} LastParts(s: string) returns (dir: string)
    ensures EndsWith(s, dir, Paths.Last(Split(s, '/')))
    decreases |s|
  {
    SplitOne(s);
    if '/' !in s {
      dir := "";
      NoDirectory(s);
    } else {
      var more := LastParts(s[1..]);
      SplitOne(s[1..]);
      SlashLater(s);
      LastPartsLonger(s);
      EndsWithMore(s, more, Paths.Last(Split(s[1..], '/')));
      dir := [s[0]] + more;
    }
  }

  lemma NoDirectory(s: string)
    requires '/' !in s
    ensures EndsWith(s, "", s)
  {
    assert "" + s == s;
  }

  lemma SlashLater(s: string)
    requires '/' in s
    ensures s != "" && (s[0] == '/' || '/' in s[1..])
  {
    assert s == [s[0]] + s[1..];
  }

  lemma {:induction false} LastPartsLonger(s: string)
    requires s != "" && (s[0] == '/' || '/' in s[1..])
    ensures Paths.Last(Split(s, '/')) == Paths.Last(Split(s[1..], '/'))
  {
    SplitOne(s[1..]);
  }

  lemma {:induction false} SplitOne(s: string)
    ensures |Split(s, '/')| == 1 <==> '/' !in s
    ensures '/' !in s ==> Split(s, '/') == [s]
  {
    if s != "" {
      SplitOne(s[1..]);
      assert s == [s[0]] + s[1..];
    }
  }

  lemma {:induction false} FirstParts(s: string) returns (rest: string)
    ensures s == Split(s, '_')[0] + rest && '_' !in Split(s, '_')[0] && (rest == "" || rest[0] == '_')
  {
    if s == "" {
      rest := "";
    } else if s[0] == '_' {
      rest := s;
    } else {
      rest := FirstParts(s[1..]);
      assert s == [s[0]] + s[1..];
    }
  }

  // Unless it has nothing but slashes, a path names something.
  lemma {:induction false} PathHasName(path: string)
    requires Paths.StripSlashes(path) != ""
    ensures PathNames(path, Split(Paths.Base(path), '_')[0])
  {
    var slashes := StripParts(path);
    var t := Paths.StripSlashes(path);
    var dir := LastParts(t);
    var base := Paths.Last(Split(t, '/'));
    var rest := FirstParts(base);
    var n := Split(base, '_')[0];
    assert base == n + rest && path == dir + base + slashes;
    assert path == dir + n + rest + slashes;
    assert forall c :: c in n || c in rest ==> c in base;
    assert base != "" by { assert dir != "" ==> t[|t| - 1] == (dir + base)[|t| - 1]; }
    assert PathParts(path, dir, n, rest, slashes);
  }

  // ---------- what a download holds ----------

  predicate DriverName(name: string) {
    HasPrefix(name, "docker-machine-driver-")
  }

  predicate Elf(content: string) {
    |content| >= 4 && content[0] == 0x7f as char && content[1] == 'E' && content[2] == 'L' && content[3] == 'F'
  }

  // It holds this driver: an ELF file is the driver itself, named by the URL's path up to the
  // first underscore; of an archive it is the last file with a driver's name.
  ghost predicate Holds(env: Env, url: string, content: string, name: string, data: string) {
    if Elf(content) then
      && env.urlPath(url).Some? && DriverName(name) && data == content && PathNames(env.urlPath(url).value, name)
    else
      && env.extract(content).Some? && DriverName(name) && LastDriver(env.extract(content).value, name, data)
  }

  ghost predicate LastDriver(files: seq<(string, string)>, name: string, data: string) {
    exists i :: LastAt(files, i) && files[i] == (name, data)
  }

  ghost predicate LastAt(files: seq<(string, string)>, i: int) {
    0 <= i < |files| && DriverName(files[i].0) && forall j :: i < j < |files| ==> !DriverName(files[j].0)
  }

  lemma {:induction false} FindsLast(files: seq<(string, string)>)
    ensures FindDriver(files).Some? ==> exists i :: LastAt(files, i) && files[i] == FindDriver(files).value
    ensures FindDriver(files).None? ==> forall i :: 0 <= i < |files| ==> !DriverName(files[i].0)
  {
    if files != [] {
      var n := |files| - 1;
      FindsLast(files[..n]);
      if DriverName(files[n].0) {
        assert LastAt(files, n);
      } else if FindDriver(files[..n]).Some? {
        var i :| LastAt(files[..n], i) && files[..n][i] == FindDriver(files[..n]).value;
        assert LastAt(files, i);
      }
    }
  }

  lemma LastIsOne(files: seq<(string, string)>, i: int, j: int)
    requires LastAt(files, i) && LastAt(files, j)
    ensures i == j
  {
  }

  lemma ElfMeans(content: string)
    ensures IsElf(content) <==> Elf(content)
  {
    var magic := [0x7f as char, 'E', 'L', 'F'];
    assert |content| >= 4 ==> content[..4] == [content[0], content[1], content[2], content[3]];
  }

  lemma UnpackHolds(env: Env, url: string, content: string, name: string, data: string)
    ensures Unpack(env, url, content) == Unpacked(name, data) <==> Holds(env, url, content, name, data)
  {
    ElfMeans(content);
    if Elf(content) {
      if env.urlPath(url).Some? && DriverName(name) {
        NameInPath(env.urlPath(url).value, name);
      }
    } else if env.extract(content).Some? {
      var files := env.extract(content).value;
      FindsLast(files);
      if FindDriver(files).Some? {
        var i :| LastAt(files, i) && files[i] == FindDriver(files).value;
        if LastDriver(files, name, data) {
          var j :| LastAt(files, j) && files[j] == (name, data);
          LastIsOne(files, i, j);
        }
      }
    }
  }

  lemma NameInPath(path: string, name: string)
    requires DriverName(name)
    ensures PathNames(path, name) <==> Split(Paths.Base(path), '_')[0] == name
  {
    assert name[0] == name[..1][0] == 'd';
    if PathNames(path, name) {
      PathGives(path, name);
    }
    if Split(Paths.Base(path), '_')[0] == name {
      if Paths.StripSlashes(path) == "" {
        NameOfNothing(path, name);
      } else {
        PathHasName(path);
      }
    }
  }

  lemma {:induction false} NameOfNothing(path: string, name: string)
    requires Paths.StripSlashes(path) == ""
    ensures Split(Paths.Base(path), '_')[0] in {".", "/"}
  {
    SplitAbsent(".", '_');
    SplitAbsent("/", '_');
  }

  lemma HoldsUnpacked(env: Env, url: string, content: string)
    ensures var r := Unpack(env, url, content);
            if r.Unpacked? then Holds(env, url, content, r.name, r.data)
            else forall name, data :: !Holds(env, url, content, name, data)
  {
    UnpackFails(env, url, content);
    if Unpack(env, url, content).Unpacked? {
      UnpackHolds(env, url, content, Unpack(env, url, content).name, Unpack(env, url, content).data);
    }
  }

  lemma UnpackFails(env: Env, url: string, content: string)
    ensures Unpack(env, url, content).Rejected? <==> forall name, data :: !Holds(env, url, content, name, data)
  {
    forall name, data ensures Unpack(env, url, content) == Unpacked(name, data) <==>
        Holds(env, url, content, name, data)
    {
      UnpackHolds(env, url, content, name, data);
    }
  }

  // ---------- the methods ----------

  lemma {:induction false} ApplySnoc(files: Files, ops: seq<Op>, op: Op)
    ensures Apply(files, ops + [op]) == Do(Apply(files, ops), op)
  {
    assert (ops + [op])[..|ops|] == ops;
  }

  lemma {:induction false} ApplyThree(files: Files, a: Op, b: Op, c: Op)
    ensures Apply(files, [a]) == Do(files, a)
    ensures Apply(files, [a, b]) == Do(Do(files, a), b)
    ensures Apply(files, [a, b, c]) == Do(Do(Do(files, a), b), c)
  {
    assert [a][..0] == [] && [a, b][..1] == [a] && [a, b, c][..2] == [a, b];
  }

  lemma {:induction false} ApplySplit(files: Files, a: seq<Op>, b: seq<Op>)
    ensures Apply(files, a + b) == Apply(Apply(files, a), b)
  {
    if b == [] {
      assert a + b == a;
    } else {
      var n := |b| - 1;
      ApplySplit(files, a, b[..n]);
      assert (a + b)[..|a + b| - 1] == a + b[..n];
    }
  }

  // Doing a, then b.
  lemma {:induction false} BothDone(start: Files, a: seq<Op>, mid: Files, b: seq<Op>, end: Files, log: seq<Op>,
      log1: seq<Op>,
      log2: seq<Op>)
    requires mid == Apply(start, a) && end == Apply(mid, b) && log1 == log + a && log2 == log1 + b
    ensures end == Apply(start, a + b) && log2 == log + (a + b)
  {
    ApplySplit(start, a, b);
  }

  class DriverObject {
    const env: Env
    const store: Store
    const builtin: bool
    const url: string
    const hash: string
    var name: string

    constructor NewDriver(env: Env, store: Store, builtin: bool, name: string, url: string, hash: string)
      ensures this.env == env && this.store == store
      ensures This() == Driver(builtin, url, hash, if builtin && !IsDriverName(name) then PREFIX + name else name)
    {
      this.env, this.store, this.builtin, this.url, this.hash := env, store, builtin, url, hash;
      this.name := if builtin && !HasPrefix(name, PREFIX) then PREFIX + name else name;
    }

    function This(): Driver
      reads this
    {
      Driver(builtin, url, hash, name)
    }

    function FriendlyName(): string
      reads this
    {
      TrimPrefix(name, PREFIX)
    }

    // Since the call, exactly these operations were done.
    twostate predicate Did(ops: seq<Op>)
      reads store
    {
      store.ops == old(store.ops) + ops && store.files == Apply(old(store.files), ops)
    }

    method ClearError()
      modifies store
      ensures Did([Delete(ErrorFile(Key(env, This())))])
    {
      ApplySnoc(store.files, [], Delete(ErrorFile(Key(env, This()))));
      store.Perform(Delete(ErrorFile(Key(env, This()))));
    }

    method GetError() returns (r: Option<string>)
      modifies store
      ensures r.Some? <==> Replays(env, This(), old(store.files))
      ensures r.None? ==> store.ops == old(store.ops) && store.files == old(store.files)
      ensures r.Some? ==> r.value == old(store.files)[ErrorFile(Key(env, This()))]
      ensures r.Some? ==> Did([Delete(ErrorFile(Key(env, This())))])
    {
      var errFile := ErrorFile(Key(env, This()));
      if errFile !in store.files {
        return None;
      }
      r := Some(store.files[errFile]);
      ClearError();
    }

    method SetError(r: Result)
      modifies store
      ensures Did(if r.Ok? then [] else ErrorOps(Key(env, This()), r.msg))
    {
      if r.Err? {
        var errFile := ErrorFile(Key(env, This()));
        ghost var start := store.files;
        ApplySnoc(start, [], Create(errFile));
        ApplySnoc(start, [Create(errFile)], Append(errFile, r.msg));
        store.Perform(Create(errFile));
        store.Perform(Append(errFile, r.msg));
      }
    }

    method Copy(f: File, data: string)
      modifies store
      ensures Did(CopyOps(f, data))
    {
      ghost var start := store.files;
      ApplySnoc(start, [], Create(f));
      store.Perform(Create(f));
      assert CopyOps(f, data[..0]) == [Create(f)];
      for i := 0 to |data|
        invariant store.ops == old(store.ops) + CopyOps(f, data[..i])
        invariant store.files == Apply(start, CopyOps(f, data[..i]))
      {
        assert CopyOps(f, data[..i + 1]) == CopyOps(f, data[..i]) + [Append(f, [data[i]])];
        ApplySnoc(start, CopyOps(f, data[..i]), Append(f, [data[i]]));
        store.Perform(Append(f, [data[i]]));
      }
      assert data[..|data|] == data;
    }

    // The walk over the extracted files.
    static method WalkExtracted(files: seq<(string, string)>) returns (file: Option<(string, string)>)
      ensures file == FindDriver(files)
    {
      file := None;
      for i := 0 to |files|
        invariant file == FindDriver(files[..i])
      {
        assert files[..i + 1][..i] == files[..i];
        if HasPrefix(files[i].0, PREFIX) {
          file := Some(files[i]);
        }
      }
      assert files[..|files|] == files;
    }

    method FindBinary(content: string) returns (r: Unpacked)
      ensures r == Unpack(env, url, content)
      ensures r.Unpacked? ==> Holds(env, url, content, r.name, r.data)
      ensures r.Rejected? ==> forall name, data :: !Holds(env, url, content, name, data)
    {
      HoldsUnpacked(env, url, content);
      if IsElf(content) {
        var u := env.urlPath(url);
        if u.None? {
          return Rejected("cannot parse " + url);
        }
        var driverName := Split(Paths.Base(u.value), '_')[0];
        if !HasPrefix(driverName, PREFIX) {
          return Rejected("Invalid URL " + url);
        }
        return Unpacked(driverName, content);
      }
      var files := env.extract(content);
      if files.None? {
        return Rejected("Failed to extract");
      }
      var file := WalkExtracted(files.value);
      if file.None? {
        return Rejected("Failed to find machine driver in archive");
      }
      return Unpacked(file.value.0, file.value.1);
    }

    method WriteMarker(driverName: string, marking: Marking) returns (r: Result)
      modifies store
      ensures r == MarkingResult(driverName, marking)
      ensures Did(MarkingOps(Key(env, This()), driverName, marking))
    {
      var m := Marker(Key(env, This()));
      ghost var start := store.files;
      if marking.Unopened? {
        return Err(marking.msg);
      }
      ApplySnoc(start, [], Create(m));
      store.Perform(Create(m));
      if marking.Emptied? {
        return Err(marking.msg);
      }
      ApplySnoc(start, [Create(m)], Append(m, driverName));
      store.Perform(Append(m, driverName));
      return Ok(driverName);
    }

    method CopyBinary(content: string, call: Call) returns (r: Result)
      modifies store
      ensures var s := Copied(env, This(), content, call);
              r == s.result && Did(s.ops)
    {
      var k := Key(env, This());
      var u := FindBinary(content);
      if u.Rejected? {
        return Err(u.msg);
      }
      if call.open.Some? {
        return Err(call.open.value);
      }
      var f := StagedFile(k, u.name);
      if call.copy.Some? {
        Copy(f, if call.copy.value.0 <= |u.data| then u.data[..call.copy.value.0] else u.data);
        return Err(call.copy.value.1);
      }
      ghost var start, log := store.files, store.ops;
      Copy(f, u.data);
      ghost var mid, log1 := store.files, store.ops;
      r := WriteMarker(u.name, call.marking);
      BothDone(start, CopyOps(f, u.data), mid, MarkingOps(k, u.name, call.marking), store.files, log, log1, store.ops);
    }

    // stage
    method TryStage(call: Call) returns (r: Result)
      modifies this`name, store
      ensures var s := Attempt(env, old(This()), old(store.files), call);
              r == s.result && Did(s.ops)
      ensures name == NameAfter(old(This()), call, r)
      ensures r.Ok? ==> name == r.name
      ensures r.Err? ==> name == if !builtin && call.read.Some? then "" else old(name)
    {
      if builtin {
        return Ok(name);
      }
      if call.read.Some? {
        name := "";
        return Err(call.read.value);
      }
      var k := Key(env, This());
      var driverName := Installed(store.files, k);
      if driverName != "" {
        name := driverName;
        return Ok(driverName);
      }
      if call.temp.Some? {
        return Err(call.temp.value);
      }
      if hash != "" && !HashLength(|hash|) {
        return Err("Invalid hash format: " + hash);
      }
      if call.download.DownloadFails? {
        return Err(call.download.msg);
      }
      if !Compare(env, hash, call.download.content) {
        return Err("Hash does not match, expected " + hash);
      }
      r := CopyBinary(call.download.content, call);
      if r.Ok? {
        name := r.name;
      }
    }

    method Stage(call: Call) returns (r: Result)
      modifies this`name, store
      ensures var s := StageEffect(env, old(This()), old(store.files), call);
              r == s.result && Did(s.ops)
      ensures name == if Replays(env, old(This()), old(store.files)) then old(name) else NameAfter(old(This()), call, r)
    {
      var previous := GetError();
      if previous.Some? {
        return Err(previous.value);
      }
      ghost var start := store.files;
      r := TryStage(call);
      SetError(r);
      ghost var a := Attempt(env, old(This()), start, call);
      if r.Err? {
        ApplySplit(start, a.ops, ErrorOps(Key(env, This()), r.msg));
      }
    }

    method Install(o: Opening) returns (ok: bool)
      modifies store
      ensures var r := InstallEffect(env, This(), old(store.files), o);
              ok == r.1 && Did(r.0)
    {
      if builtin {
        return true;
      }
      if o.OpenFails? {
        return false;
      }
      var src := StagedFile(Key(env, This()), name);
      var tmp := Temporary(name);
      ghost var start := store.files;
      if src !in store.files {
        ApplySnoc(start, [], Create(tmp));
        store.Perform(Create(tmp));
        return false;
      }
      var data := store.files[src];
      Copy(tmp, if o.CopyFails? && o.copied <= |data| then data[..o.copied] else data);
      if o.CopyFails? || o.RenameFails? {
        return false;
      }
      ApplySnoc(start, CopyOps(tmp, data), Rename(tmp, File(Bin, name)));
      store.Perform(Rename(tmp, File(Bin, name)));
      return true;
    }

    method Remove()
      modifies store
      ensures Did(RemoveOps(old(store.files), Key(env, This())))
    {
      var k := Key(env, This());
      if Marker(k) !in store.files {
        return;
      }
      var content := store.files[Marker(k)];
      ApplyThree(store.files, Delete(File(Bin, content)), Delete(StagedFile(k, content)), Delete(Marker(k)));
      store.Perform(Delete(File(Bin, content)));
      store.Perform(Delete(StagedFile(k, content)));
      store.Perform(Delete(Marker(k)));
    }
  }
}
