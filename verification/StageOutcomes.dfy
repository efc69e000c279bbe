// When Stage and an activation succeed, and under which name.
module StageOutcomes {
  import opened GoStrings
  import opened DriverCache
  import opened CacheSafety
  import opened CacheSteps
  import opened Activation

  // ---------- when Stage succeeds ----------

  predicate White(c: char) {
    c in " \t\n\r" || c == 0x0b as char || c == 0x0c as char
  }

  lemma {:induction false} TrimLeftEmpty(s: string, cut: char -> bool)
    requires forall c :: cut(c) <==> White(c)
    ensures TrimLeft(s, cut) == "" <==> forall i :: 0 <= i < |s| ==> White(s[i])
    ensures TrimLeft(s, cut) != "" ==> !White(TrimLeft(s, cut)[0])
  {
    if s != "" && cut(s[0]) {
      TrimLeftEmpty(s[1..], cut);
      assert forall i :: 0 <= i < |s| ==> s[i] == if i == 0 then s[0] else s[1..][i - 1];
    }
  }

  lemma WhiteSpace(c: char)
    ensures IsSpace(c) <==> White(c)
  {
    var s := " \t\n\r";
    assert s[0] == ' ' && s[1] == '\t' && s[2] == '\n' && s[3] == '\r';
    assert '\t' as int == 9 && '\n' as int == 10 && '\r' as int == 13;
  }

  lemma TrimSpaceEmpty(s: string)
    ensures TrimSpace(s) == "" <==> forall i :: 0 <= i < |s| ==> White(s[i])
  {
    var cut := c => IsSpace(c);
    forall c ensures cut(c) <==> White(c) { WhiteSpace(c); }
    TrimLeftEmpty(s, cut);
    TrimRightShorter(TrimLeft(s, cut), cut);
  }

  lemma {:induction false} TrimLeftCuts(s: string, cut: char -> bool) returns (a: string)
    requires forall c :: cut(c) <==> White(c)
    ensures s == a + TrimLeft(s, cut) && forall i :: 0 <= i < |a| ==> White(a[i])
  {
    if s != "" && cut(s[0]) {
      var more := TrimLeftCuts(s[1..], cut);
      a := [s[0]] + more;
      assert s == [s[0]] + s[1..];
    } else {
      a := "";
    }
  }

  lemma {:induction false} TrimRightCuts(s: string, cut: char -> bool) returns (b: string)
    requires forall c :: cut(c) <==> White(c)
    ensures var r := TrimRight(s, cut);
            && s == r + b && (forall i :: 0 <= i < |b| ==> White(b[i]))
            && (r != "" ==> !White(r[|r| - 1]) && r[0] == s[0])
  {
    if s != "" && cut(s[|s| - 1]) {
      var more := TrimRightCuts(s[..|s| - 1], cut);
      b := more + [s[|s| - 1]];
      assert s == s[..|s| - 1] + [s[|s| - 1]];
    } else {
      b := "";
    }
  }

  // Trimming takes away the white space at both ends, and nothing else.
  lemma TrimSpaceMeans(s: string) returns (a: string, b: string)
    ensures var r := TrimSpace(s);
            && s == a + r + b
            && (forall i :: 0 <= i < |a| ==> White(a[i])) && (forall i :: 0 <= i < |b| ==> White(b[i]))
            && (r != "" ==> !White(r[0]) && !White(r[|r| - 1]))
  {
    var cut := c => IsSpace(c);
    forall c ensures cut(c) <==> White(c) { WhiteSpace(c); }
    a := TrimLeftCuts(s, cut);
    b := TrimRightCuts(TrimLeft(s, cut), cut);
    TrimLeftEmpty(s, cut);
  }

  // The driver is staged: its marker has something to say.
  ghost predicate StagedBefore(files: Files, k: string) {
    Marker(k) in files && exists i :: 0 <= i < |files[Marker(k)]| && !White(files[Marker(k)][i])
  }

  lemma InstalledMeans(files: Files, k: string)
    ensures Installed(files, k) != "" <==> StagedBefore(files, k)
  {
    if Marker(k) in files {
      TrimSpaceEmpty(files[Marker(k)]);
    }
  }

  // The download is accepted: there is no checksum, or it is the one of its length.
  predicate Verified(env: Env, hash: string, content: string) {
    hash == "" || (|hash| in {32, 40, 64, 128} && DigestOf(env, |hash|, content) == ToLower(hash))
  }

  lemma CompareMeans(env: Env, hash: string, content: string)
    requires ValidDigests(env)
    ensures (hash == "" || HashLength(|hash|)) && Compare(env, hash, content) <==> Verified(env, hash, content)
  {
    if hash == "" || HashLength(|hash|) {
      CompareExact(env, hash, content);
    }
  }

  // Everything that a fresh attempt needs.
  ghost predicate Fetchable(env: Env, d: Driver, call: Call) {
    && call.temp.None? && call.download.Downloaded? && Verified(env, d.hash, call.download.content)
    && (exists name, data :: Holds(env, d.url, call.download.content, name, data))
    && call.open.None? && call.copy.None? && call.marking.Marked?
  }

  // Stage succeeds exactly if no earlier error is to be returned and the driver is built in, or
  // staged already, or everything works on the way from the download to the marker.
  lemma StageWorks(env: Env, d: Driver, files: Files, call: Call)
    requires ValidDigests(env)
    ensures StageEffect(env, d, files, call).result.Ok? <==>
              (ErrorFile(Key(env, d)) !in files &&
               (d.builtin || (call.read.None? && (StagedBefore(files, Key(env, d)) || Fetchable(env, d, call)))))
  {
    InstalledMeans(files, Key(env, d));
    if call.download.Downloaded? {
      CompareMeans(env, d.hash, call.download.content);
      CopiedWorks(env, d, call.download.content, call);
    }
  }

  lemma CopiedWorks(env: Env, d: Driver, content: string, call: Call)
    ensures Copied(env, d, content, call).result.Ok? <==>
              ((exists name, data :: Holds(env, d.url, content, name, data))
               && call.open.None? && call.copy.None? && call.marking.Marked?)
  {
    UnpackFails(env, d.url, content);
  }

  // A fresh driver gets the name that its download holds; the marker says it, the whole binary is
  // staged under it, and no other file changes.
  lemma {:induction false} FreshlyStaged(env: Env, d: Driver, files: Files, call: Call, name: string, data: string)
    requires ValidEnv(env) && !d.builtin && ErrorFile(Key(env, d)) !in files && call.read.None?
    requires !StagedBefore(files, Key(env, d)) && Fetchable(env, d, call)
    requires Holds(env, d.url, call.download.content, name, data)
    ensures var r, k := StageEffect(env, d, files, call), Key(env, d);
            var g := Apply(files, r.ops);
            && r.result == Ok(name)
            && Marker(k) in g && g[Marker(k)] == name
            && StagedFile(k, name) in g && g[StagedFile(k, name)] == data
            && forall f :: f != Marker(k) && f != StagedFile(k, name) ==> SameFile(files, g, f)
  {
    var k := Key(env, d);
    var f, m := StagedFile(k, name), Marker(k);
    InstalledMeans(files, k);
    CompareMeans(env, d.hash, call.download.content);
    UnpackHolds(env, d.url, call.download.content, name, data);
    var ops := CopyOps(f, data);
    assert StageEffect(env, d, files, call) == DriverCache.Staged(ops + [Create(m), Append(m, name)], Ok(name));
    MarkedCopy(files, f, m, name, data);
    NamesApart(env, d.url + d.hash, d.url + d.hash, name, name);
  }

  lemma {:induction false} MarkedCopy(files: Files, f: File, m: File, name: string, data: string)
    ensures Apply(files, CopyOps(f, data) + [Create(m), Append(m, name)]) == files[f := data][m := name]
  {
    CopyDone(files, f, data);
    ApplyThree(files[f := data], Create(m), Append(m, name), Create(m));
    ApplySplit(files, CopyOps(f, data), [Create(m), Append(m, name)]);
    assert "" + name == name;
  }

  // A download that the checksum refuses, or that holds no driver, or a checksum of a wrong
  // length leaves nothing but the error.
  lemma {:induction false} RefusedLeavesError(env: Env, d: Driver, files: Files, call: Call)
    requires ValidEnv(env) && !d.builtin && ErrorFile(Key(env, d)) !in files && !StagedBefore(files, Key(env, d))
    requires call.download.Downloaded?
    requires !Verified(env, d.hash, call.download.content) ||
               forall name, data :: !Holds(env, d.url, call.download.content, name, data)
    ensures var r, k := StageEffect(env, d, files, call), Key(env, d);
            var g := Apply(files, r.ops);
            && r.result.Err?
            && ErrorFile(k) in g && g[ErrorFile(k)] == r.result.msg
            && forall f :: f != ErrorFile(k) ==> SameFile(files, g, f)
  {
    var k := Key(env, d);
    InstalledMeans(files, k);
    CompareMeans(env, d.hash, call.download.content);
    UnpackFails(env, d.url, call.download.content);
    var r := StageEffect(env, d, files, call);
    assert Attempt(env, d, files, call).ops == [];
    assert r.ops == [] + ErrorOps(k, r.result.msg);
    ErrorWritten(files, ErrorFile(k), r.result.msg);
  }

  lemma {:induction false} ErrorWritten(files: Files, f: File, msg: string)
    ensures Apply(files, [] + [Create(f), Append(f, msg)]) == files[f := msg]
  {
    ApplyThree(files, Create(f), Append(f, msg), Create(f));
    assert [] + [Create(f), Append(f, msg)] == [Create(f), Append(f, msg)];
    assert "" + msg == msg;
  }

  // ---------- when an activation succeeds ----------

  // An active driver goes by the name, once the prefix is dropped.
  ghost predicate NameTaken(name: string, active: seq<string>) {
    exists x :: x in active && (name == "docker-machine-driver-" + x || (name == x && !DriverName(name)))
  }

  lemma FriendlyTaken(name: string, active: seq<string>)
    ensures Friendly(name) in active <==> NameTaken(name, active)
  {
    var p := "docker-machine-driver-";
    if Friendly(name) in active {
      assert DriverName(name) ==> name == p + name[|p|..];
    }
    if NameTaken(name, active) {
      var x :| x in active && (name == p + x || (name == x && !DriverName(name)));
      if name == p + x {
        assert name[..|p|] == p && name[|p|..] == x;
      }
    }
  }

  // An activation gets to the driver's schema exactly if the driver can be staged, the active
  // drivers can be listed, none of them has its name, and its binary can be copied into place.
  lemma {:induction false} ActivationWorks(env: Env, d: Driver, files: Files, call: Call,
      active: Option<seq<string>>, o: Opening)
    ensures var s := StageEffect(env, d, files, call);
            Activated(env, d, files, call, active, o).1 <==>
              (s.result.Ok? && active.Some? && !NameTaken(s.result.name, active.value) &&
               (d.builtin || (o.Opened? && StagedFile(Key(env, d), s.result.name) in Apply(files, s.ops))))
  {
    var s := StageEffect(env, d, files, call);
    if s.result.Ok? && active.Some? {
      FriendlyTaken(s.result.name, active.value);
    }
  }

  // If an active driver has the name, no installed binary changes.
  lemma {:induction false} TakenNotInstalled(env: Env, d: Driver, files: Files, call: Call, active: seq<string>,
      o: Opening, f: File)
    requires StageEffect(env, d, files, call).result.Ok? && f.dir == Bin
    requires NameTaken(StageEffect(env, d, files, call).result.name, active)
    ensures !Activated(env, d, files, call, Some(active), o).1
    ensures SameFile(files, Apply(files, Activated(env, d, files, call, Some(active), o).0), f)
  {
    var s := StageEffect(env, d, files, call);
    FriendlyTaken(s.result.name, active);
    assert s.ops + [] == s.ops;
    StageInCache(env, d, files, call);
    Untouched(files, s.ops, |s.ops|, f);
    assert s.ops[..|s.ops|] == s.ops;
  }

  lemma StageInCache(env: Env, d: Driver, files: Files, call: Call)
    ensures var ops := StageEffect(env, d, files, call).ops;
            forall j :: 0 <= j < |ops| ==> ops[j].file.dir == Cache && !ops[j].Rename?
  {
    if call.download.Downloaded? {
      CopiedInCache(env, d, call.download.content, call);
    }
  }

  lemma CopiedInCache(env: Env, d: Driver, content: string, call: Call)
    ensures var ops := Copied(env, d, content, call).ops;
            forall j :: 0 <= j < |ops| ==> ops[j].file.dir == Cache && !ops[j].Rename?
  {
  }
}
