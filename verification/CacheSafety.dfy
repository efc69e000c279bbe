// What the driver cache keeps, whatever is staged and wherever a crash comes.
module CacheSafety {
  import opened GoStrings
  import opened DriverCache

  // ---------- trimming ----------

  lemma {:induction false} TrimLeftShorter(s: string, cut: char -> bool)
    ensures |TrimLeft(s, cut)| <= |s|
    ensures |TrimLeft(s, cut)| == |s| ==> TrimLeft(s, cut) == s
    ensures s != "" && !cut(s[0]) ==> TrimLeft(s, cut) == s
  {
    if s != "" && cut(s[0]) {
      TrimLeftShorter(s[1..], cut);
    }
  }

  lemma {:induction false} TrimRightShorter(s: string, cut: char -> bool)
    ensures |TrimRight(s, cut)| <= |s|
    ensures |TrimRight(s, cut)| == |s| ==> TrimRight(s, cut) == s
    ensures s != "" && !cut(s[|s| - 1]) ==> TrimRight(s, cut) == s
    ensures s != "" && !cut(s[0]) ==> TrimRight(s, cut) != ""
  {
    if s != "" && cut(s[|s| - 1]) {
      TrimRightShorter(s[..|s| - 1], cut);
    }
  }

  lemma TrimSpaceFacts(s: string)
    ensures |TrimSpace(s)| == |s| ==> TrimSpace(s) == s
    ensures s != "" && !IsSpace(s[0]) ==> TrimSpace(s) != ""
    ensures s != "" && !IsSpace(s[0]) && !IsSpace(s[|s| - 1]) ==> TrimSpace(s) == s
  {
    var cut := c => IsSpace(c);
    TrimLeftShorter(s, cut);
    TrimRightShorter(TrimLeft(s, cut), cut);
  }

  lemma DriverNameNotBlank(name: string)
    requires IsDriverName(name)
    ensures name != "" && TrimSpace(name) != ""
  {
    assert |PREFIX| > 0 && name[..|PREFIX|][0] == 'd';
    TrimSpaceFacts(name);
  }

  // ---------- hashes ----------

  // The download has the digest that the hash asks for.
  predicate Accepts(env: Env, hash: string, content: string) {
    hash == "" || (HashLength(|hash|) && DigestOf(env, |hash|, content) == ToLower(hash))
  }

  // Trimming the expected hash never changes the verdict: the hasher was chosen by the length of
  // the untrimmed hash.
  lemma CompareExact(env: Env, hash: string, content: string)
    requires ValidDigests(env) && (hash == "" || HashLength(|hash|))
    ensures Compare(env, hash, content) <==> Accepts(env, hash, content)
  {
    if hash != "" {
      var got, want := DigestOf(env, |hash|, content), ToLower(hash);
      assert |got| == |want|;
      TrimSpaceFacts(want);
      if got == want {
        assert got[0] in got && got[|got| - 1] in got;
      }
    }
  }

  // ---------- cache files ----------

  // What may come after a key: nothing, or text that begins with no hexadecimal digit.
  predicate Ending(x: string) {
    x == "" || !IsHex(x[0])
  }

  lemma KeyNotLonger(k: string, x: string, l: string, y: string)
    requires AllHex(l) && Ending(x) && k + x == l + y
    ensures |l| <= |k|
  {
    var all := l + y;
    assert forall i :: 0 <= i < |l| ==> all[i] == l[i] && IsHex(all[i]);
    assert x != "" ==> all[|k|] == x[0];
  }

  lemma KeyAndEnding(k: string, x: string, l: string, y: string)
    requires AllHex(k) && AllHex(l) && Ending(x) && Ending(y) && k + x == l + y
    ensures k == l && x == y
  {
    KeyNotLonger(k, x, l, y);
    KeyNotLonger(l, y, k, x);
    assert k == (k + x)[..|k|] == l && x == (k + x)[|k|..] == y;
  }

  // The three names of a cache file, in pieces.
  lemma InPieces(k: string, n: string)
    ensures Marker(k) == File(Cache, k + "") && ErrorFile(k) == File(Cache, k + ".error")
    ensures StagedFile(k, n) == File(Cache, k + ("-" + n))
    ensures Ending("") && Ending(".error") && Ending("-" + n)
    ensures "" != ".error" && "" != "-" + n && ".error" != "-" + n
    ensures ("-" + n)[1..] == n
  {
    assert k + "" == k && k + "-" + n == k + ("-" + n);
    assert (".error")[0] == '.' && ("-" + n)[0] == '-';
  }

  lemma ApartByEnding(env: Env, s: string, x: string, t: string, y: string)
    requires ValidKeys(env) && Ending(x) && Ending(y)
    ensures File(Cache, KeyOf(env, s) + x) == File(Cache, KeyOf(env, t) + y) <==> s == t && x == y
  {
    if KeyOf(env, s) + x == KeyOf(env, t) + y {
      KeyAndEnding(KeyOf(env, s), x, KeyOf(env, t), y);
    }
  }

  lemma NamesApart(env: Env, s: string, t: string, m: string, n: string)
    requires ValidKeys(env)
    ensures Marker(KeyOf(env, s)) == Marker(KeyOf(env, t)) ==> s == t
    ensures ErrorFile(KeyOf(env, s)) == ErrorFile(KeyOf(env, t)) ==> s == t
    ensures StagedFile(KeyOf(env, s), m) == StagedFile(KeyOf(env, t), n) ==> s == t && m == n
    ensures Marker(KeyOf(env, s)) != StagedFile(KeyOf(env, t), n) && Marker(KeyOf(env, s)) != ErrorFile(KeyOf(env, t))
    ensures ErrorFile(KeyOf(env, s)) != StagedFile(KeyOf(env, t), n)
  {
    InPieces(KeyOf(env, s), m);
    InPieces(KeyOf(env, t), n);
    ApartByEnding(env, s, "", t, "");
    ApartByEnding(env, s, ".error", t, ".error");
    ApartByEnding(env, s, "-" + m, t, "-" + n);
    ApartByEnding(env, s, "", t, "-" + n);
    ApartByEnding(env, s, "", t, ".error");
    ApartByEnding(env, s, ".error", t, "-" + n);
  }

  // ---------- the invariant ----------

  // A download, and what it was made for.
  datatype Delivery = Delivery(url: string, hash: string, content: string)

  // data is the driver binary, called name, of an accepted download; s is its url + hash.
  ghost predicate Delivers(env: Env, s: string, x: Delivery, name: string, data: string) {
    x.url + x.hash == s && Accepts(env, x.hash, x.content) && Unpack(env, x.url, x.content) == Unpacked(name, data)
  }

  // It is that of one of these downloads.
  ghost predicate Genuine(env: Env, got: set<Delivery>, s: string, name: string, data: string) {
    exists x :: x in got && Delivers(env, s, x, name, data)
  }

  // A marker that names a driver stands for a complete copy from one of these downloads.
  ghost predicate Committed(env: Env, got: set<Delivery>, files: Files, s: string) {
    var k := KeyOf(env, s);
    Marker(k) in files && files[Marker(k)] != "" ==>
      var name := files[Marker(k)];
      StagedFile(k, name) in files && Genuine(env, got, s, name, files[StagedFile(k, name)])
  }

  ghost predicate Safe(env: Env, got: set<Delivery>, files: Files) {
    forall s :: Committed(env, got, files, s)
  }

  // After any prefix of the operations.
  ghost predicate Throughout(env: Env, got: set<Delivery>, files: Files, ops: seq<Op>) {
    forall i :: 0 <= i <= |ops| ==> Safe(env, got, Apply(files, ops[..i]))
  }

  lemma ThroughoutNothing(env: Env, got: set<Delivery>, files: Files)
    requires Safe(env, got, files)
    ensures Throughout(env, got, files, [])
  {
  }

  lemma {:induction false} ThroughoutSnoc(env: Env, got: set<Delivery>, files: Files, ops: seq<Op>, op: Op)
    requires Throughout(env, got, files, ops) && Safe(env, got, Apply(files, ops + [op]))
    ensures Throughout(env, got, files, ops + [op])
  {
    var all := ops + [op];
    forall i | 0 <= i <= |all| ensures Safe(env, got, Apply(files, all[..i])) {
      if i <= |ops| {
        assert all[..i] == ops[..i];
      } else {
        assert all[..i] == all;
      }
    }
  }

  lemma {:induction false} ThroughoutEnd(env: Env, got: set<Delivery>, files: Files, ops: seq<Op>)
    requires Throughout(env, got, files, ops)
    ensures Safe(env, got, Apply(files, ops))
  {
    assert ops[..|ops|] == ops;
  }

  // Files that the invariant does not speak of.
  ghost predicate Foreign(env: Env, f: File) {
    && (forall s :: f != Marker(KeyOf(env, s)))
    && (forall s, n :: f != StagedFile(KeyOf(env, s), n))
  }

  ghost predicate SameElsewhere(env: Env, files: Files, g: Files) {
    && (forall f :: !Foreign(env, f) ==> (f in g <==> f in files))
    && (forall f :: !Foreign(env, f) && f in files ==> g[f] == files[f])
  }

  lemma ElsewhereSafe(env: Env, got: set<Delivery>, files: Files, g: Files)
    requires Safe(env, got, files) && SameElsewhere(env, files, g)
    ensures Safe(env, got, g)
  {
    forall s ensures Committed(env, got, g, s) {
      assert Committed(env, got, files, s);
      var k := KeyOf(env, s);
      assert !Foreign(env, Marker(k));
      if Marker(k) in files {
        assert !Foreign(env, StagedFile(k, files[Marker(k)]));
      }
    }
  }

  // Operations on foreign files only.
  ghost predicate OnForeign(env: Env, ops: seq<Op>) {
    forall i :: 0 <= i < |ops| ==> Foreign(env, ops[i].file) && (ops[i].Rename? ==> Foreign(env, ops[i].to))
  }

  lemma {:induction false} ForeignElsewhere(env: Env, files: Files, ops: seq<Op>, i: nat)
    requires OnForeign(env, ops) && i <= |ops|
    ensures SameElsewhere(env, files, Apply(files, ops[..i]))
  {
    if i > 0 {
      ForeignElsewhere(env, files, ops, i - 1);
      assert ops[..i][..i - 1] == ops[..i - 1];
    }
  }

  lemma ForeignThroughout(env: Env, got: set<Delivery>, files: Files, ops: seq<Op>)
    requires Safe(env, got, files) && OnForeign(env, ops)
    ensures Throughout(env, got, files, ops)
  {
    forall i | 0 <= i <= |ops| ensures Safe(env, got, Apply(files, ops[..i])) {
      ForeignElsewhere(env, files, ops, i);
      ElsewhereSafe(env, got, files, Apply(files, ops[..i]));
    }
  }

  lemma BinForeign(env: Env, name: string)
    ensures Foreign(env, File(Bin, name))
  {
  }

  lemma ErrorForeign(env: Env, s: string)
    requires ValidKeys(env)
    ensures Foreign(env, ErrorFile(KeyOf(env, s)))
  {
    forall t ensures ErrorFile(KeyOf(env, s)) != Marker(KeyOf(env, t)) {
      NamesApart(env, t, s, "", "");
    }
    forall t, n ensures ErrorFile(KeyOf(env, s)) != StagedFile(KeyOf(env, t), n) {
      NamesApart(env, s, t, n, n);
    }
  }

  // ---------- copying ----------

  // What a copy has done after i operations.
  lemma {:induction false} CopyState(files: Files, f: File, data: string, i: nat)
    requires 0 < i <= |CopyOps(f, data)|
    ensures i - 1 <= |data|
    ensures Apply(files, CopyOps(f, data)[..i]) == files[f := data[..i - 1]]
  {
    var ops := CopyOps(f, data);
    assert ops[..i][..i - 1] == ops[..i - 1];
    if i == 1 {
      assert ops[..1] == [Create(f)];
      ApplyThree(files, Create(f), Create(f), Create(f));
    } else {
      CopyState(files, f, data, i - 1);
      assert ops[i - 1] == Append(f, [data[i - 2]]);
      assert data[..i - 1] == data[..i - 2] + [data[i - 2]];
    }
  }

  lemma {:induction false} CopyDone(files: Files, f: File, data: string)
    ensures Apply(files, CopyOps(f, data)) == files[f := data]
  {
    var ops := CopyOps(f, data);
    CopyState(files, f, data, |ops|);
    assert ops[..|ops|] == ops && data[..|data|] == data;
  }

  ghost predicate Unmarked(env: Env, files: Files, s: string) {
    var m := Marker(KeyOf(env, s));
    m in files ==> files[m] == ""
  }

  lemma StagingSafe(env: Env, got: set<Delivery>, files: Files, s: string, name: string, data: string)
    requires ValidEnv(env) && Safe(env, got, files) && Unmarked(env, files, s)
    ensures Safe(env, got, files[StagedFile(KeyOf(env, s), name) := data])
  {
    var g := files[StagedFile(KeyOf(env, s), name) := data];
    forall t ensures Committed(env, got, g, t) {
      assert Committed(env, got, files, t);
      NamesApart(env, t, s, name, name);
      if Marker(KeyOf(env, t)) in files {
        NamesApart(env, t, s, files[Marker(KeyOf(env, t))], name);
      }
    }
  }

  lemma CopyThroughout(env: Env, got: set<Delivery>, files: Files, s: string, name: string, data: string)
    requires ValidEnv(env) && Safe(env, got, files) && Unmarked(env, files, s)
    ensures Throughout(env, got, files, CopyOps(StagedFile(KeyOf(env, s), name), data))
  {
    var f := StagedFile(KeyOf(env, s), name);
    var ops := CopyOps(f, data);
    forall i | 0 <= i <= |ops| ensures Safe(env, got, Apply(files, ops[..i])) {
      if i > 0 {
        CopyState(files, f, data, i);
        StagingSafe(env, got, files, s, name, data[..i - 1]);
      }
    }
  }

  lemma MarkingSafe(env: Env, got: set<Delivery>, files: Files, s: string, name: string)
    requires ValidEnv(env) && Safe(env, got, files)
    requires name != "" ==> StagedFile(KeyOf(env, s), name) in files
    requires name != "" ==> Genuine(env, got, s, name, files[StagedFile(KeyOf(env, s), name)])
    ensures Safe(env, got, files[Marker(KeyOf(env, s)) := name])
  {
    var g := files[Marker(KeyOf(env, s)) := name];
    forall t ensures Committed(env, got, g, t) {
      assert Committed(env, got, files, t);
      NamesApart(env, s, t, name, name);
      if Marker(KeyOf(env, t)) in files {
        NamesApart(env, s, t, name, files[Marker(KeyOf(env, t))]);
      }
    }
  }

  // The copy, then the marker.
  lemma {:induction false} CommitThroughout(env: Env, got: set<Delivery>, files: Files, s: string, name: string,
      data: string)
    requires ValidEnv(env) && Safe(env, got, files) && Unmarked(env, files, s)
    requires Genuine(env, got, s, name, data)
    ensures var m := Marker(KeyOf(env, s));
            var ops := CopyOps(StagedFile(KeyOf(env, s), name), data);
            && Throughout(env, got, files, ops + [Create(m)])
            && Throughout(env, got, files, ops + [Create(m), Append(m, name)])
            && Apply(files, ops + [Create(m), Append(m, name)]) ==
                files[StagedFile(KeyOf(env, s), name) := data][m := name]
  {
    var f, m := StagedFile(KeyOf(env, s), name), Marker(KeyOf(env, s));
    var ops := CopyOps(f, data);
    CopyThroughout(env, got, files, s, name, data);
    CopyDone(files, f, data);
    var g := files[f := data];
    ThroughoutEnd(env, got, files, ops);
    ApplySnoc(files, ops, Create(m));
    MarkingSafe(env, got, g, s, "");
    ThroughoutSnoc(env, got, files, ops, Create(m));
    NamesApart(env, s, s, name, name);
    ApplySnoc(files, ops + [Create(m)], Append(m, name));
    MarkingSafe(env, got, g, s, name);
    assert "" + name == name && g[m := ""][m := name] == g[m := name];
    assert Apply(files, ops + [Create(m)] + [Append(m, name)]) == g[m := name];
    ThroughoutSnoc(env, got, files, ops + [Create(m)], Append(m, name));
    assert ops + [Create(m)] + [Append(m, name)] == ops + [Create(m), Append(m, name)];
  }

  // ---------- staging, installing, clearing ----------

  lemma UnpackedIsDriver(env: Env, url: string, content: string)
    ensures Unpack(env, url, content).Unpacked? ==> IsDriverName(Unpack(env, url, content).name)
  {
    if !IsElf(content) && env.extract(content).Some? {
      FoundIsDriver(env.extract(content).value);
    }
  }

  lemma {:induction false} FoundIsDriver(files: seq<(string, string)>)
    ensures FindDriver(files).Some? ==> IsDriverName(FindDriver(files).value.0)
  {
    if files != [] {
      FoundIsDriver(files[..|files| - 1]);
    }
  }

  // A marker of a safe cache is blank only if it is empty.
  lemma NotInstalled(env: Env, got: set<Delivery>, files: Files, s: string)
    requires Safe(env, got, files) && Installed(files, KeyOf(env, s)) == ""
    ensures Unmarked(env, files, s)
  {
    var m := Marker(KeyOf(env, s));
    assert Committed(env, got, files, s);
    if m in files && files[m] != "" {
      var data := files[StagedFile(KeyOf(env, s), files[m])];
      var x :| x in got && Delivers(env, s, x, files[m], data);
      UnpackedIsDriver(env, x.url, x.content);
      DriverNameNotBlank(files[m]);
    }
  }

  lemma CopiedThroughout(env: Env, got: set<Delivery>, d: Driver, files: Files, content: string, call: Call)
    requires ValidEnv(env) && Safe(env, got, files) && Unmarked(env, files, d.url + d.hash)
    requires Accepts(env, d.hash, content) && Delivery(d.url, d.hash, content) in got
    ensures Throughout(env, got, files, Copied(env, d, content, call).ops)
  {
    var s := d.url + d.hash;
    match Unpack(env, d.url, content)
    case Rejected(msg) => ThroughoutNothing(env, got, files);
    case Unpacked(name, data) =>
      if call.open.Some? {
        ThroughoutNothing(env, got, files);
      } else if call.copy.Some? {
        CopyThroughout(env, got, files, s, name, if call.copy.value.0 <= |data| then data[..call.copy.value.0]
            else data);
      } else {
        assert Delivers(env, s, Delivery(d.url, d.hash, content), name, data);
        CopyThroughout(env, got, files, s, name, data);
        CommitThroughout(env, got, files, s, name, data);
        assert CopyOps(StagedFile(KeyOf(env, s), name), data) + [] == CopyOps(StagedFile(KeyOf(env, s), name), data);
      }
  }

  // What a Stage downloads, if it gets that far.
  function FetchedBy(env: Env, d: Driver, files: Files, call: Call): set<Delivery> {
    if !Replays(env, d, files) && !d.builtin && call.read.None? && Installed(files, Key(env, d)) == "" &&
       call.temp.None? && (d.hash == "" || HashLength(|d.hash|)) && call.download.Downloaded?
    then {Delivery(d.url, d.hash, call.download.content)}
    else {}
  }

  // More downloads do no harm.
  lemma MoreSafe(env: Env, got: set<Delivery>, more: set<Delivery>, files: Files)
    requires Safe(env, got, files)
    ensures Safe(env, got + more, files)
  {
    forall s ensures Committed(env, got + more, files, s) {
      assert Committed(env, got, files, s);
    }
  }

  lemma AttemptThroughout(env: Env, got: set<Delivery>, d: Driver, files: Files, call: Call)
    requires ValidEnv(env) && Safe(env, got, files) && !Replays(env, d, files)
    requires FetchedBy(env, d, files, call) <= got
    ensures Throughout(env, got, files, Attempt(env, d, files, call).ops)
  {
    ThroughoutNothing(env, got, files);
    var fetched := FetchedBy(env, d, files, call);
    if fetched != {} {
      var x := Delivery(d.url, d.hash, call.download.content);
      assert x in fetched;
      NotInstalled(env, got, files, d.url + d.hash);
      CompareExact(env, d.hash, x.content);
      if Compare(env, d.hash, x.content) {
        CopiedThroughout(env, got, d, files, x.content, call);
      }
    }
  }

  lemma {:induction false} ThroughoutConcat(env: Env, got: set<Delivery>, files: Files, a: seq<Op>, b: seq<Op>)
    requires Throughout(env, got, files, a) && Throughout(env, got, Apply(files, a), b)
    ensures Throughout(env, got, files, a + b)
  {
    forall i | 0 <= i <= |a + b| ensures Safe(env, got, Apply(files, (a + b)[..i])) {
      if i <= |a| {
        assert (a + b)[..i] == a[..i];
      } else {
        assert (a + b)[..i] == a + b[..i - |a|];
        ApplySplit(files, a, b[..i - |a|]);
      }
    }
  }

  lemma StageThroughout(env: Env, got: set<Delivery>, d: Driver, files: Files, call: Call)
    requires ValidEnv(env) && Safe(env, got, files) && FetchedBy(env, d, files, call) <= got
    ensures Throughout(env, got, files, StageEffect(env, d, files, call).ops)
  {
    var s := d.url + d.hash;
    ErrorForeign(env, s);
    if Replays(env, d, files) {
      ForeignThroughout(env, got, files, [Delete(ErrorFile(KeyOf(env, s)))]);
    } else {
      var a := Attempt(env, d, files, call);
      AttemptThroughout(env, got, d, files, call);
      if a.result.Err? {
        ThroughoutEnd(env, got, files, a.ops);
        var ops := ErrorOps(KeyOf(env, s), a.result.msg);
        ForeignThroughout(env, got, Apply(files, a.ops), ops);
        ThroughoutConcat(env, got, files, a.ops, ops);
      }
    }
  }

  lemma InstallThroughout(env: Env, got: set<Delivery>, d: Driver, files: Files, o: Opening)
    requires Safe(env, got, files)
    ensures Throughout(env, got, files, InstallEffect(env, d, files, o).0)
  {
    BinForeign(env, d.name);
    BinForeign(env, d.name + "-tmp");
    ForeignThroughout(env, got, files, InstallEffect(env, d, files, o).0);
  }

  // ---------- runs with crashes ----------

  // Removing is run to its end; the others may be cut short.
  datatype Event =
    | Staging(d: Driver, call: Call)
    | Installing(d: Driver, opening: Opening)
    | Clearing(d: Driver)
    | Removing(d: Driver)

  function EventOps(env: Env, files: Files, e: Event): seq<Op> {
    match e
    case Staging(d, call) => StageEffect(env, d, files, call).ops
    case Installing(d, o) => InstallEffect(env, d, files, o).0
    case Clearing(d) => [Delete(ErrorFile(Key(env, d)))]
    case Removing(d) => RemoveOps(files, Key(env, d))
  }

  // Each event is cut short after so many operations, if it has more.
  function DoneOps(env: Env, files: Files, event: (Event, nat)): seq<Op> {
    var ops := EventOps(env, files, event.0);
    if event.0.Removing? || event.1 > |ops| then ops else ops[..event.1]
  }

  function RunEvents(env: Env, files: Files, events: seq<(Event, nat)>): Files {
    if events == [] then files
    else
      var n := |events| - 1;
      var g := RunEvents(env, files, events[..n]);
      Apply(g, DoneOps(env, g, events[n]))
  }

  // What the Stages of the run download.
  function Fetched(env: Env, files: Files, events: seq<(Event, nat)>): set<Delivery> {
    if events == [] then {}
    else
      var n := |events| - 1;
      var e := events[n].0;
      Fetched(env, files, events[..n]) +
      (if e.Staging? then FetchedBy(env, e.d, RunEvents(env, files, events[..n]), e.call) else {})
  }

  // Each is the download of a Stage of the run, for the url and hash of its driver.
  lemma {:induction false} FetchedInRun(env: Env, files: Files, events: seq<(Event, nat)>, x: Delivery) returns (i: nat)
    requires x in Fetched(env, files, events)
    ensures i < |events| && events[i].0.Staging? && !events[i].0.d.builtin
    ensures x == Delivery(events[i].0.d.url, events[i].0.d.hash, x.content)
    ensures events[i].0.call.download == Downloaded(x.content)
  {
    var n := |events| - 1;
    if x in Fetched(env, files, events[..n]) {
      i := FetchedInRun(env, files, events[..n], x);
    } else {
      i := n;
    }
  }

  lemma EventThroughout(env: Env, got: set<Delivery>, files: Files, e: Event)
    requires ValidEnv(env) && Safe(env, got, files) && !e.Removing?
    requires e.Staging? ==> FetchedBy(env, e.d, files, e.call) <= got
    ensures Throughout(env, got, files, EventOps(env, files, e))
  {
    match e
    case Staging(d, call) => StageThroughout(env, got, d, files, call);
    case Installing(d, o) => InstallThroughout(env, got, d, files, o);
    case Clearing(d) =>
      ErrorForeign(env, d.url + d.hash);
      ForeignThroughout(env, got, files, [Delete(ErrorFile(Key(env, d)))]);
  }

  lemma MarkerApart(k: string, name: string)
    ensures Marker(k) != StagedFile(k, name) && Marker(k) != File(Bin, name)
  {
    assert |k + "-" + name| > |k|;
  }

  // What Remove has done after i operations.
  lemma {:induction false} RemoveState(files: Files, k: string, i: nat)
    requires Marker(k) in files && i <= 3
    ensures var name := files[Marker(k)];
            Apply(files, RemoveOps(files, k)[..i]) ==
              files - (if i == 0 then {} else if i == 1 then {File(Bin, name)}
                       else if i == 2 then {File(Bin, name), StagedFile(k, name)}
                       else {File(Bin, name), StagedFile(k, name), Marker(k)})
  {
    var name := files[Marker(k)];
    var a, b, c := Delete(File(Bin, name)), Delete(StagedFile(k, name)), Delete(Marker(k));
    ApplyThree(files, a, b, c);
    assert [a, b, c][..0] == [] && [a, b, c][..1] == [a] && [a, b, c][..2] == [a, b] && [a, b, c][..3] == [a, b, c];
  }

  // A Remove that is not interrupted keeps the cache safe.
  lemma {:induction false} RemovedSafe(env: Env, got: set<Delivery>, files: Files, s: string)
    requires ValidEnv(env) && Safe(env, got, files)
    ensures Safe(env, got, Apply(files, RemoveOps(files, KeyOf(env, s))))
  {
    var k := KeyOf(env, s);
    if Marker(k) in files {
      var name := files[Marker(k)];
      RemoveState(files, k, 3);
      MarkerApart(k, name);
      var ops := RemoveOps(files, k);
      assert ops[..3] == ops;
      var h := Apply(files, ops);
      forall t ensures Committed(env, got, h, t) {
        assert Committed(env, got, files, t);
        NamesApart(env, t, s, name, name);
        if Marker(KeyOf(env, t)) in files {
          NamesApart(env, t, s, files[Marker(KeyOf(env, t))], name);
          NamesApart(env, s, t, name, files[Marker(KeyOf(env, t))]);
        }
      }
    }
  }

  lemma {:induction false} EventSafe(env: Env, got: set<Delivery>, files: Files, event: (Event, nat))
    requires ValidEnv(env) && Safe(env, got, files)
    requires event.0.Staging? ==> FetchedBy(env, event.0.d, files, event.0.call) <= got
    ensures Safe(env, got, Apply(files, DoneOps(env, files, event)))
  {
    if event.0.Removing? {
      RemovedSafe(env, got, files, event.0.d.url + event.0.d.hash);
    } else {
      EventThroughout(env, got, files, event.0);
      ThroughoutEnd(env, got, files, EventOps(env, files, event.0));
    }
  }

  // After any sequence of these operations, each crashed anywhere or complete, every marker that
  // names a driver stands for a complete copy from an accepted download: an earlier one, or one
  // of a Stage of the run.
  lemma {:induction false} CacheStaysSafe(env: Env, got: set<Delivery>, files: Files, events: seq<(Event, nat)>)
    requires ValidEnv(env) && Safe(env, got, files)
    ensures Safe(env, got + Fetched(env, files, events), RunEvents(env, files, events))
  {
    if events == [] {
      assert got + Fetched(env, files, events) == got;
    } else {
      var n := |events| - 1;
      CacheStaysSafe(env, got, files, events[..n]);
      var g, before := RunEvents(env, files, events[..n]), got + Fetched(env, files, events[..n]);
      var all := got + Fetched(env, files, events);
      assert all == before + all;
      MoreSafe(env, before, all, g);
      EventSafe(env, all, g, events[n]);
    }
  }

  // ---------- what Install finds after Stage ----------

  lemma {:induction false} StagedFresh(env: Env, d: Driver, files: Files, content: string, call: Call)
    requires ValidEnv(env) && Copied(env, d, content, call).result.Ok? && Accepts(env, d.hash, content)
    ensures var s := Copied(env, d, content, call);
            var k := Key(env, d);
            var g := Apply(files, s.ops);
            && Marker(k) in g && g[Marker(k)] == s.result.name
            && StagedFile(k, s.result.name) in g
            && Delivers(env, d.url + d.hash, Delivery(d.url, d.hash, content), s.result.name,
                        g[StagedFile(k, s.result.name)])
  {
    var k := KeyOf(env, d.url + d.hash);
    var Unpacked(name, data) := Unpack(env, d.url, content);
    var f := StagedFile(k, name);
    CopyDone(files, f, data);
    var g := files[f := data];
    var ops := CopyOps(f, data);
    NamesApart(env, d.url + d.hash, d.url + d.hash, name, name);
    ApplyThree(g, Create(Marker(k)), Append(Marker(k), name), Create(Marker(k)));
    ApplySplit(files, ops, [Create(Marker(k)), Append(Marker(k), name)]);
    assert "" + name == name;
  }

  // After a successful Stage of a driver that is not built in, the marker names a complete copy,
  // just downloaded for the driver itself if nothing was installed. Stage gives the driver the
  // marker's name, except that a cached one is trimmed.
  lemma {:induction false} StageSucceeds(env: Env, got: set<Delivery>, d: Driver, files: Files, call: Call)
    requires ValidEnv(env) && Safe(env, got, files) && !d.builtin && StageEffect(env, d, files, call).result.Ok?
    ensures var r := StageEffect(env, d, files, call);
            var g := Apply(files, r.ops);
            var k := Key(env, d);
            && Marker(k) in g && StagedFile(k, g[Marker(k)]) in g
            && (if Installed(files, k) == ""
                then r.result.name == g[Marker(k)]
                     && FetchedBy(env, d, files, call) == {Delivery(d.url, d.hash, call.download.content)}
                     && Delivers(env, d.url + d.hash, Delivery(d.url, d.hash, call.download.content), g[Marker(k)],
                                 g[StagedFile(k, g[Marker(k)])])
                else g == files && r.result.name == TrimSpace(files[Marker(k)])
                     && Genuine(env, got, d.url + d.hash, g[Marker(k)], g[StagedFile(k, g[Marker(k)])]))
  {
    var s := d.url + d.hash;
    var r := StageEffect(env, d, files, call);
    var k := KeyOf(env, s);
    if Installed(files, k) != "" {
      assert r == Staged([], Ok(Installed(files, k)));
      assert Committed(env, got, files, s);
      assert files[Marker(k)] != "" by { TrimSpaceFacts(files[Marker(k)]); }
    } else {
      var content := call.download.content;
      CompareExact(env, d.hash, content);
      StagedFresh(env, d, files, content, call);
    }
  }

  lemma SourceNeeded(env: Env, d: Driver, files: Files)
    requires !d.builtin
    ensures InstallEffect(env, d, files, Opened).1 <==> StagedFile(Key(env, d), d.name) in files
  {
  }

  // Whether Install then finds its source can be read off the disk before: nothing was installed,
  // or a copy under the trimmed name is staged. If the marker's copy is the only one, it means
  // that its name has no blanks around it.
  lemma {:induction false} InstallFindsSource(env: Env, got: set<Delivery>, d: Driver, files: Files, call: Call)
    requires ValidEnv(env) && Safe(env, got, files) && !d.builtin && StageEffect(env, d, files, call).result.Ok?
    ensures var r := StageEffect(env, d, files, call);
            var k := Key(env, d);
            var found := InstallEffect(env, d.(name := r.result.name), Apply(files, r.ops), Opened).1;
            && (found <==> Installed(files, k) == "" || StagedFile(k, TrimSpace(files[Marker(k)])) in files)
            && ((forall x :: StagedFile(k, x) in files ==> Marker(k) in files && x == files[Marker(k)]) ==>
                  (found <==> Installed(files, k) == "" || TrimSpace(files[Marker(k)]) == files[Marker(k)]))
  {
    var r := StageEffect(env, d, files, call);
    StageSucceeds(env, got, d, files, call);
    SourceNeeded(env, d.(name := r.result.name), Apply(files, r.ops));
  }

  // ---------- whose download a copy is ----------

  ghost predicate NothingCached(files: Files) {
    forall f :: f in files ==> f.dir == Bin
  }

  lemma NothingCachedSafe(env: Env, files: Files)
    requires NothingCached(files)
    ensures Safe(env, {}, files)
  {
    forall s ensures Committed(env, {}, files, s) {
      assert Marker(KeyOf(env, s)).dir == Cache;
    }
  }

  // Two drivers with one key are one driver exactly if their hashes have one length.
  lemma SameKey(d: Driver, url: string, hash: string)
    requires d.url + d.hash == url + hash
    ensures d.url == url && d.hash == hash <==> |d.hash| == |hash|
  {
    var s := url + hash;
    if |d.hash| == |hash| {
      assert d.url == s[..|s| - |hash|] == url;
      assert d.hash == s[|url|..] == hash;
    }
  }

  // After any run from an empty cache, a marker under d's key that names a driver stands for the
  // complete binary of a download that some Stage of the run made and accepted for its own
  // driver. That driver is d exactly if its hash is as long as d's.
  lemma MarkerFromRun(env: Env, files: Files, events: seq<(Event, nat)>, d: Driver) returns (i: nat)
    requires ValidEnv(env) && NothingCached(files)
    requires var g := RunEvents(env, files, events); Marker(Key(env, d)) in g && g[Marker(Key(env, d))] != ""
    ensures i < |events| && events[i].0.Staging? && events[i].0.call.download.Downloaded?
    ensures var g, k := RunEvents(env, files, events), Key(env, d);
            var e, content := events[i].0.d, events[i].0.call.download.content;
            && Key(env, e) == k
            && StagedFile(k, g[Marker(k)]) in g
            && Accepts(env, e.hash, content)
            && Unpack(env, e.url, content) == Unpacked(g[Marker(k)], g[StagedFile(k, g[Marker(k)])])
            && (e.url == d.url && e.hash == d.hash <==> |e.hash| == |d.hash|)
  {
    var g, s := RunEvents(env, files, events), d.url + d.hash;
    NothingCachedSafe(env, files);
    CacheStaysSafe(env, {}, files, events);
    var got := {} + Fetched(env, files, events);
    assert Committed(env, got, g, s);
    var name := g[Marker(KeyOf(env, s))];
    var x :| x in got && Delivers(env, s, x, name, g[StagedFile(KeyOf(env, s), name)]);
    i := FetchedInRun(env, files, events, x);
    SameKey(d, x.url, x.hash);
  }

  // No other driver with d's url + hash and a hash of another length was staged.
  ghost predicate AloneWithKey(events: seq<(Event, nat)>, d: Driver) {
    forall i :: 0 <= i < |events| && events[i].0.Staging? ==>
      var e := events[i].0.d;
      e.url + e.hash == d.url + d.hash ==> |e.hash| == |d.hash|
  }

  // Then the copy behind d's marker was downloaded from d's url and has d's digest.
  lemma OwnDigest(env: Env, files: Files, events: seq<(Event, nat)>, d: Driver) returns (content: string)
    requires ValidEnv(env) && NothingCached(files) && AloneWithKey(events, d)
    requires var g := RunEvents(env, files, events); Marker(Key(env, d)) in g && g[Marker(Key(env, d))] != ""
    ensures var g, k := RunEvents(env, files, events), Key(env, d);
            && Delivery(d.url, d.hash, content) in Fetched(env, files, events)
            && StagedFile(k, g[Marker(k)]) in g
            && Accepts(env, d.hash, content)
            && Unpack(env, d.url, content) == Unpacked(g[Marker(k)], g[StagedFile(k, g[Marker(k)])])
  {
    var g, s := RunEvents(env, files, events), d.url + d.hash;
    NothingCachedSafe(env, files);
    CacheStaysSafe(env, {}, files, events);
    var got := {} + Fetched(env, files, events);
    assert Committed(env, got, g, s);
    var name := g[Marker(KeyOf(env, s))];
    var x :| x in got && Delivers(env, s, x, name, g[StagedFile(KeyOf(env, s), name)]);
    var i := FetchedInRun(env, files, events, x);
    SameKey(d, x.url, x.hash);
    content := x.content;
  }

  ghost predicate DownloadedFor(d: Driver, got: set<Delivery>) {
    exists x :: x in got && x.url == d.url && x.hash == d.hash
  }

  // Every call of a Stage works.
  function SmoothCall(content: string): Call {
    Call(None, None, Downloaded(content), None, None, Marked)
  }

  // Without that condition it fails. Of two drivers with one url + hash the second gets the copy
  // of the first, unchecked and whatever it is; the run holds a download made for the second
  // driver's url and hash exactly if the two hashes have one length.
  lemma {:induction false} SharedKeyUnchecked(env: Env, files: Files, e: Driver, d: Driver, content: string,
      name: string, data: string,
      call: Call)
    requires ValidEnv(env) && NothingCached(files) && !e.builtin && !d.builtin && e.url + e.hash == d.url + d.hash
    requires Accepts(env, e.hash, content) && Unpack(env, e.url, content) == Unpacked(name, data)
    requires TrimSpace(name) == name && call.read.None?
    ensures var run := [(Staging(e, SmoothCall(content)), |StageEffect(env, e, files, SmoothCall(content)).ops|)];
            var g := RunEvents(env, files, run);
            var k := Key(env, d);
            && Key(env, e) == k
            && StageEffect(env, d, g, call) == Staged([], Ok(name))
            && StagedFile(k, name) in g && g[StagedFile(k, name)] == data
            && InstallEffect(env, d.(name := name), g, Opened).1
            && (DownloadedFor(d, Fetched(env, files, run) + FetchedBy(env, d, g, call)) <==> |e.hash| == |d.hash|)
  {
    var s := d.url + d.hash;
    var k := KeyOf(env, s);
    UnpackedIsDriver(env, e.url, content);
    DriverNameNotBlank(name);
    CopiesAtOnce(env, e, files, name, data, content);
    StagedFresh(env, e, files, content, SmoothCall(content));
    OnlyStaged(env, e, files, name, data);
    NamesApart(env, s, s, name, name);
    var ops := StageEffect(env, e, files, SmoothCall(content)).ops;
    var g := Apply(files, ops);
    RunOne(env, files, Staging(e, SmoothCall(content)));
    StagedAgain(env, d, g, call);
    SourceNeeded(env, d.(name := name), g);
    SameKey(d, e.url, e.hash);
    var x := Delivery(e.url, e.hash, content);
    assert x in {x};
  }

  lemma {:induction false} RunOne(env: Env, files: Files, e: Event)
    requires e.Staging?
    ensures var run := [(e, |EventOps(env, files, e)|)];
            && RunEvents(env, files, run) == Apply(files, EventOps(env, files, e))
            && Fetched(env, files, run) == FetchedBy(env, e.d, files, e.call)
  {
    var run := [(e, |EventOps(env, files, e)|)];
    assert run[..0] == [];
    var ops := EventOps(env, files, e);
    assert ops[..|ops|] == ops;
  }

  // So for any driver with a checksum: one without a checksum, whose url is the first one's url
  // and checksum together, fills its cache entry with any driver binary whatever.
  lemma {:induction false} ChecksumNotSeen(env: Env, files: Files, d: Driver, content: string, name: string,
      data: string)
    requires ValidEnv(env) && NothingCached(files) && !d.builtin && d.hash != ""
    requires Unpack(env, d.url + d.hash, content) == Unpacked(name, data) && TrimSpace(name) == name
    requires !Accepts(env, d.hash, content)
    ensures var e := Driver(false, d.url + d.hash, "", "");
            var g := Apply(files, StageEffect(env, e, files, SmoothCall(content)).ops);
            && StageEffect(env, d, g, SmoothCall(content)) == Staged([], Ok(name))
            && InstallEffect(env, d.(name := name), g, Opened).1
            && StagedFile(Key(env, d), name) in g && g[StagedFile(Key(env, d), name)] == data
            && StageEffect(env, d, files, SmoothCall(content)).result.Err?
  {
    var e := Driver(false, d.url + d.hash, "", "");
    assert e.url + e.hash == d.url + d.hash;
    SharedKeyUnchecked(env, files, e, d, content, name, data, SmoothCall(content));
    RunOne(env, files, Staging(e, SmoothCall(content)));
    if HashLength(|d.hash|) {
      CompareExact(env, d.hash, content);
    }
  }

  // ---------- a name with blanks ----------

  // A driver whose file name ends in a blank is staged, but cannot be installed the next time.
  lemma {:induction false} BlankNameLost(env: Env, d: Driver, files: Files, name: string, data: string, content: string)
    requires ValidEnv(env) && !d.builtin && NothingCached(files) && Accepts(env, d.hash, content)
    requires Unpack(env, d.url, content) == Unpacked(name, data) && TrimSpace(name) != name
    ensures var call := SmoothCall(content);
            var r := StageEffect(env, d, files, call);
            var g := Apply(files, r.ops);
            var r' := StageEffect(env, d, g, call);
            && r.result == Ok(name) && InstallEffect(env, d.(name := name), g, Opened).1
            && r'.result == Ok(TrimSpace(name)) && r'.ops == []
            && !InstallEffect(env, d.(name := TrimSpace(name)), g, Opened).1
  {
    var s, call := d.url + d.hash, SmoothCall(content);
    UnpackedIsDriver(env, d.url, content);
    DriverNameNotBlank(name);
    CopiesAtOnce(env, d, files, name, data, content);
    StagedFresh(env, d, files, content, call);
    OnlyStaged(env, d, files, name, data);
    NamesApart(env, s, s, TrimSpace(name), name);
    NamesApart(env, s, s, name, name);
    var g := Apply(files, StageEffect(env, d, files, call).ops);
    StagedAgain(env, d, g, call);
    SourceNeeded(env, d.(name := name), g);
    SourceNeeded(env, d.(name := TrimSpace(name)), g);
  }

  lemma CopiesAtOnce(env: Env, d: Driver, files: Files, name: string, data: string, content: string)
    requires ValidEnv(env) && !d.builtin && NothingCached(files) && Accepts(env, d.hash, content)
    requires Unpack(env, d.url, content) == Unpacked(name, data)
    ensures StageEffect(env, d, files, SmoothCall(content)) == Copied(env, d, content, SmoothCall(content))
    ensures Copied(env, d, content, SmoothCall(content)) ==
              Staged(CopyOps(StagedFile(Key(env, d), name), data) +
                  [Create(Marker(Key(env, d))), Append(Marker(Key(env, d)), name)], Ok(name))
    ensures FetchedBy(env, d, files, SmoothCall(content)) == {Delivery(d.url, d.hash, content)}
  {
    CompareExact(env, d.hash, content);
    assert Marker(Key(env, d)).dir == Cache && ErrorFile(Key(env, d)).dir == Cache;
  }

  lemma StagedAgain(env: Env, d: Driver, g: Files, call: Call)
    requires !d.builtin && call.read.None? && ErrorFile(Key(env, d)) !in g
    requires Marker(Key(env, d)) in g && TrimSpace(g[Marker(Key(env, d))]) != ""
    ensures StageEffect(env, d, g, call) == Staged([], Ok(TrimSpace(g[Marker(Key(env, d))])))
  {
  }

  lemma {:induction false} OnlyStaged(env: Env, d: Driver, files: Files, name: string, data: string)
    requires ValidKeys(env)
    ensures var k := Key(env, d);
            var ops := CopyOps(StagedFile(k, name), data) + [Create(Marker(k)), Append(Marker(k), name)];
            forall f :: f in Apply(files, ops) <==> f in files || f == StagedFile(k, name) || f == Marker(k)
  {
    var k := KeyOf(env, d.url + d.hash);
    var f, m := StagedFile(k, name), Marker(k);
    CopyDone(files, f, data);
    ApplyThree(files[f := data], Create(m), Append(m, name), Create(m));
    ApplySplit(files, CopyOps(f, data), [Create(m), Append(m, name)]);
  }
}
