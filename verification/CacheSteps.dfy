// Single operations of the driver cache: what they leave alone, replay, replace and remove.
module CacheSteps {
  import opened GoStrings
  import opened DriverCache
  import opened CacheSafety

  // ---------- isolation ----------

  // The cache files of a driver with this key.
  predicate OwnFile(k: string, f: File) {
    f.dir == Cache && (f.name == k || f.name == k + ".error" || HasPrefix(f.name, k + "-"))
  }

  // Operations on cache files of this key, and deletions outside the cache.
  predicate Own(k: string, op: Op) {
    !op.Rename? && (OwnFile(k, op.file) || op.file.dir == Bin)
  }

  predicate AllOwn(k: string, ops: seq<Op>) {
    forall i :: 0 <= i < |ops| ==> Own(k, ops[i])
  }

  predicate SameFile(files: Files, g: Files, f: File) {
    (f in g <==> f in files) && (f in files && f in g ==> g[f] == files[f])
  }

  lemma {:induction false} Untouched(files: Files, ops: seq<Op>, i: nat, f: File)
    requires i <= |ops| && forall j :: 0 <= j < |ops| ==> ops[j].file != f && !ops[j].Rename?
    ensures SameFile(files, Apply(files, ops[..i]), f)
  {
    if i > 0 {
      Untouched(files, ops, i - 1, f);
      assert ops[..i][..i - 1] == ops[..i - 1];
    }
  }

  lemma OwnFilesApart(k: string, l: string, f: File)
    requires AllHex(k) && AllHex(l) && OwnFile(k, f) && OwnFile(l, f)
    ensures k == l
  {
    OwnName(k, f);
    OwnName(l, f);
    KeyAndEnding(k, f.name[|k|..], l, f.name[|l|..]);
  }

  lemma OwnName(k: string, f: File)
    requires OwnFile(k, f)
    ensures |f.name| >= |k| && f.name == k + f.name[|k|..] && Ending(f.name[|k|..])
  {
    if HasPrefix(f.name, k + "-") {
      assert f.name[..|k|] == (k + "-")[..|k|] && f.name[|k|] == (k + "-")[|k|];
    } else if f.name == k + ".error" {
      assert f.name[|k|..] == ".error";
    }
  }

  lemma CopiedOwn(env: Env, d: Driver, content: string, call: Call)
    ensures AllOwn(Key(env, d), Copied(env, d, content, call).ops)
  {
    var k := Key(env, d);
    forall n ensures OwnFile(k, StagedFile(k, n)) {
      assert (k + "-" + n)[..|k| + 1] == k + "-";
    }
  }

  lemma StageOwn(env: Env, d: Driver, files: Files, call: Call)
    ensures AllOwn(Key(env, d), StageEffect(env, d, files, call).ops)
  {
    if call.download.Downloaded? {
      CopiedOwn(env, d, call.download.content, call);
    }
    assert AllOwn(Key(env, d), Attempt(env, d, files, call).ops);
  }

  lemma RemoveOwn(files: Files, k: string)
    ensures AllOwn(k, RemoveOps(files, k))
  {
    if Marker(k) in files {
      var name := files[Marker(k)];
      assert (k + "-" + name)[..|k| + 1] == k + "-";
    }
  }

  // Stage, ClearError and Remove of one driver leave the cache files of any driver with another
  // url + hash as they are, wherever they are interrupted.
  lemma {:induction false} CacheIsolated(env: Env, d: Driver, other: Driver, files: Files, call: Call, ops: seq<Op>,
      i: nat, f: File)
    requires ValidKeys(env) && d.url + d.hash != other.url + other.hash && OwnFile(Key(env, other), f)
    requires ops == StageEffect(env, d, files, call).ops || ops == [Delete(ErrorFile(Key(env, d)))] ||
        ops == RemoveOps(files, Key(env, d))
    requires i <= |ops|
    ensures SameFile(files, Apply(files, ops[..i]), f)
  {
    var k := Key(env, d);
    StageOwn(env, d, files, call);
    RemoveOwn(files, k);
    assert AllOwn(k, ops);
    forall j | 0 <= j < |ops| ensures ops[j].file != f && !ops[j].Rename? {
      assert Own(k, ops[j]);
      if ops[j].file == f {
        KeysApart(env, d.url + d.hash, other.url + other.hash);
        OwnFilesApart(k, Key(env, other), f);
      }
    }
    Untouched(files, ops, i, f);
  }

  lemma KeysApart(env: Env, s: string, t: string)
    requires ValidKeys(env) && s != t
    ensures KeyOf(env, s) != KeyOf(env, t) && AllHex(KeyOf(env, s)) && AllHex(KeyOf(env, t))
  {
  }

  // With hashes of one length, a key belongs to one url and hash.
  lemma KeyDecides(env: Env, d: Driver, other: Driver)
    requires ValidKeys(env) && |d.hash| == |other.hash|
    ensures Key(env, d) == Key(env, other) <==> d.url == other.url && d.hash == other.hash
  {
    var s, t := d.url + d.hash, other.url + other.hash;
    if s == t {
      assert d.url == s[..|s| - |d.hash|] == other.url;
      assert d.hash == s[|d.url|..] == other.hash;
    } else {
      KeysApart(env, s, t);
    }
  }

  // ---------- errors are replayed once ----------

  datatype Step = Try(call: Call) | Clear

  function StepOps(env: Env, d: Driver, files: Files, step: Step): seq<Op> {
    match step
    case Try(call) => StageEffect(env, d, files, call).ops
    case Clear => [Delete(ErrorFile(Key(env, d)))]
  }

  function RunSteps(env: Env, d: Driver, files: Files, steps: seq<Step>): Files {
    if steps == [] then files
    else
      var n := |steps| - 1;
      var g := RunSteps(env, d, files, steps[..n]);
      Apply(g, StepOps(env, d, g, steps[n]))
  }

  // The step makes a real attempt, and that fails.
  predicate FailsHere(env: Env, d: Driver, files: Files, step: Step) {
    step.Try? && !Replays(env, d, files) && StageEffect(env, d, files, step.call).result.Err?
  }

  lemma {:induction false} AttemptKeepsError(env: Env, d: Driver, files: Files, call: Call)
    requires ValidKeys(env)
    ensures SameFile(files, Apply(files, Attempt(env, d, files, call).ops), ErrorFile(Key(env, d)))
  {
    var ops := Attempt(env, d, files, call).ops;
    var s := d.url + d.hash;
    forall j | 0 <= j < |ops| ensures ops[j].file != ErrorFile(KeyOf(env, s)) && !ops[j].Rename? {
      CopiedNotError(env, d, call, j, ops);
    }
    Untouched(files, ops, |ops|, ErrorFile(KeyOf(env, s)));
    assert ops[..|ops|] == ops;
  }

  lemma CopiedNotError(env: Env, d: Driver, call: Call, j: nat, ops: seq<Op>)
    requires ValidKeys(env) && j < |ops|
    requires call.download.Downloaded? && ops == Copied(env, d, call.download.content, call).ops
    ensures ops[j].file != ErrorFile(Key(env, d)) && !ops[j].Rename?
  {
    var s := d.url + d.hash;
    var u := Unpack(env, d.url, call.download.content);
    NamesApart(env, s, s, u.name, u.name);
  }

  lemma {:induction false} StepError(env: Env, d: Driver, files: Files, step: Step)
    requires ValidKeys(env)
    ensures var g := Apply(files, StepOps(env, d, files, step));
            && (Replays(env, d, g) <==> FailsHere(env, d, files, step))
            && (Replays(env, d, g) ==> g[ErrorFile(Key(env, d))] == StageEffect(env, d, files, step.call).result.msg)
  {
    var e := ErrorFile(Key(env, d));
    ApplyThree(files, Delete(e), Delete(e), Delete(e));
    if step.Try? && !Replays(env, d, files) {
      var a := Attempt(env, d, files, step.call);
      AttemptKeepsError(env, d, files, step.call);
      if a.result.Err? {
        var msg := a.result.msg;
        ApplySplit(files, a.ops, ErrorOps(Key(env, d), msg));
        ApplyThree(Apply(files, a.ops), Create(e), Append(e, msg), Create(e));
        assert "" + msg == msg;
      }
    }
  }

  lemma {:induction false} RunStepsSnoc(env: Env, d: Driver, files: Files, steps: seq<Step>, n: nat)
    requires n < |steps|
    ensures var g := RunSteps(env, d, files, steps[..n]);
            RunSteps(env, d, files, steps[..n + 1]) == Apply(g, StepOps(env, d, g, steps[n]))
  {
    assert steps[..n + 1][..n] == steps[..n];
  }

  // In any run of Stage and ClearError, a Stage replays an error exactly if the step just before
  // it was a real attempt that failed, and then it returns that attempt's error.
  lemma {:induction false} ErrorReplayedOnce(env: Env, d: Driver, files: Files, steps: seq<Step>, n: nat)
    requires ValidKeys(env) && !Replays(env, d, files) && n < |steps| && steps[n].Try?
    ensures var g := RunSteps(env, d, files, steps[..n]);
            && (Replays(env, d, g) <==> n > 0 && FailsHere(env, d, RunSteps(env, d, files, steps[..n - 1]),
                steps[n - 1]))
            && (Replays(env, d, g) ==>
                  StageEffect(env, d, g, steps[n].call).result ==
                  StageEffect(env, d, RunSteps(env, d, files, steps[..n - 1]), steps[n - 1].call).result)
  {
    if n > 0 {
      RunStepsSnoc(env, d, files, steps, n - 1);
      StepError(env, d, RunSteps(env, d, files, steps[..n - 1]), steps[n - 1]);
    }
  }

  function RealAttempts(env: Env, d: Driver, files: Files, steps: seq<Step>): nat {
    if steps == [] then 0
    else
      var n := |steps| - 1;
      RealAttempts(env, d, files, steps[..n]) +
        (if steps[n].Try? && !Replays(env, d, RunSteps(env, d, files, steps[..n])) then 1 else 0)
  }

  // Step j calls Stage; if that makes a real attempt, it fails.
  predicate NeverWorks(env: Env, d: Driver, files: Files, steps: seq<Step>, j: nat)
    requires j < |steps|
  {
    var g := RunSteps(env, d, files, steps[..j]);
    steps[j].Try? && (Replays(env, d, g) || FailsHere(env, d, g, steps[j]))
  }

  lemma {:induction false} OneMore(env: Env, d: Driver, files: Files, steps: seq<Step>, n: nat)
    requires ValidKeys(env) && n < |steps| && NeverWorks(env, d, files, steps, n)
    ensures Replays(env, d, RunSteps(env, d, files, steps[..n + 1])) <==>
        !Replays(env, d, RunSteps(env, d, files, steps[..n]))
    ensures RealAttempts(env, d, files, steps[..n + 1]) == RealAttempts(env, d, files, steps[..n]) +
        if Replays(env, d, RunSteps(env, d, files, steps[..n])) then 0 else 1
  {
    RunStepsSnoc(env, d, files, steps, n);
    StepError(env, d, RunSteps(env, d, files, steps[..n]), steps[n]);
    assert steps[..n + 1][..n] == steps[..n];
  }

  // Of k Stage calls in a row whose attempts all fail, every other one is an attempt.
  lemma {:induction false} AttemptsAlternate(env: Env, d: Driver, files: Files, steps: seq<Step>, n: nat)
    requires ValidKeys(env) && !Replays(env, d, files) && n <= |steps|
    requires forall j :: 0 <= j < n ==> NeverWorks(env, d, files, steps, j)
    ensures RealAttempts(env, d, files, steps[..n]) == (n + 1) / 2
    ensures n - RealAttempts(env, d, files, steps[..n]) == n / 2
    ensures Replays(env, d, RunSteps(env, d, files, steps[..n])) <==> n % 2 == 1
  {
    if n > 0 {
      AttemptsAlternate(env, d, files, steps, n - 1);
      OneMore(env, d, files, steps, n - 1);
    }
  }

  // ---------- Install ----------

  lemma NotTemporary(name: string)
    ensures File(Bin, name) != Temporary(name)
  {
    assert |name + "-tmp"| == |name| + 4;
  }

  // After any prefix of Install, every binary but the temporary one is what it was, or it is the
  // driver's own, whole.
  lemma {:induction false} InstallAtomic(env: Env, d: Driver, files: Files, o: Opening, i: nat, f: File)
    requires i <= |InstallEffect(env, d, files, o).0| && f != Temporary(d.name)
    ensures var r := InstallEffect(env, d, files, o);
            var g := Apply(files, r.0[..i]);
            var src := StagedFile(Key(env, d), d.name);
            if !d.builtin && r.1 && i == |r.0| && f == File(Bin, d.name) then f in g && src in files &&
                g[f] == files[src]
            else SameFile(files, g, f)
  {
    var r := InstallEffect(env, d, files, o);
    var src := StagedFile(Key(env, d), d.name);
    var tmp := Temporary(d.name);
    if r.1 && !d.builtin {
      var copy := CopyOps(tmp, files[src]);
      if i == |r.0| {
        assert r.0[..i] == copy + [Rename(tmp, File(Bin, d.name))];
        CopyDone(files, tmp, files[src]);
        ApplySnoc(files, copy, Rename(tmp, File(Bin, d.name)));
        NotTemporary(d.name);
      } else {
        assert r.0[..i] == copy[..i];
        Untouched(files, copy, i, f);
      }
    } else {
      Untouched(files, r.0, i, f);
    }
  }

  // ---------- Remove ----------

  // Remove interrupted anywhere and run again leaves nothing of the driver.
  lemma {:induction false} RemoveRestarts(files: Files, k: string, i: nat)
    requires Marker(k) in files && i <= |RemoveOps(files, k)|
    ensures var name := files[Marker(k)];
            var g := Apply(files, RemoveOps(files, k)[..i]);
            var h := Apply(g, RemoveOps(g, k));
            File(Bin, name) !in h && StagedFile(k, name) !in h && Marker(k) !in h
  {
    var name := files[Marker(k)];
    RemoveState(files, k, i);
    MarkerApart(k, name);
    var g := Apply(files, RemoveOps(files, k)[..i]);
    if i < 3 {
      RemoveState(g, k, 3);
      assert RemoveOps(g, k)[..3] == RemoveOps(g, k);
    }
  }

  // The cache is safe before and after Remove, and unsafe exactly between the last two steps.
  lemma {:induction false} RemoveUnsafeInside(env: Env, got: set<Delivery>, files: Files, s: string, i: nat)
    requires ValidKeys(env) && Safe(env, got, files)
    requires Marker(KeyOf(env, s)) in files && files[Marker(KeyOf(env, s))] != ""
    requires i <= |RemoveOps(files, KeyOf(env, s))|
    ensures Safe(env, got, Apply(files, RemoveOps(files, KeyOf(env, s))[..i])) <==> i != 2
  {
    var k := KeyOf(env, s);
    var name := files[Marker(k)];
    RemoveState(files, k, i);
    MarkerApart(k, name);
    var g := Apply(files, RemoveOps(files, k)[..i]);
    if i == 2 {
      assert !Committed(env, got, g, s);
    } else {
      forall t ensures Committed(env, got, g, t) {
        assert Committed(env, got, files, t);
        NamesApart(env, t, s, name, name);
        if Marker(KeyOf(env, t)) in files {
          NamesApart(env, t, s, files[Marker(KeyOf(env, t))], name);
          NamesApart(env, s, t, name, files[Marker(KeyOf(env, t))]);
        }
      }
    }
  }
}
