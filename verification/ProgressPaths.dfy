// What the handler of a create event does and says on every interleaving, which lines are
// forwarded, which error is chosen, and where a run can end.
module ProgressPaths {
  import opened GoStrings
  import opened Selections
  import opened Progress

  // ---------- the handler's own steps ----------

  predicate OfHandler(step: Step) {
    step.HandlerSend? || step.HandlerFail? || step.HandlerStart? || step.WaitOk? || step.WaitFail? ||
      step.SelectReceive? || step.SelectClosed? || step.SelectTimeout?
  }

  function Moves(steps: seq<Step>): seq<Step> {
    if steps == [] then []
    else
      var n := |steps| - 1;
      Moves(steps[..n]) + (if OfHandler(steps[n]) then [steps[n]] else [])
  }

  // The way to a new agent, or to that of a host that was restored.
  function Whole(restored: bool): seq<Step> {
    (if restored then [] else [HandlerSend, HandlerStart, WaitOk]) +
      [HandlerSend, HandlerSend, HandlerSend, HandlerSend]
  }

  // The steps that bring the handler there.
  ghost predicate PathTo(h: Handler, moves: seq<Step>, restored: bool) {
    match h
    case Sending(k) =>
      if k == 0 then !restored && moves == []
      else k <= 4 && moves == Whole(restored)[..if restored then k - 1 else k + 2]
    case Starting => !restored && moves == [HandlerSend]
    case Waiting => !restored && moves == [HandlerSend, HandlerStart]
    case Selecting => !restored && moves == [HandlerSend, HandlerStart, WaitFail]
    case Done(outcome) =>
      match outcome
      case Finished => moves == Whole(restored)
      case Failed => FailedAfter(moves, restored)
      case ProviderError(_) => !restored && moves == [HandlerSend, HandlerStart, WaitFail, SelectReceive]
      case WaitErrorEmpty => !restored && moves == [HandlerSend, HandlerStart, WaitFail, SelectReceive]
      case WaitErrorClosed => !restored && moves == [HandlerSend, HandlerStart, WaitFail, SelectClosed]
      case WaitErrorTimeout => !restored && moves == [HandlerSend, HandlerStart, WaitFail, SelectTimeout]
  }

  // A call failed on that way, at any place but within command.Wait.
  ghost predicate FailedAfter(moves: seq<Step>, restored: bool) {
    exists n :: 0 <= n < |Whole(restored)| && (restored || n != 2) && moves == Whole(restored)[..n] + [HandlerFail]
  }

  lemma MoveKeepsPath(prog: Program, s: State, step: Step, moves: seq<Step>, restored: bool)
    requires |prog.messages| == 5 && PathTo(s.handler, moves, restored)
    requires OfHandler(step) && Take(prog, s, step).Some?
    ensures PathTo(Take(prog, s, step).value.handler, moves + [step], restored)
  {
    var whole := Whole(restored);
    if step.HandlerFail? {
      assert moves == whole[..|moves|];
      assert FailedAfter(moves + [HandlerFail], restored);
    } else if step.HandlerSend? && s.handler.k > 0 {
      assert moves + [HandlerSend] == whole[..|moves| + 1];
    } else if step.WaitOk? {
      assert moves + [WaitOk] == whole[..3];
    }
  }

  lemma OthersKeepPath(prog: Program, s: State, step: Step)
    requires !OfHandler(step) && Take(prog, s, step).Some?
    ensures Take(prog, s, step).value.handler == s.handler
  {
  }

  // In every interleaving the handler is on one of these ways: it gets to the agent exactly when
  // docker-machine succeeded, and to one of the errors exactly when it failed.
  lemma {:induction false} HandlerPath(prog: Program, steps: seq<Step>, restored: bool)
    requires |prog.messages| == 5 && Run(prog, Init(restored), steps).Some?
    ensures PathTo(Run(prog, Init(restored), steps).value.handler, Moves(steps), restored)
    decreases |steps|
  {
    if steps == [] {
      assert restored ==> Whole(restored)[..0] == [];
    } else {
      var n := |steps| - 1;
      HandlerPath(prog, steps[..n], restored);
      var s := Run(prog, Init(restored), steps[..n]).value;
      if OfHandler(steps[n]) {
        MoveKeepsPath(prog, s, steps[n], Moves(steps[..n]), restored);
      } else {
        OthersKeepPath(prog, s, steps[n]);
      }
    }
  }

  lemma {:induction false} MovesMembers(steps: seq<Step>)
    ensures forall step :: step in Moves(steps) <==> step in steps && OfHandler(step)
  {
    if steps != [] {
      var n := |steps| - 1;
      MovesMembers(steps[..n]);
      assert steps == steps[..n] + [steps[n]];
    }
  }

  // Once docker-machine has failed, the handler waits for the error or is done with it.
  lemma {:induction false} AfterWaitFail(prog: Program, steps: seq<Step>, restored: bool)
    requires |prog.messages| == 5 && Run(prog, Init(restored), steps).Some?
    ensures var h := Run(prog, Init(restored), steps).value.handler;
            WaitFail in steps <==>
              h.Selecting? || (h.Done? && (h.outcome.ProviderError? || h.outcome.WaitErrorEmpty? ||
                h.outcome.WaitErrorClosed? || h.outcome.WaitErrorTimeout?))
  {
    HandlerPath(prog, steps, restored);
    MovesMembers(steps);
    PathFails(Run(prog, Init(restored), steps).value.handler, Moves(steps), restored);
  }

  // The handler chooses an error, or has.
  predicate AtError(h: Handler) {
    h.Selecting? || (h.Done? && (h.outcome.ProviderError? || h.outcome.WaitErrorEmpty? || h.outcome.WaitErrorClosed? ||
      h.outcome.WaitErrorTimeout?))
  }

  lemma PathFails(h: Handler, moves: seq<Step>, restored: bool)
    requires PathTo(h, moves, restored)
    ensures WaitFail in moves <==> AtError(h)
  {
    if AtError(h) {
      assert moves[2] == WaitFail;
    } else {
      NoFailOnWay(restored, moves);
      assert moves <= Whole(restored) || FailedAfter(moves, restored);
    }
  }

  lemma NoFailOnWay(restored: bool, moves: seq<Step>)
    ensures WaitFail !in Whole(restored)
    ensures moves <= Whole(restored) ==> WaitFail !in moves
    ensures FailedAfter(moves, restored) ==> WaitFail !in moves
  {
  }

  // Once it has succeeded, the handler ends well or because a later call failed.
  lemma {:induction false} AfterWaitOk(prog: Program, steps: seq<Step>, restored: bool)
    requires |prog.messages| == 5 && Run(prog, Init(restored), steps).Some? && WaitOk in steps
    ensures var h := Run(prog, Init(restored), steps).value.handler;
            !restored && (h.Sending? || h == Done(Finished) || h == Done(Failed)) && WaitFail !in steps
  {
    HandlerPath(prog, steps, restored);
    MovesMembers(steps);
    AfterWaitFail(prog, steps, restored);
    WaitsOnlyForMachine(restored, Moves(steps));
  }

  lemma WaitsOnlyForMachine(restored: bool, moves: seq<Step>)
    ensures restored ==> WaitOk !in Whole(restored)
    ensures restored && moves <= Whole(restored) ==> WaitOk !in moves
    ensures restored && FailedAfter(moves, restored) ==> WaitOk !in moves
  {
  }

  // ---------- what it says ----------

  // How many messages the handler has sent when it is there.
  ghost predicate SaidAt(h: Handler, restored: bool, n: nat) {
    && (h == Done(Finished) ==> n == if restored then 4 else 5)
    && (h.Selecting? || (h.Done? && !h.outcome.Finished? && !h.outcome.Failed?) ==> n == 1)
  }

  lemma SaidStep(prog: Program, s: State, step: Step, restored: bool)
    requires HandlerKept(prog, s, restored) && SaidAt(s.handler, restored, |By(FromHandler, s.sent)|)
    requires Take(prog, s, step).Some?
    ensures var s' := Take(prog, s, step).value; SaidAt(s'.handler, restored, |By(FromHandler, s'.sent)|)
  {
    if step.HandlerSend? {
      ByAppend(FromHandler, s.sent, (FromHandler, prog.messages[s.handler.k]));
    } else {
      HandlerSilent(prog, s, step);
    }
  }

  lemma {:induction false} SaidThroughout(prog: Program, steps: seq<Step>, restored: bool)
    requires Valid(prog) && Run(prog, Init(restored), steps).Some?
    ensures var s := Run(prog, Init(restored), steps).value; SaidAt(s.handler, restored, |By(FromHandler, s.sent)|)
    decreases |steps|
  {
    if steps != [] {
      var n := |steps| - 1;
      SaidThroughout(prog, steps[..n], restored);
      RunKeeps(prog, steps[..n], restored);
      SaidStep(prog, Run(prog, Init(restored), steps[..n]).value, steps[n], restored);
    }
  }

  // The messages of the handler, by how it ends: all five on the way to a new agent, all but the
  // first for a restored host, and only the first if docker-machine fails.
  lemma {:induction false} HandlerSays(script: Script, steps: seq<Step>, restored: bool)
    requires Run(ProgramOf(script), Init(restored), steps).Some?
    ensures var s := Run(ProgramOf(script), Init(restored), steps).value;
            var first := "Contacting " + script.driver;
            var later := ["Installing Rancher agent", "Creating agent container", "Starting agent container",
                          "Waiting for agent initialization"];
            var said := By(FromHandler, s.sent);
            && said <= (if restored then later else [first] + later)
            && (s.handler == Done(Finished) ==> said == if restored then later else [first] + later)
            && (WaitFail in steps ==> said == [first])
  {
    var prog := ProgramOf(script);
    ProgramValid(script);
    RunKeeps(prog, steps, restored);
    SaidThroughout(prog, steps, restored);
    AfterWaitFail(prog, steps, restored);
    Messages(script);
    HandlerPath(prog, steps, restored);
    var s := Run(prog, Init(restored), steps).value;
    Prefixes(prog.messages, By(FromHandler, s.sent), Start(restored));
  }

  lemma Messages(script: Script)
    ensures ProgramOf(script).messages ==
              ["Contacting " + script.driver] + ["Installing Rancher agent", "Creating agent container",
               "Starting agent container", "Waiting for agent initialization"]
    ensures ProgramOf(script).messages[1..] == ["Installing Rancher agent", "Creating agent container",
                                                "Starting agent container", "Waiting for agent initialization"]
  {
  }

  lemma Prefixes(messages: seq<string>, mine: seq<string>, start: nat)
    requires Said(messages, mine, start) && start <= 1
    ensures mine <= messages[start..]
    ensures |mine| + start == 5 ==> mine == messages[start..]
    ensures |mine| == 1 && start == 0 ==> mine == [messages[0]]
  {
  }

  // ---------- which lines are forwarded ----------

  // sub stands in s at place k.
  predicate StandsAt(s: string, sub: string, k: int) {
    0 <= k && k + |sub| <= |s| && s[k..k + |sub|] == sub
  }

  ghost predicate Occurs(sub: string, s: string) {
    exists k :: StandsAt(s, sub, k)
  }

  lemma StandsLater(s: string, sub: string, k: int)
    requires s != "" && k >= 0
    ensures StandsAt(s[1..], sub, k) <==> StandsAt(s, sub, k + 1)
  {
    if k + 1 + |sub| <= |s| {
      assert s[1..][k..k + |sub|] == s[k + 1..k + 1 + |sub|];
    }
  }

  lemma {:induction false} ContainsOccurs(s: string, sub: string)
    ensures Contains(s, sub) <==> Occurs(sub, s)
    decreases |s|
  {
    if HasPrefix(s, sub) {
      assert StandsAt(s, sub, 0);
    } else if s != "" {
      ContainsOccurs(s[1..], sub);
      if Occurs(sub, s) {
        var k :| StandsAt(s, sub, k);
        assert k > 0;
        StandsLater(s, sub, k - 1);
      }
      if Occurs(sub, s[1..]) {
        var k :| StandsAt(s[1..], sub, k);
        StandsLater(s, sub, k);
      }
    } else {
      assert Occurs(sub, s) ==> sub == "";
    }
  }

  // A line of stdout that is news: not empty, no error, and without the names of the host.
  ghost predicate News(script: Script, line: string) {
    && line != "" && !Occurs("Error creating machine: ", line)
    && !Occurs(script.externalId, line) && !Occurs(script.hostname, line)
  }

  lemma FilterPublishes(script: Script, line: string)
    ensures FilterDockerMessage(script, line, false) == Publish(line) <==> News(script, line)
    ensures FilterDockerMessage(script, line, false).Publish? ==>
      FilterDockerMessage(script, line, false) == Publish(line)
    ensures !FilterDockerMessage(script, line, true).Publish?
  {
    ContainsOccurs(line, "Error creating machine: ");
    ContainsOccurs(line, script.externalId);
    ContainsOccurs(line, script.hostname);
  }

  lemma {:induction false} PublishesStdout(script: Script, lines: seq<string>)
    ensures Selected(lines, line => News(script, line), Publishes(Acts(script, lines, false)))
    decreases |lines|
  {
    var news := line => News(script, line);
    if lines == [] {
      SelectedNone(news);
    } else {
      var n := |lines| - 1;
      PublishesStdout(script, lines[..n]);
      assert Acts(script, lines, false)[..n] == Acts(script, lines[..n], false);
      FilterPublishes(script, lines[n]);
      SelectedSnoc(lines, n, news, Publishes(Acts(script, lines[..n], false)));
      assert lines[..n + 1] == lines;
    }
  }

  lemma {:induction false} PublishesStderr(script: Script, lines: seq<string>)
    ensures Publishes(Acts(script, lines, true)) == []
    decreases |lines|
  {
    if lines != [] {
      var n := |lines| - 1;
      PublishesStderr(script, lines[..n]);
      assert Acts(script, lines, true)[..n] == Acts(script, lines[..n], true);
      FilterPublishes(script, lines[n]);
    }
  }

  lemma {:induction false} PublishesAppend(a: seq<Act>, b: seq<Act>)
    ensures Publishes(a + b) == Publishes(a) + Publishes(b)
    decreases |b|
  {
    if b == [] {
      assert a + b == a;
    } else {
      assert (a + b)[..|a + b| - 1] == a + b[..|b| - 1];
      PublishesAppend(a, b[..|b| - 1]);
    }
  }

  // The reader sends the first lines of stdout that are news, in order: those among the lines it
  // has read, so all of them when it has ended, and never a line of stderr.
  lemma {:induction false} Forwarded(script: Script, steps: seq<Step>, restored: bool)
    requires Run(ProgramOf(script), Init(restored), steps).Some?
    ensures var s := Run(ProgramOf(script), Init(restored), steps).value;
            var n := if s.read <= |script.stdout| then s.read else |script.stdout|;
            && s.read <= |script.stdout| + |script.stderr|
            && Selected(script.stdout[..n], line => News(script, line), By(FromReader, s.sent))
            && (s.reader.Ended? ==> n == |script.stdout|)
  {
    ProgressTrace(script, steps, restored);
    ProgramValid(script);
    RunKeeps(ProgramOf(script), steps, restored);
    var s := Run(ProgramOf(script), Init(restored), steps).value;
    ReadSoFar(script, s.read);
  }

  lemma ReadSoFar(script: Script, read: nat)
    requires read <= |ReaderActs(script)|
    ensures |ReaderActs(script)| == |script.stdout| + |script.stderr|
    ensures var n := if read <= |script.stdout| then read else |script.stdout|;
            Selected(script.stdout[..n], line => News(script, line), Publishes(ReaderActs(script)[..read]))
  {
    var out, err := Acts(script, script.stdout, false), Acts(script, script.stderr, true);
    if read <= |script.stdout| {
      assert ReaderActs(script)[..read] == Acts(script, script.stdout[..read], false);
      PublishesStdout(script, script.stdout[..read]);
    } else {
      var m := read - |script.stdout|;
      assert ReaderActs(script)[..read] == out + Acts(script, script.stderr[..m], true);
      PublishesAppend(out, Acts(script, script.stderr[..m], true));
      PublishesStderr(script, script.stderr[..m]);
      PublishesStdout(script, script.stdout);
      assert script.stdout[..|script.stdout|] == script.stdout;
      assert Publishes(out) + [] == Publishes(out);
    }
  }

  // While the host has no external id, no line at all is news.
  lemma {:induction false} NoIdNoNews(script: Script, steps: seq<Step>, restored: bool)
    requires script.externalId == "" && Run(ProgramOf(script), Init(restored), steps).Some?
    ensures By(FromReader, Run(ProgramOf(script), Init(restored), steps).value.sent) == []
  {
    Forwarded(script, steps, restored);
    var s := Run(ProgramOf(script), Init(restored), steps).value;
    var n := if s.read <= |script.stdout| then s.read else |script.stdout|;
    var kept := By(FromReader, s.sent);
    if kept != [] {
      var ks :| Places(ks, script.stdout[..n], line => News(script, line), kept);
      assert StandsAt(script.stdout[..n][ks[0]], "", 0);
      assert false;
    }
  }

  // ---------- which error is chosen ----------

  // The first line of stdout that announces an error, or else the first line of stderr.
  ghost predicate FirstError(script: Script, line: string) {
    (exists i :: AnnouncedFirst(script.stdout, i) && line == script.stdout[i]) ||
      (NoneAnnounced(script.stdout) && script.stderr != [] && line == script.stderr[0])
  }

  ghost predicate NoneAnnounced(lines: seq<string>) {
    forall j :: 0 <= j < |lines| ==> !Occurs("Error creating machine: ", lines[j])
  }

  ghost predicate AnnouncedFirst(lines: seq<string>, i: int) {
    0 <= i < |lines| && Occurs("Error creating machine: ", lines[i]) && NoneAnnounced(lines[..i])
  }

  // The announcement cut out of the line, at its first place.
  ghost predicate CutOut(line: string, text: string) {
    var announcement := "Error creating machine: ";
    (!Occurs(announcement, line) && text == line) ||
      exists k :: FirstPlace(line, announcement, k) && text == line[..k] + line[k + |announcement|..]
  }

  ghost predicate FirstPlace(s: string, sub: string, k: int) {
    StandsAt(s, sub, k) && forall j :: 0 <= j < k ==> !StandsAt(s, sub, j)
  }

  lemma {:induction false} RemoveFirstCuts(s: string, sub: string)
    ensures !Occurs(sub, s) ==> RemoveFirst(s, sub) == s
    ensures Occurs(sub, s) ==>
      exists k :: FirstPlace(s, sub, k) && RemoveFirst(s, sub) == s[..k] + s[k + |sub|..]
    decreases |s|
  {
    if HasPrefix(s, sub) {
      assert FirstPlace(s, sub, 0) && s[..0] + s[0 + |sub|..] == s[|sub|..];
    } else if s != "" {
      RemoveFirstCuts(s[1..], sub);
      forall k | k >= 0 ensures StandsAt(s[1..], sub, k) <==> StandsAt(s, sub, k + 1) { StandsLater(s, sub, k); }
      assert !StandsAt(s, sub, 0);
      if Occurs(sub, s) {
        var m :| StandsAt(s, sub, m);
        assert StandsAt(s[1..], sub, m - 1);
        var k :| FirstPlace(s[1..], sub, k) && RemoveFirst(s[1..], sub) == s[1..][..k] + s[1..][k + |sub|..];
        CutLater(s, sub, k);
      } else {
        assert !Occurs(sub, s[1..]);
        assert [s[0]] + s[1..] == s;
      }
    } else {
      assert Occurs(sub, s) ==> sub == "";
    }
  }

  lemma CutLater(s: string, sub: string, k: int)
    requires s != "" && !StandsAt(s, sub, 0) && FirstPlace(s[1..], sub, k)
    ensures FirstPlace(s, sub, k + 1)
    ensures [s[0]] + (s[1..][..k] + s[1..][k + |sub|..]) == s[..k + 1] + s[k + 1 + |sub|..]
  {
    StandsLater(s, sub, k);
    forall j | 0 <= j < k + 1 ensures !StandsAt(s, sub, j) {
      if j > 0 { StandsLater(s, sub, j - 1); }
    }
  }

  lemma {:induction false} AnnouncedLines(lines: seq<string>)
    ensures Announced(lines) == [] <==> NoneAnnounced(lines)
    ensures Announced(lines) != [] ==> exists i :: AnnouncedFirst(lines, i) && Announced(lines)[0] == lines[i]
    decreases |lines|
  {
    if lines != [] {
      var n := |lines| - 1;
      AnnouncedLines(lines[..n]);
      ContainsOccurs(lines[n], "Error creating machine: ");
      if Announced(lines[..n]) != [] {
        var i :| AnnouncedFirst(lines[..n], i) && Announced(lines[..n])[0] == lines[..n][i];
        assert lines[..n][..i] == lines[..i];
        assert AnnouncedFirst(lines, i);
      } else if Announced(lines) != [] {
        assert AnnouncedFirst(lines, n);
      }
    }
  }

  lemma FirstErrorLine(script: Script)
    ensures ErrorLines(script) != [] ==> FirstError(script, ErrorLines(script)[0])
    ensures ErrorLines(script) == [] <==> NoneAnnounced(script.stdout) && script.stderr == []
  {
    AnnouncedLines(script.stdout);
  }

  ghost predicate Rewrites(script: Script, line: string, text: string) {
    exists cut :: CutOut(line, cut) && text == script.handleError(cut)
  }

  lemma RewrittenFirst(script: Script, lines: seq<string>)
    requires lines != []
    ensures Rewrites(script, lines[0], Rewritten(script, lines)[0])
  {
    RemoveFirstCuts(lines[0], "Error creating machine: ");
    assert CutOut(lines[0], RemoveFirst(lines[0], "Error creating machine: "));
  }

  // When docker-machine fails and its error was received, the handler's error is the provider's
  // rewrite of the first error line, without the announcement; that of Wait if the rewrite is
  // empty, if there was no error line, or if it took too long.
  lemma {:induction false} ErrorChosen(script: Script, steps: seq<Step>, restored: bool)
    requires Run(ProgramOf(script), Init(restored), steps).Some?
    ensures var h := Run(ProgramOf(script), Init(restored), steps).value.handler;
            h.Done? && WaitFail in steps ==>
              match h.outcome
              case ProviderError(text) =>
                text != "" && exists line :: FirstError(script, line) && Rewrites(script, line, text)
              case WaitErrorEmpty => exists line :: FirstError(script, line) && Rewrites(script, line, "")
              case WaitErrorClosed => NoneAnnounced(script.stdout) && script.stderr == []
              case WaitErrorTimeout => SelectTimeout in steps
              case _ => false
  {
    ErrorChoice(script, steps, restored);
    ProgramValid(script);
    AfterWaitFail(ProgramOf(script), steps, restored);
    FirstErrorLine(script);
    var lines := ErrorLines(script);
    if lines != [] {
      RewrittenFirst(script, lines);
    }
    HandlerPath(ProgramOf(script), steps, restored);
    MovesMembers(steps);
    assert [HandlerSend, HandlerStart, WaitFail, SelectTimeout][3] == SelectTimeout;
  }

  // ---------- where a run can end ----------

  // A run that no call cuts short can stop in one state only: the handler is done, every message
  // is published, and the reader has ended, panicked or never begun, or hangs for good on an error
  // line because the one before it is still in the channel.
  lemma {:induction false} StuckExactly(script: Script, steps: seq<Step>, restored: bool)
    requires Run(ProgramOf(script), Init(restored), steps).Some?
    ensures var prog := ProgramOf(script);
            var s := Run(prog, Init(restored), steps).value;
            (forall step :: step != HandlerFail ==> Take(prog, s, step).None?) <==>
              && s.handler.Done? && s.closed && s.republisher.Stopped?
              && Stutters(s.published, Texts(s.sent))
              && (s.reader.Reading? ==> s.read < |prog.acts| && prog.acts[s.read].Report? && |s.errBuffer| == 1)
  {
    ProgramValid(script);
    RunKeeps(ProgramOf(script), steps, restored);
    ProgressTrace(script, steps, restored);
    var prog := ProgramOf(script);
    var s := Run(prog, Init(restored), steps).value;
    if forall step :: step != HandlerFail ==> Take(prog, s, step).None? {
      HandlerStuck(prog, s);
      ReaderStuck(prog, s);
    }
  }

  lemma HandlerStuck(prog: Program, s: State)
    requires |prog.messages| == 5 && (s.handler.Sending? ==> s.handler.k < 5 && !s.closed)
    requires (s.republisher.Stopped? ==> s.closed) && forall step :: step != HandlerFail ==> Take(prog, s, step).None?
    ensures s.handler.Done? && s.closed && s.republisher.Stopped?
  {
    assert Take(prog, s, HandlerSend).None? && Take(prog, s, HandlerStart).None?;
    assert Take(prog, s, WaitOk).None? && Take(prog, s, SelectTimeout).None? && Take(prog, s, HandlerClose).None?;
    assert Take(prog, s, Receive).None? && Take(prog, s, PublishReply).None? && Take(prog, s, Stop).None?;
  }

  lemma ReaderStuck(prog: Program, s: State)
    requires s.read <= |prog.acts| && |s.errBuffer| <= 1 && |s.buffer| <= PUBLISH_CAPACITY
    requires s.closed && forall step :: step != HandlerFail ==> Take(prog, s, step).None?
    ensures s.reader.Reading? ==> s.read < |prog.acts| && prog.acts[s.read].Report? && |s.errBuffer| == 1
  {
    assert Take(prog, s, ReaderAct).None? && Take(prog, s, ReaderEnd).None?;
  }

  // ---------- every ending happens ----------

  lemma {:induction false} RunSnoc(prog: Program, steps: seq<Step>, step: Step, restored: bool)
    requires Run(prog, Init(restored), steps).Some?
    ensures Run(prog, Init(restored), steps + [step]) == Take(prog, Run(prog, Init(restored), steps).value, step)
  {
    assert (steps + [step])[..|steps|] == steps;
  }

  // The first n lines are read, everything sent so far is published, and Wait has not returned.
  ghost predicate ReadUpTo(prog: Program, steps: seq<Step>, n: nat) {
    Run(prog, Init(false), steps).Some? &&
    var s := Run(prog, Init(false), steps).value;
    && s.handler.Waiting? && s.reader.Reading? && s.read == n && n <= |prog.acts|
    && s.republisher.Idle? && s.buffer == [] && !s.closed
    && s.errReceived == [] && s.errBuffer == Reports(prog.acts[..n])
  }

  lemma Opening(prog: Program) returns (steps: seq<Step>)
    requires Valid(prog)
    ensures ReadUpTo(prog, steps, 0)
  {
    steps := [];
    RunSnoc(prog, steps, HandlerSend, false);
    steps := steps + [HandlerSend];
    RunSnoc(prog, steps, HandlerStart, false);
    steps := steps + [HandlerStart];
    RunSnoc(prog, steps, Receive, false);
    steps := steps + [Receive];
    RunSnoc(prog, steps, PublishReply, false);
    steps := steps + [PublishReply];
  }

  lemma ReadNext(prog: Program, steps: seq<Step>, n: nat) returns (more: seq<Step>)
    requires n < |prog.acts| && ReadUpTo(prog, steps, n) && |Reports(prog.acts[..n + 1])| <= 1
    ensures ReadUpTo(prog, more, n + 1)
  {
    assert prog.acts[..n + 1][..n] == prog.acts[..n];
    RunSnoc(prog, steps, ReaderAct, false);
    more := steps + [ReaderAct];
    if prog.acts[n].Publish? {
      RunSnoc(prog, more, Receive, false);
      more := more + [Receive];
      RunSnoc(prog, more, PublishReply, false);
      more := more + [PublishReply];
    }
  }

  lemma {:induction false} ReadFar(prog: Program, n: nat) returns (steps: seq<Step>)
    requires Valid(prog) && n <= |prog.acts| && |Reports(prog.acts[..n])| <= 1
    ensures ReadUpTo(prog, steps, n)
  {
    if n == 0 {
      steps := Opening(prog);
    } else {
      assert prog.acts[..n][..n - 1] == prog.acts[..n - 1];
      steps := ReadFar(prog, n - 1);
      steps := ReadNext(prog, steps, n - 1);
    }
  }

  lemma {:induction false} FirstReport(acts: seq<Act>) returns (i: nat)
    requires Reports(acts) != []
    ensures i < |acts| && Reports(acts[..i + 1]) == [Reports(acts)[0]]
    decreases |acts|
  {
    var n := |acts| - 1;
    if Reports(acts[..n]) != [] {
      i := FirstReport(acts[..n]);
      assert acts[..n][..i + 1] == acts[..i + 1];
    } else {
      i := n;
      assert acts[..i + 1] == acts;
    }
  }

  // Whatever docker-machine prints, if there is an error line some run ends in the error made
  // of the first one.
  lemma ErrorHappens(script: Script) returns (steps: seq<Step>, line: string, text: string)
    requires !(NoneAnnounced(script.stdout) && script.stderr == [])
    ensures FirstError(script, line) && Rewrites(script, line, text)
    ensures Run(ProgramOf(script), Init(false), steps).Some?
    ensures Run(ProgramOf(script), Init(false), steps).value.handler ==
              Done(if text == "" then WaitErrorEmpty else ProviderError(text))
  {
    var prog := ProgramOf(script);
    ProgramValid(script);
    FirstErrorLine(script);
    ReportsOfScript(script);
    line, text := ErrorLines(script)[0], Rewritten(script, ErrorLines(script))[0];
    RewrittenFirst(script, ErrorLines(script));
    var i := FirstReport(prog.acts);
    steps := ReceivesFirst(prog, i + 1);
  }

  // If there is none, some run ends with the error of Wait because the channel was closed.
  lemma NoErrorHappens(script: Script) returns (steps: seq<Step>)
    requires NoneAnnounced(script.stdout) && script.stderr == []
    ensures Run(ProgramOf(script), Init(false), steps).Some?
    ensures Run(ProgramOf(script), Init(false), steps).value.handler == Done(WaitErrorClosed)
  {
    var prog := ProgramOf(script);
    ProgramValid(script);
    FirstErrorLine(script);
    ReportsOfScript(script);
    assert prog.acts[..|prog.acts|] == prog.acts;
    steps := ReadFar(prog, |prog.acts|);
    RunSnoc(prog, steps, ReaderEnd, false);
    steps := steps + [ReaderEnd];
    RunSnoc(prog, steps, WaitFail, false);
    steps := steps + [WaitFail];
    RunSnoc(prog, steps, SelectClosed, false);
    steps := steps + [SelectClosed];
  }

  lemma {:induction false} SendsOn(prog: Program, steps: seq<Step>, k: nat, restored: bool) returns (more: seq<Step>)
    requires Valid(prog) && 1 <= k < 5 && Run(prog, Init(restored), steps).Some?
    requires var s := Run(prog, Init(restored), steps).value; s.handler == Sending(k) && !s.closed && |s.buffer| <= k
    ensures Run(prog, Init(restored), more).Some? && Run(prog, Init(restored), more).value.handler == Done(Finished)
    decreases 5 - k
  {
    RunSnoc(prog, steps, HandlerSend, restored);
    more := steps + [HandlerSend];
    if k < 4 {
      more := SendsOn(prog, more, k + 1, restored);
    }
  }

  // And the handler can finish, for a new machine and for a restored host.
  lemma FinishHappens(script: Script, restored: bool) returns (steps: seq<Step>)
    ensures Run(ProgramOf(script), Init(restored), steps).Some?
    ensures Run(ProgramOf(script), Init(restored), steps).value.handler == Done(Finished)
  {
    var prog := ProgramOf(script);
    ProgramValid(script);
    steps := [];
    if !restored {
      steps := Opening(prog);
      RunSnoc(prog, steps, WaitOk, false);
      steps := steps + [WaitOk];
    }
    steps := SendsOn(prog, steps, 1, restored);
  }

  // ---------- a send after the close ----------

  // The i-th line of stdout is news, and at most two lines before it announce an error.
  ghost predicate LateNews(script: Script, i: int) {
    0 <= i < |script.stdout| && News(script, script.stdout[i]) && |Announced(script.stdout[..i])| <= 2
  }

  lemma {:induction false} ReportsSplit(acts: seq<Act>, a: nat, b: nat)
    requires a <= b <= |acts|
    ensures Reports(acts[..b]) == Reports(acts[..a]) + Reports(acts[a..b])
  {
    assert acts[..a] + acts[a..b] == acts[..b];
    ReportsAppend(acts[..a], acts[a..b]);
  }

  lemma StdoutActs(script: Script, i: nat)
    requires i <= |script.stdout|
    ensures |Reports(ReaderActs(script)[..i])| == |Announced(script.stdout[..i])|
    ensures i < |script.stdout| ==>
      (ReaderActs(script)[i].Publish? <==> News(script, script.stdout[i]))
  {
    assert ReaderActs(script)[..i] == Acts(script, script.stdout[..i], false);
    ReportsStdout(script, script.stdout[..i]);
    if i < |script.stdout| {
      FilterPublishes(script, script.stdout[i]);
    }
  }

  // The channel is closed, the reader is at line a, and there is a line i still to be forwarded.
  ghost predicate Doomed(prog: Program, steps: seq<Step>, i: nat) {
    Run(prog, Init(false), steps).Some? && i < |prog.acts| && prog.acts[i].Publish? &&
    var s := Run(prog, Init(false), steps).value;
    s.closed && s.reader.Reading? && s.read <= i && |s.errBuffer| + |Reports(prog.acts[s.read..i])| <= 1
  }

  lemma ReportsHead(acts: seq<Act>, a: nat, b: nat)
    requires a < b <= |acts|
    ensures Reports(acts[a..b]) == (if acts[a].Report? then [acts[a].text] else []) + Reports(acts[a + 1..b])
  {
    assert acts[a..b] == [acts[a]] + acts[a + 1..b];
    assert [acts[a]][..0] == [];
    ReportsAppend([acts[a]], acts[a + 1..b]);
  }

  lemma {:induction false} RunsIntoPanic(prog: Program, steps: seq<Step>, i: nat) returns (more: seq<Step>)
    requires Doomed(prog, steps, i)
    ensures Run(prog, Init(false), more).Some? && Run(prog, Init(false), more).value.reader.Panicked?
    decreases i - Run(prog, Init(false), steps).value.read
  {
    var s := Run(prog, Init(false), steps).value;
    RunSnoc(prog, steps, ReaderAct, false);
    more := steps + [ReaderAct];
    if !prog.acts[s.read].Publish? {
      ReportsHead(prog.acts, s.read, i);
      more := RunsIntoPanic(prog, more, i);
    }
  }

  // The handler, done, closes the channel while the reader is at line n.
  lemma CloseNow(prog: Program, steps: seq<Step>, i: nat) returns (more: seq<Step>)
    requires Run(prog, Init(false), steps).Some? && i < |prog.acts| && prog.acts[i].Publish?
    requires var s := Run(prog, Init(false), steps).value;
             && s.handler.Done? && !s.closed && s.reader.Reading? && s.read <= i && s.errBuffer == []
             && |Reports(prog.acts[s.read..i])| <= 1
    ensures Doomed(prog, more, i)
  {
    RunSnoc(prog, steps, HandlerClose, false);
    more := steps + [HandlerClose];
  }

  lemma ClosesEarly(prog: Program, i: nat) returns (steps: seq<Step>)
    requires Valid(prog) && i < |prog.acts| && prog.acts[i].Publish? && |Reports(prog.acts[..i])| <= 1
    ensures Doomed(prog, steps, i)
  {
    steps := Opening(prog);
    RunSnoc(prog, steps, WaitOk, false);
    steps := steps + [WaitOk];
    RunSnoc(prog, steps, HandlerFail, false);
    steps := steps + [HandlerFail];
    assert prog.acts[0..i] == prog.acts[..i];
    assert prog.acts[..0] == [];
    steps := CloseNow(prog, steps, i);
  }

  lemma ReceivesFirst(prog: Program, n: nat) returns (steps: seq<Step>)
    requires Valid(prog) && n <= |prog.acts| && |Reports(prog.acts[..n])| == 1
    ensures Run(prog, Init(false), steps).Some?
    ensures var s := Run(prog, Init(false), steps).value;
            s.handler.Done? && !s.closed && s.reader.Reading? && s.read == n && s.errBuffer == []
    ensures var text := Reports(prog.acts[..n])[0];
            Run(prog, Init(false), steps).value.handler ==
              Done(if text == "" then WaitErrorEmpty else ProviderError(text))
  {
    steps := ReadFar(prog, n);
    RunSnoc(prog, steps, WaitFail, false);
    steps := steps + [WaitFail];
    RunSnoc(prog, steps, SelectReceive, false);
    steps := steps + [SelectReceive];
  }

  lemma ClosesLate(prog: Program, i: nat) returns (steps: seq<Step>)
    requires Valid(prog) && i < |prog.acts| && prog.acts[i].Publish? && |Reports(prog.acts[..i])| == 2
    ensures Doomed(prog, steps, i)
  {
    var n := FirstReport(prog.acts[..i]);
    assert prog.acts[..i][..n + 1] == prog.acts[..n + 1];
    ReportsSplit(prog.acts, n + 1, i);
    steps := ReceivesFirst(prog, n + 1);
    steps := CloseNow(prog, steps, i);
  }

  lemma PanicStep(prog: Program, s: State, step: Step)
    requires Take(prog, s, step).Some? && Take(prog, s, step).value.reader.Panicked?
    ensures Take(prog, s, step).value.read == s.read
    ensures s.reader.Panicked? || (s.read < |prog.acts| && prog.acts[s.read].Publish?)
  {
  }

  // A reader that panicked stands at a line that it was to forward.
  lemma {:induction false} PanicsAtNews(prog: Program, steps: seq<Step>, restored: bool)
    requires Run(prog, Init(restored), steps).Some? && Run(prog, Init(restored), steps).value.reader.Panicked?
    ensures var s := Run(prog, Init(restored), steps).value; s.read < |prog.acts| && prog.acts[s.read].Publish?
    decreases |steps|
  {
    var n := |steps| - 1;
    var s := Run(prog, Init(restored), steps[..n]).value;
    PanicStep(prog, s, steps[n]);
    if s.reader.Panicked? {
      PanicsAtNews(prog, steps[..n], restored);
    }
  }

  lemma {:induction false} Started(prog: Program, steps: seq<Step>, restored: bool)
    requires Run(prog, Init(restored), steps).Some? && !Run(prog, Init(restored), steps).value.reader.NotStarted?
    ensures HandlerStart in steps
    decreases |steps|
  {
    var n := |steps| - 1;
    if steps[n] != HandlerStart {
      Started(prog, steps[..n], restored);
    }
  }

  lemma {:induction false} PanicNeedsNews(script: Script, steps: seq<Step>, restored: bool)
    requires Run(ProgramOf(script), Init(restored), steps).Some?
    requires Run(ProgramOf(script), Init(restored), steps).value.reader.Panicked?
    ensures !restored && exists i :: LateNews(script, i)
  {
    var prog := ProgramOf(script);
    PanicsAtNews(prog, steps, restored);
    Started(prog, steps, restored);
    ErrorChannelBound(script, steps, restored);
    HandlerPath(prog, steps, restored);
    MovesMembers(steps);
    StartsOnce(restored, Moves(steps));
    var i := Run(prog, Init(restored), steps).value.read;
    if i < |script.stdout| {
      StdoutActs(script, i);
      assert LateNews(script, i);
    } else {
      FilterPublishes(script, script.stderr[i - |script.stdout|]);
      assert false;
    }
  }

  lemma StartsOnce(restored: bool, moves: seq<Step>)
    requires exists h :: PathTo(h, moves, restored)
    ensures restored ==> HandlerStart !in moves
  {
  }

  // Some run panics, on a send after the close, exactly if stdout has a line of news with at
  // most two error announcements before it.
  lemma PanicExactly(script: Script, restored: bool)
    ensures (exists steps :: Panics(script, steps, restored)) <==> !restored && exists i :: LateNews(script, i)
  {
    var prog := ProgramOf(script);
    ProgramValid(script);
    if exists steps :: Panics(script, steps, restored) {
      var steps :| Panics(script, steps, restored);
      PanicNeedsNews(script, steps, restored);
    }
    if !restored && exists i :: LateNews(script, i) {
      var i :| LateNews(script, i);
      StdoutActs(script, i);
      var steps;
      if |Announced(script.stdout[..i])| <= 1 {
        steps := ClosesEarly(prog, i);
      } else {
        steps := ClosesLate(prog, i);
      }
      var more := RunsIntoPanic(prog, steps, i);
      assert Panics(script, more, restored);
    }
  }

  ghost predicate Panics(script: Script, steps: seq<Step>, restored: bool) {
    Run(ProgramOf(script), Init(restored), steps).Some? &&
      Run(ProgramOf(script), Init(restored), steps).value.reader.Panicked?
  }
}
