// handlers/create.go and handlers/common.go: the handler of a create event, the reader of
// docker-machine's output, and the republisher, talking over two bounded channels.
module Progress {
  import opened GoStrings

  // One create event: the lines of docker-machine's output that the scanners deliver, and what the
  // messages depend on. A scanner stops early when Wait closes its pipe or a line is too long.
  datatype Script = Script(
    stdout: seq<string>,
    stderr: seq<string>,
    externalId: string,
    hostname: string,
    driver: string,
    handleError: string -> string)

  const ERROR_CREATING_MACHINE := "Error creating machine: "

  predicate Contains(s: string, sub: string) {
    HasPrefix(s, sub) || (s != "" && Contains(s[1..], sub))
  }

  // strings.Replace(s, sub, "", 1)
  function RemoveFirst(s: string, sub: string): string {
    if HasPrefix(s, sub) then s[|sub|..]
    else if s == "" then ""
    else [s[0]] + RemoveFirst(s[1..], sub)
  }

  // What the reader does with a line.
  datatype Act = Report(text: string) | Publish(msg: string) | Skip

  function FilterDockerMessage(script: Script, msg: string, errMsg: bool): Act {
    if Contains(msg, ERROR_CREATING_MACHINE) || errMsg then
      Report(script.handleError(RemoveFirst(msg, ERROR_CREATING_MACHINE)))
    else if Contains(msg, script.externalId) || Contains(msg, script.hostname) || msg == "" then Skip
    else Publish(msg)
  }

  function Acts(script: Script, lines: seq<string>, errMsg: bool): seq<Act> {
    seq(|lines|, i requires 0 <= i < |lines| => FilterDockerMessage(script, lines[i], errMsg))
  }

  function ReaderActs(script: Script): seq<Act> {
    Acts(script, script.stdout, false) + Acts(script, script.stderr, true)
  }

  // The acts of logProgress in order: the lines of stdout, then those of stderr.
  method LogProgress(script: Script) returns (acts: seq<Act>)
    ensures acts == ReaderActs(script)
  {
    acts := [];
    for i := 0 to |script.stdout|
      invariant acts == Acts(script, script.stdout[..i], false)
    {
      assert script.stdout[..i + 1] == script.stdout[..i] + [script.stdout[i]];
      acts := acts + [FilterDockerMessage(script, script.stdout[i], false)];
    }
    assert script.stdout[..|script.stdout|] == script.stdout;
    for i := 0 to |script.stderr|
      invariant acts == Acts(script, script.stdout, false) + Acts(script, script.stderr[..i], true)
    {
      assert script.stderr[..i + 1] == script.stderr[..i] + [script.stderr[i]];
      acts := acts + [FilterDockerMessage(script, script.stderr[i], true)];
    }
    assert script.stderr[..|script.stderr|] == script.stderr;
  }

  function Reports(acts: seq<Act>): seq<string> {
    if acts == [] then []
    else
      var n := |acts| - 1;
      Reports(acts[..n]) + (if acts[n].Report? then [acts[n].text] else [])
  }

  function Publishes(acts: seq<Act>): seq<string> {
    if acts == [] then []
    else
      var n := |acts| - 1;
      Publishes(acts[..n]) + (if acts[n].Publish? then [acts[n].msg] else [])
  }

  // ---------- the state machine ----------

  const PUBLISH_CAPACITY := 10
  const ERROR_CAPACITY := 1

  // How the handler came to its error.
  datatype Outcome =
    | Finished
    | Failed
    | ProviderError(text: string)
    | WaitErrorEmpty
    | WaitErrorClosed
    | WaitErrorTimeout

  datatype Handler =
    | Sending(k: nat)     // about to send message k
    | Starting            // about to start docker-machine and the reader
    | Waiting             // in command.Wait
    | Selecting           // Wait failed: on errChan or the ten-second timer
    | Done(outcome: Outcome)

  datatype Reader = NotStarted | Reading | Ended | Panicked

  datatype Republisher = Idle | Publishing | Stopped

  datatype Source = FromHandler | FromReader

  datatype State = State(
    handler: Handler,
    reader: Reader,
    read: nat,            // lines that the reader has dealt with
    republisher: Republisher,
    sent: seq<(Source, string)>,
    buffer: seq<string>,
    closed: bool,
    received: seq<string>,
    lastMsg: string,
    published: seq<string>,
    errSent: seq<string>,
    errBuffer: seq<string>,
    errReceived: seq<string>,
    errClosed: bool)

  // What the reader does and what the handler has to say.
  datatype Program = Program(acts: seq<Act>, messages: seq<string>)

  function ProgramOf(script: Script): Program {
    Program(ReaderActs(script),
            ["Contacting " + script.driver, "Installing Rancher agent", "Creating agent container",
             "Starting agent container", "Waiting for agent initialization"])
  }

  ghost predicate Valid(prog: Program) {
    && |prog.messages| == 5
    && (forall i :: 0 <= i < |prog.messages| ==> prog.messages[i] != "")
    && (forall i :: 0 <= i < |prog.acts| && prog.acts[i].Publish? ==> prog.acts[i].msg != "")
  }

  lemma ProgramValid(script: Script)
    ensures Valid(ProgramOf(script))
  {
  }

  // A handler that finds the machine already created goes straight to the agent.
  function Init(restored: bool): State {
    State(Sending(if restored then 1 else 0), NotStarted, 0, Idle, [], [], false, [], "", [], [], [], [], false)
  }

  datatype Step =
    | HandlerSend | HandlerFail | HandlerStart | WaitOk | WaitFail
    | SelectReceive | SelectClosed | SelectTimeout | HandlerClose
    | ReaderAct | ReaderEnd
    | Receive | Tick | PublishReply | Stop

  function Send(s: State, source: Source, msg: string): State {
    s.(sent := s.sent + [(source, msg)], buffer := s.buffer + [msg])
  }

  // One step of one goroutine; None when it is blocked or not there to take.
  function Take(prog: Program, s: State, step: Step): Option<State> {
    var acts := prog.acts;
    match step
    case HandlerSend =>
      if s.handler.Sending? && s.handler.k < |prog.messages| && !s.closed && |s.buffer| < PUBLISH_CAPACITY then
        var k := s.handler.k;
        Some(Send(s, FromHandler, prog.messages[k])
             .(handler := if k == 0 then Starting else if k == |prog.messages| - 1 then Done(Finished)
                 else Sending(k + 1)))
      else None
    case HandlerFail =>
      if s.handler.Sending? || s.handler.Starting? then Some(s.(handler := Done(Failed))) else None
    case HandlerStart =>
      if s.handler.Starting? then Some(s.(handler := Waiting, reader := Reading)) else None
    case WaitOk =>
      if s.handler.Waiting? then Some(s.(handler := Sending(1))) else None
    case WaitFail =>
      if s.handler.Waiting? then Some(s.(handler := Selecting)) else None
    case SelectReceive =>
      if s.handler.Selecting? && s.errBuffer != [] then
        var text := s.errBuffer[0];
        Some(s.(handler := Done(if text != "" then ProviderError(text) else WaitErrorEmpty),
                errBuffer := s.errBuffer[1..], errReceived := s.errReceived + [text]))
      else None
    case SelectClosed =>
      if s.handler.Selecting? && s.errBuffer == [] && s.errClosed then Some(s.(handler := Done(WaitErrorClosed)))
          else None
    case SelectTimeout =>
      if s.handler.Selecting? then Some(s.(handler := Done(WaitErrorTimeout))) else None
    case HandlerClose =>
      if s.handler.Done? && !s.closed then Some(s.(closed := true)) else None
    case ReaderAct =>
      if s.reader.Reading? && s.read < |acts| then
        var next := s.(read := s.read + 1);
        match acts[s.read]
        case Skip => Some(next)
        case Report(text) =>
          if |s.errBuffer| < ERROR_CAPACITY then
            Some(next.(errSent := s.errSent + [text], errBuffer := s.errBuffer + [text]))
          else None
        case Publish(msg) =>
          if s.closed then Some(s.(reader := Panicked))
          else if |s.buffer| < PUBLISH_CAPACITY then Some(Send(next, FromReader, msg))
          else None
      else None
    case ReaderEnd =>
      if s.reader.Reading? && s.read == |acts| then Some(s.(reader := Ended, errClosed := true)) else None
    case Receive =>
      if s.republisher.Idle? && s.buffer != [] then
        Some(s.(republisher := Publishing, buffer := s.buffer[1..],
                received := s.received + [s.buffer[0]], lastMsg := s.buffer[0]))
      else None
    case Tick =>
      if s.republisher.Idle? && s.lastMsg != "" then Some(s.(republisher := Publishing)) else None
    case PublishReply =>
      if s.republisher.Publishing? then Some(s.(republisher := Idle, published := s.published + [s.lastMsg])) else None
    case Stop =>
      if s.republisher.Idle? && s.buffer == [] && s.closed then Some(s.(republisher := Stopped)) else None
  }

  // An interleaving of the four goroutines.
  function Run(prog: Program, s: State, steps: seq<Step>): Option<State>
    decreases |steps|
  {
    if steps == [] then Some(s)
    else
      match Run(prog, s, steps[..|steps| - 1])
      case None => None
      case Some(t) => Take(prog, t, steps[|steps| - 1])
  }

  // ---------- what published replies show of the sends ----------

  // p repeats each element of m one or more times, in order.
  predicate Stutters(p: seq<string>, m: seq<string>)
    decreases |p|
  {
    if m == [] then p == []
    else
      && p != [] && p[|p| - 1] == m[|m| - 1]
      && (Stutters(p[..|p| - 1], m) || Stutters(p[..|p| - 1], m[..|m| - 1]))
  }

  lemma {:induction false} StuttersAgain(p: seq<string>, m: seq<string>)
    requires m != [] && (Stutters(p, m) || Stutters(p, m[..|m| - 1]))
    ensures Stutters(p + [m[|m| - 1]], m)
  {
    assert (p + [m[|m| - 1]])[..|p|] == p;
  }

  function Texts(sent: seq<(Source, string)>): seq<string> {
    seq(|sent|, i requires 0 <= i < |sent| => sent[i].1)
  }

  function By(source: Source, sent: seq<(Source, string)>): seq<string> {
    if sent == [] then []
    else
      var n := |sent| - 1;
      By(source, sent[..n]) + (if sent[n].0 == source then [sent[n].1] else [])
  }

  lemma {:induction false} ByAppend(source: Source, sent: seq<(Source, string)>, x: (Source, string))
    ensures By(source, sent + [x]) == By(source, sent) + (if x.0 == source then [x.1] else [])
    ensures Texts(sent + [x]) == Texts(sent) + [x.1]
  {
    assert (sent + [x])[..|sent|] == sent;
  }

  // ---------- the invariant ----------

  ghost predicate ReaderKept(prog: Program, s: State) {
    var acts := prog.acts;
    && s.read <= |acts|
    && By(FromReader, s.sent) == Publishes(acts[..s.read])
    && s.errSent == Reports(acts[..s.read])
    && (s.reader.NotStarted? ==> s.read == 0)
    && (s.reader.Ended? ==> s.read == |acts|)
  }

  ghost predicate HandlerKept(prog: Program, s: State, restored: bool) {
    Said(prog.messages, By(FromHandler, s.sent), Start(restored)) &&
    HandlerAt(s.handler, s.reader, restored, |By(FromHandler, s.sent)|)
  }

  function Start(restored: bool): nat {
    if restored then 1 else 0
  }

  // The handler has sent these of its messages, in order.
  ghost predicate Said(messages: seq<string>, mine: seq<string>, start: nat) {
    |messages| == 5 && start + |mine| <= 5 && mine == messages[start..start + |mine|]
  }

  // Where the handler is after n messages.
  ghost predicate HandlerAt(h: Handler, reader: Reader, restored: bool, n: nat) {
    && (h.Sending? ==> Start(restored) <= h.k < 5 && n == h.k - Start(restored))
    && (h.Starting? || h.Waiting? || h.Selecting? ==> !restored && n == 1)
    && (h.Starting? || h == Sending(0) ==> reader.NotStarted?)
  }

  ghost predicate ChannelKept(s: State) {
    && Texts(s.sent) == s.received + s.buffer
    && |s.buffer| <= PUBLISH_CAPACITY
    && (forall i :: 0 <= i < |s.sent| ==> s.sent[i].1 != "")
    && (s.lastMsg == if s.received == [] then "" else s.received[|s.received| - 1])
  }

  ghost predicate PublishedKept(s: State) {
    PublishedOf(s.republisher, s.published, s.received)
  }

  ghost predicate PublishedOf(republisher: Republisher, published: seq<string>, received: seq<string>) {
    match republisher
    case Publishing =>
      received != [] && (Stutters(published, received) || Stutters(published, received[..|received| - 1]))
    case _ => Stutters(published, received)
  }

  ghost predicate ErrorsKept(prog: Program, s: State) {
    && s.errSent == s.errReceived + s.errBuffer
    && |s.errBuffer| <= ERROR_CAPACITY
    && (!s.handler.Done? ==> s.errReceived == [])
    && |s.errReceived| <= 1
    && (s.errClosed ==> s.reader.Ended?)
    && OutcomeKept(prog, s)
  }

  ghost predicate OutcomeKept(prog: Program, s: State) {
    s.handler.Done? ==>
      match s.handler.outcome
      case ProviderError(text) => text != "" && s.errReceived == [text]
      case WaitErrorEmpty => s.errReceived == [""]
      case WaitErrorClosed => s.errSent == [] && s.reader.Ended?
      case _ => s.errReceived == []
  }

  ghost predicate Inv(prog: Program, s: State, restored: bool) {
    && HandlerKept(prog, s, restored)
    && ReaderKept(prog, s)
    && ChannelKept(s)
    && PublishedKept(s)
    && ErrorsKept(prog, s)
    && ClosingKept(s)
  }

  // The channel is closed by a handler that is done, and drained before the republisher stops.
  ghost predicate ClosingKept(s: State) {
    && (s.closed ==> s.handler.Done?)
    && (s.republisher.Stopped? ==> s.closed && s.buffer == [])
  }

  lemma InitKept(prog: Program, restored: bool)
    requires Valid(prog)
    ensures Inv(prog, Init(restored), restored)
  {
  }

  lemma HandlerSendKept(prog: Program, s: State, restored: bool)
    requires HandlerKept(prog, s, restored) && Take(prog, s, HandlerSend).Some?
    ensures HandlerKept(prog, Take(prog, s, HandlerSend).value, restored)
  {
    var k := s.handler.k;
    ByAppend(FromHandler, s.sent, (FromHandler, prog.messages[k]));
    SliceGrows(prog.messages, Start(restored), k);
  }

  lemma SliceGrows(m: seq<string>, a: nat, b: nat)
    requires a <= b < |m|
    ensures m[a..b + 1] == m[a..b] + [m[b]]
  {
  }

  // The other steps leave what the handler said, and move it only as they may.
  lemma HandlerMoves(prog: Program, s: State, step: Step, restored: bool, n: nat)
    requires HandlerAt(s.handler, s.reader, restored, n) && !step.HandlerSend? && Take(prog, s, step).Some?
    ensures HandlerAt(Take(prog, s, step).value.handler, Take(prog, s, step).value.reader, restored, n)
  {
  }

  lemma HandlerSilent(prog: Program, s: State, step: Step)
    requires !step.HandlerSend? && Take(prog, s, step).Some?
    ensures By(FromHandler, Take(prog, s, step).value.sent) == By(FromHandler, s.sent)
  {
    if step.ReaderAct? && prog.acts[s.read].Publish? {
      ByAppend(FromHandler, s.sent, (FromReader, prog.acts[s.read].msg));
    }
  }

  lemma HandlerStep(prog: Program, s: State, step: Step, restored: bool)
    requires HandlerKept(prog, s, restored) && Take(prog, s, step).Some?
    ensures HandlerKept(prog, Take(prog, s, step).value, restored)
  {
    if step.HandlerSend? {
      HandlerSendKept(prog, s, restored);
    } else {
      HandlerMoves(prog, s, step, restored, |By(FromHandler, s.sent)|);
      HandlerSilent(prog, s, step);
    }
  }

  lemma ReaderActKept(prog: Program, s: State)
    requires ReaderKept(prog, s) && Take(prog, s, ReaderAct).Some?
    ensures ReaderKept(prog, Take(prog, s, ReaderAct).value)
  {
    var acts := prog.acts;
    assert acts[..s.read + 1][..s.read] == acts[..s.read];
    match acts[s.read]
    case Skip =>
    case Report(_) =>
    case Publish(msg) => ByAppend(FromReader, s.sent, (FromReader, msg));
  }

  lemma ReaderStep(prog: Program, s: State, step: Step)
    requires ReaderKept(prog, s) && Take(prog, s, step).Some?
    ensures ReaderKept(prog, Take(prog, s, step).value)
  {
    if step.HandlerSend? {
      ByAppend(FromReader, s.sent, (FromHandler, prog.messages[s.handler.k]));
    } else if step.ReaderAct? {
      ReaderActKept(prog, s);
    }
  }

  lemma SendKept(s: State, source: Source, msg: string)
    requires ChannelKept(s) && |s.buffer| < PUBLISH_CAPACITY && msg != ""
    ensures ChannelKept(Send(s, source, msg))
  {
    ByAppend(source, s.sent, (source, msg));
    assert s.received + s.buffer + [msg] == s.received + (s.buffer + [msg]);
  }

  lemma ReceiveKept(s: State)
    requires ChannelKept(s) && s.buffer != []
    ensures s.received + [s.buffer[0]] + s.buffer[1..] == s.received + s.buffer
  {
  }

  lemma ChannelStep(prog: Program, s: State, step: Step)
    requires Valid(prog) && ChannelKept(s) && Take(prog, s, step).Some?
    ensures ChannelKept(Take(prog, s, step).value)
  {
    match step
    case HandlerSend => SendKept(s, FromHandler, prog.messages[s.handler.k]);
    case ReaderAct =>
      if prog.acts[s.read].Publish? && !s.closed {
        SendKept(s, FromReader, prog.acts[s.read].msg);
      }
    case Receive => ReceiveKept(s);
    case _ =>
  }

  lemma ReceivePublished(published: seq<string>, received: seq<string>, msg: string)
    requires PublishedOf(Idle, published, received)
    ensures PublishedOf(Publishing, published, received + [msg])
  {
    assert (received + [msg])[..|received|] == received;
  }

  lemma ReplyPublished(published: seq<string>, received: seq<string>, msg: string)
    requires PublishedOf(Publishing, published, received) && msg == received[|received| - 1]
    ensures PublishedOf(Idle, published + [msg], received)
  {
    StuttersAgain(published, received);
  }

  lemma PublishedStep(prog: Program, s: State, step: Step)
    requires ChannelKept(s) && PublishedKept(s) && Take(prog, s, step).Some?
    ensures PublishedKept(Take(prog, s, step).value)
  {
    match step
    case Receive => ReceivePublished(s.published, s.received, s.buffer[0]);
    case PublishReply => ReplyPublished(s.published, s.received, s.lastMsg);
    case _ =>
  }

  lemma ErrorsStep(prog: Program, s: State, step: Step)
    requires ErrorsKept(prog, s) && (s.handler.Starting? ==> s.reader.NotStarted?) &&
        (s.closed ==> s.handler.Done?) && Take(prog, s, step).Some?
    ensures ErrorsKept(prog, Take(prog, s, step).value)
  {
  }

  lemma ClosingStep(prog: Program, s: State, step: Step)
    requires ClosingKept(s) && Take(prog, s, step).Some?
    ensures ClosingKept(Take(prog, s, step).value)
  {
  }

  lemma StepKeeps(prog: Program, s: State, step: Step, restored: bool)
    requires Valid(prog) && Inv(prog, s, restored) && Take(prog, s, step).Some?
    ensures Inv(prog, Take(prog, s, step).value, restored)
  {
    HandlerStep(prog, s, step, restored);
    ReaderStep(prog, s, step);
    ChannelStep(prog, s, step);
    PublishedStep(prog, s, step);
    ErrorsStep(prog, s, step);
    ClosingStep(prog, s, step);
  }

  lemma {:induction false} RunKeeps(prog: Program, steps: seq<Step>, restored: bool)
    requires Valid(prog) && Run(prog, Init(restored), steps).Some?
    ensures Inv(prog, Run(prog, Init(restored), steps).value, restored)
    decreases |steps|
  {
    if steps == [] {
      InitKept(prog, restored);
    } else {
      var before := steps[..|steps| - 1];
      RunKeeps(prog, before, restored);
      StepKeeps(prog, Run(prog, Init(restored), before).value, steps[|steps| - 1], restored);
    }
  }

  // ---------- what holds in every interleaving ----------

  // The published replies repeat, each one or more times and in order, a prefix of what was
  // sent: all of it once the republisher has stopped. What was sent is a merge of a prefix of
  // the handler's own messages and of the reader's forwarded lines.
  lemma {:induction false} ProgressTrace(script: Script, steps: seq<Step>, restored: bool)
    requires Run(ProgramOf(script), Init(restored), steps).Some?
    ensures var s := Run(ProgramOf(script), Init(restored), steps).value;
            && (exists n :: 0 <= n <= |s.sent| && Stutters(s.published, Texts(s.sent)[..n]))
            && (s.republisher.Stopped? ==> Stutters(s.published, Texts(s.sent)))
            && |s.buffer| <= PUBLISH_CAPACITY
            && By(FromHandler, s.sent) <= ProgramOf(script).messages[if restored then 1 else 0..]
            && s.read <= |ReaderActs(script)| && By(FromReader, s.sent) == Publishes(ReaderActs(script)[..s.read])
  {
    var prog := ProgramOf(script);
    ProgramValid(script);
    RunKeeps(prog, steps, restored);
    var s := Run(prog, Init(restored), steps).value;
    var n := |s.received|;
    assert Texts(s.sent)[..n] == s.received;
    if s.republisher.Publishing? {
      assert Texts(s.sent)[..n - 1] == s.received[..n - 1];
    }
    if s.republisher.Stopped? {
      assert Texts(s.sent) == s.received;
    }
  }

  lemma {:induction false} ReportsPrefix(acts: seq<Act>, i: nat)
    requires i <= |acts|
    ensures Reports(acts[..i]) <= Reports(acts)
    decreases |acts|
  {
    if i < |acts| {
      var front := acts[..|acts| - 1];
      assert front[..i] == acts[..i];
      ReportsPrefix(front, i);
    } else {
      assert acts[..i] == acts;
    }
  }

  // Sends on the error channel are its receives and what is buffered, and at most one is: the
  // reader is past an error line only after every earlier one was received, so past no more
  // than two, since the handler receives at most once.
  lemma {:induction false} ErrorChannelBound(script: Script, steps: seq<Step>, restored: bool)
    requires Run(ProgramOf(script), Init(restored), steps).Some?
    ensures var s := Run(ProgramOf(script), Init(restored), steps).value;
            && s.errSent == s.errReceived + s.errBuffer
            && |s.errBuffer| <= 1 && |s.errReceived| <= 1
            && s.read <= |ReaderActs(script)|
            && |Reports(ReaderActs(script)[..s.read])| <= |s.errReceived| + 1
  {
    ProgramValid(script);
    RunKeeps(ProgramOf(script), steps, restored);
  }

  // The error lines: of stdout those that announce an error, then all of stderr.
  function Announced(lines: seq<string>): seq<string> {
    if lines == [] then []
    else
      var n := |lines| - 1;
      Announced(lines[..n]) + (if Contains(lines[n], ERROR_CREATING_MACHINE) then [lines[n]] else [])
  }

  function ErrorLines(script: Script): seq<string> {
    Announced(script.stdout) + script.stderr
  }

  function Rewritten(script: Script, lines: seq<string>): seq<string> {
    seq(|lines|, i requires 0 <= i < |lines| => script.handleError(RemoveFirst(lines[i], ERROR_CREATING_MACHINE)))
  }

  lemma {:induction false} ReportsAppend(a: seq<Act>, b: seq<Act>)
    ensures Reports(a + b) == Reports(a) + Reports(b)
    decreases |b|
  {
    if b == [] {
      assert a + b == a;
    } else {
      assert (a + b)[..|a + b| - 1] == a + b[..|b| - 1];
      ReportsAppend(a, b[..|b| - 1]);
    }
  }

  lemma {:induction false} ReportsStdout(script: Script, lines: seq<string>)
    ensures Reports(Acts(script, lines, false)) == Rewritten(script, Announced(lines))
    decreases |lines|
  {
    if lines != [] {
      var n := |lines| - 1;
      ReportsStdout(script, lines[..n]);
      assert Acts(script, lines, false)[..n] == Acts(script, lines[..n], false);
    }
  }

  lemma {:induction false} ReportsStderr(script: Script, lines: seq<string>)
    ensures Reports(Acts(script, lines, true)) == Rewritten(script, lines)
    decreases |lines|
  {
    if lines != [] {
      var n := |lines| - 1;
      ReportsStderr(script, lines[..n]);
      assert Acts(script, lines, true)[..n] == Acts(script, lines[..n], true);
      assert lines == lines[..n] + [lines[n]];
    }
  }

  lemma ReportsOfScript(script: Script)
    ensures Reports(ReaderActs(script)) == Rewritten(script, ErrorLines(script))
  {
    ReportsAppend(Acts(script, script.stdout, false), Acts(script, script.stderr, true));
    ReportsStdout(script, script.stdout);
    ReportsStderr(script, script.stderr);
  }

  // When docker-machine fails, the handler's error is the provider's rewrite of the first error
  // line, in stdout-then-stderr order; it falls back on Wait's error only when that rewrite is
  // empty, when there is no error line at all, or when the reader takes too long.
  lemma {:induction false} ErrorChoice(script: Script, steps: seq<Step>, restored: bool)
    requires Run(ProgramOf(script), Init(restored), steps).Some?
    ensures var s := Run(ProgramOf(script), Init(restored), steps).value;
            var lines := ErrorLines(script);
            s.handler.Done? ==>
              match s.handler.outcome
              case ProviderError(text) => text != "" && lines != [] && text == Rewritten(script, lines)[0]
              case WaitErrorEmpty => lines != [] && Rewritten(script, lines)[0] == ""
              case WaitErrorClosed => lines == []
              case _ => s.errReceived == []
  {
    var prog := ProgramOf(script);
    ProgramValid(script);
    RunKeeps(prog, steps, restored);
    ReportsOfScript(script);
    var s := Run(prog, Init(restored), steps).value;
    ReportsPrefix(prog.acts, s.read);
    assert s.errSent <= Rewritten(script, ErrorLines(script));
    assert s.read == |prog.acts| ==> prog.acts[..s.read] == prog.acts;
    if s.errReceived != [] {
      assert s.errSent[0] == s.errReceived[0];
    }
  }

  lemma {:induction false} AnnouncedAppend(a: seq<string>, b: seq<string>)
    ensures Announced(a + b) == Announced(a) + Announced(b)
    decreases |b|
  {
    if b == [] {
      assert a + b == a;
    } else {
      assert (a + b)[..|a + b| - 1] == a + b[..|b| - 1];
      AnnouncedAppend(a, b[..|b| - 1]);
    }
  }

  // The first error line does not change with what comes after it.
  lemma {:induction false} FirstLines(script: Script, moreOut: seq<string>, moreErr: seq<string>)
    ensures ErrorLines(script) == [] <==> Announced(script.stdout) == [] && script.stderr == []
    ensures Announced(script.stdout) != [] ==>
              var out := Announced(script.stdout + moreOut);
              out != [] && Rewritten(script, out)[0] == Rewritten(script, ErrorLines(script))[0]
    ensures Announced(script.stdout) == [] && script.stderr != [] ==>
              Rewritten(script, script.stderr + moreErr)[0] == Rewritten(script, ErrorLines(script))[0]
  {
    AnnouncedAppend(script.stdout, moreOut);
    SameFirst(script, Announced(script.stdout), script.stderr);
    SameFirst(script, Announced(script.stdout), Announced(moreOut));
    SameFirst(script, script.stderr, moreErr);
  }

  lemma SameFirst(script: Script, a: seq<string>, b: seq<string>)
    ensures a != [] ==> Rewritten(script, a + b)[0] == Rewritten(script, a)[0]
    ensures a == [] ==> a + b == b
  {
  }

  // Against all that docker-machine prints, when the scanners may not deliver the last of it: the
  // error is that of the first announced line of stdout if that one was delivered, and otherwise
  // that of the first line of stderr; without either the handler falls back on Wait's error.
  lemma {:induction false} ErrorChoicePrinted(script: Script, moreOut: seq<string>, moreErr: seq<string>,
      steps: seq<Step>, restored: bool)
    requires Run(ProgramOf(script), Init(restored), steps).Some?
    ensures var s := Run(ProgramOf(script), Init(restored), steps).value;
            var out, err := script.stdout + moreOut, script.stderr + moreErr;
            s.handler.Done? ==>
              match s.handler.outcome
              case ProviderError(text) =>
                if Announced(script.stdout) != []
                then Announced(out) != [] && text == Rewritten(script, Announced(out))[0]
                else script.stderr != [] && text == Rewritten(script, err)[0]
              case WaitErrorClosed => Announced(script.stdout) == [] && script.stderr == []
              case _ => true
  {
    ErrorChoice(script, steps, restored);
    FirstLines(script, moreOut, moreErr);
  }
}
