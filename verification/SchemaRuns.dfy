// Activations and removals of drivers running at once: schemaLock and the schemas of host.
module SchemaRuns {
  import opened GoStrings
  import opened Schemas

  // What a handler has to do. The uploads hold schemaLock; a removal does not.
  datatype Task =
    | HostUpload(given: seq<string>)                   // UploadMachineSchemas
    | DriverUpload(driver: string, record: Record)     // GenerateAndUploadSchema
    | Removal(driver: string)                          // RemoveSchemas, called by removeDriver

  datatype Phase =
    | Waiting
    | Listing
    | Deleting(todo: seq<nat>)
    | Creating(done: nat)
    | Finished

  // listed: the active drivers that it read under the lock; records: what it creates then
  datatype Thread = Thread(task: Task, phase: Phase, listed: seq<string>, records: seq<Record>)

  // The driver names of an upload of the schemas of host: those it was given, then those it listed.
  datatype Upload = Upload(given: seq<string>, listed: seq<string>)

  // uploaded: the last completed upload of the schemas of host
  datatype State = State(schemas: seq<Record>, lock: Option<nat>, threads: seq<Thread>, uploaded: Option<Upload>)

  datatype Step =
    | Spawn(task: Task)
    | Begin(t: nat, listed: seq<string>)
    | List(t: nat)
    | DeleteNext(t: nat)
    | CreateNext(t: nat)
    | End(t: nat)

  const HOST := "host"

  function Target(task: Task): string {
    match task
    case HostUpload(_) => HOST
    case DriverUpload(driver, _) => ConfigName(driver)
    case Removal(driver) => ConfigName(driver)
  }

  predicate Locks(task: Task) {
    !task.Removal?
  }

  predicate ValidTask(task: Task) {
    task.DriverUpload? ==> task.record.name == ConfigName(task.driver) && !task.record.removed
  }

  function Records(task: Task, listed: seq<string>): seq<Record> {
    match task
    case HostUpload(given) => HostRecords(given + listed)
    case DriverUpload(_, record) => [record]
    case Removal(_) => []
  }

  // The places of the live schemas of that name.
  function LiveIds(schemas: seq<Record>, name: string): (ids: seq<nat>)
    ensures forall i :: i in ids <==> 0 <= i < |schemas| && Live(schemas[i], name)
  {
    if schemas == [] then []
    else
      var n := |schemas| - 1;
      assert forall i :: 0 <= i < n ==> schemas[..n][i] == schemas[i];
      LiveIds(schemas[..n], name) + (if Live(schemas[n], name) then [n] else [])
  }

  predicate Enabled(s: State, step: Step) {
    if step.Spawn? then ValidTask(step.task)
    else
      step.t < |s.threads| &&
      var th := s.threads[step.t];
      match step
      case Begin(t, listed) => th.phase.Waiting? && (Locks(th.task) ==> s.lock.None?)
      case List(t) => th.phase.Listing?
      case DeleteNext(t) => th.phase.Deleting? && th.phase.todo != [] && th.phase.todo[0] < |s.schemas|
      case CreateNext(t) =>
        (th.phase == Deleting([]) && th.records != []) || (th.phase.Creating? && th.phase.done < |th.records|)
      case End(t) =>
        (th.phase == Deleting([]) && th.records == []) || (th.phase.Creating? && th.phase.done == |th.records|)
  }

  function Put(s: State, t: nat, phase: Phase): State
    requires t < |s.threads|
  {
    s.(threads := s.threads[t := s.threads[t].(phase := phase)])
  }

  function Next(s: State, step: Step): State
    requires Enabled(s, step)
  {
    match step
    case Spawn(task) => s.(threads := s.threads + [Thread(task, Waiting, [], [])])
    case Begin(t, listed) =>
      var th := s.threads[t];
      s.(lock := if Locks(th.task) then Some(t) else s.lock,
         threads := s.threads[t := Thread(th.task, Listing, listed, Records(th.task, listed))])
    case List(t) => Put(s, t, Deleting(LiveIds(s.schemas, Target(s.threads[t].task))))
    case DeleteNext(t) =>
      var todo := s.threads[t].phase.todo;
      Put(s, t, Deleting(todo[1..])).(schemas := RemoveAt(s.schemas, todo[0]))
    case CreateNext(t) =>
      var done := if s.threads[t].phase.Creating? then s.threads[t].phase.done else 0;
      Put(s, t, Creating(done + 1)).(schemas := s.schemas + [s.threads[t].records[done]])
    case End(t) =>
      var th := s.threads[t];
      Put(s, t, Finished).(lock := if Locks(th.task) then None else s.lock,
                           uploaded := if th.task.HostUpload? then Some(Upload(th.task.given, th.listed))
                                       else s.uploaded)
  }

  // From any collection of schemas, nothing started.
  function Start(schemas: seq<Record>): State {
    State(schemas, None, [], None)
  }

  // Any interleaving: a step that is not enabled does nothing.
  function Run(schemas: seq<Record>, steps: seq<Step>): State {
    if steps == [] then Start(schemas)
    else
      var n := |steps| - 1;
      var s := Run(schemas, steps[..n]);
      if Enabled(s, steps[n]) then Next(s, steps[n]) else s
  }

  // ---------- the invariant ----------

  predicate Active(phase: Phase) {
    phase.Listing? || phase.Deleting? || phase.Creating?
  }

  // A thread that holds the lock, if it needs one, and knows what it deletes and creates.
  ghost predicate ThreadOk(s: State, t: nat)
    requires t < |s.threads|
  {
    var th := s.threads[t];
    && ValidTask(th.task)
    && (Active(th.phase) && Locks(th.task) ==> s.lock == Some(t))
    && (th.phase.Creating? ==> th.phase.done <= |th.records|)
    && (Active(th.phase) ==>
          th.records == Records(th.task, th.listed))
    && (th.phase.Deleting? ==> forall i :: i in th.phase.todo ==>
        i < |s.schemas| && s.schemas[i].name == Target(th.task))
  }

  // The schemas of host as far as their uploader has got.
  ghost predicate HostsAre(schemas: seq<Record>, th: Thread) {
    match th.phase
    case Deleting(todo) => forall i :: 0 <= i < |schemas| && Live(schemas[i], HOST) ==> i in todo
    case Creating(done) => done <= |th.records| && LiveOnes(schemas, HOST) == th.records[..done]
    case _ => true
  }

  ghost predicate Uploading(s: State) {
    s.lock.Some? && s.lock.value < |s.threads| && s.threads[s.lock.value].task.HostUpload?
  }

  ghost predicate Settled(s: State) {
    s.uploaded.Some? ==> LiveOnes(s.schemas, HOST) == HostRecords(s.uploaded.value.given + s.uploaded.value.listed)
  }

  ghost predicate Inv(s: State) {
    && (forall t :: 0 <= t < |s.threads| ==> ThreadOk(s, t))
    && (s.lock.Some? ==> s.lock.value < |s.threads|)
    && (s.lock.Some? ==> Active(s.threads[s.lock.value].phase) && Locks(s.threads[s.lock.value].task))
    && (if Uploading(s) then HostsAre(s.schemas, s.threads[s.lock.value]) else Settled(s))
  }

  lemma TargetIsHost(task: Task)
    ensures Target(task) == HOST <==> task.HostUpload?
  {
    match task
    case HostUpload(_) =>
    case DriverUpload(driver, _) => ConfigNameEnds(driver);
    case Removal(driver) => ConfigNameEnds(driver);
  }

  // Schemas that only grow, or lose life, keep every thread in order.
  ghost predicate Evolved(a: seq<Record>, b: seq<Record>) {
    |a| <= |b| && forall i :: 0 <= i < |a| ==> b[i].name == a[i].name
  }

  lemma OthersOk(s: State, s': State, t: nat)
    requires t < |s.threads| && |s'.threads| == |s.threads|
    requires forall u :: 0 <= u < |s.threads| ==> ThreadOk(s, u)
    requires forall u :: 0 <= u < |s.threads| && u != t ==> s'.threads[u] == s.threads[u]
    requires Evolved(s.schemas, s'.schemas)
    requires s'.lock == s.lock || s.lock == None || s.lock == Some(t)
    ensures forall u :: 0 <= u < |s.threads| && u != t ==> ThreadOk(s', u)
  {
    forall u | 0 <= u < |s.threads| && u != t ensures ThreadOk(s', u) {
      assert ThreadOk(s, u);
      assert s'.threads[u] == s.threads[u];
    }
  }

  lemma SpawnKeeps(s: State, task: Task)
    requires Inv(s) && ValidTask(task)
    ensures Inv(Next(s, Spawn(task)))
  {
    var s' := Next(s, Spawn(task));
    forall u | 0 <= u < |s'.threads| ensures ThreadOk(s', u) {
      if u < |s.threads| {
        assert ThreadOk(s, u);
        assert s'.threads[u] == s.threads[u];
      }
    }
  }

  lemma BeginKeeps(s: State, t: nat, listed: seq<string>)
    requires Inv(s) && Enabled(s, Begin(t, listed))
    ensures Inv(Next(s, Begin(t, listed)))
  {
    var s' := Next(s, Begin(t, listed));
    OthersOk(s, s', t);
    assert ThreadOk(s, t);
    assert ThreadOk(s', t);
  }

  lemma ListKeeps(s: State, t: nat)
    requires Inv(s) && Enabled(s, List(t))
    ensures Inv(Next(s, List(t)))
  {
    var s' := Next(s, List(t));
    var th := s.threads[t];
    OthersOk(s, s', t);
    assert ThreadOk(s, t);
    assert ThreadOk(s', t);
    TargetIsHost(th.task);
  }

  // Taking the life of a schema with another name changes nothing for host.
  lemma {:induction false} RemoveOther(schemas: seq<Record>, i: nat)
    requires i < |schemas| && schemas[i].name != HOST
    ensures LiveOnes(RemoveAt(schemas, i), HOST) == LiveOnes(schemas, HOST)
    ensures forall j :: 0 <= j < |schemas| ==> (Live(RemoveAt(schemas, i)[j], HOST) <==> Live(schemas[j], HOST))
  {
    SameLiveOnes(RemoveAt(schemas, i), schemas, HOST);
  }

  lemma DeleteHost(schemas: seq<Record>, todo: seq<nat>)
    requires todo != [] && todo[0] < |schemas|
    requires forall i :: 0 <= i < |schemas| && Live(schemas[i], HOST) ==> i in todo
    ensures var b := RemoveAt(schemas, todo[0]);
            forall i :: 0 <= i < |b| && Live(b[i], HOST) ==> i in todo[1..]
  {
    var b := RemoveAt(schemas, todo[0]);
    forall i | 0 <= i < |b| && Live(b[i], HOST) ensures i in todo[1..] {
      assert i != todo[0] && i in todo;
    }
  }

  // The deleting thread is not the host uploader.
  lemma DeleteOtherKeepsHosts(s: State, s': State, t: nat)
    requires Inv(s) && Enabled(s, DeleteNext(t)) && s' == Next(s, DeleteNext(t))
    requires !s.threads[t].task.HostUpload?
    ensures if Uploading(s') then HostsAre(s'.schemas, s'.threads[s'.lock.value]) else Settled(s')
  {
    var i := s.threads[t].phase.todo[0];
    assert ThreadOk(s, t);
    assert i in s.threads[t].phase.todo;
    TargetIsHost(s.threads[t].task);
    RemoveOther(s.schemas, i);
  }

  lemma DeleteKeeps(s: State, t: nat)
    requires Inv(s) && Enabled(s, DeleteNext(t))
    ensures Inv(Next(s, DeleteNext(t)))
  {
    var s' := Next(s, DeleteNext(t));
    var th := s.threads[t];
    OthersOk(s, s', t);
    assert ThreadOk(s, t);
    assert ThreadOk(s', t) by {
      forall i | i in th.phase.todo[1..] ensures i in th.phase.todo {}
    }
    if th.task.HostUpload? {
      DeleteHost(s.schemas, th.phase.todo);
    } else {
      DeleteOtherKeepsHosts(s, s', t);
    }
  }

  lemma RecordsLive(th: Thread, k: nat)
    requires th.task.HostUpload? && th.records == Records(th.task, th.listed) && k < |th.records|
    ensures Live(th.records[k], HOST)
  {
    var drivers := th.task.given + th.listed;
    assert HostRecords(drivers)[k].name == HOST && !HostRecords(drivers)[k].removed;
  }

  lemma {:induction false} CreateHost(schemas: seq<Record>, th: Thread)
    requires HostsAre(schemas, th) && th.task.HostUpload? && th.records == Records(th.task, th.listed)
    requires (th.phase == Deleting([]) && th.records != []) || (th.phase.Creating? && th.phase.done < |th.records|)
    ensures var done := if th.phase.Creating? then th.phase.done else 0;
            LiveOnes(schemas + [th.records[done]], HOST) == th.records[..done + 1]
  {
    var done := if th.phase.Creating? then th.phase.done else 0;
    if th.phase.Deleting? {
      NoLiveOnes(schemas, HOST);
    }
    assert LiveOnes(schemas, HOST) == th.records[..done];
    RecordsLive(th, done);
    LiveOnesSnoc(schemas, th.records[done], HOST);
    assert th.records[..done + 1] == th.records[..done] + [th.records[done]];
  }

  lemma {:induction false} CreateOther(schemas: seq<Record>, r: Record)
    requires r.name != HOST
    ensures LiveOnes(schemas + [r], HOST) == LiveOnes(schemas, HOST)
  {
    LiveOnesSnoc(schemas, r, HOST);
  }

  lemma CreateKeeps(s: State, t: nat)
    requires Inv(s) && Enabled(s, CreateNext(t))
    ensures Inv(Next(s, CreateNext(t)))
  {
    var s' := Next(s, CreateNext(t));
    var th := s.threads[t];
    OthersOk(s, s', t);
    assert ThreadOk(s, t);
    assert ThreadOk(s', t);
    assert s.lock == Some(t);
    TargetIsHost(th.task);
    if th.task.HostUpload? {
      CreateHost(s.schemas, th);
    } else {
      CreateOther(s.schemas, th.task.record);
    }
  }

  // The upload is complete: its four schemas are the live ones.
  lemma EndSettles(s: State, t: nat)
    requires Inv(s) && Enabled(s, End(t)) && s.threads[t].task.HostUpload?
    ensures s.lock == Some(t) && LiveOnes(s.schemas, HOST) == s.threads[t].records
  {
    var th := s.threads[t];
    assert ThreadOk(s, t);
    assert |th.records| == 4 && th.records != [];
    assert th.records[..|th.records|] == th.records;
    assert Uploading(s) && HostsAre(s.schemas, th);
  }

  lemma EndKeepsThreads(s: State, t: nat)
    requires Inv(s) && Enabled(s, End(t))
    ensures forall u :: 0 <= u < |s.threads| ==> ThreadOk(Next(s, End(t)), u)
  {
    var s' := Next(s, End(t));
    assert ThreadOk(s, t);
    assert Locks(s.threads[t].task) ==> s.lock == Some(t);
    OthersOk(s, s', t);
    assert ThreadOk(s', t);
  }

  lemma EndKeeps(s: State, t: nat)
    requires Inv(s) && Enabled(s, End(t))
    ensures Inv(Next(s, End(t)))
  {
    var th := s.threads[t];
    assert ThreadOk(s, t);
    EndKeepsThreads(s, t);
    if th.task.HostUpload? {
      EndSettles(s, t);
    } else if th.task.DriverUpload? {
      assert s.lock == Some(t) && !Uploading(s);
    } else if s.lock.Some? {
      assert s.lock != Some(t);
    }
  }

  lemma NextKeeps(s: State, step: Step)
    requires Inv(s) && Enabled(s, step)
    ensures Inv(Next(s, step))
  {
    match step
    case Spawn(task) => SpawnKeeps(s, task);
    case Begin(t, listed) => BeginKeeps(s, t, listed);
    case List(t) => ListKeeps(s, t);
    case DeleteNext(t) => DeleteKeeps(s, t);
    case CreateNext(t) => CreateKeeps(s, t);
    case End(t) => EndKeeps(s, t);
  }

  lemma {:induction false} RunKeeps(schemas: seq<Record>, steps: seq<Step>)
    ensures Inv(Run(schemas, steps))
  {
    if steps != [] {
      var n := |steps| - 1;
      RunKeeps(schemas, steps[..n]);
      var s := Run(schemas, steps[..n]);
      if Enabled(s, steps[n]) {
        NextKeeps(s, steps[n]);
      }
    }
  }

  // Exactly four schemas, for disjoint roles; the first three offer one configuration field for
  // each distinct driver.
  ghost predicate HostSchemaSet(live: seq<Record>, drivers: seq<string>) {
    && |live| == 4
    && RolesDisjoint(live)
    && |live[1].schema.fields| == |Distinct(drivers)| + 1
    && |live[0].schema.fields| == |Distinct(drivers)| + (if "extracted" in drivers then 2 else 3)
    && live[2].schema == live[1].schema
    && forall d, k :: d in drivers && 0 <= k < 3 ==> ConfigName(d) in live[k].schema.fields
  }

  lemma OffersEach(drivers: seq<string>, d: string, k: nat)
    requires d in drivers && k < 3
    ensures ConfigName(d) in HostRecords(drivers)[k].schema.fields
  {
    if k == 0 {
      ServiceTypes(drivers, d);
    } else {
      BaseOffers(drivers, "cu");
    }
  }

  lemma FieldCounts(drivers: seq<string>)
    ensures var r := HostRecords(drivers);
            && |r[1].schema.fields| == |Distinct(drivers)| + 1
            && |r[0].schema.fields| == |Distinct(drivers)| + (if "extracted" in drivers then 2 else 3)
            && r[2].schema == r[1].schema
  {
    BaseOffers(drivers, "cu");
    ServiceOffers(drivers);
  }

  lemma HostRecordsAreASet(drivers: seq<string>)
    ensures HostSchemaSet(HostRecords(drivers), drivers)
  {
    HostRolesDisjoint(drivers);
    FieldCounts(drivers);
    var r := HostRecords(drivers);
    forall d, k | d in drivers && 0 <= k < 3 ensures ConfigName(d) in r[k].schema.fields {
      OffersEach(drivers, d, k);
    }
  }

  // Whatever schemas there were and however the handlers interleave: when an upload has completed
  // and no upload of the schemas of host is under way, the live ones are the four for the drivers
  // of the upload that completed last.
  lemma {:induction false} FourHostSchemas(schemas: seq<Record>, steps: seq<Step>)
    requires var s := Run(schemas, steps); s.uploaded.Some? && !Uploading(s)
    ensures var s := Run(schemas, steps);
            var drivers := s.uploaded.value.given + s.uploaded.value.listed;
            LiveOnes(s.schemas, HOST) == HostRecords(drivers) && HostSchemaSet(LiveOnes(s.schemas, HOST), drivers)
  {
    RunKeeps(schemas, steps);
    var s := Run(schemas, steps);
    HostRecordsAreASet(s.uploaded.value.given + s.uploaded.value.listed);
  }

  // The step ends an upload of the schemas of host.
  predicate EndsUpload(s: State, step: Step) {
    step.End? && Enabled(s, step) && s.threads[step.t].task.HostUpload?
  }

  // A working thread listed its drivers when it began.
  lemma {:induction false} Began(schemas: seq<Record>, steps: seq<Step>, t: nat) returns (b: nat)
    requires t < |Run(schemas, steps).threads| && Active(Run(schemas, steps).threads[t].phase)
    ensures b < |steps| && steps[b] == Begin(t, Run(schemas, steps).threads[t].listed)
    ensures Enabled(Run(schemas, steps[..b]), steps[b])
    ensures Run(schemas, steps[..b]).threads[t].task == Run(schemas, steps).threads[t].task
  {
    var n := |steps| - 1;
    var s := Run(schemas, steps[..n]);
    if steps[n] == Begin(t, Run(schemas, steps).threads[t].listed) && Enabled(s, steps[n]) {
      b := n;
    } else {
      b := Began(schemas, steps[..n], t);
      assert steps[..n][..b] == steps[..b];
    }
  }

  // The last completed upload is that of the last step that ended one, with the names given to its
  // thread and those the thread listed when it took the lock.
  lemma {:induction false} LastUpload(schemas: seq<Record>, steps: seq<Step>) returns (b: nat, e: nat)
    requires Run(schemas, steps).uploaded.Some?
    ensures b < e < |steps| && EndsUpload(Run(schemas, steps[..e]), steps[e])
    ensures forall k :: e < k < |steps| ==> !EndsUpload(Run(schemas, steps[..k]), steps[k])
    ensures var th := Run(schemas, steps[..e]).threads[steps[e].t];
            var upload := Run(schemas, steps).uploaded.value;
            && upload == Upload(th.task.given, th.listed)
            && steps[b] == Begin(steps[e].t, upload.listed) && Enabled(Run(schemas, steps[..b]), steps[b])
  {
    var n := |steps| - 1;
    var s := Run(schemas, steps[..n]);
    if EndsUpload(s, steps[n]) {
      e := n;
      RunKeeps(schemas, steps[..n]);
      assert ThreadOk(s, steps[n].t);
      b := Began(schemas, steps[..n], steps[n].t);
      assert steps[..n][..b] == steps[..b];
    } else {
      b, e := LastUpload(schemas, steps[..n]);
      assert steps[..n][..b] == steps[..b] && steps[..n][..e] == steps[..e];
      forall k | e < k < |steps| ensures !EndsUpload(Run(schemas, steps[..k]), steps[k]) {
        if k < n { assert steps[..n][..k] == steps[..k]; }
      }
    }
  }
}
