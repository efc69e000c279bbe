// handlers/create.go buildMachineCreateCmd: the argument list of "docker-machine create".
module Command {
  import opened GoStrings
  import opened Selections
  import Naming
  import Sorting

  // A field of the driver's config, by its dynamic type; the elements of a []interface{} are
  // given as %v prints them.
  datatype Value =
    | Bool(b: bool)
    | Str(s: string)
    | Strs(ss: seq<string>)
    | List(printed: seq<string>)
    | Nil
    | Unsupported

  // The part of a host that the command is built from. The values of the engine maps are given
  // as %s prints them.
  datatype Host = Host(
    hostname: string,
    engineInstallUrl: string,
    engineOpt: map<string, string>,
    engineEnv: map<string, string>,
    engineInsecureRegistry: seq<string>,
    engineLabel: map<string, string>,
    engineRegistryMirror: seq<string>,
    engineStorageDriver: string,
    driverConfig: Option<map<string, Value>>)

  // ---------- what the arguments say ----------

  // One flag of a command line, with its value if it takes one.
  datatype Group = Group(flag: string, value: Option<string>)

  function Tokens(groups: seq<Group>): seq<string> {
    if groups == [] then []
    else
      (match groups[0].value
       case None => [groups[0].flag]
       case Some(v) => [groups[0].flag, v]) + Tokens(groups[1..])
  }

  lemma {:induction false} TokensAppend(a: seq<Group>, b: seq<Group>)
    ensures Tokens(a + b) == Tokens(a) + Tokens(b)
  {
    if a == [] {
      assert a + b == b;
    } else {
      assert (a + b)[1..] == a[1..] + b;
      TokensAppend(a[1..], b);
    }
  }

  function WithFlag(flag: string, values: seq<string>): seq<Group> {
    seq(|values|, i requires 0 <= i < |values| => Group(flag, Some(values[i])))
  }

  function NonEmpty(values: seq<string>): seq<string> {
    if values == [] then []
    else (if values[0] == "" then [] else [values[0]]) + NonEmpty(values[1..])
  }

  function Pair(m: map<string, string>, k: string): string {
    k + "=" + (if k in m then m[k] else "")
  }

  function Pairs(m: map<string, string>, order: seq<string>): seq<string> {
    seq(|order|, i requires 0 <= i < |order| => Pair(m, order[i]))
  }

  // order lists the keys of m, each once.
  ghost predicate Order<V>(order: seq<string>, m: map<string, V>) {
    multiset(order) == multiset(m.Keys)
  }

  lemma OrderMembers<V>(order: seq<string>, m: map<string, V>)
    requires Order(order, m)
    ensures forall i :: 0 <= i < |order| ==> order[i] in m
    ensures forall k :: k in m ==> k in order
    ensures forall i, j :: 0 <= i < j < |order| ==> order[i] != order[j]
  {
    forall i | 0 <= i < |order| ensures order[i] in m {
      assert order[i] in multiset(order);
    }
    forall k | k in m ensures k in order {
      assert k in multiset(m.Keys);
    }
    forall i, j | 0 <= i < j < |order| ensures order[i] != order[j] {
      assert order == order[..j] + order[j..];
      assert order[..j][i] == order[i] && order[j..][0] == order[j];
      assert multiset(order) == multiset(order[..j]) + multiset(order[j..]);
      assert order[i] in multiset(order[..j]) && order[j] in multiset(order[j..]);
      assert multiset(m.Keys)[order[i]] <= 1;
    }
  }

  // buildEngineOpts drops the empty values.
  function OptGroups(name: string, values: seq<string>): seq<Group> {
    WithFlag(name, NonEmpty(values))
  }

  // The engine options with their values, for some orders of the three maps.
  function EngineOptions(host: Host, opt: seq<string>, env: seq<string>, labels: seq<string>)
    : seq<(string, seq<string>)>
  {
    [("--engine-install-url", [host.engineInstallUrl]),
     ("--engine-opt", Pairs(host.engineOpt, opt)),
     ("--engine-env", Pairs(host.engineEnv, env)),
     ("--engine-insecure-registry", host.engineInsecureRegistry),
     ("--engine-label", Pairs(host.engineLabel, labels)),
     ("--engine-registry-mirror", host.engineRegistryMirror),
     ("--engine-storage-driver", [host.engineStorageDriver])]
  }

  predicate Entry(options: seq<(string, seq<string>)>, k: nat, name: string, values: seq<string>) {
    k < |options| && options[k] == (name, values)
  }

  lemma EngineEntries(host: Host, opt: seq<string>, env: seq<string>, labels: seq<string>)
    ensures var options := EngineOptions(host, opt, env, labels);
            && |options| == 7
            && Entry(options, 0, "--engine-install-url", [host.engineInstallUrl])
            && Entry(options, 1, "--engine-opt", Pairs(host.engineOpt, opt))
            && Entry(options, 2, "--engine-env", Pairs(host.engineEnv, env))
            && Entry(options, 3, "--engine-insecure-registry", host.engineInsecureRegistry)
            && Entry(options, 4, "--engine-label", Pairs(host.engineLabel, labels))
            && Entry(options, 5, "--engine-registry-mirror", host.engineRegistryMirror)
            && Entry(options, 6, "--engine-storage-driver", [host.engineStorageDriver])
  {
  }

  function OptionGroups(options: seq<(string, seq<string>)>): seq<Group>
    decreases |options|
  {
    if options == [] then []
    else
      var n := |options| - 1;
      OptionGroups(options[..n]) + OptGroups(options[n].0, options[n].1)
  }

  function DriverFlag(sDriver: string, field: string): string {
    "--" + Naming.FlagOf(sDriver, field)
  }

  // How often, and with what values, a field shows up.
  function Shown(v: Value): seq<Option<string>> {
    match v
    case Bool(b) => if b then [None] else []
    case Str(s) => if s != "" then [Some(s)] else []
    case Strs(ss) => seq(|ss|, i requires 0 <= i < |ss| => Some(ss[i]))
    case List(ss) => seq(|ss|, i requires 0 <= i < |ss| => Some(ss[i]))
    case Nil => []
    case Unsupported => []
  }

  function FieldGroups(flag: string, v: Value): seq<Group> {
    var shown := Shown(v);
    seq(|shown|, i requires 0 <= i < |shown| => Group(flag, shown[i]))
  }

  function DriverGroups(sDriver: string, config: map<string, Value>, fields: seq<string>): seq<Group>
    requires forall i :: 0 <= i < |fields| ==> fields[i] in config
    decreases |fields|
  {
    if fields == [] then []
    else
      var n := |fields| - 1;
      DriverGroups(sDriver, config, fields[..n])
      + (if fields[n] == "Resource" then [] else FieldGroups(DriverFlag(sDriver, fields[n]), config[fields[n]]))
  }

  // The fields in sort order: no trace is left of the order in which the map was read.
  ghost function SortedFields(config: map<string, Value>): (fields: seq<string>)
    ensures Sorting.Sorted(fields) && Order(fields, config)
  {
    Sorting.SortSorts(Sorting.SetToSeq(config.Keys));
    Sorting.Sort(Sorting.SetToSeq(config.Keys))
  }

  predicate Supported(config: map<string, Value>) {
    forall f :: f in config && f != "Resource" ==> !config[f].Unsupported?
  }

  // A field that the command cannot say.
  predicate UnsupportedField(config: map<string, Value>, f: string) {
    f in config && f != "Resource" && config[f] == Unsupported
  }

  lemma SupportedMeans(config: map<string, Value>)
    ensures Supported(config) <==> forall f :: !UnsupportedField(config, f)
  {
    if !Supported(config) {
      var f :| f in config && f != "Resource" && config[f].Unsupported?;
      assert UnsupportedField(config, f);
    }
    assert forall f :: f in config && f != "Resource" && config[f].Unsupported? ==> UnsupportedField(config, f);
  }

  // ---------- building them ----------

  // ret holds key=value for every key of m, once each.
  ghost predicate KeyValues(ret: seq<string>, m: map<string, string>) {
    exists order :: Order(order, m) && |ret| == |order| && forall i :: 0 <= i < |ret| ==>
      order[i] in m && ret[i] == order[i] + "=" + m[order[i]]
  }

  lemma PairsAreKeyValues(m: map<string, string>, order: seq<string>)
    requires Order(order, m)
    ensures KeyValues(Pairs(m, order), m)
  {
    OrderMembers(order, m);
    assert forall i :: 0 <= i < |order| ==> Pairs(m, order)[i] == order[i] + "=" + m[order[i]];
  }

  method MapToSlice(m: map<string, string>) returns (ret: seq<string>)
    ensures KeyValues(ret, m)
  {
    ret := [];
    ghost var order: seq<string> := [];
    var keys := m.Keys;
    while keys != {}
      invariant keys <= m.Keys
      invariant multiset(order) + multiset(keys) == multiset(m.Keys)
      invariant ret == Pairs(m, order)
      decreases |keys|
    {
      var k :| k in keys;
      ret, order := ret + [k + "=" + m[k]], order + [k];
      keys := keys - {k};
    }
    PairsAreKeyValues(m, order);
  }

  // args holds name before each non-empty value, in order.
  ghost predicate Flagged(args: seq<string>, name: string, values: seq<string>) {
    exists kept :: Selected(values, (v: string) => v != "", kept) && |args| == 2 * |kept| &&
      forall i :: 0 <= i < |kept| ==> args[2 * i] == name && args[2 * i + 1] == kept[i]
  }

  lemma {:induction false} NonEmptySelected(values: seq<string>)
    ensures Selected(values, (v: string) => v != "", NonEmpty(values))
  {
    var keep := (v: string) => v != "";
    if values == [] {
      SelectedNone(keep);
    } else {
      NonEmptySelected(values[1..]);
      SelectedOne(values[0], keep);
      SelectedAppend([values[0]], if keep(values[0]) then [values[0]]
          else [], values[1..], NonEmpty(values[1..]), keep);
      assert [values[0]] + values[1..] == values;
    }
  }

  lemma {:induction false} NameBefore(name: string, values: seq<string>)
    ensures var args := Tokens(WithFlag(name, values));
            |args| == 2 * |values| && forall i :: 0 <= i < |values| ==>
                args[2 * i] == name && args[2 * i + 1] == values[i]
  {
    if values != [] {
      NameBefore(name, values[1..]);
      WithFlagCons(name, values[0], values[1..]);
      assert [values[0]] + values[1..] == values;
      var rest := Tokens(WithFlag(name, values[1..]));
      forall i | 0 <= i < |values| ensures Tokens(WithFlag(name, values))[2 * i] == name &&
          Tokens(WithFlag(name, values))[2 * i + 1] == values[i] {
        if i > 0 {
          assert rest[2 * (i - 1)] == name && rest[2 * (i - 1) + 1] == values[1..][i - 1];
        }
      }
    }
  }

  lemma OptTokensFlagged(name: string, values: seq<string>)
    ensures Flagged(OptTokens(name, values), name, values)
  {
    NonEmptySelected(values);
    NameBefore(name, NonEmpty(values));
  }

  method BuildEngineOpts(name: string, values: seq<string>) returns (opts: seq<string>)
    ensures opts == OptTokens(name, values)
  {
    opts := [];
    for i := 0 to |values|
      invariant opts + Tokens(WithFlag(name, NonEmpty(values[i..]))) == Tokens(WithFlag(name, NonEmpty(values)))
    {
      assert values[i..][0] == values[i] && values[i..][1..] == values[i + 1..];
      if values[i] != "" {
        WithFlagCons(name, values[i], NonEmpty(values[i + 1..]));
        opts := opts + [name, values[i]];
      } else {
        assert NonEmpty(values[i..]) == NonEmpty(values[i + 1..]);
      }
    }
  }

  lemma WithFlagCons(name: string, v: string, rest: seq<string>)
    ensures Tokens(WithFlag(name, [v] + rest)) == [name, v] + Tokens(WithFlag(name, rest))
  {
    var groups := WithFlag(name, [v] + rest);
    assert groups[0] == Group(name, Some(v)) && groups[1..] == WithFlag(name, rest);
  }

  method FieldArgs(dmField: string, v: Value) returns (args: Option<seq<string>>)
    ensures args.None? <==> v.Unsupported?
    ensures args.Some? ==> args.value == Tokens(FieldGroups(dmField, v))
  {
    match v {
      case Bool(b) =>
        if b {
          assert FieldGroups(dmField, v)[1..] == [];
          return Some([dmField]);
        }
        return Some([]);
      case Str(s) =>
        if s != "" {
          assert FieldGroups(dmField, v)[1..] == [];
          return Some([dmField, s]);
        }
        return Some([]);
      case Strs(ss) =>
        var r := EachWithFlag(dmField, ss);
        assert FieldGroups(dmField, v) == WithFlag(dmField, ss);
        return Some(r);
      case List(ss) =>
        var r := EachWithFlag(dmField, ss);
        assert FieldGroups(dmField, v) == WithFlag(dmField, ss);
        return Some(r);
      case Nil =>
        return Some([]);
      case Unsupported =>
        return None;
    }
  }

  method EachWithFlag(dmField: string, f: seq<string>) returns (cmd: seq<string>)
    ensures cmd == Tokens(WithFlag(dmField, f))
  {
    cmd := [];
    for i := 0 to |f|
      invariant cmd + Tokens(WithFlag(dmField, f[i..])) == Tokens(WithFlag(dmField, f))
    {
      assert f[i..] == [f[i]] + f[i + 1..];
      WithFlagCons(dmField, f[i], f[i + 1..]);
      cmd := cmd + [dmField, f[i]];
    }
  }

  method ConfigFields(config: map<string, Value>) returns (configFields: seq<string>)
    ensures configFields == SortedFields(config)
  {
    configFields := [];
    var keys := config.Keys;
    while keys != {}
      invariant keys <= config.Keys
      invariant multiset(configFields) + multiset(keys) == multiset(config.Keys)
      decreases |keys|
    {
      var k :| k in keys;
      configFields := configFields + [k];
      keys := keys - {k};
    }
    Sorting.SortForgetsOrder(configFields, Sorting.SetToSeq(config.Keys));
    configFields := Sorting.Sort(configFields);
  }

  ghost predicate ArgsSoFar(cmd: seq<string>, sDriver: string, config: map<string, Value>, fields: seq<string>, i: nat)
    requires i <= |fields| && forall j :: 0 <= j < |fields| ==> fields[j] in config
  {
    cmd == Tokens(DriverGroups(sDriver, config, fields[..i]))
  }

  method DriverArgs(sDriver: string, config: map<string, Value>) returns (args: Option<seq<string>>)
    ensures args.Some? <==> Supported(config)
    ensures forall i :: 0 <= i < |SortedFields(config)| ==> SortedFields(config)[i] in config
    ensures args.Some? ==> args.value == Tokens(DriverGroups(sDriver, config, SortedFields(config)))
  {
    var configFields := ConfigFields(config);
    OrderMembers(configFields, config);
    var cmd := [];
    for i := 0 to |configFields|
      invariant SupportedSoFar(config, configFields, i)
      invariant ArgsSoFar(cmd, sDriver, config, configFields, i)
    {
      var more := NamedArgs(sDriver, configFields[i], config[configFields[i]]);
      if more.None? {
        return None;
      }
      ArgsStep(cmd, sDriver, config, configFields, i, more.value);
      cmd := cmd + more.value;
    }
    assert configFields[..|configFields|] == configFields;
    AllSupported(config, configFields);
    return Some(cmd);
  }

  predicate SupportedSoFar(config: map<string, Value>, fields: seq<string>, i: nat)
    requires i <= |fields| && forall j :: 0 <= j < |fields| ==> fields[j] in config
  {
    forall j :: 0 <= j < i ==> fields[j] == "Resource" || !config[fields[j]].Unsupported?
  }

  lemma AllSupported(config: map<string, Value>, fields: seq<string>)
    requires forall j :: 0 <= j < |fields| ==> fields[j] in config
    requires SupportedSoFar(config, fields, |fields|) && forall f :: f in config ==> f in fields
    ensures Supported(config)
  {
  }

  // The arguments of one field; the Resource field has none.
  method NamedArgs(sDriver: string, name: string, v: Value) returns (args: Option<seq<string>>)
    ensures args.None? <==> name != "Resource" && v.Unsupported?
    ensures args.Some? ==>
        args.value == if name == "Resource" then [] else Tokens(FieldGroups(DriverFlag(sDriver, name), v))
  {
    if name == "Resource" {
      return Some([]);
    }
    args := FieldArgs(DriverFlag(sDriver, name), v);
  }

  lemma ArgsStep(cmd: seq<string>, sDriver: string, config: map<string, Value>, fields: seq<string>, i: nat,
      more: seq<string>)
    requires i < |fields| && forall j :: 0 <= j < |fields| ==> fields[j] in config
    requires ArgsSoFar(cmd, sDriver, config, fields, i)
    requires more == if fields[i] == "Resource" then []
        else Tokens(FieldGroups(DriverFlag(sDriver, fields[i]), config[fields[i]]))
    ensures ArgsSoFar(cmd + more, sDriver, config, fields, i + 1)
  {
    DriverGroupsStep(sDriver, config, fields, i);
  }

  lemma {:induction false} DriverGroupsStep(sDriver: string, config: map<string, Value>, fields: seq<string>, i: nat)
    requires i < |fields| && forall j :: 0 <= j < |fields| ==> fields[j] in config
    ensures Tokens(DriverGroups(sDriver, config, fields[..i + 1])) ==
              Tokens(DriverGroups(sDriver, config, fields[..i]))
              + (if fields[i] == "Resource" then [] else Tokens(FieldGroups(DriverFlag(sDriver, fields[i]),
                  config[fields[i]])))
  {
    assert fields[..i + 1][..i] == fields[..i];
    var more := if fields[i] == "Resource" then [] else FieldGroups(DriverFlag(sDriver, fields[i]), config[fields[i]]);
    TokensAppend(DriverGroups(sDriver, config, fields[..i]), more);
  }

  ghost predicate EngineOrders(host: Host, opt: seq<string>, env: seq<string>, labels: seq<string>) {
    Order(opt, host.engineOpt) && Order(env, host.engineEnv) && Order(labels, host.engineLabel)
  }

  // The whole argument list; only the engine maps leave a choice.
  ghost predicate CreateCmd(host: Host, driver: string, cmd: seq<string>) {
    && host.driverConfig.Some?
    && (forall i :: 0 <= i < |SortedFields(host.driverConfig.value)| ==>
          SortedFields(host.driverConfig.value)[i] in host.driverConfig.value)
    && exists opt, env, labels :: EngineOrders(host, opt, env, labels) &&
         cmd == ["create", "-d", ToLower(driver)]
                + Tokens(OptionGroups(EngineOptions(host, opt, env, labels)))
                + Tokens(DriverGroups(ToLower(driver), host.driverConfig.value, SortedFields(host.driverConfig.value)))
                + [host.hostname]
  }

  // The engine section of the command.
  ghost predicate EngineSection(cmd: seq<string>, host: Host) {
    exists opt, env, labels :: EngineOrders(host, opt, env, labels) &&
      cmd == Tokens(OptionGroups(EngineOptions(host, opt, env, labels)))
  }

  lemma OrderOf(ret: seq<string>, m: map<string, string>) returns (order: seq<string>)
    requires KeyValues(ret, m)
    ensures Order(order, m) && ret == Pairs(m, order)
  {
    order :| Order(order, m) && |ret| == |order| && forall i :: 0 <= i < |ret| ==>
      order[i] in m && ret[i] == order[i] + "=" + m[order[i]];
  }

  method EngineArgs(host: Host) returns (cmd: seq<string>)
    ensures EngineSection(cmd, host)
  {
    var engineOpt := MapToSlice(host.engineOpt);
    var engineEnv := MapToSlice(host.engineEnv);
    var engineLabel := MapToSlice(host.engineLabel);
    ghost var opt := OrderOf(engineOpt, host.engineOpt);
    ghost var env := OrderOf(engineEnv, host.engineEnv);
    ghost var labels := OrderOf(engineLabel, host.engineLabel);
    var a := BuildEngineOpts("--engine-install-url", [host.engineInstallUrl]);
    var b := BuildEngineOpts("--engine-opt", engineOpt);
    var c := BuildEngineOpts("--engine-env", engineEnv);
    var d := BuildEngineOpts("--engine-insecure-registry", host.engineInsecureRegistry);
    var e := BuildEngineOpts("--engine-label", engineLabel);
    var f := BuildEngineOpts("--engine-registry-mirror", host.engineRegistryMirror);
    var g := BuildEngineOpts("--engine-storage-driver", [host.engineStorageDriver]);
    cmd := Concat([a, b, c, d, e, f, g]);
    SevenParts(host, opt, env, labels, engineOpt, engineEnv, engineLabel, a, b, c, d, e, f, g);
  }

  lemma SectionOf(host: Host, opt: seq<string>, env: seq<string>, labels: seq<string>, cmd: seq<string>)
    requires EngineOrders(host, opt, env, labels) && IsSection(cmd, host, opt, env, labels)
    ensures EngineSection(cmd, host)
  {
    AllParts(EngineOptions(host, opt, env, labels));
  }

  ghost predicate IsSection(cmd: seq<string>, host: Host, opt: seq<string>, env: seq<string>, labels: seq<string>) {
    cmd == Concat(PartsOf(EngineOptions(host, opt, env, labels)))
  }

  lemma SevenParts(host: Host, opt: seq<string>, env: seq<string>, labels: seq<string>, engineOpt: seq<string>,
      engineEnv: seq<string>, engineLabel: seq<string>, a: seq<string>, b: seq<string>, c: seq<string>,
      d: seq<string>, e: seq<string>, f: seq<string>, g: seq<string>)
    requires EngineOrders(host, opt, env, labels) && engineOpt == Pairs(host.engineOpt, opt)
    requires engineEnv == Pairs(host.engineEnv, env) && engineLabel == Pairs(host.engineLabel, labels)
    requires a == OptTokens("--engine-install-url", [host.engineInstallUrl])
    requires b == OptTokens("--engine-opt", engineOpt)
    requires c == OptTokens("--engine-env", engineEnv)
    requires d == OptTokens("--engine-insecure-registry", host.engineInsecureRegistry)
    requires e == OptTokens("--engine-label", engineLabel)
    requires f == OptTokens("--engine-registry-mirror", host.engineRegistryMirror)
    requires g == OptTokens("--engine-storage-driver", [host.engineStorageDriver])
    ensures EngineSection(Concat([a, b, c, d, e, f, g]), host)
  {
    var options := EngineOptions(host, opt, env, labels);
    EngineEntries(host, opt, env, labels);
    assert [a, b, c, d, e, f, g] == PartsOf(options);
    SectionOf(host, opt, env, labels, Concat([a, b, c, d, e, f, g]));
  }

  lemma OptionStep(options: seq<(string, seq<string>)>, n: nat)
    requires n < |options|
    ensures Tokens(OptionGroups(options[..n + 1])) ==
              Tokens(OptionGroups(options[..n])) + OptTokens(options[n].0, options[n].1)
  {
    assert options[..n + 1][..n] == options[..n];
    TokensAppend(OptionGroups(options[..n]), OptGroups(options[n].0, options[n].1));
  }

  // args puts name before key=value for every key of m.
  ghost predicate MapFlagged(args: seq<string>, name: string, m: map<string, string>) {
    exists pairs :: KeyValues(pairs, m) && Flagged(args, name, pairs)
  }

  ghost predicate EngineParts(p: seq<seq<string>>, host: Host) {
    && |p| == 7
    && Flagged(p[0], "--engine-install-url", [host.engineInstallUrl])
    && MapFlagged(p[1], "--engine-opt", host.engineOpt)
    && MapFlagged(p[2], "--engine-env", host.engineEnv)
    && Flagged(p[3], "--engine-insecure-registry", host.engineInsecureRegistry)
    && MapFlagged(p[4], "--engine-label", host.engineLabel)
    && Flagged(p[5], "--engine-registry-mirror", host.engineRegistryMirror)
    && Flagged(p[6], "--engine-storage-driver", [host.engineStorageDriver])
  }

  // The engine section, option by option.
  ghost predicate EngineArguments(args: seq<string>, host: Host) {
    exists p :: EngineParts(p, host) && args == Concat(p)
  }

  // The engine section stands between the driver's name and the rest.
  ghost predicate EngineIn(cmd: seq<string>, host: Host) {
    exists engine, more :: EngineArguments(engine, host) && |cmd| > 3 && cmd[3..] == engine + more + [host.hostname]
  }

  function Concat(parts: seq<seq<string>>): seq<string> {
    if parts == [] then [] else Concat(parts[..|parts| - 1]) + parts[|parts| - 1]
  }

  function PartsOf(options: seq<(string, seq<string>)>): seq<seq<string>> {
    seq(|options|, i requires 0 <= i < |options| => OptTokens(options[i].0, options[i].1))
  }

  lemma {:induction false} OptionsConcat(options: seq<(string, seq<string>)>, n: nat)
    requires n <= |options|
    ensures Tokens(OptionGroups(options[..n])) == Concat(PartsOf(options)[..n])
  {
    if n > 0 {
      OptionsConcat(options, n - 1);
      OptionStep(options, n - 1);
      assert PartsOf(options)[..n][..n - 1] == PartsOf(options)[..n - 1];
    }
  }

  lemma {:induction false} AllParts(options: seq<(string, seq<string>)>)
    ensures Tokens(OptionGroups(options)) == Concat(PartsOf(options))
  {
    OptionsConcat(options, |options|);
    assert options[..|options|] == options && PartsOf(options)[..|options|] == PartsOf(options);
  }

  lemma PartFlagged(options: seq<(string, seq<string>)>, k: nat, name: string, values: seq<string>)
    requires Entry(options, k, name, values)
    ensures Flagged(PartsOf(options)[k], name, values)
  {
    OptTokensFlagged(name, values);
  }

  lemma PartMapFlagged(options: seq<(string, seq<string>)>, k: nat, name: string, m: map<string, string>,
      order: seq<string>)
    requires Entry(options, k, name, Pairs(m, order)) && Order(order, m)
    ensures MapFlagged(PartsOf(options)[k], name, m)
  {
    PairsAreKeyValues(m, order);
    PartFlagged(options, k, name, Pairs(m, order));
  }

  lemma SectionParts(host: Host, opt: seq<string>, env: seq<string>, labels: seq<string>)
    requires EngineOrders(host, opt, env, labels)
    ensures EngineParts(PartsOf(EngineOptions(host, opt, env, labels)), host)
  {
    var options := EngineOptions(host, opt, env, labels);
    EngineEntries(host, opt, env, labels);
    PartFlagged(options, 0, "--engine-install-url", [host.engineInstallUrl]);
    PartMapFlagged(options, 1, "--engine-opt", host.engineOpt, opt);
    PartMapFlagged(options, 2, "--engine-env", host.engineEnv, env);
    PartFlagged(options, 3, "--engine-insecure-registry", host.engineInsecureRegistry);
    PartMapFlagged(options, 4, "--engine-label", host.engineLabel, labels);
    PartFlagged(options, 5, "--engine-registry-mirror", host.engineRegistryMirror);
    PartFlagged(options, 6, "--engine-storage-driver", [host.engineStorageDriver]);
  }

  lemma SectionArguments(cmd: seq<string>, host: Host, opt: seq<string>, env: seq<string>, labels: seq<string>)
    requires EngineOrders(host, opt, env, labels)
    requires cmd == Tokens(OptionGroups(EngineOptions(host, opt, env, labels)))
    ensures EngineArguments(cmd, host)
  {
    SectionParts(host, opt, env, labels);
    AllParts(EngineOptions(host, opt, env, labels));
  }

  lemma AfterThree(a: seq<string>, b: seq<string>, c: seq<string>, d: seq<string>)
    requires |a| == 3
    ensures (a + b + c + d)[3..] == b + c + d
  {
  }

  method BuildMachineCreateCmd(host: Host, driver: string) returns (r: Option<seq<string>>)
    ensures r.None? ==> host.driverConfig.None? || exists f :: UnsupportedField(host.driverConfig.value, f)
    ensures r.Some? ==> host.driverConfig.Some? && forall f :: !UnsupportedField(host.driverConfig.value, f)
    ensures r.Some? ==> CreateCmd(host, driver, r.value) && EngineIn(r.value, host)
  {
    var sDriver := ToLower(driver);
    var engine := EngineArgs(host);
    if host.driverConfig.None? {
      return None;
    }
    SupportedMeans(host.driverConfig.value);
    var more := DriverArgs(sDriver, host.driverConfig.value);
    if more.None? {
      return None;
    }
    ghost var opt, env, labels :| EngineOrders(host, opt, env, labels) &&
      engine == Tokens(OptionGroups(EngineOptions(host, opt, env, labels)));
    assert EngineOrders(host, opt, env, labels);
    SectionArguments(engine, host, opt, env, labels);
    var cmd := ["create", "-d", sDriver] + engine + more.value + [host.hostname];
    AfterThree(["create", "-d", sDriver], engine, more.value, [host.hostname]);
    return Some(cmd);
  }

  // One engine option as it stands on the command line.
  function OptTokens(name: string, values: seq<string>): seq<string> {
    Tokens(OptGroups(name, values))
  }

  // ---------- reading them back ----------

  // docker-machine's reading of its flags: a flag that takes a value takes the next token,
  // whatever it looks like; the first token that is no flag ends them.
  datatype Decoded = Decoded(groups: seq<Group>, rest: seq<string>)

  function Decode(tokens: seq<string>, takesValue: string -> bool): Decoded
    decreases |tokens|
  {
    if tokens == [] || !HasPrefix(tokens[0], "--") then Decoded([], tokens)
    else if !takesValue(tokens[0]) then
      var d := Decode(tokens[1..], takesValue);
      Decoded([Group(tokens[0], None)] + d.groups, d.rest)
    else if |tokens| == 1 then Decoded([], tokens)
    else
      var d := Decode(tokens[2..], takesValue);
      Decoded([Group(tokens[0], Some(tokens[1]))] + d.groups, d.rest)
  }

  // The groups agree with the flags' arity.
  ghost predicate Fits(groups: seq<Group>, takesValue: string -> bool) {
    forall i :: 0 <= i < |groups| ==>
      HasPrefix(groups[i].flag, "--") && (takesValue(groups[i].flag) <==> groups[i].value.Some?)
  }

  function GroupTokens(g: Group): seq<string> {
    match g.value
    case None => [g.flag]
    case Some(v) => [g.flag, v]
  }

  lemma {:induction false} TokensHead(groups: seq<Group>, rest: seq<string>)
    requires groups != []
    ensures Tokens(groups) + rest == GroupTokens(groups[0]) + (Tokens(groups[1..]) + rest)
  {
    Regroup(GroupTokens(groups[0]), Tokens(groups[1..]), rest);
  }

  lemma {:induction false} DecodeGroup(g: Group, more: seq<string>, takesValue: string -> bool)
    requires HasPrefix(g.flag, "--") && (takesValue(g.flag) <==> g.value.Some?)
    ensures var d := Decode(more, takesValue);
            Decode(GroupTokens(g) + more, takesValue) == Decoded([g] + d.groups, d.rest)
  {
    var t := GroupTokens(g) + more;
    if g.value.None? {
      assert t[1..] == more;
    } else {
      assert t[2..] == more;
    }
  }

  lemma FitsTail(groups: seq<Group>, takesValue: string -> bool)
    requires groups != [] && Fits(groups, takesValue)
    ensures Fits(groups[1..], takesValue)
    ensures HasPrefix(groups[0].flag, "--") && (takesValue(groups[0].flag) <==> groups[0].value.Some?)
    ensures groups == [groups[0]] + groups[1..]
  {
    assert forall i :: 0 <= i < |groups[1..]| ==> groups[1..][i] == groups[i + 1];
  }

  lemma {:induction false} DecodeTokens(groups: seq<Group>, rest: seq<string>, takesValue: string -> bool)
    requires Fits(groups, takesValue)
    requires rest == [] || !HasPrefix(rest[0], "--")
    ensures Decode(Tokens(groups) + rest, takesValue) == Decoded(groups, rest)
    decreases |groups|
  {
    if groups == [] {
      assert Tokens(groups) + rest == rest;
    } else {
      FitsTail(groups, takesValue);
      DecodeTokens(groups[1..], rest, takesValue);
      DecodeGroup(groups[0], Tokens(groups[1..]) + rest, takesValue);
      TokensHead(groups, rest);
    }
  }

  // The values that a flag was given, in order.
  function Given(groups: seq<Group>, flag: string): seq<Option<string>> {
    if groups == [] then []
    else (if groups[0].flag == flag then [groups[0].value] else []) + Given(groups[1..], flag)
  }

  lemma Regroup<T>(a: seq<T>, b: seq<T>, c: seq<T>)
    ensures a + (b + c) == a + b + c
  {
  }

  lemma {:induction false} GivenAppend(a: seq<Group>, b: seq<Group>, flag: string)
    ensures Given(a + b, flag) == Given(a, flag) + Given(b, flag)
  {
    if a == [] {
      assert a + b == b;
    } else {
      assert (a + b)[0] == a[0] && (a + b)[1..] == a[1..] + b;
      GivenAppend(a[1..], b, flag);
      Regroup(if a[0].flag == flag then [a[0].value] else [], Given(a[1..], flag), Given(b, flag));
    }
  }

  lemma {:induction false} GivenAll(groups: seq<Group>, flag: string)
    requires forall i :: 0 <= i < |groups| ==> groups[i].flag == flag
    ensures |Given(groups, flag)| == |groups|
    ensures forall i :: 0 <= i < |groups| ==> Given(groups, flag)[i] == groups[i].value
  {
    if groups != [] {
      assert forall i :: 0 <= i < |groups[1..]| ==> groups[1..][i] == groups[i + 1];
      GivenAll(groups[1..], flag);
      assert forall i :: 1 <= i < |groups| ==> groups[i] == groups[1..][i - 1];
    }
  }

  lemma {:induction false} GivenNone(groups: seq<Group>, flag: string)
    requires forall i :: 0 <= i < |groups| ==> groups[i].flag != flag
    ensures Given(groups, flag) == []
  {
    if groups != [] {
      assert forall i :: 0 <= i < |groups[1..]| ==> groups[1..][i] == groups[i + 1];
      GivenNone(groups[1..], flag);
    }
  }

  // The names that schema fields made of recoverable flags have.
  ghost predicate FieldName(field: string) {
    exists segs :: Naming.Segments(segs) && Naming.Recoverable(segs) && field == Naming.Camel(segs)
  }

  lemma FieldFlag(sDriver: string, field: string)
    requires '-' !in sDriver && FieldName(field)
    ensures Naming.CamelCase(DriverFlag(sDriver, field)[2..]) == Naming.Ok(field)
  {
    var segs :| Naming.Segments(segs) && Naming.Recoverable(segs) && field == Naming.Camel(segs);
    Naming.CamelCaseOfFlag(sDriver, segs);
    Naming.FlagRoundTrip(sDriver, segs);
    assert DriverFlag(sDriver, field)[2..] == Naming.FlagOf(sDriver, field);
  }

  // Every field of the config has a name of that kind, but for "Resource".
  ghost predicate NamedFields(config: map<string, Value>) {
    forall f :: f in config && f != "Resource" ==> FieldName(f)
  }

  lemma FlagsDiffer(sDriver: string, f: string, g: string)
    requires '-' !in sDriver && FieldName(f) && FieldName(g) && f != g
    ensures DriverFlag(sDriver, f) != DriverFlag(sDriver, g)
  {
    FieldFlag(sDriver, f);
    FieldFlag(sDriver, g);
  }

  // The flag of f is given what the field f shows, if f is among the first n fields.
  lemma {:induction false} DriverGivenStep(sDriver: string, config: map<string, Value>, fields: seq<string>, n: nat,
      flag: string)
    requires 0 < n <= |fields| && forall i :: 0 <= i < |fields| ==> fields[i] in config
    ensures forall i :: 0 <= i < |fields[..n]| ==> fields[..n][i] in config
    ensures var g, before := fields[n - 1], fields[..n - 1];
            var more := if g == "Resource" then [] else FieldGroups(DriverFlag(sDriver, g), config[g]);
            && (forall i :: 0 <= i < |before| ==> before[i] in config)
            && Given(DriverGroups(sDriver, config, fields[..n]), flag) ==
                 Given(DriverGroups(sDriver, config, before), flag) + Given(more, flag)
  {
    assert fields[..n][..n - 1] == fields[..n - 1];
    var g := fields[n - 1];
    var more := if g == "Resource" then [] else FieldGroups(DriverFlag(sDriver, g), config[g]);
    GivenAppend(DriverGroups(sDriver, config, fields[..n - 1]), more, flag);
  }

  lemma OneOfTwo<T>(x: seq<T>, y: seq<T>, s: seq<T>, first: bool, second: bool)
    requires x == (if first then s else []) && y == (if second then s else []) && !(first && second)
    ensures x + y == if first || second then s else []
  {
  }

  ghost predicate GivenSoFar(sDriver: string, config: map<string, Value>, fields: seq<string>, n: nat, f: string)
    requires n <= |fields| && f in config && forall i :: 0 <= i < |fields| ==> fields[i] in config
  {
    Given(DriverGroups(sDriver, config, fields[..n]), DriverFlag(sDriver, f)) ==
      if f in fields[..n] then Shown(config[f]) else []
  }

  lemma DriverGivenNext(sDriver: string, config: map<string, Value>, fields: seq<string>, n: nat, f: string)
    requires '-' !in sDriver && NamedFields(config) && f in config && f != "Resource"
    requires forall i :: 0 <= i < |fields| ==> fields[i] in config
    requires forall i, j :: 0 <= i < j < |fields| ==> fields[i] != fields[j]
    requires 0 < n <= |fields| && GivenSoFar(sDriver, config, fields, n - 1, f)
    ensures GivenSoFar(sDriver, config, fields, n, f)
  {
    var flag, g := DriverFlag(sDriver, f), fields[n - 1];
    var more := if g == "Resource" then [] else FieldGroups(DriverFlag(sDriver, g), config[g]);
    DriverGivenStep(sDriver, config, fields, n, flag);
    FieldGiven(sDriver, config, g, f);
    DistinctStep(fields, n - 1, f);
    OneOfTwo(Given(DriverGroups(sDriver, config, fields[..n - 1]), flag), Given(more, flag), Shown(config[f]),
             f in fields[..n - 1], g == f);
  }

  lemma {:induction false} DriverGiven(sDriver: string, config: map<string, Value>, fields: seq<string>, n: nat,
      f: string)
    requires '-' !in sDriver && NamedFields(config) && f in config && f != "Resource"
    requires forall i :: 0 <= i < |fields| ==> fields[i] in config
    requires forall i, j :: 0 <= i < j < |fields| ==> fields[i] != fields[j]
    requires n <= |fields|
    ensures GivenSoFar(sDriver, config, fields, n, f)
  {
    if n > 0 {
      DriverGiven(sDriver, config, fields, n - 1, f);
      DriverGivenNext(sDriver, config, fields, n, f);
    }
  }

  lemma DistinctStep(fields: seq<string>, n: nat, f: string)
    requires n < |fields|
    requires forall i, j :: 0 <= i < j < |fields| ==> fields[i] != fields[j]
    ensures f in fields[..n + 1] <==> f in fields[..n] || f == fields[n]
    ensures !(f in fields[..n] && f == fields[n])
  {
    assert fields[..n + 1] == fields[..n] + [fields[n]];
  }

  lemma FieldGiven(sDriver: string, config: map<string, Value>, g: string, f: string)
    requires '-' !in sDriver && NamedFields(config) && f in config && f != "Resource" && g in config
    ensures var more := if g == "Resource" then [] else FieldGroups(DriverFlag(sDriver, g), config[g]);
            Given(more, DriverFlag(sDriver, f)) == if g == f then Shown(config[f]) else []
  {
    var flag := DriverFlag(sDriver, f);
    var groups := FieldGroups(DriverFlag(sDriver, g), config[g]);
    if g == f {
      GivenAll(groups, flag);
    } else if g != "Resource" {
      FlagsDiffer(sDriver, g, f);
      GivenNone(groups, flag);
    }
  }

  // The group is one of these options, or of a field of the config.
  ghost predicate ForOption(g: Group, options: seq<(string, seq<string>)>) {
    exists k :: 0 <= k < |options| && g.flag == options[k].0
  }

  ghost predicate ForField(g: Group, sDriver: string, config: map<string, Value>) {
    exists f :: f in config && f != "Resource" && g.flag == DriverFlag(sDriver, f)
  }

  // Of the fields that are shown, the boolean ones, and only they, have flags without a value.
  ghost predicate Arity(sDriver: string, config: map<string, Value>, takesValue: string -> bool) {
    forall f :: f in config && f != "Resource" && Shown(config[f]) != [] ==>
      (takesValue(DriverFlag(sDriver, f)) <==> !config[f].Bool?)
  }

  // Each driver group belongs to a field, and fits such an arity.
  lemma {:induction false} DriverFits(sDriver: string, config: map<string, Value>, fields: seq<string>,
      takesValue: string -> bool)
    requires Arity(sDriver, config, takesValue)
    requires forall i :: 0 <= i < |fields| ==> fields[i] in config
    ensures Fits(DriverGroups(sDriver, config, fields), takesValue)
    ensures forall g :: g in DriverGroups(sDriver, config, fields) ==> ForField(g, sDriver, config)
    decreases |fields|
  {
    if fields != [] {
      var n := |fields| - 1;
      DriverFits(sDriver, config, fields[..n], takesValue);
      var groups := DriverGroups(sDriver, config, fields);
      var before := DriverGroups(sDriver, config, fields[..n]);
      var f := fields[n];
      forall i | 0 <= i < |groups|
        ensures HasPrefix(groups[i].flag, "--") && (takesValue(groups[i].flag) <==> groups[i].value.Some?)
        ensures ForField(groups[i], sDriver, config)
      {
        if i < |before| {
          assert groups[i] == before[i] && before[i] in before;
        } else {
          assert groups[i] == FieldGroups(DriverFlag(sDriver, f), config[f])[i - |before|];
          assert DriverFlag(sDriver, f)[..2] == "--";
        }
      }
    }
  }

  function Somes(values: seq<string>): seq<Option<string>> {
    seq(|values|, i requires 0 <= i < |values| => Some(values[i]))
  }

  lemma {:induction false} OptGroupsGiven(name: string, values: seq<string>, flag: string)
    ensures Given(OptGroups(name, values), flag) == if name == flag then Somes(NonEmpty(values)) else []
  {
    if name == flag {
      GivenAll(OptGroups(name, values), flag);
    } else {
      GivenNone(OptGroups(name, values), flag);
    }
  }

  lemma {:induction false} OptionsGivenStep(options: seq<(string, seq<string>)>, n: nat, flag: string)
    requires n < |options|
    ensures Given(OptionGroups(options[..n + 1]), flag) ==
              Given(OptionGroups(options[..n]), flag) +
                  (if options[n].0 == flag then Somes(NonEmpty(options[n].1)) else [])
  {
    OptionGroupsStep(options, n);
    GivenAppend(OptionGroups(options[..n]), OptGroups(options[n].0, options[n].1), flag);
    OptGroupsGiven(options[n].0, options[n].1, flag);
  }

  lemma {:induction false} OptionsLack(options: seq<(string, seq<string>)>, n: nat, flag: string)
    requires n <= |options| && forall i :: 0 <= i < n ==> options[i].0 != flag
    ensures Given(OptionGroups(options[..n]), flag) == []
  {
    if n > 0 {
      OptionsLack(options, n - 1, flag);
      OptionsGivenStep(options, n - 1, flag);
    }
  }

  // An option is given its non-empty values, in order.
  lemma {:induction false} OptionsGiven(options: seq<(string, seq<string>)>, n: nat, k: nat)
    requires k < n <= |options|
    requires forall i, j :: 0 <= i < j < |options| ==> options[i].0 != options[j].0
    ensures Given(OptionGroups(options[..n]), options[k].0) == Somes(NonEmpty(options[k].1))
  {
    OptionsGivenStep(options, n - 1, options[k].0);
    if k == n - 1 {
      OptionsLack(options, n - 1, options[k].0);
    } else {
      OptionsGiven(options, n - 1, k);
    }
  }

  lemma OptionGroupsStep(options: seq<(string, seq<string>)>, n: nat)
    requires n < |options|
    ensures OptionGroups(options[..n + 1]) == OptionGroups(options[..n]) + OptGroups(options[n].0, options[n].1)
  {
    assert options[..n + 1][..n] == options[..n];
  }

  // The groups of options are those of options, and fit when every option takes a value.
  lemma {:induction false} OptionsFit(options: seq<(string, seq<string>)>, n: nat, takesValue: string -> bool)
    requires n <= |options|
    requires forall i :: 0 <= i < |options| ==> HasPrefix(options[i].0, "--") && takesValue(options[i].0)
    ensures Fits(OptionGroups(options[..n]), takesValue)
    ensures forall g :: g in OptionGroups(options[..n]) ==> ForOption(g, options)
  {
    if n > 0 {
      OptionsFit(options, n - 1, takesValue);
      assert options[..n][..n - 1] == options[..n - 1];
      var before := OptionGroups(options[..n - 1]);
      var groups := OptionGroups(options[..n]);
      forall i | 0 <= i < |groups|
        ensures HasPrefix(groups[i].flag, "--") && (takesValue(groups[i].flag) <==> groups[i].value.Some?)
        ensures ForOption(groups[i], options)
      {
        if i < |before| {
          assert groups[i] == before[i] && before[i] in before;
        } else {
          assert groups[i].flag == options[n - 1].0;
        }
      }
    }
  }

  lemma EngineOptionNames(host: Host, opt: seq<string>, env: seq<string>, labels: seq<string>)
    ensures var options := EngineOptions(host, opt, env, labels);
            && |options| == 7
            && (forall i, j :: 0 <= i < j < |options| ==> options[i].0 != options[j].0)
            && (forall i :: 0 <= i < |options| ==>
                  HasPrefix(options[i].0, "--engine-") && HasPrefix(options[i].0, "--"))
  {
    var options := EngineOptions(host, opt, env, labels);
    forall i | 0 <= i < |options| ensures HasPrefix(options[i].0, "--engine-") && HasPrefix(options[i].0, "--") {
      assert options[i].0[..9] == "--engine-";
      assert options[i].0[..2] == "--";
    }
    forall i, j | 0 <= i < j < 7 ensures options[i].0 != options[j].0 {
      assert options[i].0[9] != options[j].0[9] || |options[i].0| != |options[j].0|;
    }
  }

  // The driver's name in a flag: what stands before its first hyphen.
  function DriverPart(flag: string): string {
    if |flag| < 2 then "" else flag[2..][..Naming.IndexOf(flag[2..], '-')]
  }

  lemma DriverPartOf(driver: string, rest: string)
    requires '-' !in driver
    ensures DriverPart("--" + (driver + "-" + rest)) == driver
  {
    var t := driver + "-" + rest;
    assert ("--" + t)[2..] == t == driver + ['-'] + rest;
    Naming.IndexOfAppend(driver, rest, '-');
  }

  // No engine flag is the flag of a field of a driver that is not called "engine".
  lemma EngineApart(sDriver: string, field: string, flag: string)
    requires '-' !in sDriver && sDriver != "engine" && HasPrefix(flag, "--engine-")
    ensures flag != DriverFlag(sDriver, field)
  {
    DriverPartOf(sDriver, Naming.Back(field));
    assert flag == flag[..9] + flag[9..];
    assert "--engine-" + flag[9..] == "--" + ("engine" + "-" + flag[9..]);
    DriverPartOf("engine", flag[9..]);
  }

  // The groups give every supported field of the config the values that it shows, in order,
  // and every engine option its non-empty values, and hold nothing else.
  ghost predicate SaysExactly(groups: seq<Group>, sDriver: string, config: map<string, Value>,
      options: seq<(string, seq<string>)>) {
    && (forall f :: f in config && f != "Resource" ==> Given(groups, DriverFlag(sDriver, f)) == Shown(config[f]))
    && (forall k :: 0 <= k < |options| ==> Given(groups, options[k].0) == Somes(NonEmpty(options[k].1)))
    && (forall g :: g in groups ==> ForOption(g, options) || ForField(g, sDriver, config))
  }

  // The command, read back by docker-machine's flag arities, says exactly what the host asks
  // for; the hostname is left over.
  lemma CommandRoundTrip(host: Host, driver: string, cmd: seq<string>, takesValue: string -> bool)
    returns (opt: seq<string>, env: seq<string>, labels: seq<string>)
    requires CreateCmd(host, driver, cmd) && !HasPrefix(host.hostname, "--")
    requires '-' !in ToLower(driver) && ToLower(driver) != "engine" && NamedFields(host.driverConfig.value)
    requires Arity(ToLower(driver), host.driverConfig.value, takesValue)
    requires forall flag :: HasPrefix(flag, "--engine-") ==> takesValue(flag)
    ensures EngineOrders(host, opt, env, labels)
    ensures |cmd| >= 3 && cmd[..3] == ["create", "-d", ToLower(driver)]
    ensures Decode(cmd[3..], takesValue).rest == [host.hostname]
    ensures SaysExactly(Decode(cmd[3..], takesValue).groups, ToLower(driver), host.driverConfig.value,
                        EngineOptions(host, opt, env, labels))
  {
    var sDriver, config := ToLower(driver), host.driverConfig.value;
    opt, env, labels :| EngineOrders(host, opt, env, labels) &&
      cmd == ["create", "-d", sDriver]
             + Tokens(OptionGroups(EngineOptions(host, opt, env, labels)))
             + Tokens(DriverGroups(sDriver, config, SortedFields(config)))
             + [host.hostname];
    EngineOptionNames(host, opt, env, labels);
    CommandDecoded(cmd, sDriver, config, EngineOptions(host, opt, env, labels), host.hostname, takesValue);
  }

  lemma {:induction false} CommandDecoded(cmd: seq<string>, sDriver: string, config: map<string, Value>,
      options: seq<(string, seq<string>)>,
                       hostname: string, takesValue: string -> bool)
    requires '-' !in sDriver && sDriver != "engine" && NamedFields(config) && Arity(sDriver, config, takesValue)
    requires forall flag :: HasPrefix(flag, "--engine-") ==> takesValue(flag)
    requires forall i, j :: 0 <= i < j < |options| ==> options[i].0 != options[j].0
    requires forall i :: 0 <= i < |options| ==> HasPrefix(options[i].0, "--engine-") && HasPrefix(options[i].0, "--")
    requires !HasPrefix(hostname, "--")
    requires forall i :: 0 <= i < |SortedFields(config)| ==> SortedFields(config)[i] in config
    requires cmd == ["create", "-d", sDriver] + Tokens(OptionGroups(options))
                    + Tokens(DriverGroups(sDriver, config, SortedFields(config))) + [hostname]
    ensures |cmd| >= 3 && cmd[..3] == ["create", "-d", sDriver]
    ensures Decode(cmd[3..], takesValue).rest == [hostname]
    ensures SaysExactly(Decode(cmd[3..], takesValue).groups, sDriver, config, options)
  {
    GroupsSayExactly(sDriver, config, options, takesValue);
    DecodeCommand(cmd, ["create", "-d", sDriver], OptionGroups(options),
                  DriverGroups(sDriver, config, SortedFields(config)), hostname, takesValue);
  }

  lemma {:induction false} DecodeCommand(cmd: seq<string>, start: seq<string>, a: seq<Group>, b: seq<Group>,
      hostname: string,
      takesValue: string -> bool)
    requires |start| == 3 && cmd == start + Tokens(a) + Tokens(b) + [hostname]
    requires Fits(a + b, takesValue) && !HasPrefix(hostname, "--")
    ensures |cmd| >= 3 && cmd[..3] == start
    ensures Decode(cmd[3..], takesValue) == Decoded(a + b, [hostname])
  {
    TokensAppend(a, b);
    assert cmd[3..] == Tokens(a + b) + [hostname];
    DecodeTokens(a + b, [hostname], takesValue);
  }

  lemma FieldsRead(sDriver: string, config: map<string, Value>, options: seq<(string, seq<string>)>, groups: seq<Group>)
    requires '-' !in sDriver && sDriver != "engine" && NamedFields(config)
    requires forall i :: 0 <= i < |options| ==> HasPrefix(options[i].0, "--engine-") && HasPrefix(options[i].0, "--")
    requires forall i :: 0 <= i < |SortedFields(config)| ==> SortedFields(config)[i] in config
    requires groups == OptionGroups(options) + DriverGroups(sDriver, config, SortedFields(config))
    ensures forall f :: f in config && f != "Resource" ==> Given(groups, DriverFlag(sDriver, f)) == Shown(config[f])
  {
    forall f | f in config && f != "Resource" ensures Given(groups, DriverFlag(sDriver, f)) == Shown(config[f]) {
      FieldRead(sDriver, config, f, options);
    }
  }

  lemma OptionsRead(sDriver: string, config: map<string, Value>, options: seq<(string, seq<string>)>,
      groups: seq<Group>, takesValue: string -> bool)
    requires '-' !in sDriver && sDriver != "engine" && NamedFields(config) && Arity(sDriver, config, takesValue)
    requires forall i, j :: 0 <= i < j < |options| ==> options[i].0 != options[j].0
    requires forall i :: 0 <= i < |options| ==> HasPrefix(options[i].0, "--engine-") && HasPrefix(options[i].0, "--")
    requires forall i :: 0 <= i < |SortedFields(config)| ==> SortedFields(config)[i] in config
    requires groups == OptionGroups(options) + DriverGroups(sDriver, config, SortedFields(config))
    ensures forall k :: 0 <= k < |options| ==> Given(groups, options[k].0) == Somes(NonEmpty(options[k].1))
  {
    forall k | 0 <= k < |options| ensures Given(groups, options[k].0) == Somes(NonEmpty(options[k].1)) {
      OptionRead(sDriver, config, options, k, takesValue);
    }
  }

  // The groups fit the arities, and none is for anything else.
  lemma {:induction false} OnlyThese(sDriver: string, config: map<string, Value>, options: seq<(string, seq<string>)>,
      a: seq<Group>, b: seq<Group>, takesValue: string -> bool)
    requires Arity(sDriver, config, takesValue)
    requires forall i :: 0 <= i < |options| ==> HasPrefix(options[i].0, "--") && takesValue(options[i].0)
    requires forall i :: 0 <= i < |SortedFields(config)| ==> SortedFields(config)[i] in config
    requires a == OptionGroups(options) && b == DriverGroups(sDriver, config, SortedFields(config))
    ensures Fits(a + b, takesValue)
    ensures forall g :: g in a + b ==> ForOption(g, options) || ForField(g, sDriver, config)
  {
    assert options[..|options|] == options;
    OptionsFit(options, |options|, takesValue);
    DriverFits(sDriver, config, SortedFields(config), takesValue);
    FitsBoth(a, b, takesValue);
  }

  lemma FitsBoth(a: seq<Group>, b: seq<Group>, takesValue: string -> bool)
    requires Fits(a, takesValue) && Fits(b, takesValue)
    ensures Fits(a + b, takesValue)
  {
  }

  lemma {:induction false} GroupsSayExactly(sDriver: string, config: map<string, Value>,
      options: seq<(string, seq<string>)>,
      takesValue: string -> bool)
    requires '-' !in sDriver && sDriver != "engine" && NamedFields(config) && Arity(sDriver, config, takesValue)
    requires forall flag :: HasPrefix(flag, "--engine-") ==> takesValue(flag)
    requires forall i, j :: 0 <= i < j < |options| ==> options[i].0 != options[j].0
    requires forall i :: 0 <= i < |options| ==> HasPrefix(options[i].0, "--engine-") && HasPrefix(options[i].0, "--")
    ensures forall i :: 0 <= i < |SortedFields(config)| ==> SortedFields(config)[i] in config
    ensures var groups := OptionGroups(options) + DriverGroups(sDriver, config, SortedFields(config));
            Fits(groups, takesValue) && SaysExactly(groups, sDriver, config, options)
  {
    var fields := SortedFields(config);
    OrderMembers(fields, config);
    var a, b := OptionGroups(options), DriverGroups(sDriver, config, fields);
    OnlyThese(sDriver, config, options, a, b, takesValue);
    FieldsRead(sDriver, config, options, a + b);
    OptionsRead(sDriver, config, options, a + b, takesValue);
  }

  lemma {:induction false} EngineLacks(sDriver: string, f: string, options: seq<(string, seq<string>)>)
    requires '-' !in sDriver && sDriver != "engine"
    requires forall i :: 0 <= i < |options| ==> HasPrefix(options[i].0, "--engine-")
    ensures Given(OptionGroups(options), DriverFlag(sDriver, f)) == []
  {
    var flag := DriverFlag(sDriver, f);
    forall i | 0 <= i < |options| ensures options[i].0 != flag {
      EngineApart(sDriver, f, options[i].0);
    }
    OptionsLack(options, |options|, flag);
    assert options[..|options|] == options;
  }

  lemma {:induction false} FieldRead(sDriver: string, config: map<string, Value>, f: string,
      options: seq<(string, seq<string>)>)
    requires '-' !in sDriver && sDriver != "engine" && NamedFields(config) && f in config && f != "Resource"
    requires forall i :: 0 <= i < |options| ==> HasPrefix(options[i].0, "--engine-")
    ensures forall i :: 0 <= i < |SortedFields(config)| ==> SortedFields(config)[i] in config
    ensures Given(OptionGroups(options) + DriverGroups(sDriver, config, SortedFields(config)), DriverFlag(sDriver, f))
            == Shown(config[f])
  {
    var fields := SortedFields(config);
    OrderMembers(fields, config);
    var flag := DriverFlag(sDriver, f);
    var engine := OptionGroups(options);
    EngineLacks(sDriver, f, options);
    DriverGiven(sDriver, config, fields, |fields|, f);
    assert fields[..|fields|] == fields;
    GivenAppend(engine, DriverGroups(sDriver, config, fields), flag);
  }

  lemma {:induction false} OptionRead(sDriver: string, config: map<string, Value>,
      options: seq<(string, seq<string>)>, k: nat,
      takesValue: string -> bool)
    requires '-' !in sDriver && sDriver != "engine" && k < |options| && Arity(sDriver, config, takesValue)
    requires forall i :: 0 <= i < |options| ==> HasPrefix(options[i].0, "--engine-")
    requires forall i, j :: 0 <= i < j < |options| ==> options[i].0 != options[j].0
    ensures forall i :: 0 <= i < |SortedFields(config)| ==> SortedFields(config)[i] in config
    ensures Given(OptionGroups(options) + DriverGroups(sDriver, config, SortedFields(config)), options[k].0)
            == Somes(NonEmpty(options[k].1))
  {
    var fields := SortedFields(config);
    OrderMembers(fields, config);
    var groups := DriverGroups(sDriver, config, fields);
    assert options[..|options|] == options;
    OptionsGiven(options, |options|, k);
    DriverFits(sDriver, config, fields, takesValue);
    forall i | 0 <= i < |groups| ensures groups[i].flag != options[k].0 {
      assert groups[i] in groups;
      var f :| f in config && f != "Resource" && groups[i].flag == DriverFlag(sDriver, f);
      EngineApart(sDriver, f, options[k].0);
    }
    GivenNone(groups, options[k].0);
    GivenAppend(OptionGroups(options), groups, options[k].0);
  }

  // A map's values keep none of the map's order: two orders of it give permutations of each
  // other, and none of its values is empty.
  lemma PairsPermuted(m: map<string, string>, a: seq<string>, b: seq<string>)
    requires Order(a, m) && Order(b, m)
    ensures multiset(Pairs(m, a)) == multiset(Pairs(m, b))
    ensures NonEmpty(Pairs(m, a)) == Pairs(m, a)
  {
    PairsMultiset(m, a, b);
    NonEmptyAll(Pairs(m, a));
  }

  lemma {:induction false} NonEmptyAll(values: seq<string>)
    requires forall i :: 0 <= i < |values| ==> values[i] != ""
    ensures NonEmpty(values) == values
  {
    if values != [] {
      NonEmptyAll(values[1..]);
      assert values == [values[0]] + values[1..];
    }
  }

  lemma {:induction false} PairsMultiset(m: map<string, string>, a: seq<string>, b: seq<string>)
    requires multiset(a) == multiset(b)
    ensures multiset(Pairs(m, a)) == multiset(Pairs(m, b))
    decreases |a|
  {
    assert |b| == |multiset(b)| == |multiset(a)| == |a|;
    if a != [] {
      assert a[0] in multiset(b);
      var i :| 0 <= i < |b| && b[i] == a[0];
      var ra, rb := a[..0] + a[1..], b[..i] + b[i + 1..];
      WithoutOne(a, 0);
      WithoutOne(b, i);
      PairsMultiset(m, ra, rb);
      PairsSplit(m, a, 0);
      PairsSplit(m, b, i);
    }
  }

  lemma WithoutOne(s: seq<string>, i: nat)
    requires i < |s|
    ensures multiset(s[..i] + s[i + 1..]) == multiset(s) - multiset{s[i]}
  {
    assert s == s[..i] + [s[i]] + s[i + 1..];
  }

  lemma PairsSplit(m: map<string, string>, b: seq<string>, i: nat)
    requires i < |b|
    ensures multiset(Pairs(m, b)) == multiset{Pair(m, b[i])} + multiset(Pairs(m, b[..i] + b[i + 1..]))
  {
    assert Pairs(m, b) == Pairs(m, b[..i]) + [Pair(m, b[i])] + Pairs(m, b[i + 1..]);
    assert Pairs(m, b[..i] + b[i + 1..]) == Pairs(m, b[..i]) + Pairs(m, b[i + 1..]);
  }
}
