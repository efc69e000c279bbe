// What the arguments of "docker-machine create" say, flag by flag.
module CommandFlags {
  import opened GoStrings
  import opened Selections
  import opened Command
  import Naming

  // A flag was given these values, one by one.
  ghost predicate GivesAll(given: seq<Option<string>>, values: seq<string>) {
    |given| == |values| && forall i :: 0 <= i < |given| ==> given[i] == Some(values[i])
  }

  ghost predicate GivesNonEmpty(given: seq<Option<string>>, values: seq<string>) {
    exists kept :: Selected(values, (v: string) => v != "", kept) && GivesAll(given, kept)
  }

  // It was given key=value for every key of m, once each.
  ghost predicate GivesMap(given: seq<Option<string>>, m: map<string, string>) {
    exists pairs :: KeyValues(pairs, m) && GivesAll(given, pairs)
  }

  // It was given what a field of the driver's config holds.
  ghost predicate GivesField(given: seq<Option<string>>, v: Value) {
    match v
    case Bool(b) => given == if b then [None] else []
    case Str(s) => given == if s == "" then [] else [Some(s)]
    case Strs(ss) => GivesAll(given, ss)
    case List(ss) => GivesAll(given, ss)
    case Nil => given == []
    case Unsupported => given == []
  }

  lemma {:induction false} NonEmptyGiven(values: seq<string>)
    ensures GivesNonEmpty(Somes(NonEmpty(values)), values)
  {
    NonEmptySelected(values);
    assert GivesAll(Somes(NonEmpty(values)), NonEmpty(values));
  }

  lemma MapGiven(m: map<string, string>, order: seq<string>)
    requires Order(order, m)
    ensures GivesMap(Somes(NonEmpty(Pairs(m, order))), m)
  {
    PairsPermuted(m, order, order);
    PairsAreKeyValues(m, order);
    assert GivesAll(Somes(Pairs(m, order)), Pairs(m, order));
  }

  lemma FieldShown(v: Value)
    ensures GivesField(Shown(v), v)
  {
  }

  // Every engine option of the host, by name.
  ghost predicate EngineSays(groups: seq<Group>, host: Host) {
    && GivesNonEmpty(Given(groups, "--engine-install-url"), [host.engineInstallUrl])
    && GivesMap(Given(groups, "--engine-opt"), host.engineOpt)
    && GivesMap(Given(groups, "--engine-env"), host.engineEnv)
    && GivesNonEmpty(Given(groups, "--engine-insecure-registry"), host.engineInsecureRegistry)
    && GivesMap(Given(groups, "--engine-label"), host.engineLabel)
    && GivesNonEmpty(Given(groups, "--engine-registry-mirror"), host.engineRegistryMirror)
    && GivesNonEmpty(Given(groups, "--engine-storage-driver"), [host.engineStorageDriver])
  }

  ghost predicate OptionsSaid(groups: seq<Group>, options: seq<(string, seq<string>)>) {
    forall k :: 0 <= k < |options| ==> Given(groups, options[k].0) == Somes(NonEmpty(options[k].1))
  }

  lemma OptionsNamed(groups: seq<Group>, host: Host, opt: seq<string>, env: seq<string>, labels: seq<string>)
    requires OptionsSaid(groups, EngineOptions(host, opt, env, labels)) && EngineOrders(host, opt, env, labels)
    ensures EngineSays(groups, host)
  {
    var options := EngineOptions(host, opt, env, labels);
    OptionSaid(groups, options, 0);
    OptionSaid(groups, options, 1);
    OptionSaid(groups, options, 2);
    OptionSaid(groups, options, 3);
    OptionSaid(groups, options, 4);
    OptionSaid(groups, options, 5);
    OptionSaid(groups, options, 6);
    NonEmptyGiven([host.engineInstallUrl]);
    MapGiven(host.engineOpt, opt);
    MapGiven(host.engineEnv, env);
    NonEmptyGiven(host.engineInsecureRegistry);
    MapGiven(host.engineLabel, labels);
    NonEmptyGiven(host.engineRegistryMirror);
    NonEmptyGiven([host.engineStorageDriver]);
  }

  lemma {:induction false} OptionSaid(groups: seq<Group>, options: seq<(string, seq<string>)>, k: nat)
    requires OptionsSaid(groups, options) && k < |options|
    ensures Given(groups, options[k].0) == Somes(NonEmpty(options[k].1))
  {
  }

  // The segments of a recoverable flag, and the field made of them.
  ghost predicate Spells(segs: seq<string>, field: string) {
    Naming.Segments(segs) && Naming.Recoverable(segs) && field == Naming.Camel(segs)
  }

  lemma Regrouped(a: string, b: string, c: string, d: string)
    ensures a + (b + c + d) == a + b + c + d
  {
  }

  lemma {:induction false} SpeltFlag(sDriver: string, field: string, segs: seq<string>)
    requires '-' !in sDriver && Spells(segs, field)
    ensures DriverFlag(sDriver, field) == "--" + sDriver + "-" + JoinWith(segs, '-')
  {
    Naming.FlagOfCamel(sDriver, segs);
    Regrouped("--", sDriver, "-", JoinWith(segs, '-'));
  }

  ghost predicate FieldsSaid(groups: seq<Group>, sDriver: string, config: map<string, Value>) {
    forall f, segs :: f in config && f != "Resource" && Spells(segs, f) ==>
      GivesField(Given(groups, "--" + sDriver + "-" + JoinWith(segs, '-')), config[f])
  }

  ghost predicate NothingElse(groups: seq<Group>, sDriver: string, config: map<string, Value>) {
    forall g :: g in groups ==> EngineFlag(g.flag) || FieldsFlag(g.flag, sDriver, config)
  }

  predicate EngineFlag(flag: string) {
    flag in {"--engine-install-url", "--engine-opt", "--engine-env", "--engine-insecure-registry", "--engine-label",
        "--engine-registry-mirror", "--engine-storage-driver"}
  }

  ghost predicate FieldsFlag(flag: string, sDriver: string, config: map<string, Value>) {
    exists f, segs :: f in config && f != "Resource" && Spells(segs, f) &&
      flag == "--" + sDriver + "-" + JoinWith(segs, '-')
  }

  lemma {:induction false} FieldsNamed(groups: seq<Group>, sDriver: string, config: map<string, Value>)
    requires '-' !in sDriver
    requires forall f :: f in config && f != "Resource" ==> Given(groups, DriverFlag(sDriver, f)) == Shown(config[f])
    ensures FieldsSaid(groups, sDriver, config)
  {
    forall f, segs | f in config && f != "Resource" && Spells(segs, f)
      ensures GivesField(Given(groups, "--" + sDriver + "-" + JoinWith(segs, '-')), config[f])
    {
      SpeltFlag(sDriver, f, segs);
      FieldShown(config[f]);
    }
  }

  lemma OptionFlag(g: Group, host: Host, opt: seq<string>, env: seq<string>, labels: seq<string>)
    requires ForOption(g, EngineOptions(host, opt, env, labels))
    ensures EngineFlag(g.flag)
  {
  }

  lemma FieldFlagOf(g: Group, sDriver: string, config: map<string, Value>)
    requires '-' !in sDriver && NamedFields(config) && ForField(g, sDriver, config)
    ensures FieldsFlag(g.flag, sDriver, config)
  {
    var f :| f in config && f != "Resource" && g.flag == DriverFlag(sDriver, f);
    var segs :| Naming.Segments(segs) && Naming.Recoverable(segs) && f == Naming.Camel(segs);
    assert Spells(segs, f);
    SpeltFlag(sDriver, f, segs);
  }

  // Read back, the command gives every engine option of the host, under its own flag, its
  // non-empty values in order, or key=value for each key of its map; it gives the flag of every
  // field of the driver's config what the field holds, and no other flag at all.
  lemma CommandSays(host: Host, driver: string, cmd: seq<string>, takesValue: string -> bool)
    requires CreateCmd(host, driver, cmd) && !HasPrefix(host.hostname, "--")
    requires '-' !in ToLower(driver) && ToLower(driver) != "engine" && NamedFields(host.driverConfig.value)
    requires Arity(ToLower(driver), host.driverConfig.value, takesValue)
    requires forall flag :: HasPrefix(flag, "--engine-") ==> takesValue(flag)
    ensures |cmd| >= 3 && cmd[..3] == ["create", "-d", ToLower(driver)]
    ensures Decode(cmd[3..], takesValue).rest == [host.hostname]
    ensures var groups := Decode(cmd[3..], takesValue).groups;
            && EngineSays(groups, host)
            && FieldsSaid(groups, ToLower(driver), host.driverConfig.value)
            && NothingElse(groups, ToLower(driver), host.driverConfig.value)
  {
    var sDriver, config := ToLower(driver), host.driverConfig.value;
    var opt, env, labels := CommandRoundTrip(host, driver, cmd, takesValue);
    var groups := Decode(cmd[3..], takesValue).groups;
    Named(groups, host, sDriver, config, opt, env, labels);
  }

  lemma Named(groups: seq<Group>, host: Host, sDriver: string, config: map<string, Value>, opt: seq<string>,
      env: seq<string>, labels: seq<string>)
    requires '-' !in sDriver && NamedFields(config) && EngineOrders(host, opt, env, labels)
    requires SaysExactly(groups, sDriver, config, EngineOptions(host, opt, env, labels))
    ensures EngineSays(groups, host) && FieldsSaid(groups, sDriver, config) && NothingElse(groups, sDriver, config)
  {
    OptionsNamed(groups, host, opt, env, labels);
    FieldsNamed(groups, sDriver, config);
    forall g | g in groups ensures EngineFlag(g.flag) || FieldsFlag(g.flag, sDriver, config) {
      if ForOption(g, EngineOptions(host, opt, env, labels)) {
        OptionFlag(g, host, opt, env, labels);
      } else {
        FieldFlagOf(g, sDriver, config);
      }
    }
  }
}
