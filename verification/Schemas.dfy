// dynamic/machine.go and dynamic/driver_info.go: the schemas of host that the service uploads.
module Schemas {
  import opened GoStrings
  import opened Selections

  datatype Field = Field(ftype: string, create: bool, update: bool, nullable: bool)

  datatype Schema = Schema(collectionMethods: seq<string>, resourceMethods: seq<string>, fields: map<string, Field>)

  // A dynamic schema in the API.
  datatype Record = Record(name: string, parent: string, roles: seq<string>, schema: Schema, removed: bool)

  datatype MachineDriver = MachineDriver(name: string, state: string)

  // ---------- the schemas of one upload ----------

  function ConfigName(driver: string): string {
    driver + "Config"
  }

  function ConfigNames(drivers: seq<string>): set<string> {
    set d | d in drivers :: ConfigName(d)
  }

  lemma ConfigNameInjective(d: string, e: string)
    ensures ConfigName(d) == ConfigName(e) ==> d == e
  {
    assert ConfigName(d)[..|ConfigName(d)| - 6] == d;
    assert ConfigName(e)[..|ConfigName(e)| - 6] == e;
  }

  lemma ConfigNameEnds(d: string)
    ensures ConfigName(d) != "name" && ConfigName(d) != "labels" && ConfigName(d) != "host"
  {
    var n := ConfigName(d);
    assert n[|n| - 1] == 'g';
  }

  function FieldOf(fieldType: string, auth: string): Field {
    Field(fieldType, 'c' in auth, 'u' in auth, true)
  }

  const NAME_FIELD := Field("string", true, true, true)

  function BaseFields(drivers: seq<string>, auth: string): map<string, Field> {
    map f | f in ConfigNames(drivers) + {"name"} :: if f == "name" then NAME_FIELD else FieldOf(f, auth)
  }

  function BaseSchema(drivers: seq<string>, auth: string): Schema {
    Schema(if 'c' in auth then ["GET", "POST"] else ["GET"],
           ["GET"] + (if 'c' in auth then ["DELETE"] else []) + (if 'u' in auth then ["PUT"] else []),
           BaseFields(drivers, auth))
  }

  method MakeBaseSchema(drivers: seq<string>, defaultAuth: string) returns (schema: Schema)
    ensures schema == BaseSchema(drivers, defaultAuth)
  {
    var collectionMethods, resourceMethods := ["GET"], ["GET"];
    var resourceFields := map["name" := Field("string", true, true, true)];
    if 'c' in defaultAuth {
      collectionMethods := collectionMethods + ["POST"];
      resourceMethods := resourceMethods + ["DELETE"];
    }
    if 'u' in defaultAuth {
      resourceMethods := resourceMethods + ["PUT"];
    }
    for i := 0 to |drivers|
      invariant resourceFields == BaseFields(drivers[..i], defaultAuth)
    {
      ConfigNameEnds(drivers[i]);
      NamesStep(drivers, i);
      resourceFields := resourceFields[ConfigName(drivers[i]) := FieldOf(ConfigName(drivers[i]), defaultAuth)];
    }
    assert drivers[..|drivers|] == drivers;
    return Schema(collectionMethods, resourceMethods, resourceFields);
  }

  lemma NamesStep(drivers: seq<string>, i: nat)
    requires i < |drivers|
    ensures ConfigNames(drivers[..i + 1]) == ConfigNames(drivers[..i]) + {ConfigName(drivers[i])}
  {
    assert drivers[..i + 1] == drivers[..i] + [drivers[i]];
    assert forall d :: d in drivers[..i + 1] <==> d in drivers[..i] || d == drivers[i];
  }

  const SERVICE := ["service"]
  const PROJECT := ["project", "member", "owner"]
  const USER := ["admin", "user", "readAdmin"]
  const READONLY := ["readonly"]

  function ServiceSchema(drivers: seq<string>): Schema {
    var schema := BaseSchema(drivers, "cu");
    var extracted := schema.fields["extractedConfig" := FieldOf("string", "u")];
    schema.(fields := extracted["labels" := FieldOf("map[string]", "cu")])
  }

  function HostRecord(schema: Schema, roles: seq<string>): Record {
    Record("host", "host", roles, schema, false)
  }

  // The four schemas of an upload, in order.
  function HostRecords(drivers: seq<string>): (r: seq<Record>)
    ensures |r| == 4
  {
    [HostRecord(ServiceSchema(drivers), SERVICE),
     HostRecord(BaseSchema(drivers, "cu"), PROJECT),
     HostRecord(BaseSchema(drivers, "cu"), USER),
     HostRecord(BaseSchema([], ""), READONLY)]
  }

  // No role sees two of them.
  ghost predicate RolesDisjoint(records: seq<Record>) {
    forall i, j, role :: 0 <= i < j < |records| && role in records[i].roles ==> role !in records[j].roles
  }

  lemma HostRolesDisjoint(drivers: seq<string>)
    ensures RolesDisjoint(HostRecords(drivers))
  {
    var r := HostRecords(drivers);
    forall i, j, role | 0 <= i < j < |r| && role in r[i].roles ensures role !in r[j].roles {
      if i == 0 {
        assert role == "service";
      } else if i == 1 {
        assert role == "project" || role == "member" || role == "owner";
      } else {
        assert role == "admin" || role == "user" || role == "readAdmin";
      }
    }
  }

  // ---------- the fields they offer ----------

  lemma {:induction false} CountConfigNames(names: set<string>)
    ensures |set d | d in names :: ConfigName(d)| == |names|
  {
    if names == {} {
      assert (set d | d in names :: ConfigName(d)) == {};
    } else {
      var x :| x in names;
      CountConfigNames(names - {x});
      var rest := set d | d in names - {x} :: ConfigName(d);
      assert ConfigName(x) !in rest by {
        forall d | d in names - {x} ensures ConfigName(d) != ConfigName(x) { ConfigNameInjective(d, x); }
      }
      assert (set d | d in names :: ConfigName(d)) == rest + {ConfigName(x)};
    }
  }

  function Distinct(drivers: seq<string>): set<string> {
    set d | d in drivers
  }

  // The project and user schemas offer the name and one configuration field for each distinct
  // driver name, and nothing else; the read-only schema offers the name.
  lemma BaseOffers(drivers: seq<string>, auth: string)
    ensures BaseFields(drivers, auth).Keys == ConfigNames(drivers) + {"name"}
    ensures |BaseFields(drivers, auth)| == |Distinct(drivers)| + 1
    ensures forall d :: d in drivers ==>
              ConfigName(d) in BaseFields(drivers, auth) &&
                  BaseFields(drivers, auth)[ConfigName(d)] == FieldOf(ConfigName(d), auth)
  {
    assert ConfigNames(drivers) == (set d | d in Distinct(drivers) :: ConfigName(d));
    CountConfigNames(Distinct(drivers));
    forall d | d in drivers ensures ConfigName(d) != "name" { ConfigNameEnds(d); }
    assert "name" !in ConfigNames(drivers);
    var fields := BaseFields(drivers, auth);
    assert fields.Keys == ConfigNames(drivers) + {"name"};
    assert |fields| == |fields.Keys|;
  }

  // The service schema offers two more, and its field for a driver has the driver's type exactly
  // if the driver is not called extracted.
  lemma ServiceFields(drivers: seq<string>)
    ensures ServiceSchema(drivers).fields ==
              BaseFields(drivers, "cu")[ConfigName("extracted") := FieldOf("string",
                  "u")]["labels" := FieldOf("map[string]", "cu")]
    ensures ConfigName("extracted") != "labels" && ConfigName("extracted") != "name"
  {
    assert ConfigName("extracted") == "extractedConfig";
    ConfigNameEnds("extracted");
  }

  lemma ServiceOffers(drivers: seq<string>)
    ensures ServiceSchema(drivers).fields.Keys ==
              ConfigNames(drivers) + {"name"} + {ConfigName("extracted")} + {"labels"}
    ensures |ServiceSchema(drivers).fields| == |Distinct(drivers)| + (if "extracted" in drivers then 2 else 3)
  {
    LabelsIsNew(drivers);
    ServiceFields(drivers);
    OffersTwoMore(drivers, "cu", "extracted", FieldOf("string", "u"), "labels", FieldOf("map[string]", "cu"));
  }

  lemma OffersTwoMore(drivers: seq<string>, auth: string, driver: string, fd: Field, b: string, fb: Field)
    requires b !in BaseFields(drivers, auth) && ConfigName(driver) != b && ConfigName(driver) != "name"
    ensures var fields := BaseFields(drivers, auth)[ConfigName(driver) := fd][b := fb];
            && fields.Keys == ConfigNames(drivers) + {"name"} + {ConfigName(driver)} + {b}
            && |fields| == |Distinct(drivers)| + (if driver in drivers then 2 else 3)
  {
    BaseOffers(drivers, auth);
    ConfigNameIn(drivers, driver);
    TwoMore(BaseFields(drivers, auth), ConfigName(driver), fd, b, fb);
  }

  lemma TwoMore(base: map<string, Field>, a: string, fa: Field, b: string, fb: Field)
    requires a != b && b !in base
    ensures base[a := fa][b := fb].Keys == base.Keys + {a} + {b}
    ensures |base[a := fa][b := fb]| == |base| + (if a in base then 1 else 2)
  {
    OneMore(base, a, fa);
    OneMore(base[a := fa], b, fb);
  }

  lemma ServiceTypes(drivers: seq<string>, d: string)
    requires d in drivers
    ensures var fields := ServiceSchema(drivers).fields;
            && ConfigName(d) in fields
            && (fields[ConfigName(d)] == FieldOf(ConfigName(d), "cu") <==> d != "extracted")
  {
    BaseOffers(drivers, "cu");
    ConfigNameEnds(d);
    ConfigNameInjective(d, "extracted");
    assert ConfigName("extracted") == "extractedConfig";
    assert !FieldOf("string", "u").create && FieldOf(ConfigName(d), "cu").create;
  }

  lemma LabelsIsNew(drivers: seq<string>)
    ensures "labels" !in BaseFields(drivers, "cu")
  {
    forall d | d in drivers ensures ConfigName(d) != "labels" { ConfigNameEnds(d); }
  }

  lemma ConfigNameIn(drivers: seq<string>, driver: string)
    ensures ConfigName(driver) in ConfigNames(drivers) <==> driver in drivers
  {
    forall d | d in drivers ensures ConfigName(d) == ConfigName(driver) ==>
        d == driver { ConfigNameInjective(d, driver); }
  }

  lemma OneMore(base: map<string, Field>, a: string, fa: Field)
    ensures var r := base[a := fa];
            r.Keys == base.Keys + {a} && |r| == |base| + (if a in base then 0 else 1)
  {
    var r := base[a := fa];
    assert r.Keys == base.Keys + {a};
    assert |base| == |base.Keys| && |r| == |r.Keys|;
  }

  // ---------- the collection of schemas ----------

  predicate Live(r: Record, name: string) {
    r.name == name && !r.removed
  }

  // The live schemas of that name, oldest first.
  function LiveOnes(schemas: seq<Record>, name: string): seq<Record> {
    if schemas == [] then []
    else
      var n := |schemas| - 1;
      LiveOnes(schemas[..n], name) + (if Live(schemas[n], name) then [schemas[n]] else [])
  }

  lemma {:induction false} LiveOnesSnoc(schemas: seq<Record>, r: Record, name: string)
    ensures LiveOnes(schemas + [r], name) == LiveOnes(schemas, name) + (if Live(r, name) then [r] else [])
  {
    assert (schemas + [r])[..|schemas|] == schemas;
  }

  lemma {:induction false} NoLiveOnes(schemas: seq<Record>, name: string)
    requires forall i :: 0 <= i < |schemas| ==> !Live(schemas[i], name)
    ensures LiveOnes(schemas, name) == []
  {
    if schemas != [] {
      var n := |schemas| - 1;
      assert forall i :: 0 <= i < n ==> schemas[..n][i] == schemas[i];
      NoLiveOnes(schemas[..n], name);
    }
  }

  // Two collections with the same live schemas of that name at the same places.
  lemma {:induction false} SameLiveOnes(a: seq<Record>, b: seq<Record>, name: string)
    requires |a| == |b|
    requires forall i :: 0 <= i < |a| ==> a[i] == b[i] || (!Live(a[i], name) && !Live(b[i], name))
    ensures LiveOnes(a, name) == LiveOnes(b, name)
  {
    if a != [] {
      var n := |a| - 1;
      SameLiveOnes(a[..n], b[..n], name);
    }
  }

  function RemoveAt(schemas: seq<Record>, i: nat): seq<Record>
    requires i < |schemas|
  {
    schemas[i := schemas[i].(removed := true)]
  }

  class Api {
    var drivers: seq<MachineDriver>
    var schemas: seq<Record>

    constructor (drivers: seq<MachineDriver>, schemas: seq<Record>)
      ensures this.drivers == drivers && this.schemas == schemas
    {
      this.drivers, this.schemas := drivers, schemas;
    }

    // The live schemas of that name are removed, and nothing else happens.
    ghost predicate Cleared(was: seq<Record>, name: string)
      reads this
    {
      && |schemas| == |was|
      && forall i :: 0 <= i < |was| ==> schemas[i] == if Live(was[i], name) then was[i].(removed := true) else was[i]
    }

    method List(name: string) returns (ids: seq<nat>)
      ensures forall i :: i in ids <==> 0 <= i < |schemas| && Live(schemas[i], name)
    {
      ids := [];
      for i := 0 to |schemas|
        invariant forall k :: k in ids <==> 0 <= k < i && Live(schemas[k], name)
      {
        if Live(schemas[i], name) {
          ids := ids + [i];
        }
      }
    }

    method RemoveSchemas(schemaName: string)
      modifies this`schemas
      ensures Cleared(old(schemas), schemaName)
    {
      var ids := List(schemaName);
      ghost var was := schemas;
      for k := 0 to |ids|
        invariant |schemas| == |was|
        invariant forall i :: 0 <= i < |was| ==>
                    schemas[i] == if Live(was[i], schemaName) && i in ids[..k] then was[i].(removed := true) else was[i]
      {
        assert ids[k] in ids && ids[..k + 1] == ids[..k] + [ids[k]];
        if !schemas[ids[k]].removed {
          schemas := RemoveAt(schemas, ids[k]);
        }
      }
      assert ids[..|ids|] == ids;
    }

    method UploadDynamicSchema(r: Record, delete: bool)
      requires !r.removed
      modifies this`schemas
      ensures Uploaded(old(schemas), schemas, r, delete)
    {
      if delete {
        RemoveSchemas(r.name);
      }
      schemas := schemas + [r];
    }

    // The drivers that get a field: the given ones and those that are active or being activated.
    function Offered(given: seq<string>): seq<string>
      reads this
    {
      given + Active(drivers)
    }

    method ListActive(given: seq<string>) returns (r: seq<string>)
      ensures r == Offered(given)
    {
      r := given;
      for i := 0 to |drivers|
        invariant r == given + Active(drivers[..i])
      {
        assert drivers[..i + 1][..i] == drivers[..i];
        if drivers[i].name != "" && (drivers[i].state == "active" || drivers[i].state == "activating") {
          r := r + [drivers[i].name];
        }
      }
      assert drivers[..|drivers|] == drivers;
    }

    method UploadMachineSchema(schema: Schema, roles: seq<string>, remove: bool)
      modifies this`schemas
      ensures Uploaded(old(schemas), schemas, HostRecord(schema, roles), remove)
    {
      UploadDynamicSchema(HostRecord(schema, roles), remove);
    }

    method UploadMachineServiceJSON(drivers: seq<string>, remove: bool)
      modifies this`schemas
      ensures Uploaded(old(schemas), schemas, HostRecord(ServiceSchema(drivers), SERVICE), remove)
    {
      var schema := MakeBaseSchema(drivers, "cu");
      schema := schema.(fields := schema.fields["extractedConfig" := FieldOf("string", "u")]);
      schema := schema.(fields := schema.fields["labels" := FieldOf("map[string]", "cu")]);
      UploadMachineSchema(schema, SERVICE, remove);
    }

    method UploadMachineProjectJSON(drivers: seq<string>, remove: bool)
      modifies this`schemas
      ensures Uploaded(old(schemas), schemas, HostRecord(BaseSchema(drivers, "cu"), PROJECT), remove)
    {
      var schema := MakeBaseSchema(drivers, "cu");
      UploadMachineSchema(schema, PROJECT, remove);
    }

    method UploadMachineUserJSON(drivers: seq<string>, remove: bool)
      modifies this`schemas
      ensures Uploaded(old(schemas), schemas, HostRecord(BaseSchema(drivers, "cu"), USER), remove)
    {
      var schema := MakeBaseSchema(drivers, "cu");
      UploadMachineSchema(schema, USER, remove);
    }

    method UploadMachineReadOnlyJSON(remove: bool)
      modifies this`schemas
      ensures Uploaded(old(schemas), schemas, HostRecord(BaseSchema([], ""), READONLY), remove)
    {
      var schema := MakeBaseSchema([], "");
      UploadMachineSchema(schema, READONLY, remove);
    }

    // One upload with nothing else going on.
    method UploadMachineSchemas(given: seq<string>)
      modifies this`schemas
      ensures LiveOnes(schemas, "host") == HostRecords(Offered(given))
      ensures |schemas| == |old(schemas)| + 4
      ensures forall i :: 0 <= i < |old(schemas)| ==>
                schemas[i] == if Live(old(schemas)[i], "host") then old(schemas)[i].(removed := true)
                    else old(schemas)[i]
    {
      var names := ListActive(given);
      ghost var s0 := schemas;
      UploadMachineServiceJSON(names, true);
      ghost var s1 := schemas;
      UploadMachineProjectJSON(names, false);
      ghost var s2 := schemas;
      UploadMachineUserJSON(names, false);
      ghost var s3 := schemas;
      UploadMachineReadOnlyJSON(false);
      FourUploaded([s0, s1, s2, s3, schemas], HostRecords(names), "host");
    }
  }

  // r was added, and if so asked, the live schemas of its name were removed before.
  ghost predicate Uploaded(was: seq<Record>, now: seq<Record>, r: Record, delete: bool) {
    && |now| == |was| + 1 && now[|was|] == r
    && forall i :: 0 <= i < |was| ==> now[i] == if delete && Live(was[i], r.name) then was[i].(removed := true)
        else was[i]
  }

  lemma {:induction false} FourUploaded(s: seq<seq<Record>>, r: seq<Record>, name: string)
    requires |s| == 5 && |r| == 4 && forall i :: 0 <= i < 4 ==> Live(r[i], name)
    requires Uploaded(s[0], s[1], r[0], true)
    requires Uploaded(s[1], s[2], r[1], false) && Uploaded(s[2], s[3], r[2], false) && Uploaded(s[3], s[4], r[3], false)
    ensures LiveOnes(s[4], name) == r
    ensures |s[4]| == |s[0]| + 4
    ensures forall i :: 0 <= i < |s[0]| ==>
        s[4][i] == if Live(s[0][i], name) then s[0][i].(removed := true) else s[0][i]
  {
    FirstUploaded(s[1], r[0], name);
    forall k | 1 <= k < 4 ensures s[k + 1] == s[k] + [r[k]] {
      assert Uploaded(s[k], s[k + 1], r[k], false);
    }
    LiveOnesSnoc(s[1], r[1], name);
    LiveOnesSnoc(s[2], r[2], name);
    LiveOnesSnoc(s[3], r[3], name);
    assert r == [r[0]] + [r[1]] + [r[2]] + [r[3]];
  }

  function Active(drivers: seq<MachineDriver>): seq<string> {
    if drivers == [] then []
    else
      var n := |drivers| - 1;
      var d := drivers[n];
      Active(drivers[..n]) + (if d.name != "" && (d.state == "active" || d.state == "activating") then [d.name] else [])
  }

  predicate IsActive(d: MachineDriver) {
    d.name != "" && (d.state == "active" || d.state == "activating")
  }

  // The names of the drivers that have one and are active or being activated, in order.
  ghost predicate NamesOfActive(drivers: seq<MachineDriver>, names: seq<string>) {
    exists ds :: Selected(drivers, d => IsActive(d), ds) && NamesOf(ds, names)
  }

  predicate NamesOf(ds: seq<MachineDriver>, names: seq<string>) {
    |names| == |ds| && forall i :: 0 <= i < |ds| ==> names[i] == ds[i].name
  }

  lemma NamesSnoc(ds: seq<MachineDriver>, names: seq<string>, d: MachineDriver)
    requires NamesOf(ds, names)
    ensures NamesOf(ds + [d], names + [d.name]) && NamesOf(ds + [], names + [])
  {
    assert ds + [] == ds && names + [] == names;
  }

  lemma ActiveSnoc(drivers: seq<MachineDriver>, n: nat)
    requires n < |drivers| && NamesOfActive(drivers[..n], Active(drivers[..n]))
    ensures var more := if IsActive(drivers[n]) then [drivers[n].name] else [];
            NamesOfActive(drivers[..n + 1], Active(drivers[..n]) + more)
  {
    var ds :| Selected(drivers[..n], d => IsActive(d), ds) && NamesOf(ds, Active(drivers[..n]));
    SelectedSnoc(drivers, n, d => IsActive(d), ds);
    NamesSnoc(ds, Active(drivers[..n]), drivers[n]);
  }

  lemma {:induction false} ActiveNames(drivers: seq<MachineDriver>)
    ensures NamesOfActive(drivers, Active(drivers))
  {
    if drivers == [] {
      SelectedNone((d: MachineDriver) => IsActive(d));
      assert NamesOf([], Active(drivers));
    } else {
      var n := |drivers| - 1;
      ActiveNames(drivers[..n]);
      ActiveSnoc(drivers, n);
      assert drivers[..n + 1] == drivers;
    }
  }

  // The four schemas, written out: who sees them, and what they allow.
  lemma HostSchemasAllow(drivers: seq<string>, k: nat)
    requires k < 4
    ensures var r := HostRecords(drivers)[k];
            && r.name == "host" && r.parent == "host" && !r.removed
            && r.roles == (if k == 0 then ["service"] else if k == 1 then ["project", "member", "owner"]
                           else if k == 2 then ["admin", "user", "readAdmin"] else ["readonly"])
            && r.schema.collectionMethods == (if k < 3 then ["GET", "POST"] else ["GET"])
            && r.schema.resourceMethods == (if k < 3 then ["GET", "DELETE", "PUT"] else ["GET"])
  {
    var all := "cu";
    assert all[0] == 'c' && all[1] == 'u';
  }

  // And their fields: the name alone for readers; otherwise one for each driver as well, and for
  // the service itself the labels and the configuration, which only it can update.
  lemma HostSchemaFields(drivers: seq<string>, k: nat)
    requires k < 4
    ensures var f := HostRecords(drivers)[k].schema.fields;
            && "name" in f && f["name"] == Field("string", true, true, true)
            && (k == 3 ==> f.Keys == {"name"})
            && (k < 3 ==> forall d :: d in drivers && (k == 0 ==> d != "extracted") ==>
                  d + "Config" in f && f[d + "Config"] == Field(d + "Config", true, true, true))
            && (k in {1, 2} ==> forall x :: x in f ==> x == "name" || exists d :: d in drivers && x == d + "Config")
            && (k == 0 ==> "labels" in f && f["labels"] == Field("map[string]", true, true, true))
            && (k == 0 ==> "extractedConfig" in f && f["extractedConfig"] == Field("string", false, true, true))
  {
    var all := "cu";
    assert all[0] == 'c' && all[1] == 'u';
    var fields := BaseFields(drivers, "cu");
    assert ConfigName("extracted") == "extractedConfig";
    forall d | d in drivers ensures ConfigName(d) in fields && fields[ConfigName(d)] ==
        Field(d + "Config", true, true, true) && ConfigName(d) != "labels" {
      ConfigNameEnds(d);
    }
    forall d | d in drivers && d != "extracted" ensures ConfigName(d) != "extractedConfig" {
      ConfigNameInjective(d, "extracted");
    }
    ConfigNameEnds("extracted");
  }

  lemma {:induction false} FirstUploaded(schemas: seq<Record>, r: Record, name: string)
    requires schemas != [] && schemas[|schemas| - 1] == r && Live(r, name)
    requires forall i :: 0 <= i < |schemas| - 1 ==> !Live(schemas[i], name)
    ensures LiveOnes(schemas, name) == [r]
  {
    var n := |schemas| - 1;
    assert forall i :: 0 <= i < n ==> schemas[..n][i] == schemas[i];
    NoLiveOnes(schemas[..n], name);
  }
}
