/** The addon configuration-schema compiler: each addon's field list becomes
    a validator, a rule per field name, and enumerations become named types
    in the validator library's global type registry.

    How the validator library applies a compiled schema is not visible in
    the source; this model fixes it as follows. Fields are checked in schema
    order, each at most once; a field that is absent fails its type check;
    numbers are checked for kind, then the inclusive minimum, then the
    inclusive maximum; an enumeration value must be one of the registered
    strings. Every failing field contributes one message, and all of them are
    reported together. */
module ConfigSchema {
  import opened Wrappers
  import opened Json
  import Text

  /** One element of an enumeration's `values`. */
  datatype EnumValue = EnumValue(value: string, labelText: string)

  /** One configurable setting of an addon. */
  datatype FieldSpec = FieldSpec(
    kind: string,
    field: string,
    default: Json,
    minValue: Option<int>,
    maxValue: Option<int>,
    values: seq<EnumValue>)

  datatype AddonDef = AddonDef(addonId: string, slug: string, configSchema: seq<FieldSpec>)

  /** The validator a field compiles to: the library's `string` and `bool`
      types, a bounded number, or a named enumeration type. */
  datatype Rule =
    | StringRule
    | BoolRule
    | NumberRule(min: Option<int>, max: Option<int>)
    | EnumType(name: string)

  /** A compiled schema: field names with their rules, in the key order of
      the object the compiler fills. */
  type Schema = seq<(string, Rule)>

  /** The global enumeration types: type name to the allowed values. */
  type EnumTypes = map<string, seq<string>>

  datatype ValidationResult = Valid | Invalid(reasons: seq<string>)

  const KnownKinds: set<string> := {"string", "boolean", "number", "range", "enum"}

  /** `entry.values.map(e => e.value)` */
  function AllowedValues(values: seq<EnumValue>): (r: seq<string>)
    ensures |r| == |values|
    ensures forall i :: 0 <= i < |values| ==> r[i] == values[i].value
  {
    if values == [] then [] else [values[0].value] + AllowedValues(values[1..])
  }

  /** The name of the type registered for an enumeration field. */
  function EnumTypeName(slug: string, field: string): string {
    slug + "-" + field
  }

  function UnknownTypeMessage(kind: string): string {
    "cannot create validator; unknown type " + kind
  }

  /** The rule a field compiles to, or None for a type the compiler rejects. */
  function RuleFor(slug: string, f: FieldSpec): (r: Option<Rule>)
    ensures r.None? <==> f.kind !in KnownKinds
    ensures f.kind == "string" ==> r == Some(StringRule)
    ensures f.kind == "boolean" ==> r == Some(BoolRule)
    ensures f.kind in {"number", "range"} ==> r == Some(NumberRule(f.minValue, f.maxValue))
    ensures f.kind == "enum" ==> r == Some(EnumType(EnumTypeName(slug, f.field)))
  {
    match f.kind
    case "string" => Some(StringRule)
    case "boolean" => Some(BoolRule)
    case "number" => Some(NumberRule(f.minValue, f.maxValue))
    case "range" => Some(NumberRule(f.minValue, f.maxValue))
    case "enum" => Some(EnumType(EnumTypeName(slug, f.field)))
    case _ => None
  }

  /** The rule stored under a name, if any. */
  function Lookup(s: Schema, name: string): Option<Rule> {
    if s == [] then None
    else if s[0].0 == name then Some(s[0].1)
    else Lookup(s[1..], name)
  }

  predicate DistinctNames(s: Schema) {
    forall i, j :: 0 <= i < j < |s| ==> s[i].0 != s[j].0
  }

  /** `schema[name] = rule`: an existing name keeps its position and takes the
      new rule; a new name goes last. */
  function Put(s: Schema, name: string, rule: Rule): Schema {
    if s == [] then [(name, rule)]
    else if s[0].0 == name then [(name, rule)] + s[1..]
    else [s[0]] + Put(s[1..], name, rule)
  }

  /** `Put` keeps every existing name in place and appends at most one entry,
      the new name, and only when no entry has it. */
  lemma {:induction false} PutShape(s: Schema, name: string, rule: Rule)
    ensures |Put(s, name, rule)| == |s| || |Put(s, name, rule)| == |s| + 1
    ensures forall i :: 0 <= i < |s| ==> Put(s, name, rule)[i].0 == s[i].0
    ensures |Put(s, name, rule)| == |s| + 1 ==>
      Put(s, name, rule)[|s|].0 == name && forall j :: 0 <= j < |s| ==> s[j].0 != name
  {
    if s != [] && s[0].0 != name {
      PutShape(s[1..], name, rule);
      var p := Put(s, name, rule);
      var tail := Put(s[1..], name, rule);
      assert p == [s[0]] + tail;
      forall i | 0 < i < |s| ensures p[i].0 == s[i].0 {
        assert p[i] == tail[i - 1];
      }
      if |p| == |s| + 1 {
        forall j | 0 < j < |s| ensures s[j].0 != name {
          assert s[j] == s[1..][j - 1];
        }
      }
    }
  }

  /** Looking a name up after `Put` finds the new rule under that name and the
      old answer under every other. */
  lemma {:induction false} PutLookup(s: Schema, name: string, rule: Rule, m: string)
    ensures Lookup(Put(s, name, rule), m) == (if m == name then Some(rule) else Lookup(s, m))
  {
    if s == [] {
    } else if s[0].0 == name {
      assert ([(name, rule)] + s[1..])[1..] == s[1..];
    } else {
      PutLookup(s[1..], name, rule, m);
      assert ([s[0]] + Put(s[1..], name, rule))[1..] == Put(s[1..], name, rule);
    }
  }

  /** On a schema with distinct names, `Put` keeps them distinct, binds the
      name to the rule and introduces no other name. */
  lemma PutEffect(s: Schema, name: string, rule: Rule)
    requires DistinctNames(s)
    ensures DistinctNames(Put(s, name, rule))
    ensures forall m :: Lookup(Put(s, name, rule), m) == (if m == name then Some(rule) else Lookup(s, m))
    ensures forall i :: 0 <= i < |Put(s, name, rule)| ==> Put(s, name, rule)[i].0 == name || exists j :: 0 <= j < |s| && s[j].0 == Put(s, name, rule)[i].0
  {
    PutShape(s, name, rule);
    forall m ensures Lookup(Put(s, name, rule), m) == (if m == name then Some(rule) else Lookup(s, m)) {
      PutLookup(s, name, rule, m);
    }
  }

  /** Index of the last field with this name, or -1. */
  function LastIndex(fields: seq<FieldSpec>, name: string): (r: int)
    ensures -1 <= r < |fields|
    ensures r >= 0 ==> fields[r].field == name && forall i :: r < i < |fields| ==> fields[i].field != name
    ensures r == -1 <==> forall i :: 0 <= i < |fields| ==> fields[i].field != name
  {
    if fields == [] then -1
    else if fields[|fields| - 1].field == name then |fields| - 1
    else LastIndex(fields[..|fields| - 1], name)
  }

  /** Index of the first field of a type the compiler rejects, or -1. */
  function FirstUnknown(fields: seq<FieldSpec>): (r: int)
    ensures -1 <= r < |fields|
    ensures r == -1 <==> forall i :: 0 <= i < |fields| ==> fields[i].kind in KnownKinds
    ensures r >= 0 ==> fields[r].kind !in KnownKinds && forall i :: 0 <= i < r ==> fields[i].kind in KnownKinds
  {
    if fields == [] then -1
    else if fields[0].kind !in KnownKinds then 0
    else
      var k := FirstUnknown(fields[1..]);
      if k == -1 then -1 else k + 1
  }

  /** `createConfigSchema`'s result, field by field: the schema, or the
      TypeError message of the first field whose type is rejected. */
  function Compile(slug: string, fields: seq<FieldSpec>): Result<Schema, string>
    decreases |fields|
  {
    if fields == [] then Success([])
    else
      match Compile(slug, fields[..|fields| - 1])
      case Failure(m) => Failure(m)
      case Success(s) =>
        var f := fields[|fields| - 1];
        match RuleFor(slug, f)
        case None => Failure(UnknownTypeMessage(f.kind))
        case Some(r) => Success(Put(s, f.field, r))
  }

  /** The enumeration types registered once the given fields are compiled
      against the registry `types`; a later registration of a name replaces
      an earlier one. */
  function EnumRegs(types: EnumTypes, slug: string, fields: seq<FieldSpec>): (r: EnumTypes)
    ensures types.Keys <= r.Keys
    decreases |fields|
  {
    if fields == [] then types
    else
      var f := fields[|fields| - 1];
      var before := EnumRegs(types, slug, fields[..|fields| - 1]);
      if f.kind == "enum" then before[EnumTypeName(slug, f.field) := AllowedValues(f.values)] else before
  }

  /** How many fields are processed before compilation stops. */
  function Processed(fields: seq<FieldSpec>): nat {
    var u := FirstUnknown(fields);
    if u == -1 then |fields| else u
  }

  /** Compilation fails exactly when some field has a rejected type, and the
      TypeError names the first such type. */
  lemma {:induction false} CompileFailure(slug: string, fields: seq<FieldSpec>)
    ensures Compile(slug, fields).Failure? <==> FirstUnknown(fields) != -1
    ensures FirstUnknown(fields) != -1 ==>
      Compile(slug, fields) == Failure(UnknownTypeMessage(fields[FirstUnknown(fields)].kind))
    decreases |fields|
  {
    if fields != [] {
      var init := fields[..|fields| - 1];
      var last := fields[|fields| - 1];
      CompileFailure(slug, init);
      FirstUnknownSnoc(fields);
      if FirstUnknown(init) == -1 {
        assert Compile(slug, init).Success?;
        assert Compile(slug, fields).Failure? <==> RuleFor(slug, last).None?;
      }
    }
  }

  /** The first rejected field of a list is that of its initial part, or
      else its last field when that one is rejected. */
  lemma FirstUnknownSnoc(fields: seq<FieldSpec>)
    requires fields != []
    ensures var init := fields[..|fields| - 1];
      FirstUnknown(fields) ==
        if FirstUnknown(init) != -1 then FirstUnknown(init)
        else if fields[|fields| - 1].kind !in KnownKinds then |fields| - 1
        else -1
  {
    var init := fields[..|fields| - 1];
    var u, v := FirstUnknown(fields), FirstUnknown(init);
    assert forall i :: 0 <= i < |init| ==> init[i] == fields[i];
    if v != -1 {
      assert fields[v].kind !in KnownKinds;
      assert u != -1 && u <= v;
      assert init[u].kind !in KnownKinds;
    } else {
      assert forall i :: 0 <= i < |init| ==> fields[i].kind in KnownKinds;
    }
  }


  /** A compiled schema holds each field name once, and the rule under a name
      is the rule of the LAST field with that name. */
  lemma {:induction false} CompileLookup(slug: string, fields: seq<FieldSpec>, s: Schema)
    requires Compile(slug, fields) == Success(s)
    ensures DistinctNames(s)
    ensures forall name :: (Lookup(s, name) ==
      if LastIndex(fields, name) == -1 then None else RuleFor(slug, fields[LastIndex(fields, name)]))
    decreases |fields|
  {
    if fields != [] {
      var init := fields[..|fields| - 1];
      var f := fields[|fields| - 1];
      var s0 := Compile(slug, init).value;
      CompileLookup(slug, init, s0);
      var r := RuleFor(slug, f).value;
      assert s == Put(s0, f.field, r);
      PutEffect(s0, f.field, r);
      forall name
        ensures Lookup(s, name) ==
          (if LastIndex(fields, name) == -1 then None else RuleFor(slug, fields[LastIndex(fields, name)]))
      {
        if name != f.field {
          assert LastIndex(fields, name) == LastIndex(init, name);
          if LastIndex(init, name) != -1 {
            assert fields[LastIndex(init, name)] == init[LastIndex(init, name)];
          }
        }
      }
    }
  }

  /** Compiling one more field of a known type puts its rule into the schema
      and, for an enumeration, registers its type. */
  lemma CompileStep(types: EnumTypes, slug: string, fields: seq<FieldSpec>, i: nat, schema: Schema)
    requires i < |fields| && fields[i].kind in KnownKinds
    requires Compile(slug, fields[..i]) == Success(schema)
    ensures Compile(slug, fields[..i + 1]) == Success(Put(schema, fields[i].field, RuleFor(slug, fields[i]).value))
    ensures EnumRegs(types, slug, fields[..i + 1]) ==
      if fields[i].kind == "enum" then EnumRegs(types, slug, fields[..i])[EnumTypeName(slug, fields[i].field) := AllowedValues(fields[i].values)]
      else EnumRegs(types, slug, fields[..i])
  {
    var p := fields[..i + 1];
    assert p[..|p| - 1] == fields[..i];
    assert p[|p| - 1] == fields[i];
  }

  /** The first field of a rejected type ends compilation with its TypeError. */
  lemma StopsAt(slug: string, fields: seq<FieldSpec>, i: nat)
    requires i < |fields| && fields[i].kind !in KnownKinds
    requires i <= Processed(fields)
    ensures Compile(slug, fields) == Failure(UnknownTypeMessage(fields[i].kind))
    ensures Processed(fields) == i
  {
    assert FirstUnknown(fields) == i;
    CompileFailure(slug, fields);
  }

  /** Every enumeration type a compiled schema refers to was registered while
      compiling it. */
  lemma {:induction false} CompileRegisters(types: EnumTypes, slug: string, fields: seq<FieldSpec>, s: Schema)
    requires Compile(slug, fields) == Success(s)
    ensures forall i :: 0 <= i < |s| && s[i].1.EnumType? ==> s[i].1.name in EnumRegs(types, slug, fields)
    decreases |fields|
  {
    if fields != [] {
      var init := fields[..|fields| - 1];
      var f := fields[|fields| - 1];
      var s0 := Compile(slug, init).value;
      CompileRegisters(types, slug, init, s0);
      CompileLookup(slug, init, s0);
      var r := RuleFor(slug, f).value;
      PutEffect(s0, f.field, r);
      forall i | 0 <= i < |s| && s[i].1.EnumType?
        ensures s[i].1.name in EnumRegs(types, slug, fields)
      {
        LookupAt(s, i);
        if s[i].0 == f.field {
          assert Lookup(s, f.field) == Some(r);
        } else {
          var j :| 0 <= j < |s0| && s0[j].0 == s[i].0;
          LookupAt(s0, j);
          assert s0[j].1 == s[i].1;
        }
      }
    }
  }

  lemma {:induction false} LookupAt(s: Schema, i: nat)
    requires DistinctNames(s) && i < |s|
    ensures Lookup(s, s[i].0) == Some(s[i].1)
  {
    if i > 0 {
      assert s[0].0 != s[i].0;
      assert DistinctNames(s[1..]) by {
        forall a, b | 0 <= a < b < |s[1..]| ensures s[1..][a].0 != s[1..][b].0 {
          assert s[a + 1].0 != s[b + 1].0;
        }
      }
      LookupAt(s[1..], i - 1);
    }
  }

  /** Every enumeration type the schema refers to is registered. */
  ghost predicate Resolved(types: EnumTypes, s: Schema) {
    forall i :: 0 <= i < |s| && s[i].1.EnumType? ==> s[i].1.name in types
  }

  /** Registering more types keeps every stored schema resolved. */
  lemma ResolvedGrows(t1: EnumTypes, t2: EnumTypes, schemas: map<string, Schema>)
    requires t1.Keys <= t2.Keys
    requires forall id | id in schemas :: Resolved(t1, schemas[id])
    ensures forall id | id in schemas :: Resolved(t2, schemas[id])
  {
  }

  /** Whether a value satisfies a rule. */
  predicate Conforms(types: EnumTypes, rule: Rule, v: Json)
    requires rule.EnumType? ==> rule.name in types
  {
    match rule
    case StringRule => v.JStr?
    case BoolRule => v.JBool?
    case NumberRule(lo, hi) =>
      v.JNum? && (lo.Some? ==> lo.value as real <= v.n) && (hi.Some? ==> v.n <= hi.value as real)
    case EnumType(t) => v.JStr? && v.s in types[t]
  }

  /** The message a failing field contributes, or None when its value
      conforms. A field missing from the candidate fails its type check. */
  function CheckField(types: EnumTypes, name: string, rule: Rule, v: Option<Json>): Option<string>
    requires rule.EnumType? ==> rule.name in types
  {
    var path := "item." + name;
    match rule
    case StringRule =>
      if v.Some? && v.value.JStr? then None else Some(path + " is not a string")
    case BoolRule =>
      if v.Some? && v.value.JBool? then None else Some(path + " is not a bool")
    case NumberRule(lo, hi) =>
      if v.None? || !v.value.JNum? then Some(path + " is not a number")
      else if lo.Some? && v.value.n < lo.value as real then
        Some(path + " needs to be at least " + Text.IntToString(lo.value))
      else if hi.Some? && v.value.n > hi.value as real then
        Some(path + " needs to be at most " + Text.IntToString(hi.value))
      else None
    case EnumType(t) =>
      var allowed := types[t];
      if v.Some? && v.value.JStr? && v.value.s in allowed then None
      else Some(path + " is not one of: [" + Text.Join(allowed, ", ") + "]")
  }

  /** A field passes exactly when it is present and conforms to its rule. */
  lemma CheckFieldVerdict(types: EnumTypes, name: string, rule: Rule, v: Option<Json>)
    requires rule.EnumType? ==> rule.name in types
    ensures CheckField(types, name, rule, v).None? <==> v.Some? && Conforms(types, rule, v.value)
  {
  }

  /** Every message names the field's path; an enumeration's message lists
      the allowed values. */
  lemma CheckFieldMessage(types: EnumTypes, name: string, rule: Rule, v: Option<Json>)
    requires rule.EnumType? ==> rule.name in types
    requires CheckField(types, name, rule, v).Some?
    ensures Text.StartsWith(CheckField(types, name, rule, v).value, "item." + name + " ")
    ensures rule.EnumType? ==>
      CheckField(types, name, rule, v).value == "item." + name + " is not one of: [" + Text.Join(types[rule.name], ", ") + "]"
  {
    var m := CheckField(types, name, rule, v).value;
    var p := "item." + name + " ";
    assert m[..|p|] == p;
  }

  function ValueAt(config: Obj, name: string): Option<Json> {
    if name in config then Some(config[name]) else None
  }

  /** The verdict of every field, in schema order. */
  function Checks(types: EnumTypes, s: Schema, config: Obj): (r: seq<Option<string>>)
    requires Resolved(types, s)
    ensures |r| == |s|
    ensures forall i :: 0 <= i < |s| ==> r[i] == CheckField(types, s[i].0, s[i].1, ValueAt(config, s[i].0))
  {
    if s == [] then []
    else [CheckField(types, s[0].0, s[0].1, ValueAt(config, s[0].0))] + Checks(types, s[1..], config)
  }

  /** The messages among the verdicts, in order. */
  function Reasons(checks: seq<Option<string>>): seq<string> {
    if checks == [] then []
    else (if checks[0].Some? then [checks[0].value] else []) + Reasons(checks[1..])
  }

  /** There are no reasons exactly when every verdict is a pass. */
  lemma {:induction false} ReasonsEmpty(checks: seq<Option<string>>)
    ensures Reasons(checks) == [] <==> forall i :: 0 <= i < |checks| ==> checks[i].None?
  {
    if checks != [] {
      ReasonsEmpty(checks[1..]);
      assert forall i :: 1 <= i < |checks| ==> checks[i] == checks[1..][i - 1];
    }
  }

  /** A message among the verdicts sits between the reasons before and after it. */
  lemma ReasonsAt(c: seq<Option<string>>, i: nat)
    requires i < |c| && c[i].Some?
    ensures Reasons(c) == Reasons(c[..i]) + [c[i].value] + Reasons(c[i + 1..])
  {
    var rest := c[i..];
    assert rest[0] == c[i] && rest[1..] == c[i + 1..];
    assert Reasons(rest) == [c[i].value] + Reasons(c[i + 1..]);
    assert c == c[..i] + rest;
    ReasonsAppend(c[..i], rest);
  }

  /** The reasons of a concatenation are the reasons of its parts. */
  lemma {:induction false} ReasonsAppend(a: seq<Option<string>>, b: seq<Option<string>>)
    ensures Reasons(a + b) == Reasons(a) + Reasons(b)
  {
    if a == [] {
      assert a + b == b;
    } else {
      ReasonsAppend(a[1..], b);
      assert (a + b)[1..] == a[1..] + b;
      var head := if a[0].Some? then [a[0].value] else [];
      var x, y := Reasons(a[1..]), Reasons(b);
      calc {
        Reasons(a + b);
        head + Reasons(a[1..] + b);
        head + (x + y);
        { assert head + (x + y) == (head + x) + y; }
        (head + x) + y;
      }
    }
  }

  /** The messages of all failing fields, in schema order. */
  function Violations(types: EnumTypes, s: Schema, config: Obj): seq<string>
    requires Resolved(types, s)
  {
    Reasons(Checks(types, s, config))
  }

  /** Applying a compiled validator: true, or the list of reasons. */
  function Validate(types: EnumTypes, s: Schema, config: Obj): ValidationResult
    requires Resolved(types, s)
  {
    var v := Violations(types, s, config);
    if v == [] then Valid else Invalid(v)
  }

  /** A candidate is valid exactly when every field of the schema is present
      and conforms to its rule. */
  lemma ValidIffConforms(types: EnumTypes, s: Schema, config: Obj)
    requires Resolved(types, s)
    ensures Validate(types, s, config) == Valid <==>
      forall i :: 0 <= i < |s| ==> s[i].0 in config && Conforms(types, s[i].1, config[s[i].0])
  {
    var c := Checks(types, s, config);
    ReasonsEmpty(c);
    forall i | 0 <= i < |s|
      ensures c[i].None? <==> s[i].0 in config && Conforms(types, s[i].1, config[s[i].0])
    {
      CheckFieldVerdict(types, s[i].0, s[i].1, ValueAt(config, s[i].0));
    }
  }

  /** Every failing field is reported, in its schema position: the reasons of
      the fields before it, its own message, then those of the fields after. */
  lemma ViolationReported(types: EnumTypes, s: Schema, config: Obj, i: nat)
    requires Resolved(types, s) && i < |s|
    requires CheckField(types, s[i].0, s[i].1, ValueAt(config, s[i].0)).Some?
    ensures Violations(types, s, config) ==
      Violations(types, s[..i], config) +
      [CheckField(types, s[i].0, s[i].1, ValueAt(config, s[i].0)).value] +
      Violations(types, s[i + 1..], config)
  {
    var c := Checks(types, s, config);
    ReasonsAt(c, i);
    assert c[..i] == Checks(types, s[..i], config);
    assert c[i + 1..] == Checks(types, s[i + 1..], config);
  }

  /** The registry, the validator table and the outcome of the module's
      start-up loop. */
  datatype Loaded = Loaded(types: EnumTypes, table: map<string, Schema>, outcome: Result<(), string>)

  /** The start-up loop over `addons`, from the registry `types` and the table
      `table`: each addon's schema is compiled (registering its enumeration
      types) and stored under its addonId; the first TypeError stops the loop
      with the registrations made so far. */
  function LoadAll(types: EnumTypes, table: map<string, Schema>, addons: seq<AddonDef>): Loaded
    decreases |addons|
  {
    if addons == [] then Loaded(types, table, Success(()))
    else
      var a := addons[0];
      var compiled := Compile(a.slug, a.configSchema);
      var types' := FirstRegs(types, a);
      match compiled
      case Failure(m) => Loaded(types', table, Failure(m))
      case Success(schema) => LoadAll(types', table[a.addonId := schema], addons[1..])
  }

  /** Loading succeeds exactly when no addon has a field of a rejected type,
      and then the TypeError is that of the first such addon's compilation. */
  lemma {:induction false} LoadOutcome(types: EnumTypes, table: map<string, Schema>, addons: seq<AddonDef>)
    ensures LoadAll(types, table, addons).outcome.Success? <==>
      forall i :: 0 <= i < |addons| ==> FirstUnknown(addons[i].configSchema) == -1
    ensures LoadAll(types, table, addons).outcome.Failure? ==>
      exists i :: 0 <= i < |addons| && Compile(addons[i].slug, addons[i].configSchema) ==
        Failure(LoadAll(types, table, addons).outcome.error)
    decreases |addons|
  {
    if addons != [] {
      var a := addons[0];
      CompileFailure(a.slug, a.configSchema);
      var compiled := Compile(a.slug, a.configSchema);
      if compiled.Success? {
        var types' := FirstRegs(types, a);
        LoadOutcome(types', table[a.addonId := compiled.value], addons[1..]);
        assert forall i :: 1 <= i < |addons| ==> addons[i] == addons[1..][i - 1];
      }
    }
  }

  /** The registry after the first addon of a non-empty list is compiled. */
  function FirstRegs(types: EnumTypes, a: AddonDef): EnumTypes {
    EnumRegs(types, a.slug, a.configSchema[..Processed(a.configSchema)])
  }

  /** A successful load compiles every addon. */
  lemma {:induction false} LoadCompiles(types: EnumTypes, table: map<string, Schema>, addons: seq<AddonDef>)
    requires LoadAll(types, table, addons).outcome.Success?
    ensures forall i :: 0 <= i < |addons| ==> Compile(addons[i].slug, addons[i].configSchema).Success?
    decreases |addons|
  {
    if addons != [] {
      var a := addons[0];
      LoadCompiles(FirstRegs(types, a), table[a.addonId := Compile(a.slug, a.configSchema).value], addons[1..]);
      assert forall i :: 1 <= i < |addons| ==> addons[i] == addons[1..][i - 1];
    }
  }

  /** After a successful load the table's ids are the old ids and the addons' ids. */
  lemma {:induction false} LoadKeys(types: EnumTypes, table: map<string, Schema>, addons: seq<AddonDef>)
    requires LoadAll(types, table, addons).outcome.Success?
    ensures LoadAll(types, table, addons).table.Keys == table.Keys + set a | a in addons :: a.addonId
    decreases |addons|
  {
    if addons != [] {
      var a := addons[0];
      var rest := addons[1..];
      LoadKeys(FirstRegs(types, a), table[a.addonId := Compile(a.slug, a.configSchema).value], rest);
      assert (set b | b in addons :: b.addonId) == {a.addonId} + set b | b in rest :: b.addonId by {
        assert addons == [a] + rest;
      }
    }
  }

  /** A load, successful or not, leaves the validator of an id that no addon
      carries as it was. */
  lemma {:induction false} LoadKeepsOthers(types: EnumTypes, table: map<string, Schema>, addons: seq<AddonDef>, id: string)
    requires id in table && forall a | a in addons :: a.addonId != id
    ensures id in LoadAll(types, table, addons).table && LoadAll(types, table, addons).table[id] == table[id]
    decreases |addons|
  {
    if addons != [] {
      var a := addons[0];
      assert a in addons;
      if Compile(a.slug, a.configSchema).Success? {
        assert forall b | b in addons[1..] :: b in addons;
        LoadKeepsOthers(FirstRegs(types, a), table[a.addonId := Compile(a.slug, a.configSchema).value], addons[1..], id);
      }
    }
  }

  /** After a successful load an addon that no later addon shadows has its
      own compiled schema stored under its id: the LAST addon with an id wins. */
  lemma {:induction false} LoadLast(types: EnumTypes, table: map<string, Schema>, addons: seq<AddonDef>, i: nat)
    requires LoadAll(types, table, addons).outcome.Success?
    requires i < |addons| && forall j | i < j < |addons| :: addons[j].addonId != addons[i].addonId
    ensures Compile(addons[i].slug, addons[i].configSchema).Success?
    ensures addons[i].addonId in LoadAll(types, table, addons).table
    ensures LoadAll(types, table, addons).table[addons[i].addonId] == Compile(addons[i].slug, addons[i].configSchema).value
    decreases |addons|
  {
    var a := addons[0];
    var table' := table[a.addonId := Compile(a.slug, a.configSchema).value];
    var rest := addons[1..];
    if i == 0 {
      forall b | b in rest ensures b.addonId != a.addonId {
        var j :| 0 <= j < |rest| && rest[j] == b;
        assert addons[j + 1] == b;
      }
      LoadKeepsOthers(FirstRegs(types, a), table', rest, a.addonId);
    } else {
      forall j | i - 1 < j < |rest| ensures rest[j].addonId != rest[i - 1].addonId {
        assert rest[j] == addons[j + 1];
      }
      LoadLast(FirstRegs(types, a), table', rest, i - 1);
    }
  }

  /** A turn of the start-up loop whose addon fails to compile ends it. */
  lemma LoadStepFails(types: EnumTypes, table: map<string, Schema>, addons: seq<AddonDef>, i: nat, m: string)
    requires i < |addons| && Compile(addons[i].slug, addons[i].configSchema) == Failure(m)
    ensures LoadAll(types, table, addons[i..]) == Loaded(FirstRegs(types, addons[i]), table, Failure(m))
  {
    assert addons[i..][0] == addons[i];
  }

  /** A turn of the start-up loop whose addon compiles stores its schema and
      goes on with the next addon. */
  lemma LoadStepStores(types: EnumTypes, table: map<string, Schema>, addons: seq<AddonDef>, i: nat, schema: Schema)
    requires i < |addons| && Compile(addons[i].slug, addons[i].configSchema) == Success(schema)
    ensures LoadAll(types, table, addons[i..]) ==
      LoadAll(FirstRegs(types, addons[i]), table[addons[i].addonId := schema], addons[i + 1..])
  {
    assert addons[i..][0] == addons[i] && addons[i..][1..] == addons[i + 1..];
  }

  /** Everything the start-up loop promises, read off `LoadAll`: the
      outcome, the final ids, the last addon winning for each id, and the
      validators of ids no addon carries. */
  lemma LoadSummary(types: EnumTypes, table: map<string, Schema>, addons: seq<AddonDef>)
    ensures var l := LoadAll(types, table, addons);
      l.outcome.Success? <==> forall a | a in addons :: FirstUnknown(a.configSchema) == -1
    ensures var l := LoadAll(types, table, addons);
      l.outcome.Success? ==> l.table.Keys == table.Keys + set a | a in addons :: a.addonId
    ensures var l := LoadAll(types, table, addons);
      l.outcome.Success? ==>
        forall i | 0 <= i < |addons| && (forall j | i < j < |addons| :: addons[j].addonId != addons[i].addonId) ::
          Compile(addons[i].slug, addons[i].configSchema).Success? &&
          l.table[addons[i].addonId] == Compile(addons[i].slug, addons[i].configSchema).value
    ensures var l := LoadAll(types, table, addons);
      forall id | id in table && (forall a | a in addons :: a.addonId != id) ::
        id in l.table && l.table[id] == table[id]
  {
    var l := LoadAll(types, table, addons);
    LoadOutcome(types, table, addons);
    if l.outcome.Success? {
      LoadKeys(types, table, addons);
      forall i | 0 <= i < |addons| && (forall j | i < j < |addons| :: addons[j].addonId != addons[i].addonId)
        ensures Compile(addons[i].slug, addons[i].configSchema).Success?
        ensures l.table[addons[i].addonId] == Compile(addons[i].slug, addons[i].configSchema).value
      {
        LoadLast(types, table, addons, i);
      }
    }
    forall id | id in table && (forall a | a in addons :: a.addonId != id)
      ensures id in l.table && l.table[id] == table[id]
    {
      LoadKeepsOthers(types, table, addons, id);
    }
  }

  /** The validator library's registries and the module-level table of
      compiled validators, keyed by addonId. */
  class SchemaCompiler {
    var enumTypes: EnumTypes
    var addonConfigSchemas: map<string, Schema>

    ghost predicate Valid()
      reads this
    {
      forall id | id in addonConfigSchemas :: Resolved(enumTypes, addonConfigSchemas[id])
    }

    constructor ()
      ensures Valid() && enumTypes == map[] && addonConfigSchemas == map[]
    {
      enumTypes, addonConfigSchemas := map[], map[];
    }

    /** `createConfigSchema(addon)`: compiles field by field, registering each
        enumeration's type as it goes; an unknown type throws a TypeError after
        the fields before it have registered theirs. */
    method CreateConfigSchema(addon: AddonDef) returns (r: Result<Schema, string>)
      modifies this`enumTypes
      ensures r == Compile(addon.slug, addon.configSchema)
      ensures enumTypes == EnumRegs(old(enumTypes), addon.slug, addon.configSchema[..Processed(addon.configSchema)])
      ensures r.Success? ==> Resolved(enumTypes, r.value)
      ensures old(enumTypes).Keys <= enumTypes.Keys
    {
      var fields := addon.configSchema;
      var schema: Schema := [];
      var i := 0;
      while i < |fields|
        invariant 0 <= i <= |fields|
        invariant i <= Processed(fields)
        invariant Compile(addon.slug, fields[..i]) == Success(schema)
        invariant enumTypes == EnumRegs(old(enumTypes), addon.slug, fields[..i])
      {
        var entry := fields[i];
        var compiled := RuleFor(addon.slug, entry);
        if compiled.None? {
          StopsAt(addon.slug, fields, i);
          return Failure(UnknownTypeMessage(entry.kind));
        }
        assert entry.kind in KnownKinds;
        var rule := compiled.value;
        if rule.EnumType? {
          enumTypes := enumTypes[rule.name := AllowedValues(entry.values)];
        }
        CompileStep(old(enumTypes), addon.slug, fields, i, schema);
        schema := Put(schema, entry.field, rule);
        i := i + 1;
      }
      assert fields[..i] == fields;
      assert Processed(fields) == |fields|;
      r := Success(schema);
      CompileRegisters(old(enumTypes), addon.slug, fields, schema);
    }

    /** The module's start-up loop: compile every addon's schema and store it
        under its addonId (a later addon with the same id replaces an earlier
        one). The first TypeError aborts loading. */
    method LoadAddonSchemas(addons: seq<AddonDef>) returns (r: Result<(), string>)
      requires Valid()
      modifies this
      ensures Valid()
      ensures Loaded(enumTypes, addonConfigSchemas, r) == LoadAll(old(enumTypes), old(addonConfigSchemas), addons)
      ensures r.Success? <==> forall a | a in addons :: FirstUnknown(a.configSchema) == -1
      ensures r.Success? ==> addonConfigSchemas.Keys == old(addonConfigSchemas).Keys + set a | a in addons :: a.addonId
      ensures r.Success? ==>
        forall i | 0 <= i < |addons| && (forall j | i < j < |addons| :: addons[j].addonId != addons[i].addonId) ::
          Compile(addons[i].slug, addons[i].configSchema).Success? &&
          addonConfigSchemas[addons[i].addonId] == Compile(addons[i].slug, addons[i].configSchema).value
      ensures forall id | id in old(addonConfigSchemas) && (forall a | a in addons :: a.addonId != id) ::
        id in addonConfigSchemas && addonConfigSchemas[id] == old(addonConfigSchemas)[id]
    {
      ghost var target := LoadAll(enumTypes, addonConfigSchemas, addons);
      LoadSummary(enumTypes, addonConfigSchemas, addons);
      var i := 0;
      while i < |addons|
        invariant 0 <= i <= |addons|
        invariant Valid()
        invariant LoadAll(enumTypes, addonConfigSchemas, addons[i..]) == target
      {
        ghost var before := enumTypes;
        var compiled := CreateConfigSchema(addons[i]);
        assert enumTypes == FirstRegs(before, addons[i]);
        assert Valid() by {
          ResolvedGrows(before, enumTypes, addonConfigSchemas);
        }
        if compiled.Failure? {
          LoadStepFails(before, addonConfigSchemas, addons, i, compiled.error);
          return Failure(compiled.error);
        }
        LoadStepStores(before, addonConfigSchemas, addons, i, compiled.value);
        addonConfigSchemas := addonConfigSchemas[addons[i].addonId := compiled.value];
        i := i + 1;
      }
      assert addons[i..] == [];
      return Success(());
    }

    /** `validateAddonConfig(addonId, config)`: None for an addon with no
        compiled validator, otherwise that validator's verdict. */
    method ValidateAddonConfig(addonId: string, config: Obj) returns (r: Option<ValidationResult>)
      requires Valid()
      ensures r.None? <==> addonId !in addonConfigSchemas
      ensures r.Some? ==> r.value == Validate(enumTypes, addonConfigSchemas[addonId], config)
      ensures r.Some? ==> (r.value == ValidationResult.Valid <==>
        forall i :: 0 <= i < |addonConfigSchemas[addonId]| ==>
          var (name, rule) := addonConfigSchemas[addonId][i];
          name in config && Conforms(enumTypes, rule, config[name]))
    {
      if addonId !in addonConfigSchemas {
        return None;
      }
      var validator := addonConfigSchemas[addonId];
      ValidIffConforms(enumTypes, validator, config);
      r := Some(Validate(enumTypes, validator, config));
    }
  }
}
