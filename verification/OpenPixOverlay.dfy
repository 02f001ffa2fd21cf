/** The OpenPix overlay: the numeric walk, then the corrections of named properties, of
    places only a pointer reaches, of closed enums and of arrays that must not be empty. */
module OpenPixOverlay {
  import opened Json
  import opened OverlayEnums
  import opened JsonTrees
  import opened OpenPixWalk
  import opened OpenPixNumericWalk
  import opened JsonPointers

  /** A property and the schema to declare, or to correct, it with. */
  datatype Entry = Entry(at: PropertyRef, value: Json)

  datatype PointerPatch = PointerPatch(pointer: string, value: Json)

  datatype Tables = Tables(
    rules: Rules, declared: seq<Entry>, mistyped: seq<Entry>, pointers: seq<PointerPatch>,
    lifts: seq<Lift>, nonEmpty: seq<PropertyRef>)

  datatype Report = Report(
    integerFields: nat, added: seq<PropertyRef>, retyped: seq<PropertyRef>,
    pointers: seq<string>, lifted: seq<Lift>, nonEmpty: seq<PropertyRef>)

  const EMPTY_REPORT := Report(0, [], [], [], [], [])

  /** `schema.get("type")`, where `None` and an absent key are the same. */
  function TypeOf(schema: Json): Json {
    if schema.Has("type") then schema.fields["type"] else Null
  }

  // ----- Declaring properties -----

  /** `name in declared`, for whatever `properties` holds. */
  function Names(declared: Json, name: string): Result<bool> {
    match declared
    case Obj(fields) => Ok(name in fields)
    case Arr(items) => Ok(Str(name) in items)
    case Str(text) => Ok(Contains(text, name))
    case _ => Err(TypeError)
  }

  function PropertiesOf(target: map<string, Json>): Json {
    if "properties" in target then target["properties"] else Obj(map[])
  }

  /** Whether the entry's property is to be added; anything but a mapping that does not
      name it cannot take it. */
  function Missing(schemas: Schemas, at: PropertyRef): Result<bool> {
    if at.schema !in schemas || !schemas[at.schema].Obj? then Ok(false) else
      var declared := PropertiesOf(schemas[at.schema].fields);
      match Names(declared, at.property)
      case Err(e) => Err(e)
      case Ok(true) => Ok(false)
      case Ok(false) => if declared.Obj? then Ok(true) else Err(TypeError)
  }

  function WithDeclared(schemas: Schemas, e: Entry): Schemas
    requires Missing(schemas, e.at) == Ok(true)
  {
    var target := schemas[e.at.schema].fields;
    schemas[e.at.schema := Obj(target["properties" := Obj(PropertiesOf(target).fields[e.at.property := e.value])])]
  }

  function Declare(schemas: Schemas, es: seq<Entry>): Result<(Schemas, seq<PropertyRef>)> {
    if es == [] then Ok((schemas, [])) else
      match Declare(schemas, es[..|es| - 1])
      case Err(e) => Err(e)
      case Ok((soFar, added)) =>
        var last := es[|es| - 1];
        match Missing(soFar, last.at)
        case Err(e) => Err(e)
        case Ok(missing) =>
          if missing then Ok((WithDeclared(soFar, last), added + [last.at])) else Ok((soFar, added))
  }

  // ----- Correcting types -----

  predicate Mistyped(schemas: Schemas, e: Entry) {
    var current := Property(schemas, e.at.schema, e.at.property);
    current.Some? && TypeOf(Obj(current.value)) != TypeOf(e.value)
  }

  function Correct(schemas: Schemas, es: seq<Entry>): Schemas {
    if es == [] then schemas else
      var soFar, last := Correct(schemas, es[..|es| - 1]), es[|es| - 1];
      if Mistyped(soFar, last) then WithProperty(soFar, last.at.schema, last.at.property, last.value) else soFar
  }

  function Corrected(schemas: Schemas, es: seq<Entry>): seq<PropertyRef> {
    if es == [] then [] else
      var earlier, last := es[..|es| - 1], es[|es| - 1];
      Corrected(schemas, earlier) + if Mistyped(Correct(schemas, earlier), last) then [last.at] else []
  }

  // ----- Patching pointers -----

  predicate Patchable(root: Json, q: PointerPatch) {
    var target := Mapping(root, KeysOf(q.pointer));
    target.Some? && TypeOf(Obj(target.value)) != TypeOf(q.value)
  }

  function PatchPointers(root: Json, qs: seq<PointerPatch>): Json {
    if qs == [] then root else
      var soFar, last := PatchPointers(root, qs[..|qs| - 1]), qs[|qs| - 1];
      if Patchable(soFar, last) then Replaced(soFar, KeysOf(last.pointer), last.value) else soFar
  }

  function Patched(root: Json, qs: seq<PointerPatch>): seq<string> {
    if qs == [] then [] else
      var earlier, last := qs[..|qs| - 1], qs[|qs| - 1];
      Patched(root, earlier) + if Patchable(PatchPointers(root, earlier), last) then [last.pointer] else []
  }

  // ----- Arrays that must not be empty -----

  /** Whether the property is an array that does not say how many items it needs. A schema
      whose `properties` is not a mapping raises. */
  function Unbounded(schemas: Schemas, at: PropertyRef): Result<bool> {
    if at.schema !in schemas || !schemas[at.schema].Obj? then Ok(false)
    else if !PropertiesOf(schemas[at.schema].fields).Obj? then Err(AttributeError)
    else
      var current := Property(schemas, at.schema, at.property);
      Ok(current.Some? && TypeOf(Obj(current.value)) == Str("array") && "minItems" !in current.value)
  }

  function WithMinItems(schemas: Schemas, at: PropertyRef): Schemas
    requires Unbounded(schemas, at) == Ok(true)
  {
    WithProperty(schemas, at.schema, at.property,
                 Obj(Property(schemas, at.schema, at.property).value["minItems" := Num(1.0)]))
  }

  function RequireItems(schemas: Schemas, rs: seq<PropertyRef>): Result<(Schemas, seq<PropertyRef>)> {
    if rs == [] then Ok((schemas, [])) else
      match RequireItems(schemas, rs[..|rs| - 1])
      case Err(e) => Err(e)
      case Ok((soFar, constrained)) =>
        var last := rs[|rs| - 1];
        match Unbounded(soFar, last)
        case Err(e) => Err(e)
        case Ok(unbounded) =>
          if unbounded then Ok((WithMinItems(soFar, last), constrained + [last])) else Ok((soFar, constrained))
  }

  // ----- The whole overlay -----

  /** `document.get("components", {}).get("schemas", {})`, as a mapping. */
  function SchemaBlock(root: Json): Result<Schemas> {
    if !root.Obj? then Err(AttributeError)
    else if !root.Has("components") then Ok(map[])
    else if !root.fields["components"].Obj? then Err(AttributeError)
    else if !root.fields["components"].Has("schemas") then Ok(map[])
    else if !root.fields["components"].fields["schemas"].Obj? then Err(AttributeError)
    else Ok(root.fields["components"].fields["schemas"].fields)
  }

  const SCHEMAS := ["components", "schemas"]

  /** The document with its schema block replaced; one that has none is left without. */
  function WithSchemas(root: Json, schemas: Schemas): Json {
    if Lookup(root, SCHEMAS).Some? then Replaced(root, SCHEMAS, Obj(schemas)) else root
  }

  /** The schema steps before the pointers, and those after them. */
  function Declaring(t: Tables, root: Json): Result<(Json, seq<PropertyRef>, seq<PropertyRef>)> {
    match SchemaBlock(root)
    case Err(e) => Err(e)
    case Ok(schemas) =>
      match Declare(schemas, t.declared)
      case Err(e) => Err(e)
      case Ok((declared, added)) =>
        Ok((WithSchemas(root, Correct(declared, t.mistyped)), added, Corrected(declared, t.mistyped)))
  }

  function Opening(t: Tables, root: Json): Result<(Json, seq<Lift>, seq<PropertyRef>)> {
    match SchemaBlock(root)
    case Err(e) => Err(e)
    case Ok(schemas) =>
      match RequireItems(LiftAll(schemas, t.lifts), t.nonEmpty)
      case Err(e) => Err(e)
      case Ok((constrained, named)) =>
        Ok((WithSchemas(root, constrained), Lifted(schemas, t.lifts), named))
  }

  /** Every step after the walk. */
  function Corrections(t: Tables, walked: Json, integerFields: nat): Result<(Json, Report)> {
    match Declaring(t, walked)
    case Err(e) => Err(e)
    case Ok((root, added, retyped)) =>
      match Opening(t, PatchPointers(root, t.pointers))
      case Err(e) => Err(e)
      case Ok((final, lifted, nonEmpty)) =>
        Ok((final, Report(integerFields, added, retyped, Patched(root, t.pointers), lifted, nonEmpty)))
  }

  ghost function Apply(t: Tables, document: Json): Result<(Json, Report)> {
    Corrections(t, Retyped(t.rules, document, Schema(None)), Count(t.rules, document, Schema(None)))
  }

  /** The copy `apply` patches, once walked. The schema block is a mapping the steps share:
      it is taken out of the document for them and put back. */
  class Patch {
    const t: Tables
    var root: Json
    const components: Components

    constructor (t: Tables, root: Json)
      ensures this.t == t && this.root == root && fresh(components)
    {
      this.t := t;
      this.root := root;
      components := new Components(map[]);
    }

    method DeclareProperties() returns (r: Result<seq<PropertyRef>>)
      modifies components
      ensures match Declare(old(components.schemas), t.declared)
              case Err(e) => r == Err(e)
              case Ok((declared, added)) => r == Ok(added) && components.schemas == declared
    {
      var added := [];
      for i := 0 to |t.declared|
        invariant Declare(old(components.schemas), t.declared[..i]) == Ok((components.schemas, added))
      {
        var e := t.declared[i];
        assert t.declared[..i + 1][..i] == t.declared[..i];
        DeclareStops(old(components.schemas), t.declared, i + 1);
        if e.at.schema in components.schemas && components.schemas[e.at.schema].Obj? {
          var target := components.schemas[e.at.schema].fields;
          var declared := PropertiesOf(target);
          var named := Names(declared, e.at.property);
          if named.Err? {
            return Err(named.error);
          }
          if !named.value {
            if !declared.Obj? {
              return Err(TypeError);
            }
            declared := Obj(declared.fields[e.at.property := e.value]);
            components.schemas := components.schemas[e.at.schema := Obj(target["properties" := declared])];
            added := added + [e.at];
          }
        }
      }
      assert t.declared[..|t.declared|] == t.declared;
      r := Ok(added);
    }

    method CorrectTypes() returns (corrected: seq<PropertyRef>)
      modifies components
      ensures components.schemas == Correct(old(components.schemas), t.mistyped)
      ensures corrected == Corrected(old(components.schemas), t.mistyped)
    {
      corrected := [];
      for i := 0 to |t.mistyped|
        invariant components.schemas == Correct(old(components.schemas), t.mistyped[..i])
        invariant corrected == Corrected(old(components.schemas), t.mistyped[..i])
      {
        var e := t.mistyped[i];
        assert t.mistyped[..i + 1][..i] == t.mistyped[..i];
        var schemas := components.schemas;
        if e.at.schema in schemas && schemas[e.at.schema].Has("properties") {
          var target := schemas[e.at.schema].fields;
          if target["properties"].Has(e.at.property) {
            var current := target["properties"].fields[e.at.property];
            if current.Obj? && TypeOf(current) != TypeOf(e.value) {
              var declared := target["properties"].fields[e.at.property := e.value];
              components.schemas := schemas[e.at.schema := Obj(target["properties" := Obj(declared)])];
              corrected := corrected + [e.at];
            }
          }
        }
      }
      assert t.mistyped[..|t.mistyped|] == t.mistyped;
    }

    method PatchAllPointers() returns (patched: seq<string>)
      modifies this
      ensures root == PatchPointers(old(root), t.pointers)
      ensures patched == Patched(old(root), t.pointers)
    {
      patched := [];
      for i := 0 to |t.pointers|
        invariant root == PatchPointers(old(root), t.pointers[..i])
        invariant patched == Patched(old(root), t.pointers[..i])
      {
        var q := t.pointers[i];
        assert t.pointers[..i + 1][..i] == t.pointers[..i];
        var target := Resolve(root, q.pointer);
        if target.Some? && TypeOf(Obj(target.value)) != TypeOf(q.value) {
          root := Replaced(root, KeysOf(q.pointer), q.value);
          patched := patched + [q.pointer];
        }
      }
      assert t.pointers[..|t.pointers|] == t.pointers;
    }

    method RequireNonEmpty() returns (r: Result<seq<PropertyRef>>)
      modifies components
      ensures match RequireItems(old(components.schemas), t.nonEmpty)
              case Err(e) => r == Err(e)
              case Ok((constrained, named)) => r == Ok(named) && components.schemas == constrained
    {
      var constrained := [];
      for i := 0 to |t.nonEmpty|
        invariant RequireItems(old(components.schemas), t.nonEmpty[..i]) == Ok((components.schemas, constrained))
      {
        var at := t.nonEmpty[i];
        assert t.nonEmpty[..i + 1][..i] == t.nonEmpty[..i];
        RequireStops(old(components.schemas), t.nonEmpty, i + 1);
        var schemas := components.schemas;
        if at.schema in schemas && schemas[at.schema].Obj? {
          var target := schemas[at.schema].fields;
          var declared := PropertiesOf(target);
          if !declared.Obj? {
            return Err(AttributeError);
          }
          if declared.Has(at.property) {
            var schema := declared.fields[at.property];
            if schema.Obj? && TypeOf(schema) == Str("array") && "minItems" !in schema.fields {
              schema := Obj(schema.fields["minItems" := Num(1.0)]);
              components.schemas := schemas[at.schema :=
                  Obj(target["properties" := Obj(declared.fields[at.property := schema])])];
              constrained := constrained + [at];
            }
          }
        }
      }
      assert t.nonEmpty[..|t.nonEmpty|] == t.nonEmpty;
      r := Ok(constrained);
    }

    method DeclareAndCorrect() returns (r: Result<(seq<PropertyRef>, seq<PropertyRef>)>)
      modifies this, components
      ensures match Declaring(t, old(root))
              case Err(e) => r == Err(e)
              case Ok((declared, added, retyped)) => r == Ok((added, retyped)) && root == declared
    {
      var block := SchemaBlock(root);
      if block.Err? {
        return Err(block.error);
      }
      components.schemas := block.value;
      var added := DeclareProperties();
      if added.Err? {
        return Err(added.error);
      }
      var retyped := CorrectTypes();
      root := WithSchemas(root, components.schemas);
      r := Ok((added.value, retyped));
    }

    method LiftAndRequire() returns (r: Result<(seq<Lift>, seq<PropertyRef>)>)
      modifies this, components
      ensures match Opening(t, old(root))
              case Err(e) => r == Err(e)
              case Ok((final, lifted, nonEmpty)) => r == Ok((lifted, nonEmpty)) && root == final
    {
      var block := SchemaBlock(root);
      if block.Err? {
        return Err(block.error);
      }
      components.schemas := block.value;
      var lifted := components.LiftEnums(t.lifts);
      var nonEmpty := RequireNonEmpty();
      if nonEmpty.Err? {
        return Err(nonEmpty.error);
      }
      root := WithSchemas(root, components.schemas);
      r := Ok((lifted, nonEmpty.value));
    }

    /** The corrections, in the order `apply` makes them. */
    method Run(integerFields: nat) returns (r: Result<Report>)
      modifies this, components
      ensures match Corrections(t, old(root), integerFields)
              case Err(e) => r == Err(e)
              case Ok((final, report)) => r == Ok(report) && root == final
    {
      var declared := DeclareAndCorrect();
      if declared.Err? {
        return Err(declared.error);
      }
      var pointers := PatchAllPointers();
      var rest := LiftAndRequire();
      if rest.Err? {
        return Err(rest.error);
      }
      r := Ok(Report(integerFields, declared.value.0, declared.value.1, pointers, rest.value.0, rest.value.1));
    }
  }

  /** An exception ends the loop for good. */
  lemma {:induction false} DeclareStops(schemas: Schemas, es: seq<Entry>, i: nat)
    requires i <= |es|
    ensures Declare(schemas, es[..i]).Err? ==> Declare(schemas, es) == Declare(schemas, es[..i])
    decreases |es| - i
  {
    if i == |es| {
      assert es[..i] == es;
    } else {
      DeclareStops(schemas, es, i + 1);
      assert es[..i + 1][..i] == es[..i];
    }
  }

  lemma {:induction false} RequireStops(schemas: Schemas, rs: seq<PropertyRef>, i: nat)
    requires i <= |rs|
    ensures RequireItems(schemas, rs[..i]).Err? ==> RequireItems(schemas, rs) == RequireItems(schemas, rs[..i])
    decreases |rs| - i
  {
    if i == |rs| {
      assert rs[..i] == rs;
    } else {
      RequireStops(schemas, rs, i + 1);
      assert rs[..i + 1][..i] == rs[..i];
    }
  }

  /** The caller keeps what it passed: nothing that exists before the call is written. */
  method ApplyOverlay(t: Tables, document: Ref) returns (r: Result<(Json, Report)>)
    requires Sound(document)
    ensures r == Apply(t, old(Read(document)))
  {
    var walked, integerFields := WalkCopy(t.rules, document);
    var patch := new Patch(t, walked);
    var report := patch.Run(integerFields);
    match report
    case Err(e) => r := Err(e);
    case Ok(value) => r := Ok((patch.root, value));
  }
}
