/** Moving a property's inline `enum` into a component of its own. */
module OverlayEnums {
  import opened Json
  import opened Reachability

  /** A property of a component schema. */
  datatype PropertyRef = PropertyRef(schema: string, property: string)

  /** One entry of a lift table: the property, and the component to lift into. */
  datatype Lift = Lift(schema: string, property: string, component: string) {
    function At(): PropertyRef { PropertyRef(schema, property) }
  }

  const COMPONENT_NOTE :=
    "` is documented with. Declared as a component so the generated class survives " +
    "the property being unconstrained: the API reports states outside this list, " +
    "and a closed enum on a response makes an unrecognized state a refused read."

  function ComponentDescription(l: Lift): string {
    "The values `" + l.schema + "." + l.property + COMPONENT_NOTE
  }

  function BareType(current: map<string, Json>): Json {
    if "type" in current then current["type"] else Str("string")
  }

  /** The component a closed property becomes. */
  function ClosedComponent(current: map<string, Json>, l: Lift): Json
    requires "enum" in current
  {
    Obj(map["type" := BareType(current), "enum" := current["enum"], "description" := Str(ComponentDescription(l))])
  }

  /** What the property becomes: the component, or anything of the bare type. */
  function OpenProperty(current: map<string, Json>, l: Lift): Json {
    Obj(map[
      "anyOf" := Arr([Obj(map["$ref" := Str(REF_PREFIX + l.component)]), Obj(map["type" := BareType(current)])]),
      "description" := if "description" in current then current["description"] else Str("")])
  }

  /** The schema a property is declared with, when it is declared as a mapping. */
  function Property(schemas: Schemas, schema: string, property: string): Option<map<string, Json>> {
    if schema in schemas && schemas[schema].Has("properties") && schemas[schema].fields["properties"].Has(property)
       && schemas[schema].fields["properties"].fields[property].Obj?
    then Some(schemas[schema].fields["properties"].fields[property].fields)
    else None
  }

  /** `declared[property] = replacement`. */
  function WithProperty(schemas: Schemas, schema: string, property: string, replacement: Json): Schemas
    requires schema in schemas && schemas[schema].Has("properties") && schemas[schema].fields["properties"].Obj?
  {
    var target := schemas[schema].fields;
    schemas[schema := Obj(target["properties" := Obj(target["properties"].fields[property := replacement])])]
  }

  predicate Liftable(schemas: Schemas, l: Lift) {
    var current := Property(schemas, l.schema, l.property);
    current.Some? && "enum" in current.value
  }

  function LiftOne(schemas: Schemas, l: Lift): Schemas {
    if !Liftable(schemas, l) then schemas else
      var current := Property(schemas, l.schema, l.property).value;
      var grown := if l.component in schemas then schemas else schemas[l.component := ClosedComponent(current, l)];
      WithProperty(grown, l.schema, l.property, OpenProperty(current, l))
  }

  function LiftAll(schemas: Schemas, lifts: seq<Lift>): Schemas {
    if lifts == [] then schemas
    else LiftOne(LiftAll(schemas, lifts[..|lifts| - 1]), lifts[|lifts| - 1])
  }

  /** The entries that found an enum to lift, in table order. */
  function Lifted(schemas: Schemas, lifts: seq<Lift>): seq<Lift> {
    if lifts == [] then [] else
      var earlier := lifts[..|lifts| - 1];
      var last := lifts[|lifts| - 1];
      Lifted(schemas, earlier) + if Liftable(LiftAll(schemas, earlier), last) then [last] else []
  }

  /** The component schemas of a document being patched. */
  class Components {
    var schemas: Schemas

    constructor (schemas: Schemas)
      ensures this.schemas == schemas
    {
      this.schemas := schemas;
    }

    /** The loop over one table of properties to lift. */
    method LiftEnums(lifts: seq<Lift>) returns (lifted: seq<Lift>)
      modifies this
      ensures schemas == LiftAll(old(schemas), lifts)
      ensures lifted == Lifted(old(schemas), lifts)
    {
      lifted := [];
      for i := 0 to |lifts|
        invariant schemas == LiftAll(old(schemas), lifts[..i])
        invariant lifted == Lifted(old(schemas), lifts[..i])
      {
        var l := lifts[i];
        assert lifts[..i + 1][..i] == lifts[..i];
        if l.schema in schemas && schemas[l.schema].Obj? {
          var target := schemas[l.schema].fields;
          if "properties" in target && target["properties"].Obj? {
            var declared := target["properties"].fields;
            if l.property in declared && declared[l.property].Obj? && "enum" in declared[l.property].fields {
              var current := declared[l.property].fields;
              if l.component !in schemas {
                schemas := schemas[l.component := ClosedComponent(current, l)];
              }
              declared := declared[l.property := OpenProperty(current, l)];
              schemas := schemas[l.schema := Obj(target["properties" := Obj(declared)])];
              lifted := lifted + [l];
            }
          }
        }
      }
      assert lifts[..|lifts|] == lifts;
    }
  }

  // ----- What a lift leaves alone, and lifting again -----

  /** A lift touches one property and adds at most one component. */
  lemma LiftIsLocal(schemas: Schemas, l: Lift)
    requires Liftable(schemas, l)
    ensures var lifted, current := LiftOne(schemas, l), Property(schemas, l.schema, l.property).value;
      && lifted.Keys == schemas.Keys + {l.component}
      && (forall n :: n in schemas && n != l.schema ==> lifted[n] == schemas[n])
      && (l.component !in schemas ==> lifted[l.component] == ClosedComponent(current, l))
      && (forall k :: k in schemas[l.schema].fields && k != "properties" ==>
            lifted[l.schema].Get(k) == schemas[l.schema].Get(k))
      && lifted[l.schema].Has("properties") && lifted[l.schema].fields["properties"].Obj?
      && lifted[l.schema].fields["properties"].fields - {l.property} ==
         schemas[l.schema].fields["properties"].fields - {l.property}
      && Property(lifted, l.schema, l.property) == Some(OpenProperty(current, l).fields)
  {
  }

  lemma LiftKeepsSpent(schemas: Schemas, l: Lift, other: Lift)
    requires !Liftable(schemas, other) || other == l
    ensures !Liftable(LiftOne(schemas, l), other)
  {
  }

  lemma {:induction false} LiftAllSpends(schemas: Schemas, lifts: seq<Lift>)
    ensures forall l :: l in lifts ==> !Liftable(LiftAll(schemas, lifts), l)
  {
    if lifts == [] {
    } else {
      var earlier, last := lifts[..|lifts| - 1], lifts[|lifts| - 1];
      LiftAllSpends(schemas, earlier);
      forall l | l in lifts ensures !Liftable(LiftAll(schemas, lifts), l) {
        assert l in earlier || l == last;
        LiftKeepsSpent(LiftAll(schemas, earlier), last, l);
      }
    }
  }

  lemma {:induction false} NothingToLift(schemas: Schemas, lifts: seq<Lift>)
    requires forall l :: l in lifts ==> !Liftable(schemas, l)
    ensures LiftAll(schemas, lifts) == schemas && Lifted(schemas, lifts) == []
  {
    if lifts == [] {
    } else {
      NothingToLift(schemas, lifts[..|lifts| - 1]);
    }
  }

  /** Lifting a table twice is lifting it once. */
  lemma {:induction false} LiftIsIdempotent(schemas: Schemas, lifts: seq<Lift>)
    ensures LiftAll(LiftAll(schemas, lifts), lifts) == LiftAll(schemas, lifts)
    ensures Lifted(LiftAll(schemas, lifts), lifts) == []
  {
    LiftAllSpends(schemas, lifts);
    NothingToLift(LiftAll(schemas, lifts), lifts);
  }

  /** A table of lifts leaves every schema it does not name as it was. */
  lemma {:induction false} LiftKeepsSchema(schemas: Schemas, lifts: seq<Lift>, name: string)
    requires forall l :: l in lifts ==> l.schema != name && l.component != name
    ensures Obj(LiftAll(schemas, lifts)).Get(name) == Obj(schemas).Get(name)
    decreases |lifts|
  {
    if lifts == [] {
    } else {
      assert lifts[|lifts| - 1] in lifts && forall l :: l in lifts[..|lifts| - 1] ==> l in lifts;
      LiftKeepsSchema(schemas, lifts[..|lifts| - 1], name);
    }
  }

  /** Nothing documented is lost by a lift: the values and the type are in the component that
      is made, to the letter, and the description stays with the property. */
  lemma LiftKeepsWords(schemas: Schemas, l: Lift)
    requires Liftable(schemas, l)
    ensures var current := Property(schemas, l.schema, l.property).value;
            var lifted := LiftOne(schemas, l);
            var open := Property(lifted, l.schema, l.property);
      && open.Some? && open.value.Keys == {"anyOf", "description"}
      && open.value["description"] == (if "description" in current then current["description"] else Str(""))
      && (l.component !in schemas ==> (
            && lifted[l.component].Has("enum") && lifted[l.component].fields["enum"] == current["enum"]
            && lifted[l.component].Has("type")
            && ("type" in current ==> lifted[l.component].fields["type"] == current["type"])))
  {
    LiftIsLocal(schemas, l);
  }

  // ----- What a whole table makes of the schemas -----

  /** The entry that decides a property: the first to name it. */
  function LiftFor(lifts: seq<Lift>, at: PropertyRef): Option<Lift> {
    if lifts == [] then None else
      var earlier, last := lifts[..|lifts| - 1], lifts[|lifts| - 1];
      if LiftFor(earlier, at).Some? then LiftFor(earlier, at)
      else if last.At() == at then Some(last) else None
  }

  function LiftedProperty(declared: Json, l: Option<Lift>): Json {
    if l.Some? && declared.Has("enum") then OpenProperty(declared.fields, l.value) else declared
  }

  /** A stored schema with each enum among its properties opened by the entry that decides. */
  function LiftedSchema(name: string, schema: Json, lifts: seq<Lift>): Json {
    if !schema.Has("properties") || !schema.fields["properties"].Obj? then schema else
      var declared := schema.fields["properties"].fields;
      Obj(schema.fields["properties" := Obj(
        map p | p in declared :: LiftedProperty(declared[p], LiftFor(lifts, PropertyRef(name, p))))])
  }

  /** The entry a new component is made from: the first that finds an enum to lift into it. */
  function CreatorOf(schemas: Schemas, lifts: seq<Lift>, name: string): (r: Option<Lift>)
    ensures r.Some? ==> Liftable(schemas, r.value)
  {
    if lifts == [] then None else
      var earlier, last := lifts[..|lifts| - 1], lifts[|lifts| - 1];
      if CreatorOf(schemas, earlier, name).Some? then CreatorOf(schemas, earlier, name)
      else if last.component == name && Liftable(schemas, last) && LiftFor(earlier, last.At()).None? then Some(last)
      else None
  }

  /** What is stored under `name` once the table has been gone through. */
  function AfterLifts(schemas: Schemas, lifts: seq<Lift>, name: string): Option<Json> {
    if name in schemas then Some(LiftedSchema(name, schemas[name], lifts))
    else match CreatorOf(schemas, lifts, name)
      case Some(l) => Some(ClosedComponent(Property(schemas, l.schema, l.property).value, l))
      case None => None
  }

  /** An entry finds the enum the table started with, unless an earlier one decided. */
  lemma {:induction false} FirstEntryDecides(schemas: Schemas, soFar: Schemas, earlier: seq<Lift>, l: Lift)
    requires Obj(soFar).Get(l.schema) == AfterLifts(schemas, earlier, l.schema)
    ensures Liftable(soFar, l) <==> Liftable(schemas, l) && LiftFor(earlier, l.At()).None?
    ensures Liftable(soFar, l) ==>
              Property(soFar, l.schema, l.property) == Property(schemas, l.schema, l.property)
  {
  }

  lemma {:induction false} LiftForIsListed(lifts: seq<Lift>, at: PropertyRef)
    ensures LiftFor(lifts, at).Some? ==> LiftFor(lifts, at).value in lifts && LiftFor(lifts, at).value.At() == at
    decreases |lifts|
  {
    if lifts == [] {
    } else {
      LiftForIsListed(lifts[..|lifts| - 1], at);
      assert lifts[|lifts| - 1] in lifts && forall l :: l in lifts[..|lifts| - 1] ==> l in lifts;
    }
  }

  lemma {:induction false} UnnamedIsUnlifted(name: string, schema: Json, lifts: seq<Lift>)
    requires forall l :: l in lifts ==> l.schema != name
    ensures LiftedSchema(name, schema, lifts) == schema
  {
    if schema.Has("properties") && schema.fields["properties"].Obj? {
      var declared := schema.fields["properties"].fields;
      forall p | p in declared
        ensures LiftedProperty(declared[p], LiftFor(lifts, PropertyRef(name, p))) == declared[p]
      {
        LiftForIsListed(lifts, PropertyRef(name, p));
      }
      assert LiftedSchema(name, schema, lifts).fields["properties"].fields == declared;
    }
  }

  /** One more entry opens one property, and none it does not decide. */
  lemma {:induction false} LiftedSchemaExtends(name: string, schema: Json, lifts: seq<Lift>)
    requires lifts != [] && schema.Has("properties") && schema.fields["properties"].Obj?
    ensures var earlier, last := lifts[..|lifts| - 1], lifts[|lifts| - 1];
      var before, declared := LiftedSchema(name, schema, earlier), schema.fields["properties"].fields;
      LiftedSchema(name, schema, lifts) ==
        if last.schema == name && last.property in declared && declared[last.property].Has("enum") &&
           LiftFor(earlier, last.At()).None?
        then Obj(before.fields["properties" := Obj(before.fields["properties"].fields[
                   last.property := OpenProperty(declared[last.property].fields, last)])])
        else before
  {
    var earlier, last := lifts[..|lifts| - 1], lifts[|lifts| - 1];
    var before, after := LiftedSchema(name, schema, earlier), LiftedSchema(name, schema, lifts);
    var declared := schema.fields["properties"].fields;
    forall p | p in declared
      ensures LiftedProperty(declared[p], LiftFor(lifts, PropertyRef(name, p))) ==
              if last.schema == name && last.property == p && declared[p].Has("enum") &&
                 LiftFor(earlier, last.At()).None?
              then OpenProperty(declared[p].fields, last)
              else LiftedProperty(declared[p], LiftFor(earlier, PropertyRef(name, p)))
    {
    }
    if last.schema == name && last.property in declared && declared[last.property].Has("enum") &&
       LiftFor(earlier, last.At()).None? {
      assert after.fields["properties"].fields == before.fields["properties"].fields[
               last.property := OpenProperty(declared[last.property].fields, last)];
    } else {
      assert after.fields["properties"].fields == before.fields["properties"].fields;
    }
  }

  /** The loop over a table leaves every schema as the table as a whole says of it. */
  lemma {:induction false} LiftsAreExact(schemas: Schemas, lifts: seq<Lift>, name: string)
    ensures Obj(LiftAll(schemas, lifts)).Get(name) == AfterLifts(schemas, lifts, name)
    decreases |lifts|
  {
    if lifts == [] {
      if name in schemas {
        UnnamedIsUnlifted(name, schemas[name], lifts);
      }
    } else {
      var earlier, last := lifts[..|lifts| - 1], lifts[|lifts| - 1];
      var soFar := LiftAll(schemas, earlier);
      LiftsAreExact(schemas, earlier, name);
      LiftsAreExact(schemas, earlier, last.schema);
      LiftsAreExact(schemas, earlier, last.component);
      FirstEntryDecides(schemas, soFar, earlier, last);
      if name in schemas && schemas[name].Has("properties") && schemas[name].fields["properties"].Obj? {
        LiftedSchemaExtends(name, schemas[name], lifts);
      }
    }
  }

  /** An entry is reported exactly when it decides its property and finds an enum there. */
  lemma {:induction false} LiftedAreExact(schemas: Schemas, lifts: seq<Lift>, l: Lift)
    ensures l in Lifted(schemas, lifts) <==> Liftable(schemas, l) && LiftFor(lifts, l.At()) == Some(l)
    decreases |lifts|
  {
    if lifts == [] {
    } else {
      var earlier, last := lifts[..|lifts| - 1], lifts[|lifts| - 1];
      LiftedAreExact(schemas, earlier, l);
      LiftsAreExact(schemas, earlier, last.schema);
      FirstEntryDecides(schemas, LiftAll(schemas, earlier), earlier, last);
    }
  }

  type Declaration = Option<map<string, Json>>

  /** A property declared as a mapping, after the table. */
  function AfterLift(lifts: seq<Lift>, current: Declaration, at: PropertyRef): Declaration {
    match (current, LiftFor(lifts, at))
    case (Some(fields), Some(l)) => if "enum" in fields then Some(OpenProperty(fields, l).fields) else current
    case _ => current
  }

  lemma {:induction false} LiftView(schemas: Schemas, lifts: seq<Lift>, at: PropertyRef)
    ensures Property(LiftAll(schemas, lifts), at.schema, at.property) ==
            AfterLift(lifts, Property(schemas, at.schema, at.property), at)
  {
    LiftsAreExact(schemas, lifts, at.schema);
  }

  // ----- What a property accepts -----

  predicate HasType(v: Json, name: string) {
    match v
    case Null => name == "null"
    case Bool(_) => name == "boolean"
    case Num(n) => name == "number" || (name == "integer" && n.Floor as real == n)
    case Str(_) => name == "string"
    case Arr(_) => name == "array"
    case Obj(_) => name == "object"
  }

  /** The `type` keyword: one name, or a list of alternatives. */
  predicate TypeMatches(declared: Json, v: Json) {
    match declared
    case Str(name) => HasType(v, name)
    case Arr(names) => exists i :: 0 <= i < |names| && names[i].Str? && HasType(v, names[i].s)
    case _ => false
  }

  predicate Nullable(fields: map<string, Json>) {
    "nullable" in fields && fields["nullable"] == Bool(true)
  }

  predicate TypeAllows(fields: map<string, Json>, v: Json) {
    "type" in fields ==> TypeMatches(fields["type"], v) || (Nullable(fields) && v == Null)
  }

  predicate EnumAllows(fields: map<string, Json>, v: Json) {
    "enum" in fields ==> fields["enum"].Arr? && v in fields["enum"].items
  }

  /** Whether `v` satisfies every keyword of `schema` this step can touch: `type` with
      `nullable`, `enum`, `anyOf` and `$ref`, the last followed at most `depth` times. */
  ghost predicate Accepts(schemas: Schemas, schema: Json, v: Json, depth: nat)
    decreases depth, schema
  {
    && schema.Obj?
    && TypeAllows(schema.fields, v)
    && EnumAllows(schema.fields, v)
    && ("anyOf" in schema.fields ==> (
          && schema.fields["anyOf"].Arr?
          && exists i :: 0 <= i < |schema.fields["anyOf"].items| &&
                         Accepts(schemas, schema.fields["anyOf"].items[i], v, depth)))
    && ("$ref" in schema.fields ==> (
          && depth > 0
          && schema.fields["$ref"].Str?
          && exists name :: name in schemas && schema.fields["$ref"].s == REF_PREFIX + name &&
                            Accepts(schemas, schemas[name], v, depth - 1)))
  }

  /** The opened property accepts what its component accepts and everything of the bare
      type, and its reference resolves. */
  lemma {:induction false} OpenPropertyMeaning(schemas: Schemas, current: map<string, Json>, l: Lift, v: Json,
      depth: nat)
    requires depth > 0 && l.component in schemas
    ensures Accepts(schemas, OpenProperty(current, l), v, depth) <==>
            TypeMatches(BareType(current), v) || Accepts(schemas, schemas[l.component], v, depth - 1)
  {
    var open := OpenProperty(current, l);
    var choices := open.fields["anyOf"].items;
    assert |choices| == 2;
    assert Accepts(schemas, choices[1], v, depth) <==> TypeMatches(BareType(current), v);
    var ref := choices[0];
    assert ref.fields["$ref"].s == REF_PREFIX + l.component;
    forall name | ref.fields["$ref"].s == REF_PREFIX + name ensures name == l.component {
      assert (REF_PREFIX + name)[|REF_PREFIX|..] == name;
      assert (REF_PREFIX + l.component)[|REF_PREFIX|..] == l.component;
    }
    assert Accepts(schemas, ref, v, depth) <==> Accepts(schemas, schemas[l.component], v, depth - 1);
    assert Accepts(schemas, open, v, depth) <==>
           (Accepts(schemas, choices[0], v, depth) || Accepts(schemas, choices[1], v, depth));
  }

  /** The documented values, when the enum is a list. */
  function Documented(current: map<string, Json>): seq<Json> {
    if "enum" in current && current["enum"].Arr? then current["enum"].items else []
  }

  /** A lift only widens the property exactly when each documented value it accepted is of
      the bare type, or accepted by the component, be it the new one or one already stored. */
  lemma LiftWidensExactlyWhenEachValueIsTaken(schemas: Schemas, l: Lift, depth: nat)
    requires Liftable(schemas, l) && depth > 0
    ensures var current, lifted := Property(schemas, l.schema, l.property).value, LiftOne(schemas, l);
      && l.component in lifted
      && ((forall v :: Accepts(schemas, Obj(current), v, depth) ==>
             Accepts(lifted, OpenProperty(current, l), v, depth))
          <==>
          (forall v :: v in Documented(current) && Accepts(schemas, Obj(current), v, depth) ==>
             TypeMatches(BareType(current), v) || Accepts(lifted, lifted[l.component], v, depth - 1)))
  {
    var current, lifted := Property(schemas, l.schema, l.property).value, LiftOne(schemas, l);
    LiftIsLocal(schemas, l);
    forall v
      ensures Accepts(lifted, OpenProperty(current, l), v, depth) <==>
              TypeMatches(BareType(current), v) || Accepts(lifted, lifted[l.component], v, depth - 1)
    {
      OpenPropertyMeaning(lifted, current, l, v, depth);
    }
    assert forall v :: Accepts(schemas, Obj(current), v, depth) ==> v in Documented(current);
  }

  /** The documented values all fit the type the opened property is given: the type is
      declared and no documented null relies on `nullable`, or every value is a string. */
  predicate FitsBareType(current: map<string, Json>) {
    if "type" in current
    then !(Nullable(current) && Null in Documented(current) && !TypeMatches(current["type"], Null))
    else forall e :: e in Documented(current) ==> e.Str?
  }

  /** With a component of its own, a property that says no more than `type` and `enum` only
      widens exactly when its values fit the bare type. One with no declared type is given
      `string`, and `nullable` is dropped, so the other values are refused afterwards. */
  lemma LiftWidensExactlyWhenValuesFit(schemas: Schemas, l: Lift, depth: nat)
    requires Liftable(schemas, l) && l.component !in schemas && depth > 0
    requires var current := Property(schemas, l.schema, l.property).value; "anyOf" !in current && "$ref" !in current
    ensures var current, lifted := Property(schemas, l.schema, l.property).value, LiftOne(schemas, l);
      (forall v :: Accepts(schemas, Obj(current), v, depth) ==>
         Accepts(lifted, OpenProperty(current, l), v, depth))
      <==> FitsBareType(current)
  {
    var current, lifted := Property(schemas, l.schema, l.property).value, LiftOne(schemas, l);
    LiftWidensExactlyWhenEachValueIsTaken(schemas, l, depth);
    LiftIsLocal(schemas, l);
    assert forall v :: Accepts(lifted, lifted[l.component], v, depth - 1) ==> TypeMatches(BareType(current), v);
    if !FitsBareType(current) {
      var v :| v in Documented(current) && !TypeMatches(BareType(current), v) &&
        ("type" in current ==> v == Null && Nullable(current));
      assert Accepts(schemas, Obj(current), v, depth);
    }
  }

  /** Whatever the component already says, a typed property without `nullable` only widens,
      and takes every value of its type. */
  lemma {:induction false} LiftWidensTyped(schemas: Schemas, l: Lift, v: Json, depth: nat)
    requires Liftable(schemas, l) && depth > 0
    requires var current := Property(schemas, l.schema, l.property).value;
      "type" in current && !Nullable(current)
    ensures var current, lifted := Property(schemas, l.schema, l.property).value, LiftOne(schemas, l);
      Accepts(schemas, Obj(current), v, depth) || TypeMatches(current["type"], v) ==>
        Accepts(lifted, OpenProperty(current, l), v, depth)
  {
    var current, lifted := Property(schemas, l.schema, l.property).value, LiftOne(schemas, l);
    LiftIsLocal(schemas, l);
    OpenPropertyMeaning(lifted, current, l, v, depth);
  }

  /** A component created by a lift accepts the documented values of the bare type. */
  lemma {:induction false} ComponentHoldsTheValues(schemas: Schemas, l: Lift, v: Json, depth: nat)
    requires Liftable(schemas, l) && l.component !in schemas
    requires Property(schemas, l.schema, l.property).value["enum"].Arr?
    ensures var current, lifted := Property(schemas, l.schema, l.property).value, LiftOne(schemas, l);
      Accepts(lifted, lifted[l.component], v, depth) <==>
        v in current["enum"].items && TypeMatches(BareType(current), v)
  {
    LiftIsLocal(schemas, l);
  }
}
