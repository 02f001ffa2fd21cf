/** What the OpenPix overlay is for, read off its result key by key: every correction of the
    tables is in place, the schemas they name keep everything else, the report counts the
    claims of the walk, and an exception escapes exactly for the blocks it cannot read. */
module OpenPixGoals {
  import opened Json
  import opened OverlayEnums
  import opened OpenPixWalk
  import opened JsonPointers
  import opened OpenPixOverlay
  import opened OpenPixProperties
  import opened OpenPixIdempotence
  import opened OpenPixResult

  // ----- Reading the schemas of a document -----

  predicate IsMapping(schemas: Schemas, name: string) {
    name in schemas && schemas[name].Obj?
  }

  /** The value a schema's `properties` has under a name, mapping or not. */
  function RawProperty(schemas: Schemas, at: PropertyRef): Option<Json> {
    if at.schema in schemas && schemas[at.schema].Has("properties")
    then schemas[at.schema].fields["properties"].Get(at.property) else None
  }

  // ----- Every correction is in place -----

  /** Each property of the table is declared, in each schema whose properties can be. */
  ghost predicate DeclaredInPlace(t: Tables, schemas: Schemas) {
    forall e :: e in t.declared && IsMapping(schemas, e.at.schema) ==>
      && "properties" in schemas[e.at.schema].fields
      && (schemas[e.at.schema].fields["properties"].Obj? ==> RawProperty(schemas, e.at).Some?)
  }

  /** Each property that is declared has the type of the table. */
  ghost predicate CorrectedInPlace(t: Tables, schemas: Schemas) {
    forall e :: e in t.mistyped && RawProperty(schemas, e.at).Some? && RawProperty(schemas, e.at).value.Obj? ==>
      SameType(RawProperty(schemas, e.at).value.fields, e.value)
  }

  /** The `type` is the corrected one, where there is one. */
  ghost predicate SameType(fields: map<string, Json>, corrected: Json) {
    corrected.Has("type") && corrected.fields["type"] != Null ==>
      "type" in fields && fields["type"] == corrected.fields["type"]
  }

  ghost predicate OpenedInPlace(t: Tables, schemas: Schemas) {
    forall l :: l in t.lifts && RawProperty(schemas, l.At()).Some? && RawProperty(schemas, l.At()).value.Obj? ==>
      "enum" !in RawProperty(schemas, l.At()).value.fields
  }

  ghost predicate BoundedInPlace(t: Tables, schemas: Schemas) {
    forall at :: at in t.nonEmpty && RawProperty(schemas, at).Some? && RawProperty(schemas, at).value.Obj? ==>
      RawProperty(schemas, at).value.Get("type") == Some(Str("array")) ==>
      "minItems" in RawProperty(schemas, at).value.fields
  }

  ghost predicate PatchedInPlace(t: Tables, result: Json) {
    forall q :: q in t.pointers && Mapping(result, KeysOf(q.pointer)).Some? ==>
      SameType(Mapping(result, KeysOf(q.pointer)).value, q.value)
  }

  lemma {:induction false} SettledIsInPlace(t: Tables, schemas: Schemas)
    requires Settled(t, schemas)
    ensures DeclaredInPlace(t, schemas) && CorrectedInPlace(t, schemas)
    ensures OpenedInPlace(t, schemas) && BoundedInPlace(t, schemas)
  {
    forall e | e in t.declared && IsMapping(schemas, e.at.schema)
      ensures "properties" in schemas[e.at.schema].fields
      ensures schemas[e.at.schema].fields["properties"].Obj? ==> RawProperty(schemas, e.at).Some?
    {
      assert Missing(schemas, e.at) == Ok(false);
    }
    forall e | e in t.mistyped && RawProperty(schemas, e.at).Some? && RawProperty(schemas, e.at).value.Obj?
      ensures SameType(RawProperty(schemas, e.at).value.fields, e.value)
    {
      assert !Mistyped(schemas, e);
    }
    forall l | l in t.lifts && RawProperty(schemas, l.At()).Some? && RawProperty(schemas, l.At()).value.Obj?
      ensures "enum" !in RawProperty(schemas, l.At()).value.fields
    {
      assert !Liftable(schemas, l);
    }
    forall at | at in t.nonEmpty && RawProperty(schemas, at).Some? && RawProperty(schemas, at).value.Obj? &&
      RawProperty(schemas, at).value.Get("type") == Some(Str("array"))
      ensures "minItems" in RawProperty(schemas, at).value.fields
    {
      assert Unbounded(schemas, at) == Ok(false);
    }
  }

  /** After a run every property and every place of the tables is as they say, whatever the
      document said: declared, of the corrected type, open, or bounded. */
  lemma {:induction false} GoalsAreReached(t: Tables, document: Json)
    requires WellFormed(t)
    ensures Apply(t, document).Ok? ==>
      var result := Apply(t, document).value.0;
      && SchemaBlock(result).Ok?
      && DeclaredInPlace(t, SchemaBlock(result).value) && CorrectedInPlace(t, SchemaBlock(result).value)
      && OpenedInPlace(t, SchemaBlock(result).value) && BoundedInPlace(t, SchemaBlock(result).value)
      && PatchedInPlace(t, result)
  {
    if Apply(t, document).Ok? {
      var walked := Retyped(t.rules, document, Schema(None));
      FinalBlock(t, walked);
      SettledIsInPlace(t, SchemaBlock(Apply(t, document).value.0).value);
      NoPointerLeft(t, document);
      forall q | q in t.pointers && Mapping(Apply(t, document).value.0, KeysOf(q.pointer)).Some?
        ensures SameType(Mapping(Apply(t, document).value.0, KeysOf(q.pointer)).value, q.value)
      {
        assert !Patchable(Apply(t, document).value.0, q);
      }
    }
  }

  // ----- What a named schema keeps -----

  /** The schema is there, with every key it had, and the same value under each but
      `properties`; that one is kept too when it is not a mapping. */
  ghost predicate KeepsSchema(before: Schemas, after: Schemas, name: string) {
    name in before ==>
      && name in after
      && if !before[name].Obj? then after[name] == before[name] else
           && after[name].Obj?
           && after[name].fields - {"properties"} == before[name].fields - {"properties"}
           && ("properties" in before[name].fields ==>
                 && "properties" in after[name].fields
                 && after[name].fields["properties"].Obj? == before[name].fields["properties"].Obj?
                 && (!before[name].fields["properties"].Obj? ==>
                       after[name].fields["properties"] == before[name].fields["properties"]))
           && ("properties" !in before[name].fields && "properties" in after[name].fields ==>
                 after[name].fields["properties"].Obj?)
  }

  lemma KeepsInTurn(a: Schemas, b: Schemas, c: Schemas, name: string)
    requires KeepsSchema(a, b, name) && KeepsSchema(b, c, name)
    ensures KeepsSchema(a, c, name)
  {
  }

  lemma {:induction false} PropertyKeepsSchema(schemas: Schemas, at: PropertyRef, v: Json, name: string)
    requires IsMapping(schemas, at.schema) && PropertiesOf(schemas[at.schema].fields).Obj?
    ensures var target := schemas[at.schema].fields;
      KeepsSchema(schemas, schemas[at.schema := Obj(target["properties" := Obj(
          PropertiesOf(target).fields[at.property := v])])], name)
  {
    var target := schemas[at.schema].fields;
    assert target["properties" := Obj(PropertiesOf(target).fields[at.property := v])] - {"properties"} ==
           target - {"properties"};
  }

  lemma {:induction false} DeclareKeepsSchemas(schemas: Schemas, es: seq<Entry>, name: string)
    requires Declare(schemas, es).Ok?
    ensures KeepsSchema(schemas, Declare(schemas, es).value.0, name)
    ensures name in Declare(schemas, es).value.0 ==> name in schemas
    decreases |es|
  {
    if es == [] {
    } else {
      var soFar, last := Declare(schemas, es[..|es| - 1]).value.0, es[|es| - 1];
      DeclareKeepsSchemas(schemas, es[..|es| - 1], name);
      if Missing(soFar, last.at) == Ok(true) {
        PropertyKeepsSchema(soFar, last.at, last.value, name);
        KeepsInTurn(schemas, soFar, Declare(schemas, es).value.0, name);
      }
    }
  }

  lemma {:induction false} CorrectKeepsSchemas(schemas: Schemas, es: seq<Entry>, name: string)
    ensures KeepsSchema(schemas, Correct(schemas, es), name)
    ensures name in Correct(schemas, es) ==> name in schemas
    decreases |es|
  {
    if es == [] {
    } else {
      var soFar, last := Correct(schemas, es[..|es| - 1]), es[|es| - 1];
      CorrectKeepsSchemas(schemas, es[..|es| - 1], name);
      if Mistyped(soFar, last) {
        PropertyKeepsSchema(soFar, last.at, last.value, name);
        KeepsInTurn(schemas, soFar, Correct(schemas, es), name);
      }
    }
  }

  lemma {:induction false} LiftKeepsSchemas(schemas: Schemas, lifts: seq<Lift>, name: string)
    ensures KeepsSchema(schemas, LiftAll(schemas, lifts), name)
    ensures name in LiftAll(schemas, lifts) && name !in schemas ==> exists l :: l in lifts && l.component == name
    decreases |lifts|
  {
    if lifts == [] {
    } else {
      var soFar, last := LiftAll(schemas, lifts[..|lifts| - 1]), lifts[|lifts| - 1];
      assert last in lifts && forall l :: l in lifts[..|lifts| - 1] ==> l in lifts;
      LiftKeepsSchemas(schemas, lifts[..|lifts| - 1], name);
      if Liftable(soFar, last) {
        var current := Property(soFar, last.schema, last.property).value;
        var grown := if last.component in soFar then soFar else soFar[last.component := ClosedComponent(current, last)];
        PropertyKeepsSchema(grown, last.At(), OpenProperty(current, last), name);
        assert KeepsSchema(soFar, grown, name);
        KeepsInTurn(soFar, grown, LiftAll(schemas, lifts), name);
        KeepsInTurn(schemas, soFar, LiftAll(schemas, lifts), name);
      }
    }
  }

  lemma {:induction false} RequireKeepsSchemas(schemas: Schemas, rs: seq<PropertyRef>, name: string)
    requires RequireItems(schemas, rs).Ok?
    ensures KeepsSchema(schemas, RequireItems(schemas, rs).value.0, name)
    ensures name in RequireItems(schemas, rs).value.0 ==> name in schemas
    decreases |rs|
  {
    if rs == [] {
    } else {
      var soFar, last := RequireItems(schemas, rs[..|rs| - 1]).value.0, rs[|rs| - 1];
      RequireKeepsSchemas(schemas, rs[..|rs| - 1], name);
      if Unbounded(soFar, last) == Ok(true) {
        var v := Obj(Property(soFar, last.schema, last.property).value["minItems" := Num(1.0)]);
        PropertyKeepsSchema(soFar, last, v, name);
        KeepsInTurn(schemas, soFar, RequireItems(schemas, rs).value.0, name);
      }
    }
  }

  /** Every schema of the document, named by a table or not, keeps its keys and what is under
      each but `properties`; and only a component a lift names appears. */
  lemma {:induction false} SchemasKeepTheRest(t: Tables, document: Json, name: string)
    requires WellFormed(t)
    ensures Apply(t, document).Ok? ==>
      var result, walked := SchemaBlock(Apply(t, document).value.0),
          SchemaBlock(Retyped(t.rules, document, Schema(None)));
      && result.Ok? && walked.Ok?
      && KeepsSchema(walked.value, result.value, name)
      && (name in result.value && name !in walked.value ==> exists l :: l in t.lifts && l.component == name)
  {
    if Apply(t, document).Ok? {
      BlocksOfResult(t, document);
      BlockKeepsTheRest(t, SchemaBlock(Retyped(t.rules, document, Schema(None))).value, name);
    }
  }

  lemma {:induction false} BlockKeepsTheRest(t: Tables, walked: Schemas, name: string)
    requires Declare(walked, t.declared).Ok?
    requires RequireItems(LiftAll(CorrectedSchemas(t, walked), t.lifts), t.nonEmpty).Ok?
    ensures var ready := RequireItems(LiftAll(CorrectedSchemas(t, walked), t.lifts), t.nonEmpty).value.0;
      && KeepsSchema(walked, ready, name)
      && (name in ready && name !in walked ==> exists l :: l in t.lifts && l.component == name)
  {
    var declared, corrected := Declare(walked, t.declared).value.0, CorrectedSchemas(t, walked);
    var lifted := LiftAll(corrected, t.lifts);
    var ready := RequireItems(lifted, t.nonEmpty).value.0;
    DeclareKeepsSchemas(walked, t.declared, name);
    CorrectKeepsSchemas(declared, t.mistyped, name);
    LiftKeepsSchemas(corrected, t.lifts, name);
    RequireKeepsSchemas(lifted, t.nonEmpty, name);
    KeepsInTurn(walked, declared, corrected, name);
    KeepsInTurn(walked, corrected, lifted, name);
    KeepsInTurn(walked, lifted, ready, name);
  }

  // ----- The count -----

  /** The report counts each place the walk claimed, once. */
  lemma {:induction false} ReportCountsClaims(t: Tables, document: Json)
    ensures Apply(t, document).Ok? ==>
              Apply(t, document).value.1.integerFields == |Claimed(t.rules, document, Schema(None))|
  {
  }

  // ----- The exceptions -----

  /** The entry's schema is not there, or its properties can take the entry or name it. */
  predicate CanDeclare(schemas: Schemas, at: PropertyRef) {
    || !IsMapping(schemas, at.schema) || "properties" !in schemas[at.schema].fields
    || match schemas[at.schema].fields["properties"]
       case Obj(_) => true
       case Arr(items) => Str(at.property) in items
       case Str(text) => Contains(text, at.property)
       case _ => false
  }

  predicate CanBound(schemas: Schemas, at: PropertyRef) {
    !IsMapping(schemas, at.schema) || !schemas[at.schema].Has("properties") ||
      schemas[at.schema].fields["properties"].Obj?
  }

  lemma MissingRaisesExactly(schemas: Schemas, at: PropertyRef)
    ensures Missing(schemas, at).Ok? <==> CanDeclare(schemas, at)
    ensures Missing(schemas, at).Err? ==> Missing(schemas, at) == Err(TypeError)
  {
  }

  lemma {:induction false} DeclareRaisesExactly(schemas: Schemas, es: seq<Entry>)
    ensures Declare(schemas, es).Ok? <==> forall e :: e in es ==> CanDeclare(schemas, e.at)
    ensures Declare(schemas, es).Err? ==> Declare(schemas, es) == Err(TypeError)
    decreases |es|
  {
    if es == [] {
    } else {
      var earlier, last := es[..|es| - 1], es[|es| - 1];
      assert forall e :: e in es <==> e in earlier || e == last;
      DeclareRaisesExactly(schemas, earlier);
      if Declare(schemas, earlier).Ok? {
        var soFar := Declare(schemas, earlier).value.0;
        DeclareKeepsSchemas(schemas, earlier, last.at.schema);
        MissingRaisesExactly(soFar, last.at);
        assert CanDeclare(soFar, last.at) <==> CanDeclare(schemas, last.at);
      }
    }
  }

  lemma {:induction false} RequireRaisesExactly(schemas: Schemas, rs: seq<PropertyRef>)
    ensures RequireItems(schemas, rs).Ok? <==> forall at :: at in rs ==> CanBound(schemas, at)
    ensures RequireItems(schemas, rs).Err? ==> RequireItems(schemas, rs) == Err(AttributeError)
    decreases |rs|
  {
    if rs == [] {
    } else {
      var earlier, last := rs[..|rs| - 1], rs[|rs| - 1];
      assert forall at :: at in rs <==> at in earlier || at == last;
      RequireRaisesExactly(schemas, earlier);
      if RequireItems(schemas, earlier).Ok? {
        RequireKeepsSchemas(schemas, earlier, last.schema);
        assert CanBound(RequireItems(schemas, earlier).value.0, last) <==> CanBound(schemas, last);
      }
    }
  }

  /** The components and their schemas, where they are, are mappings. */
  predicate Readable(document: Json) {
    && document.Obj?
    && (document.Has("components") ==>
          && document.fields["components"].Obj?
          && (document.fields["components"].Has("schemas") ==>
                document.fields["components"].fields["schemas"].Obj?))
  }

  lemma {:induction false} BlockRaisesExactly(t: Tables, walked: Schemas)
    requires WellFormed(t) && Declare(walked, t.declared).Ok?
    ensures RequireItems(LiftAll(CorrectedSchemas(t, walked), t.lifts), t.nonEmpty).Ok? <==>
            forall at :: at in t.nonEmpty ==> CanBound(walked, at)
    ensures RequireItems(LiftAll(CorrectedSchemas(t, walked), t.lifts), t.nonEmpty).Err? ==>
              RequireItems(LiftAll(CorrectedSchemas(t, walked), t.lifts), t.nonEmpty) == Err(AttributeError)
  {
    var declared, corrected := Declare(walked, t.declared).value.0, CorrectedSchemas(t, walked);
    var lifted := LiftAll(corrected, t.lifts);
    RequireRaisesExactly(lifted, t.nonEmpty);
    forall at | at in t.nonEmpty ensures CanBound(lifted, at) <==> CanBound(walked, at) {
      DeclareKeepsSchemas(walked, t.declared, at.schema);
      CorrectKeepsSchemas(declared, t.mistyped, at.schema);
      LiftKeepsSchemas(corrected, t.lifts, at.schema);
    }
  }

  /** What escapes is decided by the document as the walk leaves it: a block that is no
      mapping, then properties that cannot take an entry, then properties that are no
      mapping; otherwise nothing escapes. */
  lemma {:induction false} RaisesExactly(t: Tables, document: Json)
    requires WellFormed(t)
    ensures var walked := Retyped(t.rules, document, Schema(None));
      if !Readable(walked) then Apply(t, document) == Err(AttributeError)
      else
        && SchemaBlock(walked).Ok?
        && var schemas := SchemaBlock(walked).value;
        if exists e :: e in t.declared && !CanDeclare(schemas, e.at) then Apply(t, document) == Err(TypeError)
        else if exists at :: at in t.nonEmpty && !CanBound(schemas, at) then Apply(t, document) == Err(AttributeError)
        else Apply(t, document).Ok?
  {
    var walked := Retyped(t.rules, document, Schema(None));
    if SchemaBlock(walked).Ok? {
      var schemas := SchemaBlock(walked).value;
      DeclareRaisesExactly(schemas, t.declared);
      if Declare(schemas, t.declared).Ok? {
        BlockRaisesExactly(t, schemas);
        BlockBeforeOpening(t, walked);
      }
    }
  }

  lemma {:induction false} BlockBeforeOpening(t: Tables, walked: Json)
    requires WellFormed(t) && SchemaBlock(walked).Ok? && Declare(SchemaBlock(walked).value, t.declared).Ok?
    ensures Declaring(t, walked).Ok?
    ensures SchemaBlock(PatchPointers(Declaring(t, walked).value.0, t.pointers)) ==
            Ok(CorrectedSchemas(t, SchemaBlock(walked).value))
  {
    var corrected := CorrectedSchemas(t, SchemaBlock(walked).value);
    LookupBlock(walked);
    EmptyBlockStays(t);
    BlockReadsBack(walked, corrected);
    PointersKeepBlock(Declaring(t, walked).value.0, t.pointers);
  }

  /** The walk changes no shape, so the document itself decides whether the block is read. */
  lemma {:induction false} WalkKeepsReadable(rules: Rules, document: Json)
    ensures Readable(Retyped(rules, document, Schema(None))) <==> Readable(document)
  {
    var context := Schema(None);
    RetypedKeepsKey(rules, document, context, "components");
    if document.Has("components") {
      var below := Child(rules, document, context, Key("components"));
      assert "type" != "components" by { assert |"type"| == 4 && |"components"| == 10; }
      assert Retyped(rules, document, context).fields["components"] ==
             Retyped(rules, document.fields["components"], below);
      RetypedKeepsKey(rules, document.fields["components"], below, "schemas");
    }
  }

  lemma {:induction false} RetypedKeepsKey(rules: Rules, node: Json, context: Context, key: string)
    ensures var after := Retyped(rules, node, context);
      && after.Obj? == node.Obj? && after.Has(key) == node.Has(key)
      && (node.Has(key) ==> after.fields[key].Obj? == node.fields[key].Obj?)
  {
  }
}
