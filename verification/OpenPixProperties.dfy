/** Applying the OpenPix overlay to its own output changes nothing: no step introduces a
    schema the walk would claim, or undoes what another step settled. */
module OpenPixProperties {
  import opened Json
  import opened Reachability
  import opened OverlayEnums
  import opened OpenPixWalk
  import opened JsonPointers
  import opened OpenPixOverlay

  // ----- Quiet documents: nothing for the walk to claim -----

  ghost predicate Quiet(rules: Rules, node: Json, context: Context) {
    Claimed(rules, node, context) == {}
  }

  /** Each part of a quiet value is quiet where it is read, and the value is not claimed. */
  ghost predicate QuietParts(rules: Rules, node: Json, context: Context) {
    match node
    case Obj(fields) =>
      && !Claims(rules, context, fields)
      && forall k :: k in fields ==> Quiet(rules, fields[k], Child(rules, node, context, Key(k)))
    case Arr(items) =>
      forall i :: 0 <= i < |items| ==> Quiet(rules, items[i], Child(rules, node, context, Index(i)))
    case _ => true
  }

  lemma {:induction false} QuietUnder(rules: Rules, node: Json, context: Context)
    requires node.Obj?
    ensures ClaimedUnder(rules, node, context, node.fields.Keys) == {} <==>
            forall k :: k in node.fields ==> Quiet(rules, node.fields[k], Child(rules, node, context, Key(k)))
  {
    forall k, p | k in node.fields && p in Claimed(rules, node.fields[k], Child(rules, node, context, Key(k)))
      ensures [Key(k)] + p in ClaimedUnder(rules, node, context, node.fields.Keys)
    {
    }
  }

  lemma {:induction false} QuietUpTo(rules: Rules, node: Json, context: Context)
    requires node.Arr?
    ensures ClaimedUpTo(rules, node, context, |node.items|) == {} <==>
            forall i :: 0 <= i < |node.items| ==> Quiet(rules, node.items[i], Child(rules, node, context, Index(i)))
  {
    forall i, p | 0 <= i < |node.items| && p in Claimed(rules, node.items[i], Child(rules, node, context, Index(i)))
      ensures [Index(i)] + p in ClaimedUpTo(rules, node, context, |node.items|)
    {
    }
  }

  lemma QuietIsQuietParts(rules: Rules, node: Json, context: Context)
    ensures Quiet(rules, node, context) <==> QuietParts(rules, node, context)
  {
    if node.Obj? {
      QuietUnder(rules, node, context);
      assert Claims(rules, context, node.fields) ==> [] in Claimed(rules, node, context);
    } else if node.Arr? {
      QuietUpTo(rules, node, context);
    }
  }

  /** The walk leaves a quiet value as it is. */
  lemma {:induction false} QuietIsUnchanged(rules: Rules, node: Json, context: Context)
    requires Quiet(rules, node, context)
    ensures Retyped(rules, node, context) == node
    decreases node
  {
    QuietIsQuietParts(rules, node, context);
    match node
    case Obj(fields) =>
      forall k | k in fields ensures Retyped(rules, fields[k], Child(rules, node, context, Key(k))) == fields[k] {
        QuietIsUnchanged(rules, fields[k], Child(rules, node, context, Key(k)));
      }
      assert Retyped(rules, node, context).fields == fields;
    case Arr(items) =>
      forall i | 0 <= i < |items| ensures Retyped(rules, items[i], Child(rules, node, context, Index(i))) == items[i] {
        QuietIsUnchanged(rules, items[i], Child(rules, node, context, Index(i)));
      }
      assert Retyped(rules, node, context).items == items;
    case _ =>
  }

  /** No mapping at any depth has the type `number`. */
  ghost predicate NoNumber(node: Json) {
    match node
    case Obj(fields) => TypeOf(node) != Str("number") && forall k :: k in fields ==> NoNumber(fields[k])
    case Arr(items) => forall i :: 0 <= i < |items| ==> NoNumber(items[i])
    case _ => true
  }

  lemma {:induction false} NoNumberIsQuiet(rules: Rules, node: Json, context: Context)
    requires NoNumber(node)
    ensures Quiet(rules, node, context)
    decreases node
  {
    QuietIsQuietParts(rules, node, context);
    match node
    case Obj(fields) =>
      forall k | k in fields ensures Quiet(rules, fields[k], Child(rules, node, context, Key(k))) {
        NoNumberIsQuiet(rules, fields[k], Child(rules, node, context, Key(k)));
      }
    case Arr(items) =>
      forall i | 0 <= i < |items| ensures Quiet(rules, items[i], Child(rules, node, context, Index(i))) {
        NoNumberIsQuiet(rules, items[i], Child(rules, node, context, Index(i)));
      }
    case _ =>
  }

  /** The patterns cannot tell a description that is not text from what the walk makes of
      it: none of them looks for the words `number` and `integer`. */
  ghost predicate Blind(rules: Rules) {
    forall v: Json ::
      var w := Retyped(rules, v, Schema(None));
      && rules.notCents(rules.render(w)) == rules.notCents(rules.render(v))
      && rules.cents(rules.render(w)) == rules.cents(rules.render(v))
      && rules.statusCode(rules.render(w)) == rules.statusCode(rules.render(v))
  }

  lemma {:induction false} RetypedKeepsTruth(rules: Rules, node: Json, context: Context)
    ensures Retyped(rules, node, context).Truthy() == node.Truthy()
    ensures Retyped(rules, node, context).Str? == node.Str?
    ensures node.Str? ==> Retyped(rules, node, context) == node
  {
    if node.Obj? {
      assert Retyped(rules, node, context).fields.Keys == node.fields.Keys;
    }
  }

  lemma {:induction false} RetypedSchemaIsNotClaimed(rules: Rules, node: Json, context: Context)
    requires Blind(rules) && node.Obj?
    ensures !Claims(rules, context, Retyped(rules, node, context).fields)
  {
    var fields, after := node.fields, Retyped(rules, node, context).fields;
    if context.Schema? && "type" in fields && fields["type"] == Str("number") && !Claims(rules, context, fields) {
      if "description" in fields {
        assert after["description"] == Retyped(rules, fields["description"], Schema(None));
        RetypedKeepsTruth(rules, fields["description"], Schema(None));
      }
    }
  }

  lemma {:induction false} RetypedParameterKeepsName(rules: Rules, node: Json, context: Context)
    ensures node.Obj? && context.Parameter? ==>
              ParameterName(rules, Retyped(rules, node, context).fields) == ParameterName(rules, node.fields)
  {
    if node.Has("name") {
      UnreadHasNoClaims(rules, node.fields["name"]);
    }
  }

  /** Walking keeps how each part is read. */
  lemma {:induction false} ContextsStay(rules: Rules, node: Json, context: Context)
    ensures node.Obj? ==> forall k :: k in node.fields ==>
              Child(rules, Retyped(rules, node, context), context, Key(k)) == Child(rules, node, context, Key(k))
              || (k == "type" && Claims(rules, context, node.fields))
    ensures node.Arr? ==> forall i :: 0 <= i < |node.items| ==>
              Child(rules, Retyped(rules, node, context), context, Index(i)) == Child(rules, node, context, Index(i))
  {
    if node.Arr? {
      forall i | 0 <= i < |node.items|
        ensures Child(rules, Retyped(rules, node, context), context, Index(i)) == Child(rules, node, context, Index(i))
      {
        if node.items[i].Obj? && context.Parameters? {
          RetypedParameterKeepsName(rules, node.items[i], Child(rules, node, context, Index(i)));
        }
      }
    }
  }

  /** Once walked, nothing is left to claim. */
  lemma {:induction false} RetypedIsQuiet(rules: Rules, node: Json, context: Context)
    requires Blind(rules)
    ensures Quiet(rules, Retyped(rules, node, context), context)
    decreases node
  {
    var after := Retyped(rules, node, context);
    ContextsStay(rules, node, context);
    match node
    case Obj(fields) =>
      RetypedSchemaIsNotClaimed(rules, node, context);
      forall k | k in fields ensures Quiet(rules, after.fields[k], Child(rules, after, context, Key(k))) {
        RetypedIsQuiet(rules, fields[k], Child(rules, node, context, Key(k)));
      }
      QuietIsQuietParts(rules, after, context);
    case Arr(items) =>
      forall i | 0 <= i < |items| ensures Quiet(rules, after.items[i], Child(rules, after, context, Index(i))) {
        RetypedIsQuiet(rules, items[i], Child(rules, node, context, Index(i)));
      }
      QuietIsQuietParts(rules, after, context);
    case _ =>
  }

  // ----- Editing a quiet document -----

  /** How a mapping under a key is read. */
  function MappingUnder(context: Context, key: string): Context {
    match context
    case Schema(name) => UnderKey(key, Obj(map[]), name)
    case Properties => Schema(Some(key))
    case Parameter(name) => if key == "schema" then Schema(name) else Unread
    case _ => Unread
  }

  function ContextOf(context: Context, keys: seq<string>): Context
    decreases |keys|
  {
    if keys == [] then context else ContextOf(MappingUnder(context, keys[0]), keys[1..])
  }

  /** No key on the way names the description of a schema. */
  predicate AvoidsDescriptions(context: Context, keys: seq<string>)
    decreases |keys|
  {
    keys == [] ||
    ((context.Schema? ==> keys[0] != "description") && AvoidsDescriptions(MappingUnder(context, keys[0]), keys[1..]))
  }

  lemma EntryKeepsQuiet(rules: Rules, fields: map<string, Json>, key: string, v: Json, context: Context)
    requires Quiet(rules, Obj(fields), context) && Quiet(rules, v, MappingUnder(context, key))
    requires v.Obj? && (context.Schema? ==> key != "description")
    requires context.Schema? || context.Properties? || context.Parameter? || context.Parameters? || context.Unread?
    ensures Quiet(rules, Obj(fields[key := v]), context)
  {
    var before, after := Obj(fields), Obj(fields[key := v]);
    QuietIsQuietParts(rules, before, context);
    QuietIsQuietParts(rules, after, context);
    forall k | k in after.fields ensures Quiet(rules, after.fields[k], Child(rules, after, context, Key(k))) {
      if k != key {
        assert Child(rules, after, context, Key(k)) == Child(rules, before, context, Key(k));
      }
    }
  }

  lemma MappingStep(node: Json, keys: seq<string>)
    requires keys != [] && Mapping(node, keys).Some?
    ensures node.Has(keys[0]) && node.fields[keys[0]].Obj?
    ensures Mapping(node.fields[keys[0]], keys[1..]) == Mapping(node, keys)
  {
    var child, rest := node.fields[keys[0]], keys[1..];
    assert Lookup(node, keys) == Lookup(child, rest);
    assert Lookup(child, rest).Some? && rest != [] ==> child.Has(rest[0]);
  }

  lemma {:induction false} PartIsQuiet(rules: Rules, node: Json, context: Context, keys: seq<string>)
    requires Quiet(rules, node, context) && Mapping(node, keys).Some?
    ensures Quiet(rules, Lookup(node, keys).value, ContextOf(context, keys))
    decreases |keys|
  {
    if keys == [] {
    } else {
      QuietIsQuietParts(rules, node, context);
      MappingStep(node, keys);
      PartIsQuiet(rules, node.fields[keys[0]], MappingUnder(context, keys[0]), keys[1..]);
    }
  }

  lemma {:induction false} ReplacedKeepsQuiet(rules: Rules, node: Json, context: Context, keys: seq<string>, v: Json)
    requires Quiet(rules, node, context) && Mapping(node, keys).Some? && v.Obj?
    requires AvoidsDescriptions(context, keys) && Quiet(rules, v, ContextOf(context, keys))
    ensures Quiet(rules, Replaced(node, keys, v), context)
    decreases |keys|
  {
    if keys == [] {
    } else {
      QuietIsQuietParts(rules, node, context);
      MappingStep(node, keys);
      var child := node.fields[keys[0]];
      ReplacedKeepsQuiet(rules, child, MappingUnder(context, keys[0]), keys[1..], v);
      assert Replaced(child, keys[1..], v).Obj?;
      EntryKeepsQuiet(rules, node.fields, keys[0], Replaced(child, keys[1..], v), context);
    }
  }

  /** A component name the walk does not read as a keyword. */
  predicate Ordinary(name: string) {
    name !in INHERITING + SKIPPED + {"properties", "parameters", "type", "description"}
  }

  ghost predicate QuietSchemas(rules: Rules, schemas: Schemas) {
    Quiet(rules, Obj(schemas), Schema(None))
  }

  lemma PropertyIsThere(schemas: Schemas, at: PropertyRef)
    requires Property(schemas, at.schema, at.property).Some?
    ensures Mapping(Obj(schemas), [at.schema, "properties", at.property]) == Property(schemas, at.schema, at.property)
    ensures Ordinary(at.schema) ==>
              ContextOf(Schema(None), [at.schema, "properties", at.property]) == Schema(Some(at.property))
  {
    var keys := [at.schema, "properties", at.property];
    assert keys[1..] == ["properties", at.property] && ["properties", at.property][1..] == [at.property];
    assert [at.property][1..] == [];
    assert Ordinary(at.schema) ==> MappingUnder(Schema(None), at.schema) == Schema(None);
    assert ContextOf(Properties, [at.property]) == Schema(Some(at.property));
    assert ContextOf(Schema(None), ["properties", at.property]) == Schema(Some(at.property));
    var properties := schemas[at.schema].fields["properties"];
    assert Lookup(properties, [at.property]) == Some(properties.fields[at.property]);
    assert Lookup(schemas[at.schema], ["properties", at.property]) == Some(properties.fields[at.property]);
  }

  lemma QuietProperty(rules: Rules, schemas: Schemas, at: PropertyRef)
    requires QuietSchemas(rules, schemas) && Ordinary(at.schema) && Property(schemas, at.schema, at.property).Some?
    ensures Quiet(rules, Obj(Property(schemas, at.schema, at.property).value), Schema(Some(at.property)))
  {
    var keys := [at.schema, "properties", at.property];
    PropertyIsThere(schemas, at);
    PartIsQuiet(rules, Obj(schemas), Schema(None), keys);
  }

  /** Giving a property of an ordinary schema a quiet value keeps the schemas quiet. */
  lemma PropertyKeepsQuiet(rules: Rules, schemas: Schemas, at: PropertyRef, v: Json)
    requires QuietSchemas(rules, schemas) && Ordinary(at.schema)
    requires at.schema in schemas && schemas[at.schema].Obj? && PropertiesOf(schemas[at.schema].fields).Obj?
    requires v.Obj? && Quiet(rules, v, Schema(Some(at.property)))
    ensures var target := schemas[at.schema].fields;
      QuietSchemas(rules, schemas[at.schema :=
          Obj(target["properties" := Obj(PropertiesOf(target).fields[at.property := v])])])
  {
    var target := schemas[at.schema].fields;
    var declared := PropertiesOf(target).fields;
    QuietIsQuietParts(rules, Obj(schemas), Schema(None));
    QuietIsQuietParts(rules, Obj(target), Schema(None));
    assert Quiet(rules, Obj(declared), Properties) by {
      QuietIsQuietParts(rules, Obj(declared), Properties);
    }
    EntryKeepsQuiet(rules, declared, at.property, v, Properties);
    EntryKeepsQuiet(rules, target, "properties", Obj(declared[at.property := v]), Schema(None));
    EntryKeepsQuiet(rules, schemas, at.schema, Obj(target["properties" := Obj(declared[at.property := v])]),
        Schema(None));
  }

  // ----- What the shipped tables satisfy -----

  ghost predicate WellFormed(t: Tables) {
    && Blind(t.rules)
    && !t.rules.cents("") && !t.rules.statusCode("")
    && (forall e :: e in t.declared + t.mistyped ==> Ordinary(e.at.schema) && e.value.Obj? && NoNumber(e.value))
    && (forall i, j :: 0 <= i < j < |t.mistyped| ==> t.mistyped[i].at != t.mistyped[j].at)
    && (forall l :: l in t.lifts ==> LiftFits(t, l))
    && (forall at :: at in t.nonEmpty ==> Ordinary(at.schema))
    && (forall q :: q in t.pointers ==> PointerFits(q))
    && (forall i, j :: 0 <= i < j < |t.pointers| ==>
       Apart(KeysOf(t.pointers[i].pointer), KeysOf(t.pointers[j].pointer)))
  }

  /** A property to open is not one measured in whole units nor one to correct, and its
      component is a new ordinary name whose description proves no unit. */
  ghost predicate LiftFits(t: Tables, l: Lift) {
    && Ordinary(l.schema) && Ordinary(l.component)
    && l.property !in t.rules.integerNames
    && !t.rules.cents(ComponentDescription(l)) && !t.rules.statusCode(ComponentDescription(l))
    && (forall e :: e in t.declared + t.mistyped ==> e.at.schema != l.component)
    && (forall e :: e in t.mistyped ==> e.at != l.At())
    && (forall at :: at in t.nonEmpty ==> at.schema != l.component)
  }

  /** A pointer leads outside the components, and through no description. */
  ghost predicate PointerFits(q: PointerPatch) {
    && q.value.Obj? && NoNumber(q.value)
    && KeysOf(q.pointer)[0] != "components"
    && AvoidsDescriptions(Schema(None), KeysOf(q.pointer))
  }

  // ----- The steps keep the schemas quiet -----

  lemma {:induction false} DeclareKeepsQuiet(t: Tables, schemas: Schemas, es: seq<Entry>)
    requires QuietSchemas(t.rules, schemas)
    requires forall e :: e in es ==> Ordinary(e.at.schema) && e.value.Obj? && NoNumber(e.value)
    ensures Declare(schemas, es).Ok? ==> QuietSchemas(t.rules, Declare(schemas, es).value.0)
    decreases |es|
  {
    if es == [] {
    } else {
      var last := es[|es| - 1];
      assert last in es && forall e :: e in es[..|es| - 1] ==> e in es;
      DeclareKeepsQuiet(t, schemas, es[..|es| - 1]);
      if Declare(schemas, es[..|es| - 1]).Ok? {
        var soFar := Declare(schemas, es[..|es| - 1]).value.0;
        if Missing(soFar, last.at) == Ok(true) {
          NoNumberIsQuiet(t.rules, last.value, Schema(Some(last.at.property)));
          PropertyKeepsQuiet(t.rules, soFar, last.at, last.value);
        }
      }
    }
  }

  lemma {:induction false} CorrectKeepsQuiet(t: Tables, schemas: Schemas, es: seq<Entry>)
    requires QuietSchemas(t.rules, schemas)
    requires forall e :: e in es ==> Ordinary(e.at.schema) && e.value.Obj? && NoNumber(e.value)
    ensures QuietSchemas(t.rules, Correct(schemas, es))
    decreases |es|
  {
    if es == [] {
    } else {
      var last := es[|es| - 1];
      assert last in es && forall e :: e in es[..|es| - 1] ==> e in es;
      CorrectKeepsQuiet(t, schemas, es[..|es| - 1]);
      NoNumberIsQuiet(t.rules, last.value, Schema(Some(last.at.property)));
      if Mistyped(Correct(schemas, es[..|es| - 1]), last) {
        PropertyKeepsQuiet(t.rules, Correct(schemas, es[..|es| - 1]), last.at, last.value);
      }
    }
  }

  lemma BareTypeIsQuiet(rules: Rules, current: map<string, Json>, name: string)
    requires Quiet(rules, Obj(current), Schema(Some(name)))
    ensures Quiet(rules, BareType(current), Schema(None))
    ensures "description" in current ==> Quiet(rules, current["description"], Schema(None))
  {
    QuietIsQuietParts(rules, Obj(current), Schema(Some(name)));
  }

  /** A mapping of one entry is quiet when its entry is and it is not claimed itself. */
  lemma SingletonIsQuiet(rules: Rules, key: string, v: Json, context: Context)
    requires !Claims(rules, context, map[key := v])
    requires Quiet(rules, v, Child(rules, Obj(map[key := v]), context, Key(key)))
    ensures Quiet(rules, Obj(map[key := v]), context)
  {
    QuietIsQuietParts(rules, Obj(map[key := v]), context);
  }

  lemma ChoicesAreQuiet(t: Tables, current: map<string, Json>, l: Lift)
    requires LiftFits(t, l) && !t.rules.cents("") && !t.rules.statusCode("")
    requires Quiet(t.rules, BareType(current), Schema(None))
    ensures Quiet(t.rules, OpenProperty(current, l).fields["anyOf"], Schema(Some(l.property)))
  {
    var context := Schema(Some(l.property));
    var ref, bare := Str(REF_PREFIX + l.component), BareType(current);
    assert Quiet(t.rules, ref, Schema(None));
    SingletonIsQuiet(t.rules, "$ref", ref, context);
    SingletonIsQuiet(t.rules, "type", bare, context);
    QuietIsQuietParts(t.rules, Arr([Obj(map["$ref" := ref]), Obj(map["type" := bare])]), context);
  }

  lemma OpenPropertyIsQuiet(t: Tables, current: map<string, Json>, l: Lift)
    requires LiftFits(t, l) && !t.rules.cents("") && !t.rules.statusCode("")
    requires Quiet(t.rules, Obj(current), Schema(Some(l.property)))
    ensures Quiet(t.rules, OpenProperty(current, l), Schema(Some(l.property)))
  {
    var open := OpenProperty(current, l);
    BareTypeIsQuiet(t.rules, current, l.property);
    ChoicesAreQuiet(t, current, l);
    assert open.fields.Keys == {"anyOf", "description"};
    QuietIsQuietParts(t.rules, open, Schema(Some(l.property)));
  }

  lemma ComponentIsNotClaimed(t: Tables, current: map<string, Json>, l: Lift)
    requires LiftFits(t, l) && "enum" in current
    ensures !Claims(t.rules, Schema(None), ClosedComponent(current, l).fields)
  {
    var description := ClosedComponent(current, l).fields["description"];
    assert description.s[0] == 'T';
  }

  lemma ComponentIsQuiet(t: Tables, current: map<string, Json>, l: Lift)
    requires LiftFits(t, l) && "enum" in current
    requires Quiet(t.rules, Obj(current), Schema(Some(l.property)))
    ensures Quiet(t.rules, ClosedComponent(current, l), Schema(None))
  {
    var component := ClosedComponent(current, l);
    ComponentIsNotClaimed(t, current, l);
    BareTypeIsQuiet(t.rules, current, l.property);
    UnreadHasNoClaims(t.rules, current["enum"]);
    forall k | k in component.fields
      ensures Quiet(t.rules, component.fields[k], Child(t.rules, component, Schema(None), Key(k)))
    {
      if k == "description" {
        assert component.fields[k].Str?;
      }
    }
    QuietIsQuietParts(t.rules, component, Schema(None));
  }

  lemma LiftKeepsQuiet(t: Tables, schemas: Schemas, l: Lift)
    requires WellFormed(t) && l in t.lifts && QuietSchemas(t.rules, schemas)
    ensures QuietSchemas(t.rules, LiftOne(schemas, l))
  {
    if Liftable(schemas, l) {
      var at := l.At();
      var current := Property(schemas, l.schema, l.property).value;
      QuietProperty(t.rules, schemas, at);
      ComponentIsQuiet(t, current, l);
      OpenPropertyIsQuiet(t, current, l);
      var grown := if l.component in schemas then schemas else schemas[l.component := ClosedComponent(current, l)];
      if l.component !in schemas {
        EntryKeepsQuiet(t.rules, schemas, l.component, ClosedComponent(current, l), Schema(None));
      }
      PropertyKeepsQuiet(t.rules, grown, at, OpenProperty(current, l));
    }
  }

  lemma {:induction false} LiftAllKeepsQuiet(t: Tables, schemas: Schemas, lifts: seq<Lift>)
    requires WellFormed(t) && QuietSchemas(t.rules, schemas) && forall l :: l in lifts ==> l in t.lifts
    ensures QuietSchemas(t.rules, LiftAll(schemas, lifts))
    decreases |lifts|
  {
    if lifts == [] {
    } else {
      assert lifts[|lifts| - 1] in lifts && forall l :: l in lifts[..|lifts| - 1] ==> l in lifts;
      LiftAllKeepsQuiet(t, schemas, lifts[..|lifts| - 1]);
      LiftKeepsQuiet(t, LiftAll(schemas, lifts[..|lifts| - 1]), lifts[|lifts| - 1]);
    }
  }

  lemma MinItemsIsQuiet(rules: Rules, fields: map<string, Json>, name: string)
    requires Quiet(rules, Obj(fields), Schema(Some(name))) && TypeOf(Obj(fields)) == Str("array")
    ensures Quiet(rules, Obj(fields["minItems" := Num(1.0)]), Schema(Some(name)))
  {
    var before, after := Obj(fields), Obj(fields["minItems" := Num(1.0)]);
    QuietIsQuietParts(rules, before, Schema(Some(name)));
    QuietIsQuietParts(rules, after, Schema(Some(name)));
    forall k | k in after.fields ensures Quiet(rules, after.fields[k],
        Child(rules, after, Schema(Some(name)), Key(k))) {
      if k != "minItems" {
        assert Child(rules, after, Schema(Some(name)), Key(k)) == Child(rules, before, Schema(Some(name)), Key(k));
      }
    }
  }

  lemma {:induction false} RequireKeepsQuiet(t: Tables, schemas: Schemas, rs: seq<PropertyRef>)
    requires QuietSchemas(t.rules, schemas) && forall at :: at in rs ==> Ordinary(at.schema)
    ensures RequireItems(schemas, rs).Ok? ==> QuietSchemas(t.rules, RequireItems(schemas, rs).value.0)
    decreases |rs|
  {
    if rs == [] {
    } else {
      var last := rs[|rs| - 1];
      assert last in rs && forall at :: at in rs[..|rs| - 1] ==> at in rs;
      RequireKeepsQuiet(t, schemas, rs[..|rs| - 1]);
      if RequireItems(schemas, rs[..|rs| - 1]).Ok? {
        var soFar := RequireItems(schemas, rs[..|rs| - 1]).value.0;
        if Unbounded(soFar, last) == Ok(true) {
          var current := Property(soFar, last.schema, last.property).value;
          QuietProperty(t.rules, soFar, last);
          MinItemsIsQuiet(t.rules, current, last.property);
          PropertyKeepsQuiet(t.rules, soFar, last, Obj(current["minItems" := Num(1.0)]));
        }
      }
    }
  }

  lemma {:induction false} PointersKeepQuiet(t: Tables, root: Json, qs: seq<PointerPatch>)
    requires Quiet(t.rules, root, Schema(None)) && forall q :: q in qs ==> PointerFits(q)
    ensures Quiet(t.rules, PatchPointers(root, qs), Schema(None))
    decreases |qs|
  {
    if qs == [] {
    } else {
      var last := qs[|qs| - 1];
      assert last in qs && forall q :: q in qs[..|qs| - 1] ==> q in qs;
      PointersKeepQuiet(t, root, qs[..|qs| - 1]);
      if Patchable(PatchPointers(root, qs[..|qs| - 1]), last) {
        NoNumberIsQuiet(t.rules, last.value, ContextOf(Schema(None), KeysOf(last.pointer)));
        ReplacedKeepsQuiet(t.rules, PatchPointers(root, qs[..|qs| - 1]), Schema(None), KeysOf(last.pointer),
            last.value);
      }
    }
  }
}
