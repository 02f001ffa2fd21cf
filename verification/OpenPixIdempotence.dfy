/** What each step of the OpenPix overlay settles stays settled, so a second application
    returns the same document and reports nothing. */
module OpenPixIdempotence {
  import opened Json
  import opened OverlayEnums
  import opened OpenPixWalk
  import opened JsonPointers
  import opened OpenPixOverlay
  import opened OpenPixProperties

  // ----- One property -----

  /** Giving a named property another schema leaves every other property, and what is
      declared and what is missing, as it was. */
  lemma WithPropertyView(schemas: Schemas, at: PropertyRef, v: map<string, Json>, other: PropertyRef)
    requires Property(schemas, at.schema, at.property).Some?
    ensures var after := WithProperty(schemas, at.schema, at.property, Obj(v));
      && Property(after, other.schema, other.property) ==
         (if other == at then Some(v) else Property(schemas, other.schema, other.property))
      && Missing(after, other) == Missing(schemas, other)
      && after.Keys == schemas.Keys
  {
  }

  // ----- Declaring -----

  lemma DeclaredStays(schemas: Schemas, e: Entry, other: PropertyRef)
    requires Missing(schemas, e.at) == Ok(true)
    requires Missing(schemas, other) == Ok(false) || other == e.at
    ensures Missing(WithDeclared(schemas, e), other) == Ok(false)
  {
  }

  lemma {:induction false} DeclareSettles(schemas: Schemas, es: seq<Entry>)
    ensures Declare(schemas, es).Ok? ==> forall e :: e in es ==>
            Missing(Declare(schemas, es).value.0, e.at) == Ok(false)
    decreases |es|
  {
    if es == [] || Declare(schemas, es).Err? {
    } else {
      var earlier, last := es[..|es| - 1], es[|es| - 1];
      DeclareSettles(schemas, earlier);
      var soFar := Declare(schemas, earlier).value.0;
      forall e | e in es ensures Missing(Declare(schemas, es).value.0, e.at) == Ok(false) {
        assert e in earlier || e == last;
        if Missing(soFar, last.at) == Ok(true) {
          DeclaredStays(soFar, last, e.at);
        }
      }
    }
  }

  lemma {:induction false} NothingToDeclare(schemas: Schemas, es: seq<Entry>)
    requires forall e :: e in es ==> Missing(schemas, e.at) == Ok(false)
    ensures Declare(schemas, es) == Ok((schemas, []))
    decreases |es|
  {
    if es == [] {
    } else {
      assert es[|es| - 1] in es && forall e :: e in es[..|es| - 1] ==> e in es;
      NothingToDeclare(schemas, es[..|es| - 1]);
    }
  }

  // ----- Correcting -----

  lemma {:induction false} CorrectKeepsMissing(schemas: Schemas, es: seq<Entry>, other: PropertyRef)
    requires forall e :: e in es ==> e.value.Obj?
    ensures Missing(Correct(schemas, es), other) == Missing(schemas, other)
    decreases |es|
  {
    if es == [] {
    } else {
      var soFar, last := Correct(schemas, es[..|es| - 1]), es[|es| - 1];
      assert last in es && forall e :: e in es[..|es| - 1] ==> e in es;
      CorrectKeepsMissing(schemas, es[..|es| - 1], other);
      if Mistyped(soFar, last) {
        WithPropertyView(soFar, last.at, last.value.fields, other);
      }
    }
  }

  lemma {:induction false} CorrectSettles(schemas: Schemas, es: seq<Entry>)
    requires forall e :: e in es ==> e.value.Obj?
    requires forall i, j :: 0 <= i < j < |es| ==> es[i].at != es[j].at
    ensures forall e :: e in es ==> !Mistyped(Correct(schemas, es), e)
    decreases |es|
  {
    if es == [] {
    } else {
      var earlier, last := es[..|es| - 1], es[|es| - 1];
      var soFar := Correct(schemas, earlier);
      assert last in es && forall e :: e in earlier ==> e in es;
      CorrectSettles(schemas, earlier);
      forall e | e in es ensures !Mistyped(Correct(schemas, es), e) {
        var i :| 0 <= i < |es| && es[i] == e;
        assert i < |es| - 1 ==> earlier[i] == e && e in earlier;
        if Mistyped(soFar, last) {
          WithPropertyView(soFar, last.at, last.value.fields, e.at);
        }
      }
    }
  }

  lemma {:induction false} NothingToCorrect(schemas: Schemas, es: seq<Entry>)
    requires forall e :: e in es ==> !Mistyped(schemas, e)
    ensures Correct(schemas, es) == schemas && Corrected(schemas, es) == []
    decreases |es|
  {
    if es == [] {
    } else {
      assert es[|es| - 1] in es && forall e :: e in es[..|es| - 1] ==> e in es;
      NothingToCorrect(schemas, es[..|es| - 1]);
    }
  }

  // ----- Lifting and requiring keep both settled -----

  lemma LiftOneView(schemas: Schemas, l: Lift, other: PropertyRef)
    requires other.schema != l.component && other != l.At()
    ensures Property(LiftOne(schemas, l), other.schema, other.property) ==
            Property(schemas, other.schema, other.property)
  {
    if Liftable(schemas, l) {
      var current := Property(schemas, l.schema, l.property).value;
      var grown := if l.component in schemas then schemas else schemas[l.component := ClosedComponent(current, l)];
      WithPropertyView(grown, l.At(), OpenProperty(current, l).fields, other);
    }
  }

  lemma LiftOneKeepsMissing(schemas: Schemas, l: Lift, other: PropertyRef)
    requires other.schema != l.component
    ensures Missing(LiftOne(schemas, l), other) == Missing(schemas, other)
  {
    if Liftable(schemas, l) {
      var current := Property(schemas, l.schema, l.property).value;
      var grown := if l.component in schemas then schemas else schemas[l.component := ClosedComponent(current, l)];
      WithPropertyView(grown, l.At(), OpenProperty(current, l).fields, other);
    }
  }

  lemma {:induction false} LiftAllKeeps(schemas: Schemas, lifts: seq<Lift>, other: PropertyRef)
    requires forall l :: l in lifts ==> other.schema != l.component
    ensures Missing(LiftAll(schemas, lifts), other) == Missing(schemas, other)
    ensures (forall l :: l in lifts ==> other != l.At()) ==>
              Property(LiftAll(schemas, lifts), other.schema, other.property) ==
                  Property(schemas, other.schema, other.property)
    decreases |lifts|
  {
    if lifts == [] {
    } else {
      var soFar, last := LiftAll(schemas, lifts[..|lifts| - 1]), lifts[|lifts| - 1];
      assert last in lifts && forall l :: l in lifts[..|lifts| - 1] ==> l in lifts;
      LiftAllKeeps(schemas, lifts[..|lifts| - 1], other);
      LiftOneKeepsMissing(soFar, last, other);
      if other != last.At() {
        LiftOneView(soFar, last, other);
      }
    }
  }

  /** `minItems` changes no type and no enum, and leaves the schema's properties a mapping. */
  lemma MinItemsView(schemas: Schemas, at: PropertyRef, other: PropertyRef)
    requires Unbounded(schemas, at) == Ok(true)
    ensures var after := WithMinItems(schemas, at);
      && Missing(after, other) == Missing(schemas, other)
      && Property(after, other.schema, other.property).Some? == Property(schemas, other.schema, other.property).Some?
      && (Property(after, other.schema, other.property).Some? ==>
            var before, now := Property(schemas, other.schema, other.property).value,
                Property(after, other.schema, other.property).value;
            now == before || now == before["minItems" := Num(1.0)])
      && (Unbounded(schemas, other) == Ok(false) || other == at ==> Unbounded(after, other) == Ok(false))
  {
    var current := Property(schemas, at.schema, at.property).value;
    WithPropertyView(schemas, at, current["minItems" := Num(1.0)], other);
  }

  lemma {:induction false} RequireKeeps(schemas: Schemas, rs: seq<PropertyRef>, other: PropertyRef)
    ensures RequireItems(schemas, rs).Ok? ==> (
      var after := RequireItems(schemas, rs).value.0;
      && Missing(after, other) == Missing(schemas, other)
      && (forall e: Entry :: e.at == other && !Mistyped(schemas, e) ==> !Mistyped(after, e))
      && (forall l: Lift :: l.At() == other && !Liftable(schemas, l) ==>
         !Liftable(after, l)))
    decreases |rs|
  {
    if rs == [] || RequireItems(schemas, rs).Err? {
    } else {
      var soFar := RequireItems(schemas, rs[..|rs| - 1]).value.0;
      RequireKeeps(schemas, rs[..|rs| - 1], other);
      if Unbounded(soFar, rs[|rs| - 1]) == Ok(true) {
        MinItemsView(soFar, rs[|rs| - 1], other);
      }
    }
  }

  lemma {:induction false} RequireSettles(schemas: Schemas, rs: seq<PropertyRef>)
    ensures RequireItems(schemas, rs).Ok? ==>
              forall at :: at in rs ==> Unbounded(RequireItems(schemas, rs).value.0, at) == Ok(false)
    decreases |rs|
  {
    if rs == [] || RequireItems(schemas, rs).Err? {
    } else {
      var earlier, last := rs[..|rs| - 1], rs[|rs| - 1];
      RequireSettles(schemas, earlier);
      var soFar := RequireItems(schemas, earlier).value.0;
      forall at | at in rs ensures Unbounded(RequireItems(schemas, rs).value.0, at) == Ok(false) {
        assert at in earlier || at == last;
        if Unbounded(soFar, last) == Ok(true) {
          MinItemsView(soFar, last, at);
        }
      }
    }
  }

  lemma {:induction false} NothingToRequire(schemas: Schemas, rs: seq<PropertyRef>)
    requires forall at :: at in rs ==> Unbounded(schemas, at) == Ok(false)
    ensures RequireItems(schemas, rs) == Ok((schemas, []))
    decreases |rs|
  {
    if rs == [] {
    } else {
      assert rs[|rs| - 1] in rs && forall at :: at in rs[..|rs| - 1] ==> at in rs;
      NothingToRequire(schemas, rs[..|rs| - 1]);
    }
  }

  // ----- The schema block, settled -----

  ghost predicate Settled(t: Tables, schemas: Schemas) {
    && (forall e :: e in t.declared ==> Missing(schemas, e.at) == Ok(false))
    && (forall e :: e in t.mistyped ==> !Mistyped(schemas, e))
    && (forall l :: l in t.lifts ==> !Liftable(schemas, l))
    && (forall at :: at in t.nonEmpty ==> Unbounded(schemas, at) == Ok(false))
  }

  lemma {:induction false} SchemasSettle(t: Tables, schemas: Schemas)
    requires WellFormed(t) && Declare(schemas, t.declared).Ok?
    ensures var ready :=
            RequireItems(LiftAll(Correct(Declare(schemas, t.declared).value.0, t.mistyped), t.lifts), t.nonEmpty);
      ready.Ok? ==> Settled(t, ready.value.0)
  {
    var declared := Declare(schemas, t.declared).value.0;
    var corrected := Correct(declared, t.mistyped);
    var lifted := LiftAll(corrected, t.lifts);
    var ready := RequireItems(lifted, t.nonEmpty);
    assert forall e :: e in t.declared || e in t.mistyped ==> e in t.declared + t.mistyped;
    DeclareSettles(schemas, t.declared);
    CorrectSettles(declared, t.mistyped);
    LiftAllSpends(corrected, t.lifts);
    RequireSettles(lifted, t.nonEmpty);
    if ready.Ok? {
      var final := ready.value.0;
      forall e | e in t.declared ensures Missing(final, e.at) == Ok(false) {
        CorrectKeepsMissing(declared, t.mistyped, e.at);
        LiftAllKeeps(corrected, t.lifts, e.at);
        RequireKeeps(lifted, t.nonEmpty, e.at);
      }
      forall e | e in t.mistyped ensures !Mistyped(final, e) {
        LiftAllKeeps(corrected, t.lifts, e.at);
        RequireKeeps(lifted, t.nonEmpty, e.at);
      }
      forall l | l in t.lifts ensures !Liftable(final, l) {
        RequireKeeps(lifted, t.nonEmpty, l.At());
      }
    }
  }

  lemma {:induction false} SettledIsFixed(t: Tables, schemas: Schemas)
    requires Settled(t, schemas)
    ensures Declare(schemas, t.declared) == Ok((schemas, []))
    ensures Correct(schemas, t.mistyped) == schemas && Corrected(schemas, t.mistyped) == []
    ensures LiftAll(schemas, t.lifts) == schemas && Lifted(schemas, t.lifts) == []
    ensures RequireItems(schemas, t.nonEmpty) == Ok((schemas, []))
  {
    NothingToDeclare(schemas, t.declared);
    NothingToCorrect(schemas, t.mistyped);
    NothingToLift(schemas, t.lifts);
    NothingToRequire(schemas, t.nonEmpty);
  }

  // ----- The block in its document -----

  lemma {:induction false} ReplacedBlock(root: Json, schemas: Schemas)
    requires Lookup(root, SCHEMAS).Some?
    ensures root.Has("components") && root.fields["components"].Obj?
    ensures Replaced(root, SCHEMAS, Obj(schemas)) ==
            Obj(root.fields["components" := Obj(root.fields["components"].fields["schemas" := Obj(schemas)])])
  {
    LookupBlock(root);
    assert SCHEMAS[1..] == ["schemas"] && ["schemas"][1..] == [];
    var components := root.fields["components"];
    assert Replaced(components, ["schemas"], Obj(schemas)) == Obj(components.fields["schemas" := Obj(schemas)]);
  }

  /** The block that was put into a document is the one read from it. */
  lemma {:induction false} BlockReadsBack(root: Json, schemas: Schemas)
    requires SchemaBlock(root).Ok? && (Lookup(root, SCHEMAS).None? ==> schemas == map[])
    ensures SchemaBlock(WithSchemas(root, schemas)) == Ok(schemas)
    ensures Lookup(WithSchemas(root, schemas), SCHEMAS).None? <==> Lookup(root, SCHEMAS).None?
  {
    LookupBlock(root);
    LookupBlock(WithSchemas(root, schemas));
    if Lookup(root, SCHEMAS).Some? {
      ReplacedBlock(root, schemas);
    }
  }

  lemma {:induction false} LookupBlock(root: Json)
    ensures Lookup(root, SCHEMAS) ==
            if root.Has("components") then root.fields["components"].Get("schemas") else None
    ensures SchemaBlock(root).Ok? && Lookup(root, SCHEMAS).Some? ==>
            Lookup(root, SCHEMAS) == Some(Obj(SchemaBlock(root).value))
    ensures SchemaBlock(root).Ok? && Lookup(root, SCHEMAS).None? ==> SchemaBlock(root) == Ok(map[])
  {
    assert SCHEMAS[1..] == ["schemas"] && ["schemas"][1..] == [];
    if root.Has("components") {
      var components := root.fields["components"];
      assert Lookup(components, ["schemas"]) == components.Get("schemas");
    }
  }

  lemma SettledRootIsFixed(t: Tables, root: Json)
    requires SchemaBlock(root).Ok? && Settled(t, SchemaBlock(root).value)
    ensures Declaring(t, root) == Ok((root, [], [])) && Opening(t, root) == Ok((root, [], []))
  {
    var schemas := SchemaBlock(root).value;
    SettledIsFixed(t, schemas);
    WithOwnSchemas(root);
  }

  lemma WithOwnSchemas(root: Json)
    requires SchemaBlock(root).Ok?
    ensures WithSchemas(root, SchemaBlock(root).value) == root
  {
    LookupBlock(root);
    if Lookup(root, SCHEMAS).Some? {
      var schemas := SchemaBlock(root).value;
      ReplacedBlock(root, schemas);
      var components := root.fields["components"].fields;
      assert components["schemas" := Obj(schemas)] == components;
      assert root.fields["components" := Obj(components)] == root.fields;
    }
  }

  // ----- Pointers -----

  lemma {:induction false} PatchSettles(root: Json, q: PointerPatch, other: PointerPatch)
    requires Patchable(root, q) && q.value.Obj?
    requires other == q || (Apart(KeysOf(q.pointer), KeysOf(other.pointer)) && !Patchable(root, other))
    ensures !Patchable(Replaced(root, KeysOf(q.pointer), q.value), other)
  {
    var keys := KeysOf(q.pointer);
    ReplacedIsLocal(root, keys, q.value, KeysOf(other.pointer));
    assert other == q ==> KeysOf(other.pointer)[|keys|..] == [];
  }

  lemma {:induction false} PointersSettle(root: Json, qs: seq<PointerPatch>)
    requires forall q :: q in qs ==> q.value.Obj?
    requires forall i, j :: 0 <= i < j < |qs| ==> Apart(KeysOf(qs[i].pointer), KeysOf(qs[j].pointer))
    ensures forall q :: q in qs ==> !Patchable(PatchPointers(root, qs), q)
    decreases |qs|
  {
    if qs == [] {
    } else {
      var earlier, last := qs[..|qs| - 1], qs[|qs| - 1];
      var soFar := PatchPointers(root, earlier);
      assert last in qs && forall q :: q in earlier ==> q in qs;
      PointersSettle(root, earlier);
      forall q | q in qs ensures !Patchable(PatchPointers(root, qs), q) {
        var i :| 0 <= i < |qs| && qs[i] == q;
        assert i < |qs| - 1 ==> earlier[i] == q && Apart(KeysOf(q.pointer), KeysOf(last.pointer));
        if Patchable(soFar, last) {
          PatchSettles(soFar, last, q);
        }
      }
    }
  }

  lemma {:induction false} NothingToPatch(root: Json, qs: seq<PointerPatch>)
    requires forall q :: q in qs ==> !Patchable(root, q)
    ensures PatchPointers(root, qs) == root && Patched(root, qs) == []
    decreases |qs|
  {
    if qs == [] {
    } else {
      assert qs[|qs| - 1] in qs && forall q :: q in qs[..|qs| - 1] ==> q in qs;
      NothingToPatch(root, qs[..|qs| - 1]);
    }
  }

  lemma ApartFromSchemas(keys: seq<string>)
    requires keys != [] && keys[0] != "components"
    ensures Apart(keys, SCHEMAS) && Apart(SCHEMAS, keys)
  {
  }

  lemma {:induction false} ReplacedElsewhere(root: Json, keys: seq<string>, v: Json)
    requires keys != [] && keys[0] != "components" && Lookup(root, keys).Some?
    ensures SchemaBlock(Replaced(root, keys, v)) == SchemaBlock(root)
  {
    assert Replaced(root, keys, v).Get("components") == root.Get("components");
  }

  /** Patching outside the components leaves the schema block alone. */
  lemma {:induction false} PointersKeepBlock(root: Json, qs: seq<PointerPatch>)
    requires forall q :: q in qs ==> PointerFits(q)
    ensures Lookup(PatchPointers(root, qs), SCHEMAS) == Lookup(root, SCHEMAS)
    ensures SchemaBlock(PatchPointers(root, qs)) == SchemaBlock(root)
    decreases |qs|
  {
    if qs == [] {
    } else {
      var soFar, last := PatchPointers(root, qs[..|qs| - 1]), qs[|qs| - 1];
      assert last in qs && forall q :: q in qs[..|qs| - 1] ==> q in qs;
      PointersKeepBlock(root, qs[..|qs| - 1]);
      if Patchable(soFar, last) {
        var keys := KeysOf(last.pointer);
        ApartFromSchemas(keys);
        ReplacedIsLocal(soFar, keys, last.value, SCHEMAS);
        ReplacedElsewhere(soFar, keys, last.value);
      }
    }
  }

  lemma BlockKeepsPointers(root: Json, schemas: Schemas, q: PointerPatch)
    requires PointerFits(q)
    ensures Patchable(WithSchemas(root, schemas), q) == Patchable(root, q)
  {
    if Lookup(root, SCHEMAS).Some? {
      ApartFromSchemas(KeysOf(q.pointer));
      ReplacedIsLocal(root, SCHEMAS, Obj(schemas), KeysOf(q.pointer));
    }
  }

  // ----- Quiet from end to end -----

  lemma BlockIsQuiet(rules: Rules, root: Json)
    requires Quiet(rules, root, Schema(None)) && SchemaBlock(root).Ok?
    ensures QuietSchemas(rules, SchemaBlock(root).value)
  {
    LookupBlock(root);
    if Lookup(root, SCHEMAS).Some? {
      PartIsQuiet(rules, root, Schema(None), SCHEMAS);
      SchemasContext();
    } else {
      QuietIsQuietParts(rules, Obj(map[]), Schema(None));
    }
  }

  lemma SchemasContext()
    ensures ContextOf(Schema(None), SCHEMAS) == Schema(None) && AvoidsDescriptions(Schema(None), SCHEMAS)
  {
    assert SCHEMAS[1..] == ["schemas"] && ["schemas"][1..] == [];
    assert ContextOf(Schema(None), ["schemas"]) == Schema(None);
    assert AvoidsDescriptions(Schema(None), ["schemas"]);
  }

  lemma WithSchemasIsQuiet(rules: Rules, root: Json, schemas: Schemas)
    requires Quiet(rules, root, Schema(None)) && SchemaBlock(root).Ok? && QuietSchemas(rules, schemas)
    ensures Quiet(rules, WithSchemas(root, schemas), Schema(None))
  {
    LookupBlock(root);
    if Lookup(root, SCHEMAS).Some? {
      SchemasContext();
      ReplacedKeepsQuiet(rules, root, Schema(None), SCHEMAS, Obj(schemas));
    }
  }

  lemma DeclaringKeepsQuiet(t: Tables, root: Json)
    requires WellFormed(t) && Quiet(t.rules, root, Schema(None))
    ensures Declaring(t, root).Ok? ==> Quiet(t.rules, Declaring(t, root).value.0, Schema(None))
  {
    if Declaring(t, root).Ok? {
      var schemas := SchemaBlock(root).value;
      assert forall e :: e in t.declared || e in t.mistyped ==> e in t.declared + t.mistyped;
      BlockIsQuiet(t.rules, root);
      DeclareKeepsQuiet(t, schemas, t.declared);
      CorrectKeepsQuiet(t, Declare(schemas, t.declared).value.0, t.mistyped);
      WithSchemasIsQuiet(t.rules, root, Correct(Declare(schemas, t.declared).value.0, t.mistyped));
    }
  }

  lemma OpeningKeepsQuiet(t: Tables, root: Json)
    requires WellFormed(t) && Quiet(t.rules, root, Schema(None))
    ensures Opening(t, root).Ok? ==> Quiet(t.rules, Opening(t, root).value.0, Schema(None))
  {
    if Opening(t, root).Ok? {
      var schemas := SchemaBlock(root).value;
      BlockIsQuiet(t.rules, root);
      LiftAllKeepsQuiet(t, schemas, t.lifts);
      RequireKeepsQuiet(t, LiftAll(schemas, t.lifts), t.nonEmpty);
      WithSchemasIsQuiet(t.rules, root, RequireItems(LiftAll(schemas, t.lifts), t.nonEmpty).value.0);
    }
  }

  // ----- The whole overlay -----

  lemma {:induction false} EmptyBlockStays(t: Tables)
    ensures Declare(map[], t.declared) == Ok((map[], [])) && Correct(map[], t.mistyped) == map[]
    ensures LiftAll(map[], t.lifts) == map[] && RequireItems(map[], t.nonEmpty) == Ok((map[], []))
  {
    SettledIsFixed(t, map[]);
  }

  /** The block of the result is the settled one. */
  lemma FinalBlock(t: Tables, root: Json)
    requires WellFormed(t) && Declaring(t, root).Ok?
    ensures var patched := PatchPointers(Declaring(t, root).value.0, t.pointers);
      Opening(t, patched).Ok? ==>
        var final := Opening(t, patched).value.0;
        SchemaBlock(final).Ok? && Settled(t, SchemaBlock(final).value)
  {
    var schemas := SchemaBlock(root).value;
    var corrected := Correct(Declare(schemas, t.declared).value.0, t.mistyped);
    var declared := Declaring(t, root).value.0;
    var patched := PatchPointers(declared, t.pointers);
    LookupBlock(root);
    EmptyBlockStays(t);
    BlockReadsBack(root, corrected);
    PointersKeepBlock(declared, t.pointers);
    assert SchemaBlock(patched) == Ok(corrected);
    if Opening(t, patched).Ok? {
      var ready := RequireItems(LiftAll(corrected, t.lifts), t.nonEmpty).value.0;
      BlockReadsBack(patched, ready);
      SchemasSettle(t, schemas);
    }
  }

  lemma {:induction false} NoPointerLeft(t: Tables, document: Json)
    requires WellFormed(t) && Apply(t, document).Ok?
    ensures forall q :: q in t.pointers ==> !Patchable(Apply(t, document).value.0, q)
  {
    var walked := Retyped(t.rules, document, Schema(None));
    var declared := Declaring(t, walked).value.0;
    var patched := PatchPointers(declared, t.pointers);
    PointersSettle(declared, t.pointers);
    forall q | q in t.pointers ensures !Patchable(Apply(t, document).value.0, q) {
      BlockKeepsPointers(patched, RequireItems(LiftAll(SchemaBlock(patched).value, t.lifts), t.nonEmpty).value.0, q);
    }
  }

  /** Applying the overlay to its own output returns the same document and reports no
      change at all. */
  lemma ApplyIsIdempotent(t: Tables, document: Json)
    requires WellFormed(t)
    ensures Apply(t, document).Ok? ==>
              Apply(t, Apply(t, document).value.0) == Ok((Apply(t, document).value.0, EMPTY_REPORT))
  {
    if Apply(t, document).Ok? {
      var walked := Retyped(t.rules, document, Schema(None));
      var declared := Declaring(t, walked).value.0;
      var patched := PatchPointers(declared, t.pointers);
      var final := Opening(t, patched).value.0;
      assert final == Apply(t, document).value.0;
      FinalIsQuiet(t, document);
      QuietIsUnchanged(t.rules, final, Schema(None));
      FinalBlock(t, walked);
      SettledRootIsFixed(t, final);
      NoPointerLeft(t, document);
      NothingToPatch(final, t.pointers);
    }
  }

  lemma FinalIsQuiet(t: Tables, document: Json)
    requires WellFormed(t)
    ensures Apply(t, document).Ok? ==> Quiet(t.rules, Apply(t, document).value.0, Schema(None))
  {
    if Apply(t, document).Ok? {
      var walked := Retyped(t.rules, document, Schema(None));
      RetypedIsQuiet(t.rules, document, Schema(None));
      DeclaringKeepsQuiet(t, walked);
      var declared := Declaring(t, walked).value.0;
      PointersKeepQuiet(t, declared, t.pointers);
      OpeningKeepsQuiet(t, PatchPointers(declared, t.pointers));
    }
  }
}
