/** What the OpenPix overlay makes of a document, place by place: each property, each place a
    pointer reaches, and everything the tables do not name. */
module OpenPixResult {
  import opened Json
  import opened OverlayEnums
  import opened OpenPixWalk
  import opened JsonPointers
  import opened OpenPixOverlay
  import opened OpenPixProperties
  import opened OpenPixIdempotence

  // ----- What the tables say of one property -----

  /** The schema a table gives a property: the first entry decides. */
  function EntryFor(es: seq<Entry>, at: PropertyRef): Option<Json> {
    if es == [] then None
    else if EntryFor(es[..|es| - 1], at).Some? then EntryFor(es[..|es| - 1], at)
    else if es[|es| - 1].at == at then Some(es[|es| - 1].value) else None
  }

  ghost function AfterDeclare(t: Tables, schemas: Schemas, at: PropertyRef): Declaration {
    match EntryFor(t.declared, at)
    case Some(Obj(fields)) => if Missing(schemas, at) == Ok(true) then Some(fields) else
        Property(schemas, at.schema, at.property)
    case _ => Property(schemas, at.schema, at.property)
  }

  ghost function AfterCorrect(t: Tables, current: Declaration, at: PropertyRef): Declaration {
    match (current, EntryFor(t.mistyped, at))
    case (Some(fields), Some(Obj(corrected))) => if TypeOf(Obj(fields)) != TypeOf(Obj(corrected)) then
        Some(corrected) else current
    case _ => current
  }

  ghost function AfterRequire(t: Tables, current: Declaration, at: PropertyRef): Declaration {
    match current
    case Some(fields) =>
      if at in t.nonEmpty && TypeOf(Obj(fields)) == Str("array") && "minItems" !in fields
      then Some(fields["minItems" := Num(1.0)]) else current
    case None => None
  }

  // ----- One step, seen as the property at each place -----

  lemma WithDeclaredView(schemas: Schemas, e: Entry, at: PropertyRef)
    requires Missing(schemas, e.at) == Ok(true) && e.value.Obj?
    ensures var after := WithDeclared(schemas, e);
      && Property(after, at.schema, at.property) ==
         (if at == e.at then Some(e.value.fields) else Property(schemas, at.schema, at.property))
      && Missing(after, at) == (if at == e.at then Ok(false) else Missing(schemas, at))
  {
  }

  lemma {:induction false} DeclareView(schemas: Schemas, es: seq<Entry>, at: PropertyRef)
    requires Declare(schemas, es).Ok? && forall e :: e in es ==> e.value.Obj?
    ensures var (after, added), taken := Declare(schemas, es).value, Missing(schemas, at) == Ok(true) &&
            EntryFor(es, at).Some?;
      && (taken ==> EntryFor(es, at).value.Obj?)
      && Property(after, at.schema, at.property) ==
         (if taken then Some(EntryFor(es, at).value.fields) else Property(schemas, at.schema, at.property))
      && Missing(after, at) == (if taken then Ok(false) else Missing(schemas, at))
      && (at in added <==> taken)
    decreases |es|
  {
    if es == [] {
    } else {
      var earlier, last := es[..|es| - 1], es[|es| - 1];
      assert last in es && forall e :: e in earlier ==> e in es;
      DeclareView(schemas, earlier, at);
      DeclareView(schemas, earlier, last.at);
      var soFar := Declare(schemas, earlier).value.0;
      if Missing(soFar, last.at) == Ok(true) {
        WithDeclaredView(soFar, last, at);
      }
    }
  }

  lemma {:induction false} EntryForIsListed(es: seq<Entry>, at: PropertyRef)
    ensures EntryFor(es, at).Some? <==> exists e :: e in es && e.at == at
    decreases |es|
  {
    if es == [] {
    } else {
      var earlier, last := es[..|es| - 1], es[|es| - 1];
      EntryForIsListed(earlier, at);
      assert forall e :: e in es <==> e in earlier || e == last;
    }
  }

  lemma {:induction false} CorrectView(schemas: Schemas, es: seq<Entry>, at: PropertyRef)
    requires forall e :: e in es ==> e.value.Obj?
    requires forall i, j :: 0 <= i < j < |es| ==> es[i].at != es[j].at
    ensures var current, entry := Property(schemas, at.schema, at.property), EntryFor(es, at);
      var taken := current.Some? && entry.Some? && TypeOf(Obj(current.value)) != TypeOf(entry.value);
      && (taken ==> entry.value.Obj?)
      && Property(Correct(schemas, es), at.schema, at.property) == (if taken then Some(entry.value.fields) else current)
      && (at in Corrected(schemas, es) <==> taken)
    decreases |es|
  {
    if es == [] {
    } else {
      var earlier, last := es[..|es| - 1], es[|es| - 1];
      assert last in es && forall e :: e in earlier ==> e in es;
      CorrectView(schemas, earlier, at);
      CorrectView(schemas, earlier, last.at);
      EntryForIsListed(earlier, last.at);
      assert forall e :: e in earlier ==> e.at != last.at;
      var soFar := Correct(schemas, earlier);
      if Mistyped(soFar, last) {
        WithPropertyView(soFar, last.at, last.value.fields, at);
      }
    }
  }

  lemma MinItemsHere(schemas: Schemas, r: PropertyRef, at: PropertyRef)
    requires Unbounded(schemas, r) == Ok(true)
    ensures var before := Property(schemas, at.schema, at.property);
      Property(WithMinItems(schemas, r), at.schema, at.property) ==
        if at == r then Some(before.value["minItems" := Num(1.0)]) else before
  {
    WithPropertyView(schemas, r, Property(schemas, r.schema, r.property).value["minItems" := Num(1.0)], at);
  }

  lemma {:induction false} RequireView(schemas: Schemas, rs: seq<PropertyRef>, at: PropertyRef)
    requires RequireItems(schemas, rs).Ok?
    ensures var (after, named) := RequireItems(schemas, rs).value;
      var current := Property(schemas, at.schema, at.property);
      var taken := at in rs && current.Some? && TypeOf(Obj(current.value)) == Str("array") &&
          "minItems" !in current.value;
      && Property(after, at.schema, at.property) ==
         (if taken then Some(current.value["minItems" := Num(1.0)]) else current)
      && (at in named <==> taken)
    decreases |rs|
  {
    if rs == [] {
    } else {
      var earlier, last := rs[..|rs| - 1], rs[|rs| - 1];
      RequireView(schemas, earlier, at);
      assert at in rs <==> at in earlier || at == last;
      var soFar := RequireItems(schemas, earlier).value.0;
      if Unbounded(soFar, last) == Ok(true) {
        MinItemsHere(soFar, last, at);
      }
    }
  }

  // ----- The block of the result -----

  ghost function CorrectedSchemas(t: Tables, schemas: Schemas): Schemas
    requires Declare(schemas, t.declared).Ok?
  {
    Correct(Declare(schemas, t.declared).value.0, t.mistyped)
  }

  lemma {:induction false} CorrectedAreExact(t: Tables, schemas: Schemas, at: PropertyRef)
    requires WellFormed(t) && Declare(schemas, t.declared).Ok?
    ensures var (declared, added) := Declare(schemas, t.declared).value;
      var before := AfterDeclare(t, schemas, at);
      && Property(Correct(declared, t.mistyped), at.schema, at.property) == AfterCorrect(t, before, at)
      && (at in added <==> Missing(schemas, at) == Ok(true) && EntryFor(t.declared, at).Some?)
      && (at in Corrected(declared, t.mistyped) <==> AfterCorrect(t, before, at) != before)
  {
    assert forall e :: e in t.declared || e in t.mistyped ==> e in t.declared + t.mistyped;
    DeclareView(schemas, t.declared, at);
    CorrectView(Declare(schemas, t.declared).value.0, t.mistyped, at);
    EntryIsMapping(t.mistyped, at);
  }

  lemma {:induction false} EntryIsMapping(es: seq<Entry>, at: PropertyRef)
    requires forall e :: e in es ==> e.value.Obj?
    ensures EntryFor(es, at).Some? ==> EntryFor(es, at).value.Obj?
    decreases |es|
  {
    if es == [] {
    } else {
      assert es[|es| - 1] in es && forall e :: e in es[..|es| - 1] ==> e in es;
      EntryIsMapping(es[..|es| - 1], at);
    }
  }

  /** Of the lifts of a property, the table's is reported, and when it changed something. */
  ghost predicate LiftsReported(t: Tables, before: Declaration, after: Declaration, at: PropertyRef,
      lifted: seq<Lift>) {
    forall l: Lift :: l.At() == at ==>
      (l in lifted <==> LiftFor(t.lifts, at) == Some(l) && after != before)
  }

  lemma {:induction false} OpenedAreExact(t: Tables, schemas: Schemas, at: PropertyRef)
    requires RequireItems(LiftAll(schemas, t.lifts), t.nonEmpty).Ok?
    ensures var (ready, named) := RequireItems(LiftAll(schemas, t.lifts), t.nonEmpty).value;
      var open := AfterLift(t.lifts, Property(schemas, at.schema, at.property), at);
      && Property(ready, at.schema, at.property) == AfterRequire(t, open, at)
      && (at in named <==> AfterRequire(t, open, at) != open)
      && LiftsReported(t, Property(schemas, at.schema, at.property), open, at, Lifted(schemas, t.lifts))
  {
    LiftView(schemas, t.lifts, at);
    forall l: Lift | l.At() == at
      ensures l in Lifted(schemas, t.lifts) <==> Liftable(schemas, l) && LiftFor(t.lifts, at) == Some(l)
    {
      LiftedAreExact(schemas, t.lifts, l);
    }
    RequireView(LiftAll(schemas, t.lifts), t.nonEmpty, at);
  }

  /** The steps before the pointers and those after them, on the block the walk leaves. */
  lemma {:induction false} BlocksOfResult(t: Tables, document: Json)
    requires WellFormed(t)
    ensures Apply(t, document).Ok? ==>
      var (result, report), walked := Apply(t, document).value, SchemaBlock(Retyped(t.rules, document, Schema(None)));
      && walked.Ok? && Declare(walked.value, t.declared).Ok?
      && report.added == Declare(walked.value, t.declared).value.1
      && report.retyped == Corrected(Declare(walked.value, t.declared).value.0, t.mistyped)
      && var ready := RequireItems(LiftAll(CorrectedSchemas(t, walked.value), t.lifts), t.nonEmpty);
      && ready.Ok? && SchemaBlock(result) == Ok(ready.value.0) && report.nonEmpty == ready.value.1
      && report.lifted == Lifted(CorrectedSchemas(t, walked.value), t.lifts)
  {
    if Apply(t, document).Ok? {
      var walked := Retyped(t.rules, document, Schema(None));
      var corrected := CorrectedSchemas(t, SchemaBlock(walked).value);
      var declared := Declaring(t, walked).value.0;
      var patched := PatchPointers(declared, t.pointers);
      LookupBlock(walked);
      EmptyBlockStays(t);
      BlockReadsBack(walked, corrected);
      PointersKeepBlock(declared, t.pointers);
      assert SchemaBlock(patched) == Ok(corrected);
      BlockReadsBack(patched, RequireItems(LiftAll(corrected, t.lifts), t.nonEmpty).value.0);
    }
  }

  /** Every property of the result is declared as the tables say of what the walk left, and
      the report names exactly the properties each table changed. */
  lemma {:induction false} PropertiesAreExact(t: Tables, document: Json, at: PropertyRef)
    requires WellFormed(t)
    ensures Apply(t, document).Ok? ==>
      var (result, report), walked := Apply(t, document).value, SchemaBlock(Retyped(t.rules, document, Schema(None)));
      && walked.Ok? && SchemaBlock(result).Ok?
      && var declared := AfterDeclare(t, walked.value, at);
      && var corrected := AfterCorrect(t, declared, at);
      && var open := AfterLift(t.lifts, corrected, at);
      && Property(SchemaBlock(result).value, at.schema, at.property) == AfterRequire(t, open, at)
      && (at in report.added <==> Missing(walked.value, at) == Ok(true) && EntryFor(t.declared, at).Some?)
      && (at in report.retyped <==> corrected != declared)
      && LiftsReported(t, corrected, open, at, report.lifted)
      && (at in report.nonEmpty <==> AfterRequire(t, open, at) != open)
  {
    if Apply(t, document).Ok? {
      var walked := SchemaBlock(Retyped(t.rules, document, Schema(None))).value;
      BlocksOfResult(t, document);
      CorrectedAreExact(t, walked, at);
      OpenedAreExact(t, CorrectedSchemas(t, walked), at);
    }
  }

  // ----- Schemas and places the tables do not name -----

  predicate IsNamed(t: Tables, name: string) {
    || (exists e :: e in t.declared + t.mistyped && e.at.schema == name)
    || (exists l :: l in t.lifts && (l.schema == name || l.component == name))
    || (exists at :: at in t.nonEmpty && at.schema == name)
  }

  lemma {:induction false} DeclareKeeps(schemas: Schemas, es: seq<Entry>, name: string)
    requires Declare(schemas, es).Ok? && forall e :: e in es ==> e.at.schema != name
    ensures Obj(Declare(schemas, es).value.0).Get(name) == Obj(schemas).Get(name)
    decreases |es|
  {
    if es == [] {
    } else {
      assert es[|es| - 1] in es && forall e :: e in es[..|es| - 1] ==> e in es;
      DeclareKeeps(schemas, es[..|es| - 1], name);
    }
  }

  lemma {:induction false} CorrectKeeps(schemas: Schemas, es: seq<Entry>, name: string)
    requires forall e :: e in es ==> e.at.schema != name
    ensures Obj(Correct(schemas, es)).Get(name) == Obj(schemas).Get(name)
    decreases |es|
  {
    if es == [] {
    } else {
      assert es[|es| - 1] in es && forall e :: e in es[..|es| - 1] ==> e in es;
      CorrectKeeps(schemas, es[..|es| - 1], name);
    }
  }

  lemma {:induction false} RequireKeepsSchema(schemas: Schemas, rs: seq<PropertyRef>, name: string)
    requires RequireItems(schemas, rs).Ok? && forall at :: at in rs ==> at.schema != name
    ensures Obj(RequireItems(schemas, rs).value.0).Get(name) == Obj(schemas).Get(name)
    decreases |rs|
  {
    if rs == [] {
    } else {
      assert rs[|rs| - 1] in rs && forall at :: at in rs[..|rs| - 1] ==> at in rs;
      RequireKeepsSchema(schemas, rs[..|rs| - 1], name);
    }
  }

  lemma {:induction false} BlockKeeps(t: Tables, walked: Schemas, name: string)
    requires !IsNamed(t, name) && Declare(walked, t.declared).Ok?
    requires RequireItems(LiftAll(CorrectedSchemas(t, walked), t.lifts), t.nonEmpty).Ok?
    ensures Obj(RequireItems(LiftAll(CorrectedSchemas(t, walked), t.lifts), t.nonEmpty).value.0).Get(name) ==
            Obj(walked).Get(name)
  {
    var declared := Declare(walked, t.declared).value.0;
    var corrected := Correct(declared, t.mistyped);
    assert forall e :: e in t.declared || e in t.mistyped ==> e in t.declared + t.mistyped;
    DeclareKeeps(walked, t.declared, name);
    CorrectKeeps(declared, t.mistyped, name);
    LiftKeepsSchema(corrected, t.lifts, name);
    RequireKeepsSchema(LiftAll(corrected, t.lifts), t.nonEmpty, name);
  }

  /** A schema no table names comes out as the walk left it, and none appears or goes. */
  lemma {:induction false} UnnamedSchemasAreKept(t: Tables, document: Json, name: string)
    requires WellFormed(t) && !IsNamed(t, name)
    ensures Apply(t, document).Ok? ==>
      var result, walked := SchemaBlock(Apply(t, document).value.0),
          SchemaBlock(Retyped(t.rules, document, Schema(None)));
      result.Ok? && walked.Ok? && Obj(result.value).Get(name) == Obj(walked.value).Get(name)
  {
    if Apply(t, document).Ok? {
      BlocksOfResult(t, document);
      BlockKeeps(t, SchemaBlock(Retyped(t.rules, document, Schema(None))).value, name);
    }
  }

  lemma {:induction false} PatchView(root: Json, qs: seq<PointerPatch>, keys: seq<string>)
    requires forall q :: q in qs ==> Apart(KeysOf(q.pointer), keys)
    ensures Lookup(PatchPointers(root, qs), keys) == Lookup(root, keys)
    decreases |qs|
  {
    if qs == [] {
    } else {
      var soFar, last := PatchPointers(root, qs[..|qs| - 1]), qs[|qs| - 1];
      assert last in qs && forall q :: q in qs[..|qs| - 1] ==> q in qs;
      PatchView(root, qs[..|qs| - 1], keys);
      if Patchable(soFar, last) {
        ReplacedIsLocal(soFar, KeysOf(last.pointer), last.value, keys);
      }
    }
  }

  lemma {:induction false} WithSchemasKeeps(root: Json, schemas: Schemas, keys: seq<string>)
    requires Apart(SCHEMAS, keys)
    ensures Lookup(WithSchemas(root, schemas), keys) == Lookup(root, keys)
  {
    if Lookup(root, SCHEMAS).Some? {
      ReplacedIsLocal(root, SCHEMAS, Obj(schemas), keys);
    }
  }

  /** Outside the schema block, only the pointers write. */
  lemma {:induction false} OnlyPointersWrite(t: Tables, document: Json, keys: seq<string>)
    requires Apply(t, document).Ok? && Apart(SCHEMAS, keys)
    ensures var walked := Retyped(t.rules, document, Schema(None));
      && Declaring(t, walked).Ok?
      && Lookup(Declaring(t, walked).value.0, keys) == Lookup(walked, keys)
      && Lookup(Apply(t, document).value.0, keys) ==
         Lookup(PatchPointers(Declaring(t, walked).value.0, t.pointers), keys)
  {
    var walked := Retyped(t.rules, document, Schema(None));
    var patched := PatchPointers(Declaring(t, walked).value.0, t.pointers);
    WithSchemasKeeps(walked, CorrectedSchemas(t, SchemaBlock(walked).value), keys);
    WithSchemasKeeps(patched, RequireItems(LiftAll(SchemaBlock(patched).value, t.lifts), t.nonEmpty).value.0, keys);
  }

  /** Outside the schema block, a place apart from every pointer holds what the walk left. */
  lemma {:induction false} PlacesElsewhereAreKept(t: Tables, document: Json, keys: seq<string>)
    requires Apply(t, document).Ok? && Apart(SCHEMAS, keys)
    requires forall q :: q in t.pointers ==> Apart(KeysOf(q.pointer), keys)
    ensures Lookup(Apply(t, document).value.0, keys) == Lookup(Retyped(t.rules, document, Schema(None)), keys)
  {
    OnlyPointersWrite(t, document, keys);
    PatchView(Declaring(t, Retyped(t.rules, document, Schema(None))).value.0, t.pointers, keys);
  }

  /** The mapping at a pointer once it has been patched. */
  function PatchedMapping(root: Json, q: PointerPatch): Option<map<string, Json>>
    requires q.value.Obj?
  {
    if Patchable(root, q) then Some(q.value.fields) else Mapping(root, KeysOf(q.pointer))
  }

  lemma {:induction false} PatchedLast(root: Json, qs: seq<PointerPatch>, q: PointerPatch)
    requires q.value.Obj? && forall p :: p in qs ==> Apart(KeysOf(p.pointer), KeysOf(q.pointer))
    ensures Mapping(PatchPointers(root, qs + [q]), KeysOf(q.pointer)) == PatchedMapping(root, q)
  {
    var soFar, keys := PatchPointers(root, qs), KeysOf(q.pointer);
    assert (qs + [q])[..|qs|] == qs;
    PatchView(root, qs, keys);
    if Patchable(soFar, q) {
      ReplacedIsLocal(soFar, keys, q.value, keys);
      assert keys[|keys|..] == [];
    }
  }

  lemma {:induction false} PatchedElsewhere(root: Json, qs: seq<PointerPatch>, n: nat, keys: seq<string>)
    requires n < |qs| && Apart(KeysOf(qs[n].pointer), keys)
    ensures Mapping(PatchPointers(root, qs[..n + 1]), keys) == Mapping(PatchPointers(root, qs[..n]), keys)
  {
    assert qs[..n + 1][..n] == qs[..n];
    if Patchable(PatchPointers(root, qs[..n]), qs[n]) {
      ReplacedIsLocal(PatchPointers(root, qs[..n]), KeysOf(qs[n].pointer), qs[n].value, keys);
    }
  }

  ghost predicate ApartFromRest(qs: seq<PointerPatch>, i: nat)
    requires i < |qs|
  {
    forall j :: 0 <= j < |qs| && j != i ==> Apart(KeysOf(qs[j].pointer), KeysOf(qs[i].pointer))
  }

  lemma {:induction false} PatchedFirst(root: Json, qs: seq<PointerPatch>, i: nat)
    requires i < |qs| && ApartFromRest(qs, i) && qs[i].value.Obj?
    ensures Mapping(PatchPointers(root, qs[..i + 1]), KeysOf(qs[i].pointer)) == PatchedMapping(root, qs[i])
  {
    assert qs[..i + 1] == qs[..i] + [qs[i]];
    forall p | p in qs[..i] ensures Apart(KeysOf(p.pointer), KeysOf(qs[i].pointer)) {
      var j :| 0 <= j < i && qs[j] == p;
    }
    PatchedLast(root, qs[..i], qs[i]);
  }

  lemma {:induction false} PatchedHere(root: Json, qs: seq<PointerPatch>, i: nat, n: nat)
    requires i < n <= |qs| && ApartFromRest(qs, i) && qs[i].value.Obj?
    ensures Mapping(PatchPointers(root, qs[..n]), KeysOf(qs[i].pointer)) == PatchedMapping(root, qs[i])
    decreases n
  {
    if n == i + 1 {
      PatchedFirst(root, qs, i);
    } else {
      PatchedHere(root, qs, i, n - 1);
      assert Apart(KeysOf(qs[n - 1].pointer), KeysOf(qs[i].pointer));
      PatchedElsewhere(root, qs, n - 1, KeysOf(qs[i].pointer));
      assert qs[..n - 1 + 1] == qs[..n];
    }
  }

  lemma {:induction false} SamePlace(a: Json, b: Json, q: PointerPatch)
    requires q.value.Obj? && Lookup(a, KeysOf(q.pointer)) == Lookup(b, KeysOf(q.pointer))
    ensures Mapping(a, KeysOf(q.pointer)) == Mapping(b, KeysOf(q.pointer)) &&
            PatchedMapping(a, q) == PatchedMapping(b, q)
  {
  }

  lemma {:induction false} PointerIsExact(t: Tables, document: Json, i: nat)
    requires Apply(t, document).Ok? && i < |t.pointers| && PointerFits(t.pointers[i]) && ApartFromRest(t.pointers, i)
    ensures Mapping(Apply(t, document).value.0, KeysOf(t.pointers[i].pointer)) ==
            PatchedMapping(Retyped(t.rules, document, Schema(None)), t.pointers[i])
  {
    var walked := Retyped(t.rules, document, Schema(None));
    var keys := KeysOf(t.pointers[i].pointer);
    ApartFromSchemas(keys);
    OnlyPointersWrite(t, document, keys);
    var declared := Declaring(t, walked).value.0;
    assert t.pointers[..|t.pointers|] == t.pointers;
    PatchedHere(declared, t.pointers, i, |t.pointers|);
    SamePlace(walked, declared, t.pointers[i]);
    SamePlace(Apply(t, document).value.0, PatchPointers(declared, t.pointers), t.pointers[i]);
  }

  lemma {:induction false} PatchedGrows(root: Json, qs: seq<PointerPatch>, n: nat)
    requires 0 < n <= |qs|
    ensures forall pointer :: pointer in Patched(root, qs[..n]) <==>
              pointer in Patched(root, qs[..n - 1]) ||
              (pointer == qs[n - 1].pointer && Patchable(PatchPointers(root, qs[..n - 1]), qs[n - 1]))
  {
    assert qs[..n][..n - 1] == qs[..n - 1];
  }

  lemma {:induction false} PatchedIsReported(root: Json, qs: seq<PointerPatch>, i: nat, n: nat)
    requires i < |qs| && n <= |qs| && ApartFromRest(qs, i)
    ensures qs[i].pointer in Patched(root, qs[..n]) <==> i < n && Patchable(root, qs[i])
    decreases n
  {
    if n == 0 {
    } else {
      PatchedIsReported(root, qs, i, n - 1);
      PatchedGrows(root, qs, n);
      if n - 1 == i {
        PatchableStays(root, qs, i, n - 1);
      } else {
        PointersDiffer(qs, i, n - 1);
      }
    }
  }

  lemma {:induction false} PatchableStays(root: Json, qs: seq<PointerPatch>, i: nat, n: nat)
    requires i < |qs| && n <= i && ApartFromRest(qs, i)
    ensures Patchable(PatchPointers(root, qs[..n]), qs[i]) == Patchable(root, qs[i])
    decreases n
  {
    if n > 0 {
      PatchableStays(root, qs, i, n - 1);
      PatchedElsewhere(root, qs, n - 1, KeysOf(qs[i].pointer));
    } else {
      assert qs[..0] == [];
    }
  }

  lemma PointersDiffer(qs: seq<PointerPatch>, i: nat, j: nat)
    requires i < |qs| && j < |qs| && i != j && ApartFromRest(qs, i)
    ensures qs[i].pointer != qs[j].pointer
  {
  }

  lemma {:induction false} ReportedPointers(t: Tables, document: Json, i: nat)
    requires Apply(t, document).Ok? && i < |t.pointers| && PointerFits(t.pointers[i]) && ApartFromRest(t.pointers, i)
    ensures t.pointers[i].pointer in Apply(t, document).value.1.pointers <==>
            Patchable(Retyped(t.rules, document, Schema(None)), t.pointers[i])
  {
    var walked := Retyped(t.rules, document, Schema(None));
    var declared := Declaring(t, walked).value.0;
    ApartFromSchemas(KeysOf(t.pointers[i].pointer));
    OnlyPointersWrite(t, document, KeysOf(t.pointers[i].pointer));
    assert t.pointers[..|t.pointers|] == t.pointers;
    PatchedIsReported(declared, t.pointers, i, |t.pointers|);
    SamePlace(walked, declared, t.pointers[i]);
  }

  /** The place a pointer leads to holds the schema the table gives it, unless it is not
      there or its type was right already; and it is reported exactly when it was patched. */
  lemma {:induction false} PointersAreExact(t: Tables, document: Json, i: nat)
    requires WellFormed(t) && i < |t.pointers|
    ensures t.pointers[i].value.Obj?
    ensures Apply(t, document).Ok? ==>
              Mapping(Apply(t, document).value.0, KeysOf(t.pointers[i].pointer)) ==
              PatchedMapping(Retyped(t.rules, document, Schema(None)), t.pointers[i])
    ensures Apply(t, document).Ok? ==>
              (t.pointers[i].pointer in Apply(t, document).value.1.pointers <==>
               Patchable(Retyped(t.rules, document, Schema(None)), t.pointers[i]))
  {
    assert t.pointers[i] in t.pointers;
    if Apply(t, document).Ok? {
      PointerIsExact(t, document, i);
      ReportedPointers(t, document, i);
    }
  }
}
