/** When the finished document refers to a schema the overlay removed, told from the document
    the overlay is given. */
module MercadoPagoDangling {
  import opened Json
  import opened Reachability
  import opened OverlayEnums
  import opened MercadoPagoOverlay
  import opened MercadoPagoProperties
  import opened MercadoPagoPruning

  ghost predicate PlainDescription(operation: Json) {
    operation.Has("description") ==> Refs(operation.fields["description"]) == {}
  }

  ghost predicate PlainDescriptions(paths: Paths) {
    forall r: Route :: r.verb in VERBS && Op(paths, r).Some? ==> PlainDescription(Op(paths, r).value)
  }

  ghost predicate PlainAdditions(t: Tables) {
    forall i :: 0 <= i < |t.added| ==> PlainDescription(t.added[i].operation)
  }

  ghost predicate NoReferenceLifted(schemas: Schemas, lifts: seq<Lift>) {
    forall l :: l in lifts && Liftable(schemas, l) ==>
      Refs(Obj(Property(schemas, l.schema, l.property).value)) == {}
  }

  /** No reference stands where the overlay writes: in the description of an operation, or
      in a property whose enum it lifts. */
  ghost predicate NoReferenceReplaced(t: Tables, paths: Paths, schemas: Schemas) {
    && PlainDescriptions(paths)
    && PlainAdditions(t)
    && NoReferenceLifted(schemas, t.lifts)
  }

  ghost function RefsAdded(paths: Paths, additions: seq<Addition>): set<string> {
    set a, r | a in additions && Addable(paths, a.route) && r in Refs(a.operation) :: r
  }

  /** What the operations that survive refer to, and those that are added. */
  ghost function Roots(t: Tables, paths: Paths): set<string> {
    Refs(Obj(Surviving(t, paths))) + RefsAdded(Surviving(t, paths), t.added)
  }

  /** The entry is the first to name its property. */
  predicate Decides(lifts: seq<Lift>, l: Lift) {
    LiftFor(lifts, l.At()) == Some(l)
  }

  /** The entry finds an enum in a schema that stays, and is the first to name its property. */
  ghost predicate Fires(t: Tables, paths: Paths, schemas: Schemas, l: Lift) {
    && l in t.lifts && Decides(t.lifts, l)
    && l.schema !in Orphaned(t, paths, schemas) && Liftable(schemas, l)
  }

  ghost predicate IsMade(t: Tables, paths: Paths, schemas: Schemas, name: string) {
    exists l :: Fires(t, paths, schemas, l) && l.component == name
  }

  /** What a name leads to: a schema that stays, to what it refers to and the components its
      enums are lifted into; an observed schema the provider does not declare, to what it
      refers to; a component a lift makes, to nothing. */
  ghost function LinksOf(t: Tables, paths: Paths, schemas: Schemas, name: string): set<string> {
    if name in schemas - Orphaned(t, paths, schemas) then
      Refs(schemas[name]) +
      set l | l in t.lifts && Fires(t, paths, schemas, l) && l.schema == name :: l.component
    else if name in t.observed && !IsMade(t, paths, schemas, name) then Refs(t.observed[name])
    else {}
  }

  /** `names` holds the roots and whatever its members lead to. */
  ghost predicate Follows(t: Tables, paths: Paths, schemas: Schemas, names: set<string>) {
    Roots(t, paths) <= names && forall n :: n in names ==> LinksOf(t, paths, schemas, n) <= names
  }

  /** In every such set: led to from the roots. */
  ghost predicate InUse(t: Tables, paths: Paths, schemas: Schemas, name: string) {
    forall names :: Follows(t, paths, schemas, names) ==> name in names
  }

  /** Pruned, and not written anew. */
  ghost predicate Lost(t: Tables, paths: Paths, schemas: Schemas, name: string) {
    && name in schemas && name in Orphaned(t, paths, schemas)
    && name !in t.observed && !IsMade(t, paths, schemas, name)
  }

  ghost predicate LosesNameInUse(t: Tables, paths: Paths, schemas: Schemas) {
    exists n :: Lost(t, paths, schemas, n) && InUse(t, paths, schemas, n)
  }

  // ----- What the finished paths refer to -----

  lemma {:induction false} SetOpRefsGrow(paths: Paths, r: Route, operation: Json)
    requires !Blocked(paths, r.path) && r.verb in VERBS
    requires Op(paths, r).Some? ==> Refs(Op(paths, r).value) <= Refs(operation)
    ensures Refs(Obj(SetOp(paths, r, operation))) == Refs(Obj(paths)) + Refs(operation)
  {
    SetOpRefs(paths, r, operation);
    var item := if r.path in paths then paths[r.path].fields else map[];
    var after := SetOp(paths, r, operation);
    RefsOfPart(after[r.path].fields, r.verb);
    RefsOfPart(after, r.path);
    forall n | n in Refs(Obj(paths)) ensures n in Refs(Obj(after)) {
      if n !in OwnRef(paths) {
        var path :| path in paths && n in Refs(paths[path]);
        if path == r.path && n !in OwnRef(item) {
          var verb :| verb in item && n in Refs(item[verb]);
          assert n in Refs(after[path].fields[verb]);
        }
        assert n in Refs(after[path]);
      }
    }
  }

  lemma {:induction false} AddRefsExactly(paths: Paths, additions: seq<Addition>)
    requires forall a :: a in additions ==> a.route.verb in VERBS
    requires forall i, j :: 0 <= i < j < |additions| ==> additions[i].route != additions[j].route
    ensures Refs(Obj(Add(paths, additions))) == Refs(Obj(paths)) + RefsAdded(paths, additions)
    decreases |additions|
  {
    if additions == [] {
    } else {
      var earlier, last := additions[..|additions| - 1], additions[|additions| - 1];
      assert last in additions && forall a :: a in additions <==> a in earlier || a == last;
      AddRefsExactly(paths, earlier);
      assert forall a :: a in earlier ==> a.route != last.route;
      AddView(paths, earlier, last.route);
      if Addable(paths, last.route) {
        SetOpRefsGrow(Add(paths, earlier), last.route, last.operation);
      }
    }
  }

  lemma {:induction false} AnnotateKeepsRefs(fields: map<string, Json>, note: string, render: Json -> string)
    requires PlainDescription(Obj(fields))
    ensures Refs(Annotate(fields, note, render)) == Refs(Obj(fields))
    ensures PlainDescription(Annotate(fields, note, render))
  {
    AnnotateRefs(fields, note, render);
    var after := Annotate(fields, note, render).fields;
    forall r | r in Refs(Obj(fields)) ensures r in Refs(Obj(after)) {
      if r !in OwnRef(fields) {
        var k :| k in fields && r in Refs(fields[k]);
        assert after[k] == fields[k];
      }
    }
  }

  lemma MarkUnverifiedKeepsRefs(t: Tables, paths: Paths)
    requires PlainDescriptions(paths)
    ensures Refs(Obj(MarkUnverified(t, paths))) == Refs(Obj(paths)) && PlainDescriptions(MarkUnverified(t, paths))
  {
    var marked := MarkUnverified(t, paths);
    forall r: Route | Op(paths, r).Some?
      ensures Refs(MarkedOp(t, r, Op(paths, r).value)) == Refs(Op(paths, r).value)
      ensures r.verb in VERBS ==> PlainDescription(MarkedOp(t, r, Op(paths, r).value))
    {
      if Unverified(t, r, Op(paths, r).value) {
        AnnotateKeepsRefs(Op(paths, r).value.fields, t.unverifiedNote, t.render);
      }
    }
    MarkUnverifiedRefs(t, paths);
    forall r | r in Refs(Obj(paths)) ensures r in Refs(Obj(marked)) {
      if r !in OwnRef(paths) {
        var path :| path in paths && r in Refs(paths[path]);
        if paths[path].Obj? && r !in OwnRef(paths[path].fields) {
          var verb :| verb in paths[path].fields && r in Refs(paths[path].fields[verb]);
          assert Op(paths, Route(verb, path)).Some?;
          assert r in Refs(marked[path].fields[verb]);
        }
        assert r in Refs(marked[path]);
      }
    }
  }

  lemma {:induction false} NoteKeepsRefs(t: Tables, paths: Paths, u: Unrouted)
    requires PlainDescriptions(paths) && u.route.verb in VERBS && NeedsNote(t, paths, u)
    ensures Refs(Obj(MarkUnroutedOne(t, paths, u))) == Refs(Obj(paths))
    ensures PlainDescriptions(MarkUnroutedOne(t, paths, u))
  {
    var operation := Op(paths, u.route).value.fields;
    var annotated := Annotate(operation, u.note, t.render);
    AnnotateKeepsRefs(operation, u.note, t.render);
    SetOpRefsGrow(paths, u.route, annotated);
    OperationRefsAreReached(paths, u.route);
    forall r: Route ensures Op(SetOp(paths, u.route, annotated), r) == if r == u.route then Some(annotated) else
        Op(paths, r) {
      SetOpView(paths, u.route, annotated, r);
    }
  }

  lemma {:induction false} MarkUnroutedKeepsRefs(t: Tables, paths: Paths, us: seq<Unrouted>)
    requires PlainDescriptions(paths) && forall u :: u in us ==> u.route.verb in VERBS
    ensures Refs(Obj(MarkUnrouted(t, paths, us))) == Refs(Obj(paths)) && PlainDescriptions(MarkUnrouted(t, paths, us))
    decreases |us|
  {
    if us == [] {
    } else {
      var last := us[|us| - 1];
      assert last in us && forall u :: u in us[..|us| - 1] ==> u in us;
      MarkUnroutedKeepsRefs(t, paths, us[..|us| - 1]);
      var soFar := MarkUnrouted(t, paths, us[..|us| - 1]);
      if NeedsNote(t, soFar, last) {
        NoteKeepsRefs(t, soFar, last);
      }
    }
  }

  lemma {:induction false} AddedOpIsListed(additions: seq<Addition>, r: Route)
    ensures AddedOp(additions, r).Some? ==>
              exists i :: 0 <= i < |additions| && AddedOp(additions, r) == Some(additions[i].operation)
    decreases |additions|
  {
    if additions == [] {
    } else {
      var earlier := additions[..|additions| - 1];
      AddedOpIsListed(earlier, r);
      assert forall i :: 0 <= i < |earlier| ==> earlier[i] == additions[i];
    }
  }

  lemma CompletedIsPlain(t: Tables, paths: Paths)
    requires WellFormed(t) && PlainDescriptions(paths)
    requires PlainAdditions(t)
    ensures PlainDescriptions(Completed(t, paths))
  {
    forall r: Route | r.verb in VERBS && Op(Completed(t, paths), r).Some?
      ensures PlainDescription(Op(Completed(t, paths), r).value)
    {
      CompletedView(t, paths, r);
      AddedOpIsListed(t.added, r);
    }
  }

  lemma FinalPathsRefsExactly(t: Tables, paths: Paths)
    requires WellFormed(t) && PlainDescriptions(paths)
    requires PlainAdditions(t)
    ensures Refs(Obj(FinalPaths(t, paths))) == Roots(t, paths)
  {
    AddRefsExactly(Surviving(t, paths), t.added);
    CompletedIsPlain(t, paths);
    MarkUnverifiedKeepsRefs(t, Completed(t, paths));
    MarkUnroutedKeepsRefs(t, MarkUnverified(t, Completed(t, paths)), t.unrouted);
  }

  // ----- What a finished schema refers to -----

  lemma {:induction false} OpenPropertyRefsExactly(current: map<string, Json>, l: Lift)
    requires Refs(Obj(current)) == {}
    ensures Refs(OpenProperty(current, l)) == {l.component}
  {
    OpenPropertyRefs(current, l);
    ChoicesRefs(current, l);
    RefsOfPart(OpenProperty(current, l).fields, "anyOf");
  }

  predicate HasProperties(schemas: Schemas, name: string) {
    name in schemas && schemas[name].Has("properties") && schemas[name].fields["properties"].Obj?
  }

  /** The components a schema's enums are lifted into. */
  function ComponentsOpened(schemas: Schemas, lifts: seq<Lift>, name: string): set<string> {
    set l | l in lifts && l.schema == name && Decides(lifts, l) && Liftable(schemas, l) :: l.component
  }

  lemma {:induction false} LiftedPropertyRefs(schemas: Schemas, lifts: seq<Lift>, at: PropertyRef)
    requires Property(schemas, at.schema, at.property).Some?
    requires NoReferenceLifted(schemas, lifts)
    ensures var declared, l := Obj(Property(schemas, at.schema, at.property).value), LiftFor(lifts, at);
      var lifted := l.Some? && declared.Has("enum");
      && (lifted ==> l.value.At() == at && l.value in lifts && Liftable(schemas, l.value))
      && Refs(LiftedProperty(declared, l)) == Refs(declared) + if lifted then {l.value.component} else {}
  {
    LiftForIsListed(lifts, at);
    var current, l := Property(schemas, at.schema, at.property).value, LiftFor(lifts, at);
    if l.Some? && "enum" in current {
      assert Liftable(schemas, l.value);
      OpenPropertyRefsExactly(current, l.value);
    }
  }

  lemma {:induction false} RefsOfProperty(schema: Json, p: string)
    requires schema.Has("properties") && schema.fields["properties"].Has(p)
    ensures Refs(schema.fields["properties"].fields[p]) <= Refs(schema)
  {
    RefsOfPart(schema.fields["properties"].fields, p);
    RefsOfPart(schema.fields, "properties");
  }

  lemma {:induction false} LiftedRefIsOld(schemas: Schemas, lifts: seq<Lift>, name: string, r: string)
    requires HasProperties(schemas, name) && NoReferenceLifted(schemas, lifts)
    requires r in Refs(LiftedSchema(name, schemas[name], lifts))
    ensures r in Refs(schemas[name]) + ComponentsOpened(schemas, lifts, name)
  {
    var before, after := schemas[name], LiftedSchema(name, schemas[name], lifts);
    var declared, lifted := before.fields["properties"].fields, after.fields["properties"].fields;
    if r in Refs(after.fields["properties"]) {
      RefsOfPart(before.fields, "properties");
      if r !in OwnRef(lifted) {
        var p :| p in lifted && r in Refs(lifted[p]);
        RefsOfProperty(before, p);
        if declared[p].Obj? {
          LiftedPropertyRefs(schemas, lifts, PropertyRef(name, p));
        }
      }
    } else if r !in OwnRef(after.fields) {
      var k :| k in after.fields && r in Refs(after.fields[k]);
      RefsOfPart(before.fields, k);
    }
  }

  lemma {:induction false} ComponentIsReferred(schemas: Schemas, lifts: seq<Lift>, name: string, r: string)
    requires HasProperties(schemas, name) && NoReferenceLifted(schemas, lifts)
    requires r in ComponentsOpened(schemas, lifts, name)
    ensures r in Refs(LiftedSchema(name, schemas[name], lifts))
  {
    var l :| l in lifts && l.schema == name && Decides(lifts, l) && Liftable(schemas, l) && l.component == r;
    LiftedPropertyRefs(schemas, lifts, l.At());
    RefsOfProperty(LiftedSchema(name, schemas[name], lifts), l.property);
  }

  lemma {:induction false} LiftedRefIsKept(schemas: Schemas, lifts: seq<Lift>, name: string, r: string)
    requires HasProperties(schemas, name) && NoReferenceLifted(schemas, lifts)
    requires r in Refs(schemas[name]) + ComponentsOpened(schemas, lifts, name)
    ensures r in Refs(LiftedSchema(name, schemas[name], lifts))
  {
    var before, after := schemas[name], LiftedSchema(name, schemas[name], lifts);
    var declared, lifted := before.fields["properties"].fields, after.fields["properties"].fields;
    RefsOfPart(after.fields, "properties");
    if r in ComponentsOpened(schemas, lifts, name) {
      ComponentIsReferred(schemas, lifts, name, r);
    } else if r in Refs(before.fields["properties"]) {
      if r !in OwnRef(declared) {
        var p :| p in declared && r in Refs(declared[p]);
        if declared[p].Obj? {
          LiftedPropertyRefs(schemas, lifts, PropertyRef(name, p));
        }
        RefsOfProperty(after, p);
      }
    } else if r !in OwnRef(before.fields) {
      var k :| k in before.fields && r in Refs(before.fields[k]);
      RefsOfPart(after.fields, k);
    }
  }

  lemma {:induction false} LiftedSchemaRefs(schemas: Schemas, lifts: seq<Lift>, name: string)
    requires name in schemas
    requires NoReferenceLifted(schemas, lifts)
    ensures Refs(LiftedSchema(name, schemas[name], lifts)) ==
            Refs(schemas[name]) + ComponentsOpened(schemas, lifts, name)
  {
    var before, after := schemas[name], LiftedSchema(name, schemas[name], lifts);
    if HasProperties(schemas, name) {
      forall r | r in Refs(after) ensures r in Refs(before) + ComponentsOpened(schemas, lifts, name) {
        LiftedRefIsOld(schemas, lifts, name, r);
      }
      forall r | r in Refs(before) + ComponentsOpened(schemas, lifts, name) ensures r in Refs(after) {
        LiftedRefIsKept(schemas, lifts, name, r);
      }
    }
  }

  lemma {:induction false} CreatorIsListed(schemas: Schemas, lifts: seq<Lift>, name: string)
    ensures CreatorOf(schemas, lifts, name).Some? <==>
            exists l :: l in lifts && Decides(lifts, l) && Liftable(schemas, l) && l.component == name
    ensures CreatorOf(schemas, lifts, name).Some? ==> CreatorOf(schemas, lifts, name).value in lifts
    decreases |lifts|
  {
    if lifts == [] {
    } else {
      var earlier, last := lifts[..|lifts| - 1], lifts[|lifts| - 1];
      assert last in lifts && forall l :: l in lifts <==> l in earlier || l == last;
      CreatorIsListed(schemas, earlier, name);
      forall l | l in lifts ensures Decides(lifts, l) <==>
          Decides(earlier, l) || (l == last && LiftFor(earlier, last.At()).None?) {
        if l in earlier {
          LiftForFinds(earlier, l);
        }
      }
      LiftForIsListed(earlier, last.At());
    }
  }

  lemma {:induction false} LiftForFinds(lifts: seq<Lift>, l: Lift)
    requires l in lifts
    ensures LiftFor(lifts, l.At()).Some?
    decreases |lifts|
  {
    if lifts[|lifts| - 1] != l {
      LiftForFinds(lifts[..|lifts| - 1], l);
    }
  }

  lemma {:induction false} MadeIsCreated(t: Tables, paths: Paths, schemas: Schemas, name: string)
    ensures CreatorOf(schemas - Orphaned(t, paths, schemas), t.lifts, name).Some? <==>
            IsMade(t, paths, schemas, name)
    ensures var l := CreatorOf(schemas - Orphaned(t, paths, schemas), t.lifts, name);
      l.Some? ==> l.value in t.lifts && Liftable(schemas, l.value)
  {
    var kept := schemas - Orphaned(t, paths, schemas);
    CreatorIsListed(kept, t.lifts, name);
    assert forall l: Lift :: Liftable(kept, l) <==> Liftable(schemas, l) && l.schema in kept;
  }

  /** The references of every name in the finished schemas are its links. */
  lemma FinalSchemasFollowLinks(t: Tables, paths: Paths, schemas: Schemas, name: string)
    requires NoReferenceLifted(schemas, t.lifts)
    ensures RefsOfStored(name, FinalSchemas(t, paths, schemas)) == LinksOf(t, paths, schemas, name)
    ensures name in RemovedSchemas(t, paths, schemas) <==> Lost(t, paths, schemas, name)
  {
    var kept := schemas - Orphaned(t, paths, schemas);
    SchemasAreConserved(t, paths, schemas, name);
    MadeIsCreated(t, paths, schemas, name);
    if name in kept {
      LiftedSchemaRefs(schemas, t.lifts, name);
    } else if CreatorOf(kept, t.lifts, name).Some? {
      var l := CreatorOf(kept, t.lifts, name).value;
      ComponentHasNoRefs(Property(schemas, l.schema, l.property).value, l);
    }
  }

  lemma {:induction false} ComponentHasNoRefs(current: map<string, Json>, l: Lift)
    requires "enum" in current && Refs(Obj(current)) == {}
    ensures Refs(ClosedComponent(current, l)) == {}
  {
    ComponentRefs(current, l);
    RefsOfPart(current, "enum");
    if "type" in current {
      RefsOfPart(current, "type");
    }
  }

  lemma FollowingIsClosed(t: Tables, paths: Paths, schemas: Schemas, names: set<string>)
    requires WellFormed(t) && NoReferenceReplaced(t, paths, schemas)
    ensures Follows(t, paths, schemas, names) <==>
            Closed(names, Obj(FinalPaths(t, paths)), FinalSchemas(t, paths, schemas))
  {
    var final := FinalSchemas(t, paths, schemas);
    FinalPathsRefsExactly(t, paths);
    forall n | n in names
      ensures LinksOf(t, paths, schemas, n) <= names <==> (n in final ==> Refs(final[n]) <= names)
    {
      FinalSchemasFollowLinks(t, paths, schemas, n);
    }
  }

  /** What the finished document reaches is what is in use. */
  lemma ReachIsInUse(t: Tables, paths: Paths, schemas: Schemas)
    requires WellFormed(t) && NoReferenceReplaced(t, paths, schemas)
    ensures forall n :: n in Reach(Obj(FinalPaths(t, paths)), FinalSchemas(t, paths, schemas)) <==>
              InUse(t, paths, schemas, n)
  {
    var q, final := Obj(FinalPaths(t, paths)), FinalSchemas(t, paths, schemas);
    ReachIsLeastClosed(q, final);
    forall names ensures Follows(t, paths, schemas, names) <==> Closed(names, q, final) {
      FollowingIsClosed(t, paths, schemas, names);
    }
  }

  /** The finished document reaches a schema the overlay removed exactly when a name that is
      pruned and not written anew is in use: all told from the document given. */
  lemma DanglesExactlyWhenLostNameIsInUse(t: Tables, paths: Paths, schemas: Schemas)
    requires WellFormed(t) && NoReferenceReplaced(t, paths, schemas)
    ensures Dangles(t, paths, schemas) <==> LosesNameInUse(t, paths, schemas)
  {
    ReachIsInUse(t, paths, schemas);
    forall n ensures n in RemovedSchemas(t, paths, schemas) <==> Lost(t, paths, schemas, n) {
      FinalSchemasFollowLinks(t, paths, schemas, n);
    }
  }
}
