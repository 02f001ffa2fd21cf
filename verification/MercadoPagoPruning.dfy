/** Pruning after the deprecated operations are gone: what it keeps on the spot, and what
    the finished document can still reach. */
module MercadoPagoPruning {
  import opened Json
  import opened Reachability
  import opened OverlayEnums
  import opened MercadoPagoOverlay
  import opened MercadoPagoProperties

  // ----- References under an edited path block -----

  lemma DeleteOpRefs(paths: Paths, r: Route)
    requires Op(paths, r).Some?
    ensures Refs(Obj(DeleteOp(paths, r))) <= Refs(Obj(paths))
  {
    var rest := paths[r.path].fields - {r.verb};
    RefsOfSubmap(paths[r.path].fields, {r.verb});
    RefsOfUpdate(paths, r.path, Obj(rest));
    RefsOfSubmap(paths, {r.path});
  }

  lemma {:induction false} OperationRefsAreReached(paths: Paths, r: Route)
    requires Op(paths, r).Some?
    ensures Refs(Op(paths, r).value) <= Refs(Obj(paths))
  {
    RefsOfPart(paths[r.path].fields, r.verb);
    RefsOfPart(paths, r.path);
  }

  lemma {:induction false} RemoveRefs(paths: Paths, rs: seq<Route>)
    ensures Refs(Obj(Remove(paths, rs))) <= Refs(Obj(paths))
    decreases |rs|
  {
    if rs == [] {
    } else {
      var earlier := Remove(paths, rs[..|rs| - 1]);
      RemoveRefs(paths, rs[..|rs| - 1]);
      if Op(earlier, rs[|rs| - 1]).Some? {
        DeleteOpRefs(earlier, rs[|rs| - 1]);
      }
    }
  }

  /** What pruning drops is exactly what stopped being reached, and the operations that
      survive reach the same schemas with the same content as before. */
  lemma PruningIsSafe(t: Tables, paths: Paths, schemas: Schemas)
    ensures var live, orphaned := Reach(Obj(Surviving(t, paths)), schemas), Orphaned(t, paths, schemas);
      && Reach(Obj(Routed(t, paths)), schemas) == live + orphaned && live !! orphaned
      && Reach(Obj(Surviving(t, paths)), schemas - orphaned) == live
      && forall n :: n in live && n in schemas ==> n in schemas - orphaned && (schemas - orphaned)[n] == schemas[n]
  {
    var live, orphaned := Reach(Obj(Surviving(t, paths)), schemas), Orphaned(t, paths, schemas);
    RemoveRefs(Routed(t, paths), t.deprecated);
    ReachIsMonotone(Obj(Surviving(t, paths)), Obj(Routed(t, paths)), schemas);
    PruningKeepsReach(Obj(Surviving(t, paths)), schemas, orphaned);
  }

  // ----- The finished document -----

  function LiftTargets(t: Tables): set<string> {
    set l | l in t.lifts :: l.component
  }

  /** The observed schemas and the added operations refer to observed schemas only. */
  ghost predicate AdditionsClosed(t: Tables) {
    && (forall n :: n in t.observed ==> Refs(t.observed[n]) <= t.observed.Keys)
    && (forall a :: a in t.added ==> Refs(a.operation) <= t.observed.Keys)
  }

  lemma ClosedEntryByEntry(t: Tables)
    requires forall n :: n in t.observed ==> Refs(t.observed[n]) <= t.observed.Keys
    requires forall i :: 0 <= i < |t.added| ==> Refs(t.added[i].operation) <= t.observed.Keys
    ensures AdditionsClosed(t)
  {
  }

  /** Whatever a lifted enum refers to, by its values or its type, is in `names`. */
  ghost predicate EnumRefsWithin(schemas: Schemas, lifts: seq<Lift>, names: set<string>) {
    forall l :: l in lifts && Liftable(schemas, l) ==>
      var current := Property(schemas, l.schema, l.property).value;
      Refs(BareType(current)) + Refs(current["enum"]) <= names
  }

  lemma AnnotateRefs(fields: map<string, Json>, note: string, render: Json -> string)
    ensures Refs(Annotate(fields, note, render)) <= Refs(Obj(fields))
  {
    RefsOfUpdate(fields, "description", Str(Description(fields, render) + note));
  }

  lemma {:induction false} SetOpRefs(paths: Paths, r: Route, operation: Json)
    requires !Blocked(paths, r.path) && r.verb in VERBS
    ensures Refs(Obj(SetOp(paths, r, operation))) <= Refs(Obj(paths)) + Refs(operation)
    ensures Op(paths, r).Some? ==> Refs(Op(paths, r).value) <= Refs(Obj(paths))
  {
    var item := if r.path in paths then paths[r.path].fields else map[];
    RefsOfUpdate(item, r.verb, operation);
    RefsOfUpdate(paths, r.path, Obj(item[r.verb := operation]));
  }

  lemma {:induction false} AddRefs(t: Tables, paths: Paths, additions: seq<Addition>)
    requires forall a :: a in additions ==> a.route.verb in VERBS && Refs(a.operation) <= t.observed.Keys
    ensures Refs(Obj(Add(paths, additions))) <= Refs(Obj(paths)) + t.observed.Keys
    decreases |additions|
  {
    if additions == [] {
    } else {
      var last := additions[|additions| - 1];
      assert last in additions && forall a :: a in additions[..|additions| - 1] ==> a in additions;
      AddRefs(t, paths, additions[..|additions| - 1]);
      var soFar := Add(paths, additions[..|additions| - 1]);
      if Addable(soFar, last.route) {
        SetOpRefs(soFar, last.route, last.operation);
      }
    }
  }

  lemma MarkUnverifiedRefs(t: Tables, paths: Paths)
    ensures Refs(Obj(MarkUnverified(t, paths))) <= Refs(Obj(paths))
  {
    var marked := MarkUnverified(t, paths);
    forall r | r in Refs(Obj(marked)) ensures r in Refs(Obj(paths)) {
      if r !in OwnRef(marked) {
        var path :| path in marked && r in Refs(marked[path]);
        if paths[path].Obj? {
          var item := paths[path].fields;
          if r !in OwnRef(marked[path].fields) {
            var verb :| verb in item && r in Refs(MarkedOp(t, Route(verb, path), item[verb]));
            if item[verb].Obj? {
              AnnotateRefs(item[verb].fields, t.unverifiedNote, t.render);
            }
            assert r in Refs(item[verb]);
          }
          assert r in Refs(paths[path]);
        }
      }
    }
  }

  lemma {:induction false} MarkUnroutedRefs(t: Tables, paths: Paths, us: seq<Unrouted>)
    requires forall u :: u in us ==> u.route.verb in VERBS
    ensures Refs(Obj(MarkUnrouted(t, paths, us))) <= Refs(Obj(paths))
    decreases |us|
  {
    if us == [] {
    } else {
      var last := us[|us| - 1];
      assert last in us && forall u :: u in us[..|us| - 1] ==> u in us;
      MarkUnroutedRefs(t, paths, us[..|us| - 1]);
      var soFar := MarkUnrouted(t, paths, us[..|us| - 1]);
      if NeedsNote(t, soFar, last) {
        var operation := Op(soFar, last.route).value.fields;
        AnnotateRefs(operation, last.note, t.render);
        SetOpRefs(soFar, last.route, Annotate(operation, last.note, t.render));
      }
    }
  }

  lemma FinalPathsRefs(t: Tables, paths: Paths)
    requires WellFormed(t) && AdditionsClosed(t)
    ensures Refs(Obj(FinalPaths(t, paths))) <= Refs(Obj(Surviving(t, paths))) + t.observed.Keys
  {
    AddRefs(t, Surviving(t, paths), t.added);
    MarkUnverifiedRefs(t, Completed(t, paths));
    MarkUnroutedRefs(t, MarkUnverified(t, Completed(t, paths)), t.unrouted);
  }

  lemma LiftOneSeesOriginal(schemas: Schemas, last: Lift, l: Lift)
    ensures Liftable(LiftOne(schemas, last), l) ==>
              Liftable(schemas, l) &&
              Property(LiftOne(schemas, last), l.schema, l.property) == Property(schemas, l.schema, l.property)
  {
  }

  /** The property an entry lifts is the one the document started with. */
  lemma {:induction false} LiftSeesOriginal(schemas: Schemas, lifts: seq<Lift>, l: Lift)
    ensures Liftable(LiftAll(schemas, lifts), l) ==>
              Liftable(schemas, l) &&
              Property(LiftAll(schemas, lifts), l.schema, l.property) == Property(schemas, l.schema, l.property)
    decreases |lifts|
  {
    if lifts == [] {
    } else {
      LiftSeesOriginal(schemas, lifts[..|lifts| - 1], l);
      LiftOneSeesOriginal(LiftAll(schemas, lifts[..|lifts| - 1]), lifts[|lifts| - 1], l);
    }
  }

  lemma {:induction false} ChoicesRefs(current: map<string, Json>, l: Lift)
    ensures Refs(OpenProperty(current, l).fields["anyOf"]) == {l.component} + Refs(BareType(current))
  {
    var choices, bare := OpenProperty(current, l).fields["anyOf"].items, map["type" := BareType(current)];
    RefsOfRef(l.component);
    RefsOfPart(bare, "type");
    RefsOfMapping(bare, Refs(BareType(current)));
    assert choices == [RefTo(l.component), Obj(bare)];
    assert choices[0] == RefTo(l.component) && choices[1] == Obj(bare);
  }

  lemma {:induction false} OpenPropertyRefs(current: map<string, Json>, l: Lift)
    ensures Refs(OpenProperty(current, l)) <= Refs(Obj(current)) + {l.component}
  {
    ChoicesRefs(current, l);
    if "type" in current {
      RefsOfPart(current, "type");
    }
    if "description" in current {
      RefsOfPart(current, "description");
    }
    RefsOfMapping(OpenProperty(current, l).fields, Refs(Obj(current)) + {l.component});
  }

  lemma {:induction false} ComponentRefs(current: map<string, Json>, l: Lift)
    requires "enum" in current
    ensures Refs(ClosedComponent(current, l)) <= Refs(BareType(current)) + Refs(current["enum"])
  {
    RefsOfMapping(ClosedComponent(current, l).fields, Refs(BareType(current)) + Refs(current["enum"]));
  }

  lemma {:induction false} WithPropertyRefs(schemas: Schemas, l: Lift, replacement: Json)
    requires Property(schemas, l.schema, l.property).Some? && replacement.Obj?
    ensures Refs(WithProperty(schemas, l.schema, l.property, replacement)[l.schema]) <=
            Refs(schemas[l.schema]) + Refs(replacement)
    ensures Refs(schemas[l.schema].fields["properties"].fields[l.property]) <= Refs(schemas[l.schema])
  {
    var target := schemas[l.schema].fields;
    var declared := target["properties"].fields;
    RefsOfUpdate(declared, l.property, replacement);
    RefsOfUpdate(target, "properties", Obj(declared[l.property := replacement]));
  }

  lemma LiftOneRefs(schemas: Schemas, l: Lift, names: set<string>, n: string)
    requires EnumRefsWithin(schemas, [l], names) && l.component in names && n in LiftOne(schemas, l)
    ensures Refs(LiftOne(schemas, l)[n]) <= RefsOfStored(n, schemas) + names
  {
    if Liftable(schemas, l) {
      assert l in [l];
      LiftIsLocal(schemas, l);
      var current := Property(schemas, l.schema, l.property).value;
      if n == l.schema {
        var grown := if l.component in schemas then schemas else schemas[l.component := ClosedComponent(current, l)];
        OpenPropertyRefs(current, l);
        WithPropertyRefs(grown, l, OpenProperty(current, l));
      } else if n !in schemas {
        ComponentRefs(current, l);
      }
    }
  }

  lemma {:induction false} LiftAllRefs(schemas: Schemas, lifts: seq<Lift>, names: set<string>, n: string)
    requires EnumRefsWithin(schemas, lifts, names) && n in LiftAll(schemas, lifts)
    requires forall l :: l in lifts ==> l.component in names
    ensures Refs(LiftAll(schemas, lifts)[n]) <= RefsOfStored(n, schemas) + names
    decreases |lifts|
  {
    if lifts == [] {
    } else {
      var earlier, last := lifts[..|lifts| - 1], lifts[|lifts| - 1];
      assert last in lifts && forall l :: l in earlier ==> l in lifts;
      var soFar := LiftAll(schemas, earlier);
      LiftSeesOriginal(schemas, earlier, last);
      LiftOneRefs(soFar, last, names, n);
      if n in soFar {
        LiftAllRefs(schemas, earlier, names, n);
      }
    }
  }

  lemma EnumRefsStayWithin(schemas: Schemas, orphaned: set<string>, lifts: seq<Lift>, names: set<string>)
    requires EnumRefsWithin(schemas, lifts, names)
    ensures EnumRefsWithin(schemas - orphaned, lifts, names)
  {
    forall l | l in lifts && Liftable(schemas - orphaned, l)
      ensures Liftable(schemas, l) && Property(schemas, l.schema, l.property) ==
              Property(schemas - orphaned, l.schema, l.property)
    {
    }
  }

  /** The names the overlay writes of its own accord. */
  function NewNames(t: Tables): set<string> {
    t.observed.Keys + LiftTargets(t)
  }

  /** `names` holds what the paths and the lifted enums refer to and every stored name the
      overlay starts to use, and is closed. */
  ghost predicate Covers(t: Tables, names: set<string>, paths: Json, schemas: Schemas) {
    && Closed(names, paths, schemas)
    && EnumRefsWithin(schemas, t.lifts, names)
    && forall n :: n in NewNames(t) && n in schemas ==> n in names
  }

  lemma FinalSchemaRefs(t: Tables, schemas: Schemas, orphaned: set<string>, names: set<string>, paths: Json, n: string)
    requires AdditionsClosed(t) && Covers(t, names, paths, schemas)
    requires n in names + NewNames(t)
    requires n in t.observed + LiftAll(schemas - orphaned, t.lifts)
    ensures Refs((t.observed + LiftAll(schemas - orphaned, t.lifts))[n]) <= names + NewNames(t)
  {
    var kept := schemas - orphaned;
    if n in LiftAll(kept, t.lifts) {
      EnumRefsStayWithin(schemas, orphaned, t.lifts, names + NewNames(t));
      LiftAllRefs(kept, t.lifts, names + NewNames(t), n);
      assert n in kept ==> n in names && Refs(schemas[n]) <= names;
    }
  }

  /** The finished document reaches no more than the surviving operations and the stored
      names it starts to use do, and what the overlay writes. */
  lemma FinalReach(t: Tables, paths: Paths, schemas: Schemas, names: set<string>)
    requires WellFormed(t) && AdditionsClosed(t)
    requires Covers(t, names, Obj(Surviving(t, paths)), schemas)
    ensures Reach(Obj(FinalPaths(t, paths)), FinalSchemas(t, paths, schemas)) <= names + NewNames(t)
  {
    var final := FinalSchemas(t, paths, schemas);
    FinalPathsRefs(t, paths);
    forall n | n in names + NewNames(t) && n in final ensures Refs(final[n]) <= names + NewNames(t) {
      FinalSchemaRefs(t, schemas, Orphaned(t, paths, schemas), names, Obj(Surviving(t, paths)), n);
    }
    ReachWithin(names + NewNames(t), Obj(FinalPaths(t, paths)), final);
  }

  // ----- When the finished document reaches a schema the overlay removed -----

  /** The stored schemas that are gone from the result. */
  ghost function RemovedSchemas(t: Tables, paths: Paths, schemas: Schemas): set<string> {
    set n | n in schemas && n !in FinalSchemas(t, paths, schemas)
  }

  ghost predicate Dangles(t: Tables, paths: Paths, schemas: Schemas) {
    exists n :: n in Reach(Obj(FinalPaths(t, paths)), FinalSchemas(t, paths, schemas)) &&
        n in RemovedSchemas(t, paths, schemas)
  }

  function LiftsOutside(lifts: seq<Lift>, names: set<string>): seq<Lift> {
    if lifts == [] then [] else
      LiftsOutside(lifts[..|lifts| - 1], names) +
      if lifts[|lifts| - 1].schema in names then [] else [lifts[|lifts| - 1]]
  }

  /** The schemas of the same run without pruning: a pruned schema the overlay writes anew
      is the new one, and any other stays stored as it is. */
  ghost function Unpruned(t: Tables, paths: Paths, schemas: Schemas): Schemas {
    var orphaned := Orphaned(t, paths, schemas);
    t.observed + LiftAll(schemas - orphaned * NewNames(t), LiftsOutside(t.lifts, orphaned - NewNames(t)))
  }

  predicate SameAtName(a: Schemas, b: Schemas, name: string) {
    Obj(a).Get(name) == Obj(b).Get(name)
  }

  /** Outside a set of names that neither table writes, nor the second stores, lifting gives
      the same, with or without the lifts of those names. */
  lemma {:induction false} LiftsAgreeOutside(a: Schemas, b: Schemas, lifts: seq<Lift>, gone: set<string>)
    requires forall l :: l in lifts ==> l.component !in gone
    requires b.Keys !! gone && forall n :: n !in gone ==> SameAtName(a, b, n)
    ensures LiftAll(b, lifts).Keys !! gone
    ensures forall n :: n !in gone ==> SameAtName(LiftAll(a, LiftsOutside(lifts, gone)), LiftAll(b, lifts), n)
    decreases |lifts|
  {
    if lifts == [] {
    } else {
      var earlier, last := lifts[..|lifts| - 1], lifts[|lifts| - 1];
      assert last in lifts && forall l :: l in earlier ==> l in lifts;
      LiftsAgreeOutside(a, b, earlier, gone);
      var outside := LiftsOutside(earlier, gone);
      if last.schema !in gone {
        assert (outside + [last])[..|outside|] == outside;
        LiftAgreesOutside(LiftAll(a, outside), LiftAll(b, earlier), last, gone);
      } else {
        assert !Liftable(LiftAll(b, earlier), last);
        assert outside + [] == outside;
      }
    }
  }

  lemma LiftAgreesOutside(a: Schemas, b: Schemas, l: Lift, gone: set<string>)
    requires l.schema !in gone && l.component !in gone
    requires b.Keys !! gone && forall n :: n !in gone ==> SameAtName(a, b, n)
    ensures LiftOne(b, l).Keys !! gone
    ensures forall n :: n !in gone ==> SameAtName(LiftOne(a, l), LiftOne(b, l), n)
  {
    assert SameAtName(a, b, l.schema) && SameAtName(a, b, l.component);
  }

  /** The finished document reaches a schema the overlay removed exactly when the same run
      without pruning reaches one. */
  lemma DanglesExactlyWhenUnprunedReaches(t: Tables, paths: Paths, schemas: Schemas)
    ensures Dangles(t, paths, schemas) <==>
            exists n :: n in Reach(Obj(FinalPaths(t, paths)), Unpruned(t, paths, schemas)) &&
                n in RemovedSchemas(t, paths, schemas)
  {
    var orphaned, final := Orphaned(t, paths, schemas), FinalSchemas(t, paths, schemas);
    var gone, unpruned, removed := orphaned - NewNames(t), Unpruned(t, paths, schemas),
        RemovedSchemas(t, paths, schemas);
    LiftsAgreeOutside(schemas - orphaned * NewNames(t), schemas - orphaned, t.lifts, gone);
    forall n | n !in removed ensures RefsOfStored(n, final) == RefsOfStored(n, unpruned) {
      if n in gone {
        GoneIsNotWritten(t, paths, schemas, n);
      } else {
        assert SameAtName(unpruned, final, n);
      }
    }
    AvoidedAlike(Obj(FinalPaths(t, paths)), final, unpruned, removed);
  }

  lemma {:induction false} LiftWritesTargets(schemas: Schemas, lifts: seq<Lift>, n: string)
    requires n in LiftAll(schemas, lifts) && n !in schemas
    ensures exists l :: l in lifts && l.component == n
    decreases |lifts|
  {
    var earlier, last := lifts[..|lifts| - 1], lifts[|lifts| - 1];
    assert last in lifts && forall l :: l in earlier ==> l in lifts;
    if n in LiftAll(schemas, earlier) {
      LiftWritesTargets(schemas, earlier, n);
    }
  }

  lemma {:induction false} OutsideIsWithin(lifts: seq<Lift>, names: set<string>)
    ensures forall l :: l in LiftsOutside(lifts, names) ==> l in lifts
    decreases |lifts|
  {
    if lifts == [] {
    } else {
      OutsideIsWithin(lifts[..|lifts| - 1], names);
      assert lifts[|lifts| - 1] in lifts && forall l :: l in lifts[..|lifts| - 1] ==> l in lifts;
    }
  }

  /** A name that was reached, and is neither stored nor written, is in neither. */
  lemma GoneIsNotWritten(t: Tables, paths: Paths, schemas: Schemas, n: string)
    requires n in Orphaned(t, paths, schemas) - NewNames(t) && n !in RemovedSchemas(t, paths, schemas)
    ensures n !in FinalSchemas(t, paths, schemas) && n !in Unpruned(t, paths, schemas)
  {
    var orphaned := Orphaned(t, paths, schemas);
    if n in FinalSchemas(t, paths, schemas) {
      LiftWritesTargets(schemas - orphaned, t.lifts, n);
    }
    if n in Unpruned(t, paths, schemas) {
      var lifts := LiftsOutside(t.lifts, orphaned - NewNames(t));
      OutsideIsWithin(t.lifts, orphaned - NewNames(t));
      LiftWritesTargets(schemas - orphaned * NewNames(t), lifts, n);
    }
  }

  /** It reaches none when each stored name the overlay starts to use was in use already. */
  lemma NothingDangles(t: Tables, paths: Paths, schemas: Schemas)
    requires WellFormed(t) && AdditionsClosed(t)
    requires EnumRefsWithin(schemas, t.lifts, Reach(Obj(Surviving(t, paths)), schemas))
    requires forall n :: n in NewNames(t) && n in schemas ==> n in Reach(Obj(Surviving(t, paths)), schemas)
    ensures !Dangles(t, paths, schemas)
  {
    ReachIsLeastClosed(Obj(Surviving(t, paths)), schemas);
    FinalReach(t, paths, schemas, Reach(Obj(Surviving(t, paths)), schemas));
    LiftGrows(schemas - Orphaned(t, paths, schemas), t.lifts);
  }
}
