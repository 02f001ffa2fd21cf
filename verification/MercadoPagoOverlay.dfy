/** The Mercado Pago overlay: operations moved, removed and added, schemas pruned and
    extended, and notes appended, on one copy of the document. */
module MercadoPagoOverlay {
  import opened Json
  import opened Reachability
  import opened OverlayEnums
  import PathTemplates

  const VERBS := {"get", "post", "put", "patch", "delete", "head", "options"}

  /** One verb of one path template. */
  datatype Route = Route(verb: string, path: string)

  datatype Correction = Correction(verb: string, wrong: string, right: string) {
    function Source(): Route { Route(verb, wrong) }
    function Target(): Route { Route(verb, right) }
  }

  datatype Addition = Addition(route: Route, operation: Json)

  datatype Unrouted = Unrouted(route: Route, note: string)

  /** The correction tables, the notes and how `str` renders a value that is not text. */
  datatype Tables = Tables(
    corrections: seq<Correction>, dead: seq<Route>, deprecated: seq<Route>,
    lifts: seq<Lift>, observed: Schemas, added: seq<Addition>,
    vouched: set<(string, string)>, unrouted: seq<Unrouted>,
    unverifiedNote: string, unverifiedMark: string, unroutedMark: string,
    render: Json -> string)

  /** What a run changed. The unverified operations and the pruned schemas are sets: the
      first are listed in the document's own order, the second alphabetically. */
  datatype Report = Report(
    moved: seq<Correction>, added: seq<Route>, removed: seq<Route>, deprecated: seq<Route>,
    pruned: set<string>, unverified: set<Route>, unrouted: seq<Route>, collisions: seq<Correction>)

  const EMPTY_REPORT := Report([], [], [], [], {}, {}, [], [])

  type Paths = map<string, Json>

  // ----- One operation -----

  function Op(paths: Paths, r: Route): Option<Json> {
    if r.path in paths then paths[r.path].Get(r.verb) else None
  }

  /** The path is declared, and not as a mapping. */
  predicate Blocked(paths: Paths, path: string) {
    path in paths && !paths[path].Obj?
  }

  predicate AnyVerb(item: map<string, Json>) {
    exists verb :: verb in VERBS && verb in item
  }

  /** `paths.setdefault(path, {})[verb] = operation`. */
  function SetOp(paths: Paths, r: Route, operation: Json): Paths
    requires !Blocked(paths, r.path)
  {
    var item := if r.path in paths then paths[r.path].fields else map[];
    paths[r.path := Obj(item[r.verb := operation])]
  }

  /** `item.pop(verb)`, and the item with it when no verb is left. */
  function DeleteOp(paths: Paths, r: Route): Paths
    requires Op(paths, r).Some?
  {
    var rest := paths[r.path].fields - {r.verb};
    if AnyVerb(rest) then paths[r.path := Obj(rest)] else paths - {r.path}
  }

  // ----- The steps, as functions of the path block -----

  predicate Collides(paths: Paths, c: Correction) {
    Op(paths, c.Source()).Some? && Op(paths, c.Target()).Some?
  }

  predicate Movable(paths: Paths, c: Correction) {
    Op(paths, c.Source()).Some? && Op(paths, c.Target()).None? && !Blocked(paths, c.right)
  }

  function MoveOne(paths: Paths, c: Correction): Paths {
    if Movable(paths, c)
    then DeleteOp(SetOp(paths, c.Target(), Op(paths, c.Source()).value), c.Source())
    else paths
  }

  function Move(paths: Paths, cs: seq<Correction>): Paths {
    if cs == [] then paths else MoveOne(Move(paths, cs[..|cs| - 1]), cs[|cs| - 1])
  }

  function Moved(paths: Paths, cs: seq<Correction>): seq<Correction> {
    if cs == [] then [] else
      var earlier, last := cs[..|cs| - 1], cs[|cs| - 1];
      Moved(paths, earlier) + if Movable(Move(paths, earlier), last) then [last] else []
  }

  function Collisions(paths: Paths, cs: seq<Correction>): seq<Correction> {
    if cs == [] then [] else
      var earlier, last := cs[..|cs| - 1], cs[|cs| - 1];
      Collisions(paths, earlier) + if Collides(Move(paths, earlier), last) then [last] else []
  }

  function RemoveOne(paths: Paths, r: Route): Paths {
    if Op(paths, r).Some? then DeleteOp(paths, r) else paths
  }

  function Remove(paths: Paths, rs: seq<Route>): Paths {
    if rs == [] then paths else RemoveOne(Remove(paths, rs[..|rs| - 1]), rs[|rs| - 1])
  }

  function Removed(paths: Paths, rs: seq<Route>): seq<Route> {
    if rs == [] then [] else
      var earlier, last := rs[..|rs| - 1], rs[|rs| - 1];
      Removed(paths, earlier) + if Op(Remove(paths, earlier), last).Some? then [last] else []
  }

  predicate Addable(paths: Paths, r: Route) {
    !Blocked(paths, r.path) && Op(paths, r).None?
  }

  function AddOne(paths: Paths, a: Addition): Paths {
    if Addable(paths, a.route) then SetOp(paths, a.route, a.operation) else paths
  }

  function Add(paths: Paths, additions: seq<Addition>): Paths {
    if additions == [] then paths
    else AddOne(Add(paths, additions[..|additions| - 1]), additions[|additions| - 1])
  }

  function Added(paths: Paths, additions: seq<Addition>): seq<Route> {
    if additions == [] then [] else
      var earlier, last := additions[..|additions| - 1], additions[|additions| - 1];
      Added(paths, earlier) + if Addable(Add(paths, earlier), last.route) then [last.route] else []
  }

  // ----- The notes -----

  function Annotate(operation: map<string, Json>, note: string, render: Json -> string): Json {
    Obj(operation["description" := Str(Description(operation, render) + note)])
  }

  function UnroutedKeys(t: Tables): set<(string, string)> {
    set u | u in t.unrouted :: PathTemplates.Normalise(u.route.verb, u.route.path)
  }

  /** Whether nothing vouches for the operation and its description does not say so yet. */
  predicate Unverified(t: Tables, r: Route, operation: Json) {
    var key := PathTemplates.Normalise(r.verb, r.path);
    && r.verb in VERBS && operation.Obj?
    && key !in t.vouched && key !in UnroutedKeys(t)
    && !Contains(Description(operation.fields, t.render), t.unverifiedMark)
  }

  function MarkedOp(t: Tables, r: Route, operation: Json): Json {
    if Unverified(t, r, operation) then Annotate(operation.fields, t.unverifiedNote, t.render) else operation
  }

  function MarkedItem(t: Tables, path: string, item: Json): Json {
    if item.Obj? then Obj(map verb | verb in item.fields :: MarkedOp(t, Route(verb, path), item.fields[verb])) else item
  }

  function MarkUnverified(t: Tables, paths: Paths): Paths {
    map path | path in paths :: MarkedItem(t, path, paths[path])
  }

  function UnverifiedRoutes(t: Tables, paths: Paths): set<Route> {
    set path, verb | path in paths && paths[path].Obj? && verb in paths[path].fields &&
                     Unverified(t, Route(verb, path), paths[path].fields[verb]) :: Route(verb, path)
  }

  predicate NeedsNote(t: Tables, paths: Paths, u: Unrouted) {
    var operation := Op(paths, u.route);
    && operation.Some? && operation.value.Obj?
    && !Contains(Description(operation.value.fields, t.render), t.unroutedMark)
  }

  function MarkUnroutedOne(t: Tables, paths: Paths, u: Unrouted): Paths {
    if NeedsNote(t, paths, u)
    then SetOp(paths, u.route, Annotate(Op(paths, u.route).value.fields, u.note, t.render))
    else paths
  }

  function MarkUnrouted(t: Tables, paths: Paths, us: seq<Unrouted>): Paths {
    if us == [] then paths else MarkUnroutedOne(t, MarkUnrouted(t, paths, us[..|us| - 1]), us[|us| - 1])
  }

  function UnroutedRoutes(t: Tables, paths: Paths, us: seq<Unrouted>): seq<Route> {
    if us == [] then [] else
      var earlier, last := us[..|us| - 1], us[|us| - 1];
      UnroutedRoutes(t, paths, earlier) + if NeedsNote(t, MarkUnrouted(t, paths, earlier), last) then
          [last.route] else []
  }

  // ----- The whole overlay -----

  /** The path block before the deprecated operations are removed, after, and at the end. */
  function Routed(t: Tables, paths: Paths): Paths {
    Remove(Move(paths, t.corrections), t.dead)
  }

  function Surviving(t: Tables, paths: Paths): Paths {
    Remove(Routed(t, paths), t.deprecated)
  }

  function Completed(t: Tables, paths: Paths): Paths {
    Add(Surviving(t, paths), t.added)
  }

  function FinalPaths(t: Tables, paths: Paths): Paths {
    MarkUnrouted(t, MarkUnverified(t, Completed(t, paths)), t.unrouted)
  }

  /** The schemas only the deprecated operations reached. */
  ghost function Orphaned(t: Tables, paths: Paths, schemas: Schemas): set<string> {
    Reach(Obj(Routed(t, paths)), schemas) - Reach(Obj(Surviving(t, paths)), schemas)
  }

  ghost function FinalSchemas(t: Tables, paths: Paths, schemas: Schemas): Schemas {
    t.observed + LiftAll(schemas - Orphaned(t, paths, schemas), t.lifts)
  }

  ghost function FinalReport(t: Tables, paths: Paths, schemas: Schemas): Report {
    Report(
      Moved(paths, t.corrections),
      Added(Surviving(t, paths), t.added),
      Removed(Move(paths, t.corrections), t.dead),
      Removed(Routed(t, paths), t.deprecated),
      Orphaned(t, paths, schemas),
      UnverifiedRoutes(t, Completed(t, paths)),
      UnroutedRoutes(t, MarkUnverified(t, Completed(t, paths)), t.unrouted),
      Collisions(paths, t.corrections))
  }

  type Document = map<string, Json>

  /** `document.get("components", {})` and its `schemas`, where absent is empty. */
  function ComponentsOf(document: Document): Json {
    if "components" in document then document["components"] else Obj(map[])
  }

  function SchemasOf(document: Document): Json
    requires ComponentsOf(document).Obj?
  {
    if ComponentsOf(document).Has("schemas") then ComponentsOf(document).fields["schemas"] else Obj(map[])
  }

  function WithBlocks(document: Document, paths: Paths, schemas: Schemas): Document
    requires ComponentsOf(document).Obj?
  {
    document["paths" := Obj(paths)]
            ["components" := Obj(ComponentsOf(document).fields["schemas" := Obj(schemas)])]
  }

  /** What `apply` returns: the patched document and the report, or the exception a
      `components` block of the wrong shape raises. The lift table is never empty, so its
      step reads the block and raises whatever else the document holds. */
  ghost function Apply(t: Tables, document: Document): Result<(Document, Report)> {
    if "paths" !in document || !document["paths"].Obj? then Ok((document, EMPTY_REPORT))
    else if !ComponentsOf(document).Obj? || !SchemasOf(document).Obj? then Err(AttributeError)
    else
      var paths, schemas := document["paths"].fields, SchemasOf(document).fields;
      Ok((WithBlocks(document, FinalPaths(t, paths), FinalSchemas(t, paths, schemas)),
          FinalReport(t, paths, schemas)))
  }

  /** The copy `apply` patches. */
  class Patch {
    const t: Tables
    var paths: Paths
    const components: Components

    constructor (t: Tables, paths: Paths, schemas: Schemas)
      ensures this.t == t && this.paths == paths && components.schemas == schemas
      ensures fresh(this) && fresh(components)
    {
      this.t := t;
      this.paths := paths;
      components := new Components(schemas);
    }

    method MoveOperations() returns (moved: seq<Correction>, collisions: seq<Correction>)
      modifies this
      ensures paths == Move(old(paths), t.corrections)
      ensures moved == Moved(old(paths), t.corrections)
      ensures collisions == Collisions(old(paths), t.corrections)
    {
      moved, collisions := [], [];
      for i := 0 to |t.corrections|
        invariant paths == Move(old(paths), t.corrections[..i])
        invariant moved == Moved(old(paths), t.corrections[..i])
        invariant collisions == Collisions(old(paths), t.corrections[..i])
      {
        assert t.corrections[..i + 1][..i] == t.corrections[..i];
        var taken, collided := MoveOperation(t.corrections[i]);
        moved := moved + if taken then [t.corrections[i]] else [];
        collisions := collisions + if collided then [t.corrections[i]] else [];
      }
      assert t.corrections[..|t.corrections|] == t.corrections;
    }

    method MoveOperation(c: Correction) returns (taken: bool, collided: bool)
      modifies this
      ensures paths == MoveOne(old(paths), c)
      ensures taken == Movable(old(paths), c) && collided == Collides(old(paths), c)
    {
      taken, collided := false, false;
      if c.wrong in paths && paths[c.wrong].Has(c.verb) {
        if c.right !in paths {
          paths := paths[c.right := Obj(map[])];
        }
        if paths[c.right].Obj? {
          var target := paths[c.right].fields;
          collided := c.verb in target;
          if !collided {
            var operation := paths[c.wrong].fields[c.verb];
            paths := paths[c.right := Obj(target[c.verb := operation])];
            assert paths == SetOp(old(paths), c.Target(), operation);
            Discard(c.Source());
            taken := true;
          }
        }
      }
    }

    /** `item.pop(verb)`, then `paths.pop(path)` when the item declares no other verb. */
    method Discard(r: Route)
      requires Op(paths, r).Some?
      modifies this
      ensures paths == DeleteOp(old(paths), r)
    {
      var item := paths[r.path].fields - {r.verb};
      if AnyVerb(item) {
        paths := paths[r.path := Obj(item)];
      } else {
        paths := paths - {r.path};
      }
    }

    method RemoveOperations(routes: seq<Route>) returns (removed: seq<Route>)
      modifies this
      ensures paths == Remove(old(paths), routes)
      ensures removed == Removed(old(paths), routes)
    {
      removed := [];
      for i := 0 to |routes|
        invariant paths == Remove(old(paths), routes[..i])
        invariant removed == Removed(old(paths), routes[..i])
      {
        assert routes[..i + 1][..i] == routes[..i];
        if routes[i].path in paths && paths[routes[i].path].Has(routes[i].verb) {
          Discard(routes[i]);
          removed := removed + [routes[i]];
        }
      }
      assert routes[..|routes|] == routes;
    }

    method AddOperations() returns (added: seq<Route>)
      modifies this
      ensures paths == Add(old(paths), t.added)
      ensures added == Added(old(paths), t.added)
    {
      added := [];
      for i := 0 to |t.added|
        invariant paths == Add(old(paths), t.added[..i])
        invariant added == Added(old(paths), t.added[..i])
      {
        var a := t.added[i];
        assert t.added[..i + 1][..i] == t.added[..i];
        if a.route.path !in paths {
          paths := paths[a.route.path := Obj(map[])];
        }
        if paths[a.route.path].Obj? && a.route.verb !in paths[a.route.path].fields {
          paths := paths[a.route.path := Obj(paths[a.route.path].fields[a.route.verb := a.operation])];
          added := added + [a.route];
        }
      }
      assert t.added[..|t.added|] == t.added;
    }

    /** The verbs of one path item, in any order. */
    method MarkItem(path: string) returns (marked: set<Route>)
      requires path in paths && paths[path].Obj?
      modifies this
      ensures paths == old(paths)[path := MarkedItem(t, path, old(paths)[path])]
      ensures marked == set verb | verb in old(paths)[path].fields &&
                          Unverified(t, Route(verb, path), old(paths)[path].fields[verb]) :: Route(verb, path)
    {
      marked := {};
      var item := paths[path].fields;
      var todo := item.Keys;
      while todo != {}
        invariant todo <= item.Keys && path in paths && paths[path].Obj?
        invariant paths == old(paths)[path := paths[path]]
        invariant paths[path].fields.Keys == item.Keys
        invariant forall v :: v in item ==>
          paths[path].fields[v] == if v in todo then item[v] else MarkedOp(t, Route(v, path), item[v])
        invariant marked == set v | v in item && v !in todo && Unverified(t, Route(v, path), item[v]) :: Route(v, path)
      {
        var verb :| verb in todo;
        todo := todo - {verb};
        if Unverified(t, Route(verb, path), item[verb]) {
          var note := Annotate(item[verb].fields, t.unverifiedNote, t.render);
          paths := paths[path := Obj(paths[path].fields[verb := note])];
          marked := marked + {Route(verb, path)};
        }
      }
      assert paths[path] == MarkedItem(t, path, Obj(item)) by {
        assert paths[path].fields == map v | v in item :: MarkedOp(t, Route(v, path), item[v]);
      }
    }

    method MarkAllUnverified() returns (marked: set<Route>)
      modifies this
      ensures paths == MarkUnverified(t, old(paths))
      ensures marked == UnverifiedRoutes(t, old(paths))
    {
      marked := {};
      var todo := paths.Keys;
      while todo != {}
        invariant todo <= paths.Keys == old(paths).Keys
        invariant forall p :: p in paths ==>
          paths[p] == if p in todo then old(paths)[p] else MarkedItem(t, p, old(paths)[p])
        invariant marked == set r | r in UnverifiedRoutes(t, old(paths)) && r.path !in todo
      {
        var path :| path in todo;
        todo := todo - {path};
        if paths[path].Obj? {
          var more := MarkItem(path);
          marked := marked + more;
        }
      }
    }

    method MarkAllUnrouted() returns (marked: seq<Route>)
      modifies this
      ensures paths == MarkUnrouted(t, old(paths), t.unrouted)
      ensures marked == UnroutedRoutes(t, old(paths), t.unrouted)
    {
      marked := [];
      for i := 0 to |t.unrouted|
        invariant paths == MarkUnrouted(t, old(paths), t.unrouted[..i])
        invariant marked == UnroutedRoutes(t, old(paths), t.unrouted[..i])
      {
        var u := t.unrouted[i];
        assert t.unrouted[..i + 1][..i] == t.unrouted[..i];
        if u.route.path in paths && paths[u.route.path].Has(u.route.verb) {
          var operation := paths[u.route.path].fields[u.route.verb];
          if operation.Obj? && !Contains(Description(operation.fields, t.render), t.unroutedMark) {
            var item := paths[u.route.path].fields;
            paths := paths[u.route.path := Obj(item[u.route.verb := Annotate(operation.fields, u.note, t.render)])];
            marked := marked + [u.route];
          }
        }
      }
      assert t.unrouted[..|t.unrouted|] == t.unrouted;
    }

    /** `schemas.setdefault(name, schema)` for every observed schema. */
    method DeclareObserved()
      modifies components
      ensures components.schemas == t.observed + old(components.schemas)
    {
      var todo := t.observed.Keys;
      while todo != {}
        invariant todo <= t.observed.Keys
        invariant components.schemas == (t.observed - todo) + old(components.schemas)
      {
        var name :| name in todo;
        todo := todo - {name};
        if name !in components.schemas {
          components.schemas := components.schemas[name := t.observed[name]];
        }
      }
      assert t.observed - {} == t.observed;
    }

    /** Every step, in the order `apply` runs them. */
    method Run() returns (report: Report)
      modifies this, components
      ensures paths == FinalPaths(t, old(paths))
      ensures components.schemas == FinalSchemas(t, old(paths), old(components.schemas))
      ensures report == FinalReport(t, old(paths), old(components.schemas))
    {
      var moved, collisions := MoveOperations();
      var removed := RemoveOperations(t.dead);
      var before := ReachableSchemas(Obj(paths), components.schemas);
      var deprecated := RemoveOperations(t.deprecated);
      var after := ReachableSchemas(Obj(paths), components.schemas);
      var orphaned := before - after;
      components.schemas := components.schemas - orphaned;
      var _ := components.LiftEnums(t.lifts);
      DeclareObserved();
      var added := AddOperations();
      var unverified := MarkAllUnverified();
      var unrouted := MarkAllUnrouted();
      report := Report(moved, added, removed, deprecated, orphaned, unverified, unrouted, collisions);
    }
  }

  /** The result has the keys it was given, with `paths` and `components`, and differs under
      those two only: in the first as a whole, and in the second under `schemas`. */
  ghost predicate RestIsKept(document: Document, result: Document) {
    && result.Keys == document.Keys + {"paths", "components"}
    && (forall key :: key in document && key != "paths" && key != "components" ==> result[key] == document[key])
    && result["paths"].Obj? && result["components"].Obj?
    && (forall key :: key != "schemas" ==>
          result["components"].Get(key) == if "components" in document then document["components"].Get(key) else None)
    && result["components"].Has("schemas") && result["components"].fields["schemas"].Obj?
  }

  lemma BlocksKeepRest(document: Document, paths: Paths, schemas: Schemas)
    requires ComponentsOf(document).Obj?
    ensures RestIsKept(document, WithBlocks(document, paths, schemas))
  {
  }

  method ApplyOverlay(t: Tables, document: Document) returns (r: Result<(Document, Report)>)
    ensures r == Apply(t, document)
    ensures r.Ok? && "paths" in document && document["paths"].Obj? ==> RestIsKept(document, r.value.0)
  {
    if "paths" !in document || !document["paths"].Obj? {
      return Ok((document, EMPTY_REPORT));
    }
    if !ComponentsOf(document).Obj? || !SchemasOf(document).Obj? {
      return Err(AttributeError);
    }
    var patch := new Patch(t, document["paths"].fields, SchemasOf(document).fields);
    var report := patch.Run();
    BlocksKeepRest(document, patch.paths, patch.components.schemas);
    r := Ok((WithBlocks(document, patch.paths, patch.components.schemas), report));
  }
}
