/** What the Mercado Pago overlay makes of a whole document, told from the document it is
    given: its other blocks, each operation, each schema and the report. */
module MercadoPagoResult {
  import opened Json
  import opened Reachability
  import opened OverlayEnums
  import opened MercadoPagoOverlay
  import opened MercadoPagoProperties
  import PathTemplates

  // ----- Reading a document -----

  ghost predicate HasPaths(document: Document) {
    "paths" in document && document["paths"].Obj?
  }

  function OperationIn(document: Document, verb: string, path: string): Option<Json> {
    if "paths" in document && document["paths"].Has(path) then document["paths"].fields[path].Get(verb) else None
  }

  /** The path is there, with something other than a mapping. */
  predicate PathIsTaken(document: Document, path: string) {
    "paths" in document && document["paths"].Has(path) && !document["paths"].fields[path].Obj?
  }

  function SchemaIn(document: Document, name: string): Option<Json> {
    if "components" in document && document["components"].Has("schemas")
    then document["components"].fields["schemas"].Get(name) else None
  }

  /** A block of schemas that is there and cannot be read as a mapping. */
  predicate UnreadableSchemas(document: Document) {
    && "components" in document
    && (|| !document["components"].Obj?
        || (document["components"].Has("schemas") && !document["components"].fields["schemas"].Obj?))
  }

  /** A document without paths is returned as it is; one with paths is patched, unless its
      schemas cannot be read. */
  lemma OutcomeIsExact(t: Tables, document: Document)
    ensures !HasPaths(document) ==> Apply(t, document) == Ok((document, EMPTY_REPORT))
    ensures HasPaths(document) && UnreadableSchemas(document) ==> Apply(t, document) == Err(AttributeError)
    ensures HasPaths(document) && !UnreadableSchemas(document) ==> Apply(t, document).Ok?
  {
  }

  /** The result of a document that is patched. */
  ghost predicate Patches(t: Tables, document: Document, result: Document, report: Report) {
    HasPaths(document) && Apply(t, document) == Ok((result, report))
  }

  lemma PatchedBlocks(t: Tables, document: Document, result: Document, report: Report)
    requires Patches(t, document, result, report)
    ensures var paths, schemas := document["paths"].fields, SchemasOf(document).fields;
      && ComponentsOf(document).Obj? && SchemasOf(document).Obj?
      && "paths" in result && result["paths"] == Obj(FinalPaths(t, paths))
      && "components" in result && result["components"].Has("schemas")
      && result["components"].fields["schemas"] == Obj(FinalSchemas(t, paths, schemas))
      && report == FinalReport(t, paths, schemas)
  {
  }

  // ----- Operations -----

  /** The correction finds its operation, and its destination free. */
  ghost predicate Moves(document: Document, c: Correction) {
    && OperationIn(document, c.verb, c.wrong).Some? && OperationIn(document, c.verb, c.right).None?
    && !PathIsTaken(document, c.right)
  }

  ghost predicate IsMovedHere(t: Tables, document: Document, verb: string, path: string, c: Correction) {
    c in t.corrections && c.verb == verb && c.right == path && Moves(document, c)
  }

  ghost predicate IsAddedHere(t: Tables, verb: string, path: string, a: Addition) {
    a in t.added && a.route.verb == verb && a.route.path == path
  }

  /** What the tables want at a verb of a path: nothing that is retired or moved away; what
      is moved there; what the document has; or an addition, where the path can take it. */
  ghost predicate Wanted(t: Tables, document: Document, verb: string, path: string, wanted: Option<Json>) {
    if Route(verb, path) in t.dead || Route(verb, path) in t.deprecated then wanted == None
    else if exists c :: c in t.corrections && c.verb == verb && c.wrong == path && Moves(document, c) then
      wanted == None
    else if exists c :: IsMovedHere(t, document, verb, path, c) then
      exists c :: IsMovedHere(t, document, verb, path, c) && wanted == OperationIn(document, verb, c.wrong)
    else if OperationIn(document, verb, path).Some? || PathIsTaken(document, path) then
      wanted == OperationIn(document, verb, path)
    else if exists a :: IsAddedHere(t, verb, path, a) then
      exists a :: IsAddedHere(t, verb, path, a) && wanted == Some(a.operation)
    else wanted == None
  }

  lemma ReadsAsPaths(document: Document, c: Correction, r: Route)
    requires HasPaths(document)
    ensures OperationIn(document, r.verb, r.path) == Op(document["paths"].fields, r)
    ensures PathIsTaken(document, r.path) == Blocked(document["paths"].fields, r.path)
    ensures Moves(document, c) == Movable(document["paths"].fields, c)
  {
  }

  lemma {:induction false} AddedOpIsOf(additions: seq<Addition>, r: Route)
    ensures match AddedOp(additions, r)
            case Some(operation) => exists a :: a in additions && a.route == r && operation == a.operation
            case None => forall a :: a in additions ==> a.route != r
    decreases |additions|
  {
    if additions == [] {
    } else {
      var earlier, last := additions[..|additions| - 1], additions[|additions| - 1];
      AddedOpIsOf(earlier, r);
      assert last in additions && forall a :: a in additions <==> a in earlier || a == last;
    }
  }

  lemma ExpectedIsWanted(t: Tables, document: Document, r: Route)
    requires WellFormed(t) && HasPaths(document)
    ensures Wanted(t, document, r.verb, r.path, Expected(t, document["paths"].fields, r))
  {
    var paths := document["paths"].fields;
    forall c, q: Route
      ensures OperationIn(document, q.verb, q.path) == Op(paths, q) && Moves(document, c) == Movable(paths, c)
      ensures PathIsTaken(document, q.path) == Blocked(paths, q.path)
    {
      ReadsAsPaths(document, c, q);
    }
    AddedOpIsOf(t.added, r);
    assert TakenFrom(paths, t.corrections, r) <==>
           exists c :: c in t.corrections && c.verb == r.verb && c.wrong == r.path && Moves(document, c);
    forall c ensures BroughtBy(paths, t.corrections, r, c) <==> IsMovedHere(t, document, r.verb, r.path, c) {
    }
    forall a ensures a in t.added && a.route == r <==> IsAddedHere(t, r.verb, r.path, a) {
    }
    forall c | c in t.corrections && c.Source() == r ensures AddedOp(t.added, r).None? {
    }
  }

  /** The operation wanted, with what the run appends to its description. */
  ghost function Finished(t: Tables, verb: string, path: string, wanted: Option<Json>): Option<Json> {
    match wanted
    case Some(Obj(fields)) =>
      Some(WithNote(Obj(fields), Appended(t, Route(verb, path), Description(fields, t.render)), t.render))
    case _ => wanted
  }

  /** Each operation of the result: what the tables want there, with what is appended to its
      description, and nothing else changed. */
  lemma OperationsOfResult(t: Tables, document: Document, result: Document, report: Report, verb: string, path: string)
    requires WellFormed(t) && verb in VERBS && Patches(t, document, result, report)
    ensures exists wanted :: Wanted(t, document, verb, path, wanted) &&
                             OperationIn(result, verb, path) == Finished(t, verb, path, wanted)
  {
    var r := Route(verb, path);
    PatchedBlocks(t, document, result, report);
    OperationsAreExact(t, document["paths"].fields, r);
    ExpectedIsWanted(t, document, r);
  }

  // ----- The report -----

  /** A correction is reported as moved when it found its operation and its destination free,
      and as a collision when both declare the verb. */
  lemma MovesOfResult(t: Tables, document: Document, result: Document, report: Report, c: Correction)
    requires WellFormed(t) && Patches(t, document, result, report)
    ensures c in report.moved <==> c in t.corrections && Moves(document, c)
    ensures c in report.collisions <==>
            && c in t.corrections
            && OperationIn(document, c.verb, c.wrong).Some? && OperationIn(document, c.verb, c.right).Some?
  {
    PatchedBlocks(t, document, result, report);
    MovesAreReported(t, document["paths"].fields, c);
  }

  /** An operation is reported as removed, or else as deprecated, when its table names it and
      the document declares it. */
  lemma RemovalsOfResult(t: Tables, document: Document, result: Document, report: Report, r: Route)
    requires WellFormed(t) && r.verb in VERBS && Patches(t, document, result, report)
    ensures r in report.removed <==> r in t.dead && OperationIn(document, r.verb, r.path).Some?
    ensures r in report.deprecated <==>
            r in t.deprecated && r !in t.dead && OperationIn(document, r.verb, r.path).Some?
  {
    PatchedBlocks(t, document, result, report);
    RemovalsAreReported(t, document["paths"].fields, r);
  }

  lemma {:induction false} AddedExactly(t: Tables, r: Route)
    ensures AddedOp(t.added, r).Some? <==> exists a :: IsAddedHere(t, r.verb, r.path, a)
  {
    AddedOpIsOf(t.added, r);
    forall a ensures a in t.added && a.route == r <==> IsAddedHere(t, r.verb, r.path, a) {
    }
  }

  lemma BroughtExactly(t: Tables, document: Document, r: Route)
    requires HasPaths(document)
    ensures (exists c :: BroughtBy(document["paths"].fields, t.corrections, r, c)) <==>
            (exists c :: IsMovedHere(t, document, r.verb, r.path, c))
    ensures forall c :: BroughtBy(document["paths"].fields, t.corrections, r, c) ==>
              Op(document["paths"].fields, c.Source()).Some?
  {
    forall c ensures BroughtBy(document["paths"].fields, t.corrections, r, c) <==>
        IsMovedHere(t, document, r.verb, r.path, c) {
      ReadsAsPaths(document, c, r);
    }
  }

  /** At the route of an addition nothing is moved away. */
  lemma {:induction false} MovedToAddition(t: Tables, paths: Paths, r: Route)
    requires WellFormed(t) && AddedOp(t.added, r).Some?
    ensures !TakenFrom(paths, t.corrections, r)
  {
    AddedOpIsOf(t.added, r);
  }

  /** An addition is reported when neither the document nor a move puts an operation there,
      and the path can take one. */
  lemma AdditionsOfResult(t: Tables, document: Document, result: Document, report: Report, r: Route)
    requires WellFormed(t) && r.verb in VERBS && Patches(t, document, result, report)
    ensures r in report.added <==>
            && (exists a :: IsAddedHere(t, r.verb, r.path, a))
            && OperationIn(document, r.verb, r.path).None? && !PathIsTaken(document, r.path)
            && !exists c :: IsMovedHere(t, document, r.verb, r.path, c)
  {
    var paths := document["paths"].fields;
    PatchedBlocks(t, document, result, report);
    AdditionsAreReported(t, paths, r);
    AddedExactly(t, r);
    BroughtExactly(t, document, r);
    if AddedOp(t.added, r).Some? {
      MovedToAddition(t, paths, r);
    }
  }

  /** The operation wanted there is a mapping whose description does not carry the mark. */
  ghost predicate LacksMark(t: Tables, wanted: Option<Json>, mark: string) {
    wanted.Some? && wanted.value.Obj? && !Contains(Description(wanted.value.fields, t.render), mark)
  }

  /** A mark is reported for each operation of the result that was due one: where nothing
      vouches for it nor answered, the warning; where it was answered, the answer. */
  lemma MarksOfResult(t: Tables, document: Document, result: Document, report: Report, r: Route)
    requires WellFormed(t) && r.verb in VERBS && Patches(t, document, result, report)
    ensures exists wanted :: Wanted(t, document, r.verb, r.path, wanted)
              && (r in report.unverified <==>
                    && LacksMark(t, wanted, t.unverifiedMark)
                    && PathTemplates.Normalise(r.verb, r.path) !in t.vouched
                    && !Answered(t, PathTemplates.Normalise(r.verb, r.path)))
              && (r in report.unrouted <==>
                    (exists u :: u in t.unrouted && u.route == r) && LacksMark(t, wanted, t.unroutedMark))
  {
    var paths := document["paths"].fields;
    PatchedBlocks(t, document, result, report);
    UnverifiedIsReported(t, paths, r);
    UnroutedIsReported(t, paths, r);
    NoteForIsListed(t.unrouted, r);
    AnsweredAreKeys(t, PathTemplates.Normalise(r.verb, r.path));
    ExpectedIsWanted(t, document, r);
    assert Wanted(t, document, r.verb, r.path, Expected(t, paths, r));
  }

  // ----- Schemas -----

  lemma {:induction false} ReadsAsSchemas(document: Document, name: string)
    requires ComponentsOf(document).Obj? && SchemasOf(document).Obj?
    ensures SchemaIn(document, name) == Obj(SchemasOf(document).fields).Get(name)
  {
  }

  /** Each schema of the result: the document's with its enums opened, unless only deprecated
      operations reached it; else the component a lift makes; else the observed one. */
  lemma {:induction false} SchemasOfResult(t: Tables, document: Document, result: Document, report: Report,
      name: string)
    requires Patches(t, document, result, report)
    ensures var stored := SchemasOf(document);
      && stored.Obj?
      && SchemaIn(result, name) ==
         if SchemaIn(document, name).Some? && name !in report.pruned
         then Some(LiftedSchema(name, SchemaIn(document, name).value, t.lifts))
         else match CreatorOf(stored.fields - report.pruned, t.lifts, name)
           case Some(l) => Some(ClosedComponent(Property(stored.fields, l.schema, l.property).value, l))
           case None => Obj(t.observed).Get(name)
  {
    PatchedBlocks(t, document, result, report);
    ReadsAsSchemas(document, name);
    SchemasAreConserved(t, document["paths"].fields, SchemasOf(document).fields, name);
  }

  /** What is reported as pruned was reached before the deprecated operations were taken
      away, and is not afterwards. */
  lemma PrunedOfResult(t: Tables, document: Document, result: Document, report: Report, name: string)
    requires Patches(t, document, result, report)
    ensures var paths, stored := document["paths"].fields, SchemasOf(document);
      && stored.Obj?
      && (name in report.pruned <==>
            && name in Reach(Obj(Routed(t, paths)), stored.fields)
            && name !in Reach(Obj(Surviving(t, paths)), stored.fields))
  {
    PatchedBlocks(t, document, result, report);
  }

  // ----- The rest -----

  /** Nothing but the paths and the schemas is written: every other key of the document and of
      its components keeps its value, and none appears but those two blocks. */
  lemma RestOfResult(t: Tables, document: Document, result: Document, report: Report)
    requires Patches(t, document, result, report)
    ensures RestIsKept(document, result)
  {
  }
}
