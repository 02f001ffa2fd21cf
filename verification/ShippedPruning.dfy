/** What the shipped Mercado Pago overlay leaves reachable, and a document it leaves with a
    dangling reference: one that stores an observed name without using it. */
module ShippedPruning {
  import opened Json
  import opened Reachability
  import opened OverlayEnums
  import opened AddedOperations
  import opened MercadoPagoOverlay
  import opened MercadoPagoPruning
  import opened MercadoPagoDangling
  import opened ShippedAdditions
  import MercadoPagoProperties
  import ShippedTables

  /** What the shipped overlay leaves reachable. */
  lemma {:induction false} ShippedReach(t: Tables, paths: Paths, schemas: Schemas, names: set<string>)
    requires IsShipped(t)
    requires Covers(t, names, Obj(Surviving(t, paths)), schemas)
    ensures Reach(Obj(FinalPaths(t, paths)), FinalSchemas(t, paths, schemas)) <= names + NewNames(t)
  {
    ShippedTables.MercadoPagoFits(t);
    AdditionsAreClosed(t);
    FinalReach(t, paths, schemas, names);
  }

  lemma {:induction false} ShippedAdditionIsPlain(t: Tables, i: nat)
    requires AddsWhatIsShipped(t) && i < |t.added|
    ensures PlainDescription(t.added[i].operation)
  {
    RenderedIsPlain(t.added[i].operation, ADDED_OPERATIONS[i]);
  }

  lemma {:induction false} ShippedAdditionsArePlain(t: Tables)
    requires AddsWhatIsShipped(t)
    ensures PlainAdditions(t)
  {
    forall i | 0 <= i < |t.added| ensures PlainDescription(t.added[i].operation) {
      ShippedAdditionIsPlain(t, i);
    }
  }

  lemma {:induction false} ShippedReplacesNoReference(t: Tables, paths: Paths, schemas: Schemas)
    requires AddsWhatIsShipped(t) && PlainDescriptions(paths) && NoReferenceLifted(schemas, t.lifts)
    ensures NoReferenceReplaced(t, paths, schemas)
  {
    ShippedAdditionsArePlain(t);
  }

  /** When the shipped overlay leaves a dangling reference, told from the document. */
  lemma {:induction false} ShippedDanglesExactlyWhenLostNameIsInUse(t: Tables, paths: Paths, schemas: Schemas)
    requires IsShipped(t) && PlainDescriptions(paths) && NoReferenceLifted(schemas, t.lifts)
    ensures Dangles(t, paths, schemas) <==> LosesNameInUse(t, paths, schemas)
  {
    ShippedTables.MercadoPagoFits(t);
    ShippedReplacesNoReference(t, paths, schemas);
    DanglesExactlyWhenLostNameIsInUse(t, paths, schemas);
  }

  // ----- A document the shipped overlay leaves with a dangling reference -----

  const PAYMENT := Route("post", "/v1/payments")

  function Answers(name: string): Json {
    Obj(map["responses" := Answering("", RefTo(name))])
  }

  /** Creating a payment is deprecated, and all that reaches `Detail`; the stored
      `AuthenticatedUser` refers to it and nothing uses it yet. */
  const PAYMENT_PATHS: Paths := map[PAYMENT.path := Obj(map[PAYMENT.verb := Answers("Detail")])]

  const STORED_SCHEMAS: Schemas := map[
    "AuthenticatedUser" := ObjectOf(map["detail" := RefTo("Detail")]),
    "Detail" := ObjectOf(Texts({"text"}))]

  lemma {:induction false} AnswersRefs(name: string)
    ensures Refs(Answers(name)) == {name}
  {
    RefsOfRef(name);
    RefsOfAnswer("", RefTo(name));
    RefsOfPart(Answers(name).fields, "responses");
    RefsOfMapping(Answers(name).fields, {name});
  }

  lemma {:induction false} PaymentPathsRefs()
    ensures Refs(Obj(PAYMENT_PATHS)) == {"Detail"}
  {
    AnswersRefs("Detail");
    var item := PAYMENT_PATHS[PAYMENT.path].fields;
    RefsOfPart(item, PAYMENT.verb);
    RefsOfMapping(item, {"Detail"});
    RefsOfPart(PAYMENT_PATHS, PAYMENT.path);
    RefsOfMapping(PAYMENT_PATHS, {"Detail"});
  }

  lemma {:induction false} StoredRefs()
    ensures Refs(STORED_SCHEMAS["AuthenticatedUser"]) == {"Detail"} && Refs(STORED_SCHEMAS["Detail"]) == {}
  {
    var fields := map["detail" := RefTo("Detail")];
    RefsOfRef("Detail");
    RefsOfPart(fields, "detail");
    RefsOfPart(ObjectOf(fields).fields, "properties");
    RefsOfMapping(fields, {"Detail"});
    ObjectRefs(fields);
    assert "text"[0] == 't';
    TextsHaveNoRefs({"text"});
    ObjectRefs(Texts({"text"}));
  }

  lemma OnlyPayment(r: Route)
    requires r != PAYMENT
    ensures Op(PAYMENT_PATHS, r).None?
  {
  }

  lemma NoCorrectionApplies(c: Correction)
    requires c in ShippedTables.PATH_CORRECTIONS
    ensures c.Source() != PAYMENT
  {
    ShippedTables.CorrectionPaths(c);
    assert |PAYMENT.path| == 12;
  }

  lemma NoneIsDead(r: Route)
    requires r in ShippedTables.DEAD_OPERATIONS
    ensures r != PAYMENT
  {
    assert r.verb == "get" && |r.verb| != |PAYMENT.verb|;
  }

  lemma {:induction false} RoutedPaths(t: Tables)
    requires ShippedTables.IsMercadoPago(t)
    ensures Routed(t, PAYMENT_PATHS) == PAYMENT_PATHS
  {
    forall c | c in t.corrections ensures !Movable(PAYMENT_PATHS, c) {
      NoCorrectionApplies(c);
      OnlyPayment(c.Source());
    }
    MercadoPagoProperties.NothingToMove(PAYMENT_PATHS, t.corrections);
    forall r | r in t.dead ensures Op(PAYMENT_PATHS, r).None? {
      NoneIsDead(r);
      OnlyPayment(r);
    }
    MercadoPagoProperties.NothingToRemove(PAYMENT_PATHS, t.dead);
  }

  lemma {:induction false} NothingLeftToRemove(rs: seq<Route>)
    ensures Remove(map[], rs) == map[]
    decreases |rs|
  {
    if rs == [] {
    } else {
      NothingLeftToRemove(rs[..|rs| - 1]);
    }
  }

  lemma {:induction false} RemoveInTurn(paths: Paths, first: Route, rest: seq<Route>)
    ensures Remove(paths, [first] + rest) == Remove(RemoveOne(paths, first), rest)
    decreases |rest|
  {
    if rest == [] {
      assert [first] + rest == [first] && [first][..0] == [];
    } else {
      RemoveInTurn(paths, first, rest[..|rest| - 1]);
      assert ([first] + rest)[..|rest|] == [first] + rest[..|rest| - 1];
    }
  }

  lemma {:induction false} SurvivingPaths(t: Tables)
    requires ShippedTables.IsMercadoPago(t)
    ensures Surviving(t, PAYMENT_PATHS) == map[]
  {
    RoutedPaths(t);
    assert t.deprecated == [PAYMENT] + t.deprecated[1..];
    RemoveInTurn(PAYMENT_PATHS, PAYMENT, t.deprecated[1..]);
    assert RemoveOne(PAYMENT_PATHS, PAYMENT) == map[];
    NothingLeftToRemove(t.deprecated[1..]);
  }

  lemma {:induction false} DetailIsOrphaned(t: Tables)
    requires ShippedTables.IsMercadoPago(t)
    ensures Orphaned(t, PAYMENT_PATHS, STORED_SCHEMAS) == {"Detail"}
  {
    RoutedPaths(t);
    SurvivingPaths(t);
    PaymentPathsRefs();
    StoredRefs();
    assert Refs(Obj(map[])) == {};
    ReachWithin({}, Obj(map[]), STORED_SCHEMAS);
    assert Closed({"Detail"}, Obj(PAYMENT_PATHS), STORED_SCHEMAS);
    ReachWithin({"Detail"}, Obj(PAYMENT_PATHS), STORED_SCHEMAS);
    ReachIsLeastClosed(Obj(PAYMENT_PATHS), STORED_SCHEMAS);
  }

  const USER := Route("get", "/users/me")

  lemma {:induction false} ResponsesStay(before: Json, after: Json, render: Json -> string)
    requires MercadoPagoProperties.SameButDescription(before, after, render)
    requires before.Obj? && "responses" in before.fields
    ensures Refs(before.fields["responses"]) <= Refs(after)
  {
    assert "responses" in after.fields && after.fields["responses"] == before.fields["responses"] by {
      assert "responses" != "description";
      assert "responses" in before.fields - {"description"};
      assert after != before ==> after.fields - {"description"} == before.fields - {"description"};
    }
    RefsOfPart(after.fields, "responses");
  }

  lemma {:induction false} UserIsAdded(t: Tables)
    requires ShippedTables.IsMercadoPago(t)
    ensures Op(Completed(t, PAYMENT_PATHS), USER) == Some(t.added[0].operation)
  {
    ShippedTables.MercadoPagoFits(t);
    SurvivingPaths(t);
    MercadoPagoProperties.AddView(map[], t.added, USER);
    MercadoPagoProperties.AddedOpAt(t.added, 0);
    assert t.added[0].route == USER;
  }


  lemma {:induction false} UserIsReached(t: Tables)
    requires IsShipped(t)
    ensures "AuthenticatedUser" in Refs(Obj(FinalPaths(t, PAYMENT_PATHS)))
  {
    var final := FinalPaths(t, PAYMENT_PATHS);
    ShippedTables.MercadoPagoFits(t);
    UserIsAdded(t);
    MercadoPagoProperties.CompletedView(t, PAYMENT_PATHS, USER);
    MercadoPagoProperties.OperationsAreConserved(t, PAYMENT_PATHS, USER);
    UserIsStillReached(t, final);
  }

  lemma {:induction false} UserIsStillReached(t: Tables, final: Paths)
    requires AddsWhatIsShipped(t) && Op(final, USER).Some?
    requires MercadoPagoProperties.SameButDescription(t.added[0].operation, Op(final, USER).value, t.render)
    ensures "AuthenticatedUser" in Refs(Obj(final))
  {
    RenderedResponses(t.added[0].operation, ADDED_OPERATIONS[0]);
    AddedResponses(0);
    ResponsesStay(t.added[0].operation, Op(final, USER).value, t.render);
    OperationRefsAreReached(final, USER);
  }

  lemma NoLiftNames(t: Tables, name: string)
    requires ShippedTables.IsMercadoPago(t) && name in {"AuthenticatedUser", "Detail"}
    ensures forall l :: l in t.lifts ==> l.schema != name && l.component != name
  {
    forall l | l in t.lifts ensures l.schema != name && l.component != name {
      assert |l.schema| in {5, 23} && |l.component| in {11, 17, 29, 35} && l.schema[0] == 'O' && l.component[0] == 'O';
      assert |"Detail"| == 6 && |"AuthenticatedUser"| == 17 && "AuthenticatedUser"[0] == 'A';
    }
  }

  lemma DetailIsNotObserved()
    ensures "Detail" !in ShippedTables.OBSERVED_NAMES
  {
    assert forall n :: n in ShippedTables.OBSERVED_NAMES ==> |n| >= 17;
  }

  lemma {:induction false} SchemasLeft(t: Tables)
    requires ShippedTables.IsMercadoPago(t)
    ensures var final := FinalSchemas(t, PAYMENT_PATHS, STORED_SCHEMAS);
      && "AuthenticatedUser" in final && final["AuthenticatedUser"] == STORED_SCHEMAS["AuthenticatedUser"]
      && "Detail" !in final
  {
    DetailIsOrphaned(t);
    DetailIsNotObserved();
    NoLiftNames(t, "AuthenticatedUser");
    NoLiftNames(t, "Detail");
    MercadoPagoProperties.UnliftedSchemasAreKept(t, PAYMENT_PATHS, STORED_SCHEMAS, "AuthenticatedUser");
    MercadoPagoProperties.UnliftedSchemasAreKept(t, PAYMENT_PATHS, STORED_SCHEMAS, "Detail");
  }

  lemma {:induction false} UserReachesDetail(paths: Json, final: Schemas)
    requires "AuthenticatedUser" in Refs(paths) && "AuthenticatedUser" in final
    requires final["AuthenticatedUser"] == STORED_SCHEMAS["AuthenticatedUser"]
    ensures "Detail" in Reach(paths, final)
  {
    StoredRefs();
    ReachIsLeastClosed(paths, final);
  }

  lemma DetailDangles(t: Tables)
    requires var paths, final := FinalPaths(t, PAYMENT_PATHS), FinalSchemas(t, PAYMENT_PATHS, STORED_SCHEMAS);
      "Detail" in Reach(Obj(paths), final) && "Detail" !in final
    ensures Dangles(t, PAYMENT_PATHS, STORED_SCHEMAS)
    ensures "Detail" in RemovedSchemas(t, PAYMENT_PATHS, STORED_SCHEMAS)
  {
    assert "Detail" in STORED_SCHEMAS;
  }

  /** The finished document reaches `Detail`, which the shipped overlay removed. */
  lemma {:induction false} StoredNewNameCanDangle(t: Tables)
    requires IsShipped(t)
    ensures Dangles(t, PAYMENT_PATHS, STORED_SCHEMAS)
    ensures "Detail" in RemovedSchemas(t, PAYMENT_PATHS, STORED_SCHEMAS)
  {
    SchemasLeft(t);
    UserIsReached(t);
    UserReachesDetail(Obj(FinalPaths(t, PAYMENT_PATHS)), FinalSchemas(t, PAYMENT_PATHS, STORED_SCHEMAS));
    DetailDangles(t);
  }
}
