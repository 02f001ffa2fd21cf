/** The tables the two overlays ship with satisfy what their idempotence rests on. Prose
    (evidence, descriptions, bodies) is left to whoever builds the tables. */
module ShippedTables {
  import opened Json
  import opened OverlayEnums
  import MP = MercadoPagoOverlay
  import MercadoPagoItems
  import MercadoPagoProperties
  import OP = OpenPixOverlay
  import OpenPixProperties
  import OpenPixIdempotence
  import OpenPixWalk
  import opened JsonPointers

  // ----- Mercado Pago -----

  const PATH_CORRECTIONS := [
    MP.Correction("delete", "/v1/customers/{id}/delete", "/v1/customers/{id}"),
    MP.Correction("get", "/authorized_payments", "/authorized_payments/search")]

  const DEAD_OPERATIONS := [
    MP.Route("get", "/instore/integrator"),
    MP.Route("get", "/stores/{id}"),
    MP.Route("get", "/post-purchase/v1/claims/reasons/{reason_id}")]

  const DEPRECATED_OPERATIONS := [
    MP.Route("post", "/v1/payments"),
    MP.Route("get", "/v1/payments/search"),
    MP.Route("get", "/v1/payments/{id}"),
    MP.Route("put", "/v1/payments/{id}"),
    MP.Route("put", "/v1/payments/{id}/cancellations"),
    MP.Route("get", "/v1/payments/{id}/refunds"),
    MP.Route("post", "/v1/payments/{id}/refunds"),
    MP.Route("get", "/v1/payments/{id}/refunds/{refund_id}"),
    MP.Route("get", "/instore/qr/seller/collectors/{user_id}/pos/{external_pos_id}/orders"),
    MP.Route("delete", "/instore/qr/seller/collectors/{user_id}/pos/{external_pos_id}/orders"),
    MP.Route("put", "/mpmobile/instore/qr/{user_id}/{external_id}"),
    MP.Route("delete", "/mpmobile/instore/qr/{user_id}/{external_id}"),
    MP.Route("put", "/instore/qr/seller/collectors/{user_id}/stores/{external_store_id}/pos/{external_pos_id}/orders"),
    MP.Route("post", "/instore/orders/qr/seller/collectors/{user_id}/pos/{external_pos_id}/qrs"),
    MP.Route("put", "/instore/orders/qr/seller/collectors/{user_id}/pos/{external_pos_id}/qrs")]

  const ADDED_ROUTES := [
    MP.Route("get", "/users/me"),
    MP.Route("get", "/v1/advanced_payments/search"),
    MP.Route("get", "/v1/advanced_payments/{advanced_payment_id}/refunds"),
    MP.Route("post", "/v1/advanced_payments/{advanced_payment_id}/refunds"),
    MP.Route("post", "/v1/advanced_payments/{advanced_payment_id}/disbursements/{disbursement_id}/refunds"),
    MP.Route("post", "/v1/advanced_payments/{advanced_payment_id}/disburses"),
    MP.Route("get", "/v1/chargebacks/search")]

  const UNROUTED_ROUTES := [
    MP.Route("put", "/v1/chargebacks/{id}"),
    MP.Route("put", "/v1/payments/{id}/cancellations"),
    MP.Route("patch", "/instore/integrator"),
    MP.Route("put", "/mpmobile/instore/qr/{user_id}/{external_id}"),
    MP.Route("get", "/v1/account/release_report"),
    MP.Route("get", "/v1/account/settlement_report")]

  const LIFTED_ORDER_ENUMS := [
    Lift("Order", "status", "OrderStatus"),
    Lift("Order", "status_detail", "OrderStatusDetail"),
    Lift("OrderTransactionPayment", "status", "OrderTransactionPaymentStatus"),
    Lift("OrderTransactionPayment", "status_detail", "OrderTransactionPaymentStatusDetail")]

  const OBSERVED_NAMES := {
    "ChargebackSearchPaging", "ChargebackSearchResponse", "AuthenticatedUserIdentification",
    "AuthenticatedUserPhone", "AuthenticatedUserThumbnail", "AuthenticatedUserCompany", "AuthenticatedUser"}

  const UNVERIFIED_NOTE :=
    "\n\n**Unverified.** Neither the provider's SDK nor an unauthenticated " +
    "probe covers this operation, so nothing here confirms the API routes it. See issue #227."

  const UNROUTED_MARK := "**Not routed.**"
  const UNROUTED_NOTE :=
    " Probed against the sandbox and answered the way a path the API does not route answers — "

  function NoteOn(evidence: string): string {
    "\n\n" + UNROUTED_MARK + UNROUTED_NOTE + evidence + "."
  }

  /** The shipped tables, whatever their prose, and whatever vouches for an operation. */
  ghost predicate IsMercadoPago(t: MP.Tables) {
    && t.corrections == PATH_CORRECTIONS && t.dead == DEAD_OPERATIONS && t.deprecated == DEPRECATED_OPERATIONS
    && t.lifts == LIFTED_ORDER_ENUMS && t.observed.Keys == OBSERVED_NAMES
    && |t.added| == |ADDED_ROUTES| && (forall i :: 0 <= i < |t.added| ==> t.added[i].route == ADDED_ROUTES[i])
    && |t.unrouted| == |UNROUTED_ROUTES|
    && (forall i :: 0 <= i < |t.unrouted| ==>
          t.unrouted[i].route == UNROUTED_ROUTES[i] && exists evidence :: t.unrouted[i].note == NoteOn(evidence))
    && t.unverifiedNote == UNVERIFIED_NOTE && t.unverifiedMark == UNVERIFIED_NOTE[2..]
    && t.unroutedMark == UNROUTED_MARK
  }

  /** A verb, and a path no other table names: the lengths tell them apart, and the fourth
      letter where one is shared. */
  predicate IsRetired(r: MP.Route) {
    && r.verb in MP.VERBS
    && |r.path| in {12, 17, 19, 25, 31, 37, 44, 68, 72, 95}
    && (|r.path| == 25 ==> r.path[4] == 'p')
  }

  lemma DeadPaths(i: nat)
    requires i < |DEAD_OPERATIONS|
    ensures IsRetired(DEAD_OPERATIONS[i])
  {
  }

  lemma DeprecatedPaths(i: nat)
    requires i < |DEPRECATED_OPERATIONS|
    ensures IsRetired(DEPRECATED_OPERATIONS[i])
  {
  }

  lemma RetiredPaths(r: MP.Route)
    requires r in DEAD_OPERATIONS || r in DEPRECATED_OPERATIONS
    ensures IsRetired(r)
  {
    if r in DEAD_OPERATIONS {
      var i :| 0 <= i < |DEAD_OPERATIONS| && DEAD_OPERATIONS[i] == r;
      DeadPaths(i);
    } else {
      var i :| 0 <= i < |DEPRECATED_OPERATIONS| && DEPRECATED_OPERATIONS[i] == r;
      DeprecatedPaths(i);
    }
  }

  lemma AddedPaths(i: nat)
    requires i < |ADDED_ROUTES|
    ensures ADDED_ROUTES[i].verb in MP.VERBS
    ensures |ADDED_ROUTES[i].path| == [9, 28, 51, 51, 83, 53, 22][i]
    ensures |ADDED_ROUTES[i].path| == 51 ==> ADDED_ROUTES[i].verb == (if i == 2 then "get" else "post")
  {
  }

  lemma CorrectionPaths(c: MP.Correction)
    requires c in PATH_CORRECTIONS
    ensures c.verb in MP.VERBS
    ensures (|c.wrong| == 25 && c.wrong[4] == 'c' && |c.right| == 18) || (|c.wrong| == 20 && |c.right| == 27)
  {
  }

  lemma NotesCarryTheirMarks(evidence: string)
    ensures Contains(UNVERIFIED_NOTE, UNVERIFIED_NOTE[2..])
    ensures Contains(NoteOn(evidence), UNROUTED_MARK)
  {
    assert OccursAt(UNVERIFIED_NOTE, UNVERIFIED_NOTE[2..], 2);
    assert NoteOn(evidence)[2..2 + |UNROUTED_MARK|] == UNROUTED_MARK;
    assert OccursAt(NoteOn(evidence), UNROUTED_MARK, 2);
  }

  lemma UnroutedAreFit(t: MP.Tables)
    requires IsMercadoPago(t)
    ensures forall u :: u in t.unrouted ==> u.route.verb in MP.VERBS && Contains(u.note, t.unroutedMark)
  {
    forall u | u in t.unrouted ensures u.route.verb in MP.VERBS && Contains(u.note, t.unroutedMark) {
      var i :| 0 <= i < |t.unrouted| && t.unrouted[i] == u;
      var evidence :| u.note == NoteOn(evidence);
      NotesCarryTheirMarks(evidence);
      assert u.route == UNROUTED_ROUTES[i];
      assert UNROUTED_ROUTES[i].verb in MP.VERBS;
    }
  }

  lemma LiftsAreNotObserved(l: Lift)
    requires l in LIFTED_ORDER_ENUMS
    ensures l.schema !in OBSERVED_NAMES
  {
    assert |l.schema| == 5 || (|l.schema| == 23 && l.schema[0] == 'O');
  }

  lemma RetiredIsApart(t: MP.Tables, r: MP.Route)
    requires IsMercadoPago(t) && MercadoPagoProperties.Retired(t, r)
    ensures r.verb in MP.VERBS
    ensures forall c :: c in t.corrections ==> c.Source() != r && c.Target() != r
    ensures forall a :: a in t.added ==> a.route != r
  {
    RetiredPaths(r);
    forall c | c in t.corrections ensures c.Source() != r && c.Target() != r {
      CorrectionPaths(c);
    }
    forall a | a in t.added ensures a.route != r {
      var i :| 0 <= i < |t.added| && t.added[i] == a;
      AddedPaths(i);
    }
  }

  lemma AddedIsApart(t: MP.Tables)
    requires IsMercadoPago(t)
    ensures forall a :: a in t.added ==> a.route.verb in MP.VERBS
    ensures forall a, c :: a in t.added && c in t.corrections ==> a.route != c.Source()
    ensures forall i, j :: 0 <= i < j < |t.added| ==> t.added[i].route != t.added[j].route
  {
    forall i | 0 <= i < |t.added| ensures t.added[i].route.verb in MP.VERBS {
      AddedPaths(i);
    }
    forall a, c | a in t.added && c in t.corrections ensures a.route != c.Source() {
      var i :| 0 <= i < |t.added| && t.added[i] == a;
      AddedPaths(i);
      CorrectionPaths(c);
    }
    forall i, j | 0 <= i < j < |t.added| ensures t.added[i].route != t.added[j].route {
      AddedPaths(i);
      AddedPaths(j);
    }
  }

  lemma CorrectionsAreApart()
    ensures MercadoPagoProperties.CorrectionsApart(PATH_CORRECTIONS)
  {
    forall c, d | c in PATH_CORRECTIONS && d in PATH_CORRECTIONS ensures c.Source() != d.Target() {
      CorrectionPaths(c);
      CorrectionPaths(d);
    }
    assert |PATH_CORRECTIONS[0].wrong| != |PATH_CORRECTIONS[1].wrong|;
    assert |PATH_CORRECTIONS[0].right| != |PATH_CORRECTIONS[1].right|;
  }

  /** The shipped tables satisfy what idempotence and conservation ask of them. */
  lemma MercadoPagoFits(t: MP.Tables)
    requires IsMercadoPago(t)
    ensures MercadoPagoProperties.WellFormed(t)
  {
    forall r | MercadoPagoProperties.Retired(t, r)
      ensures r.verb in MP.VERBS
      ensures forall c :: c in t.corrections ==> c.Source() != r && c.Target() != r
      ensures forall a :: a in t.added ==> a.route != r
    {
      RetiredIsApart(t, r);
    }
    forall c | c in t.corrections ensures c.verb in MP.VERBS {
      CorrectionPaths(c);
    }
    forall l | l in t.lifts ensures l.schema !in t.observed {
      LiftsAreNotObserved(l);
    }
    AddedIsApart(t);
    CorrectionsAreApart();
    NotesCarryTheirMarks("");
    UnroutedAreFit(t);
  }

  lemma GivenPaths(t: MP.Tables, path: string)
    requires IsMercadoPago(t) && MercadoPagoItems.GivenToPath(t, path)
    ensures |path| in {18, 27, 9, 28, 51, 83, 53, 22}
  {
    if c :| c in t.corrections && c.right == path {
      CorrectionPaths(c);
    } else {
      var a :| a in t.added && a.route.path == path;
      var i :| 0 <= i < |t.added| && t.added[i] == a;
      AddedPaths(i);
    }
  }

  lemma TakenPaths(t: MP.Tables, path: string)
    requires IsMercadoPago(t) && MercadoPagoItems.TakenFromPath(t, path)
    ensures |path| !in {18, 27, 9, 28, 51, 83, 53, 22}
  {
    if c :| c in t.corrections && c.wrong == path {
      CorrectionPaths(c);
    } else {
      var r :| (r in t.dead || r in t.deprecated) && r.path == path;
      RetiredPaths(r);
    }
  }

  /** No path the shipped tables take an operation from is one they give an operation to. */
  lemma MercadoPagoPathsApart(t: MP.Tables)
    requires IsMercadoPago(t)
    ensures MercadoPagoItems.PathsApart(t)
  {
    forall path | MercadoPagoItems.TakenFromPath(t, path) ensures !MercadoPagoItems.GivenToPath(t, path) {
      TakenPaths(t, path);
      if MercadoPagoItems.GivenToPath(t, path) {
        GivenPaths(t, path);
      }
    }
  }

  /** Applying the shipped Mercado Pago overlay twice is applying it once. */
  lemma MercadoPagoIsIdempotent(t: MP.Tables, document: MP.Document)
    requires IsMercadoPago(t)
    ensures MP.Apply(t, document).Ok? ==> (
      var (patched, report) := MP.Apply(t, document).value;
      MP.Apply(t, patched) == Ok((patched, MP.EMPTY_REPORT.(collisions := report.collisions))))
  {
    MercadoPagoFits(t);
    MercadoPagoProperties.ApplyIsIdempotent(t, document);
  }

  // ----- OpenPix -----

  const INTEGER_PROPERTY_NAMES := {
    "value", "balance", "fee", "discount", "valueWithDiscount", "total", "totalValue", "minimumValue",
    "available", "blocked", "blockedBySecurity", "blockedByWithdrawSafety", "skip", "limit", "expiresIn",
    "dayDue", "dayGenerateCharge", "daysForDueDate", "daysAfterDueDate", "installmentCount",
    "installmentsCount", "installmentNumber", "boletoEmissionLimit", "boletoMaximumValueLimit",
    "pixDayLimit", "pixNightLimit", "pixInSameHolderDayLimit", "pixInSameHolderNightLimit",
    "pixInDifferentHolderDayLimit", "pixInDifferentHolderNightLimit", "pixOutSameHolderDayLimit",
    "pixOutSameHolderNightLimit", "pixOutDifferentHolderDayLimit", "pixOutDifferentHolderNightLimit"}

  function Typed(kind: string, description: string): Json {
    Obj(map["type" := Str(kind), "description" := Str(description)])
  }

  const DECLARED_AT := [
    PropertyRef("Charge", "fee"), PropertyRef("Charge", "discount"),
    PropertyRef("Charge", "valueWithDiscount"), PropertyRef("ChargeRefund", "refundId")]

  const MISTYPED_AT := [
    PropertyRef("Charge", "expiresIn"), PropertyRef("PixQrCode", "value"),
    PropertyRef("WithdrawTransaction", "value")]

  const CALLBACK_URL := "{$request.body#/webhook.url}"

  /** The keys of a webhook callback's mistyped value. */
  function CallbackKeys(callback: string): seq<string> {
    ["paths", "/api/v1/webhook", "post", "callbacks", callback, CALLBACK_URL, "post", "requestBody", "content",
     "application/json", "schema", "properties", "pix", "properties", "value"]
  }

  const MISTYPED_KEYS := [
    ["paths", "/api/v1/dispute/{id}", "get", "responses", "200", "content", "application/json", "schema",
     "properties", "dispute", "properties", "value"],
    CallbackKeys("receivedPix"), CallbackKeys("receivedPixDetached"), CallbackKeys("receivedPixQrCode")]

  const LIFTED_STATUS_ENUMS := [Lift("Charge", "status", "ChargeStatus"), Lift("Payment", "status", "PaymentStatus")]

  const NON_EMPTY := [PropertyRef("ChargePayload", "splits")]

  ghost predicate IsTyped(value: Json, kind: string) {
    exists description :: value == Typed(kind, description)
  }

  /** The shipped tables, whatever their descriptions; the patterns find no unit in an empty
      description nor in those of the lifted components. */
  ghost predicate IsOpenPix(t: OP.Tables) {
    && t.rules.integerNames == INTEGER_PROPERTY_NAMES
    && OpenPixProperties.Blind(t.rules)
    && !t.rules.cents("") && !t.rules.statusCode("")
    && (forall l :: l in LIFTED_STATUS_ENUMS ==>
          !t.rules.cents(ComponentDescription(l)) && !t.rules.statusCode(ComponentDescription(l)))
    && t.lifts == LIFTED_STATUS_ENUMS && t.nonEmpty == NON_EMPTY
    && |t.declared| == |DECLARED_AT| && |t.mistyped| == |MISTYPED_AT| && |t.pointers| == |MISTYPED_KEYS|
    && (forall i :: 0 <= i < |t.declared| ==> (
          && t.declared[i].at == DECLARED_AT[i]
          && IsTyped(t.declared[i].value, if i == 3 then "string" else "integer")))
    && (forall i :: 0 <= i < |t.mistyped| ==> (
          && t.mistyped[i].at == MISTYPED_AT[i]
          && IsTyped(t.mistyped[i].value, "integer")))
    && (forall i :: 0 <= i < |t.pointers| ==> (
          && t.pointers[i].pointer == PointerTo(MISTYPED_KEYS[i])
          && IsTyped(t.pointers[i].value, "integer")))
  }

  lemma {:induction false} TypedHasNoNumber(value: Json, kind: string)
    requires IsTyped(value, kind) && (kind == "integer" || kind == "string")
    ensures value.Obj? && OpenPixProperties.NoNumber(value)
  {
    assert kind[0] != "number"[0];
    var description :| value == Typed(kind, description);
    assert OP.TypeOf(value) == Str(kind);
  }

  lemma {:induction false} NoDescriptionToAvoid(context: OpenPixWalk.Context, keys: seq<string>)
    requires "description" !in keys
    ensures OpenPixProperties.AvoidsDescriptions(context, keys)
    decreases |keys|
  {
    if keys == [] {
    } else {
      assert keys[0] in keys;
      NoDescriptionToAvoid(OpenPixProperties.MappingUnder(context, keys[0]), keys[1..]);
    }
  }

  /** A key that could be taken for `description` by its length begins otherwise. */
  ghost predicate NotDescription(key: string) {
    |key| != 11 || key[0] == 'r'
  }

  lemma CallbackKeysAvoid(callback: string)
    requires NotDescription(callback)
    ensures forall key :: key in CallbackKeys(callback) ==> NotDescription(key)
  {
  }

  lemma DisputeKeysAvoid()
    ensures forall key :: key in MISTYPED_KEYS[0] ==> NotDescription(key)
  {
  }

  lemma PointerKeys(i: nat)
    requires i < |MISTYPED_KEYS|
    ensures "description" !in MISTYPED_KEYS[i] && MISTYPED_KEYS[i][0] == "paths"
    ensures KeysOf(PointerTo(MISTYPED_KEYS[i])) == MISTYPED_KEYS[i]
  {
    DisputeKeysAvoid();
    CallbackKeysAvoid("receivedPix");
    CallbackKeysAvoid("receivedPixDetached");
    CallbackKeysAvoid("receivedPixQrCode");
    assert !NotDescription("description");
    KeysReadBack(MISTYPED_KEYS[i]);
  }

  lemma PointersApart(i: nat, j: nat)
    requires i < j < |MISTYPED_KEYS|
    ensures Apart(MISTYPED_KEYS[i], MISTYPED_KEYS[j])
  {
    var at := if i == 0 then 1 else 4;
    assert |MISTYPED_KEYS[i][at]| != |MISTYPED_KEYS[j][at]|;
  }

  lemma PointerFits(t: OP.Tables, i: nat)
    requires IsOpenPix(t) && i < |t.pointers|
    ensures OpenPixProperties.PointerFits(t.pointers[i])
  {
    var keys := MISTYPED_KEYS[i];
    PointerKeys(i);
    assert |keys[0]| != |"components"|;
    TypedHasNoNumber(t.pointers[i].value, "integer");
    NoDescriptionToAvoid(OpenPixWalk.Schema(None), keys);
  }

  lemma PointersFit(t: OP.Tables)
    requires IsOpenPix(t)
    ensures forall q :: q in t.pointers ==> OpenPixProperties.PointerFits(q)
  {
    forall q | q in t.pointers ensures OpenPixProperties.PointerFits(q) {
      var i :| 0 <= i < |t.pointers| && t.pointers[i] == q;
      PointerFits(t, i);
    }
  }

  lemma PointersAreApart(t: OP.Tables)
    requires IsOpenPix(t)
    ensures forall i, j :: 0 <= i < j < |t.pointers| ==>
            Apart(KeysOf(t.pointers[i].pointer), KeysOf(t.pointers[j].pointer))
  {
    forall i, j | 0 <= i < j < |t.pointers|
      ensures Apart(KeysOf(t.pointers[i].pointer), KeysOf(t.pointers[j].pointer))
    {
      PointerKeys(i);
      PointerKeys(j);
      PointersApart(i, j);
    }
  }

  /** A component's name begins with a capital, and no keyword of the walk does. */
  lemma CapitalsAreOrdinary(name: string)
    requires name != "" && 'A' <= name[0] <= 'Z'
    ensures OpenPixProperties.Ordinary(name)
  {
    forall keyword | keyword in OpenPixWalk.INHERITING + OpenPixWalk.SKIPPED +
        {"properties", "parameters", "type", "description"}
      ensures keyword != "" && 'a' <= keyword[0] <= 'z'
    {
    }
  }

  lemma DeclaredPlace(i: nat)
    requires i < |DECLARED_AT|
    ensures DECLARED_AT[i].schema == "Charge" || DECLARED_AT[i].schema == "ChargeRefund"
  {
  }

  lemma MistypedPlace(i: nat)
    requires i < |MISTYPED_AT|
    ensures MISTYPED_AT[i].schema in {"Charge", "PixQrCode", "WithdrawTransaction"}
    ensures |MISTYPED_AT[i].schema| == [6, 9, 19][i]
    ensures MISTYPED_AT[i].schema == "Charge" ==> |MISTYPED_AT[i].property| == 9
  {
  }

  lemma EntriesFit(t: OP.Tables, e: OP.Entry)
    requires IsOpenPix(t) && e in t.declared + t.mistyped
    ensures e.value.Obj? && OpenPixProperties.NoNumber(e.value)
    ensures e.at.schema in {"Charge", "ChargeRefund", "PixQrCode", "WithdrawTransaction"}
    ensures e in t.mistyped && e.at.schema == "Charge" ==> |e.at.property| == 9
  {
    if e in t.mistyped {
      var i :| 0 <= i < |t.mistyped| && t.mistyped[i] == e;
      MistypedPlace(i);
      TypedHasNoNumber(e.value, "integer");
    } else {
      var i :| 0 <= i < |t.declared| && t.declared[i] == e;
      DeclaredPlace(i);
      TypedHasNoNumber(e.value, if i == 3 then "string" else "integer");
    }
  }

  lemma StatusIsNoUnit()
    ensures "status" !in INTEGER_PROPERTY_NAMES
  {
    assert forall name :: name in INTEGER_PROPERTY_NAMES && |name| == 6 ==> name[0] == 'd';
  }

  lemma LiftsFit(t: OP.Tables, l: Lift)
    requires IsOpenPix(t) && l in t.lifts
    ensures OpenPixProperties.LiftFits(t, l)
  {
    assert l == LIFTED_STATUS_ENUMS[0] || l == LIFTED_STATUS_ENUMS[1];
    CapitalsAreOrdinary(l.schema);
    CapitalsAreOrdinary(l.component);
    StatusIsNoUnit();
    assert |l.component| == 12 ==> l.component[6] == 'S';
    assert |l.schema| == 6 ==> l.schema == "Charge";
    forall e | e in t.declared + t.mistyped
      ensures e.at.schema != l.component
      ensures e in t.mistyped ==> e.at != l.At()
    {
      EntriesFit(t, e);
      assert |e.at.schema| == 12 ==> e.at.schema[6] == 'R';
      assert |l.schema| in {6, 7} && |l.property| == 6;
    }
    assert forall at :: at in NON_EMPTY ==> at.schema == "ChargePayload" && at.schema[6] == 'P';
    assert |l.component| == 13 ==> l.component[6] == 't';
  }

  lemma MistypedAreDistinct(t: OP.Tables)
    requires IsOpenPix(t)
    ensures forall i, j :: 0 <= i < j < |t.mistyped| ==> t.mistyped[i].at != t.mistyped[j].at
  {
    forall i, j | 0 <= i < j < |t.mistyped| ensures t.mistyped[i].at != t.mistyped[j].at {
      MistypedPlace(i);
      MistypedPlace(j);
    }
  }

  /** The shipped tables satisfy what idempotence asks of them. */
  lemma OpenPixFits(t: OP.Tables)
    requires IsOpenPix(t)
    ensures OpenPixProperties.WellFormed(t)
  {
    forall e | e in t.declared + t.mistyped
      ensures OpenPixProperties.Ordinary(e.at.schema) && e.value.Obj? && OpenPixProperties.NoNumber(e.value)
    {
      EntriesFit(t, e);
      CapitalsAreOrdinary(e.at.schema);
    }
    forall l | l in t.lifts ensures OpenPixProperties.LiftFits(t, l) {
      LiftsFit(t, l);
    }
    forall at | at in t.nonEmpty ensures OpenPixProperties.Ordinary(at.schema) {
      assert at == NON_EMPTY[0];
      CapitalsAreOrdinary(at.schema);
    }
    MistypedAreDistinct(t);
    PointersFit(t);
    PointersAreApart(t);
  }

  /** Applying the shipped OpenPix overlay twice is applying it once, and the second time
      reports nothing. */
  lemma OpenPixIsIdempotent(t: OP.Tables, document: Json)
    requires IsOpenPix(t)
    ensures OP.Apply(t, document).Ok? ==>
              OP.Apply(t, OP.Apply(t, document).value.0) == Ok((OP.Apply(t, document).value.0, OP.EMPTY_REPORT))
  {
    OpenPixFits(t);
    OpenPixIdempotence.ApplyIsIdempotent(t, document);
  }
}
