/** What the shipped Mercado Pago overlay adds to a document: the schemas observed on the
    sandbox and the operations the SDK calls. They refer to the observed schemas only. */
module ShippedAdditions {
  import opened Json
  import opened Reachability
  import opened AddedOperations
  import opened MercadoPagoOverlay
  import opened MercadoPagoPruning
  import ShippedTables

  // ----- The observed schemas -----

  function ObjectOf(properties: map<string, Json>): Json {
    Obj(map["type" := Str("object"), "properties" := Obj(properties)])
  }

  function Texts(names: set<string>): map<string, Json> {
    map name | name in names :: Typed("string")
  }

  function ListOf(items: Json): Json {
    Obj(map["type" := Str("array"), "items" := items])
  }

  const PAGING_FIELDS := map["offset" := Typed("integer"), "limit" := Typed("integer"), "total" := Typed("integer")]

  const SEARCH_FIELDS := map["paging" := RefTo("ChargebackSearchPaging"), "results" := ListOf(FREE_OBJECT)]

  const IDENTIFICATION_FIELDS := Texts({"type", "number"})

  const PHONE_FIELDS := Texts({"area_code", "number", "extension"})["verified" := Typed("boolean")]

  const THUMBNAIL_FIELDS := Texts({"picture_id", "picture_url"})

  const COMPANY_FIELDS := Texts({
    "brand_name", "corporate_name", "identification", "soft_descriptor", "city_tax_id", "state_tax_id", "cust_type_id"})

  const ACCOUNT_FIELDS := Texts({
    "nickname", "first_name", "last_name", "country_id", "site_id", "email", "secure_email", "user_type",
    "permalink", "seller_experience"})

  const DATE_TIME := Obj(map["type" := Str("string"), "format" := Str("date-time")])

  const PLAIN_USER_FIELDS := ACCOUNT_FIELDS
    ["id" := Typed("integer")]
    ["registration_date" := DATE_TIME]
    ["tags" := ListOf(Typed("string"))]
    ["points" := Typed("integer")]

  const USER_FIELDS := PLAIN_USER_FIELDS
    ["identification" := RefTo("AuthenticatedUserIdentification")]
    ["phone" := RefTo("AuthenticatedUserPhone")]
    ["thumbnail" := RefTo("AuthenticatedUserThumbnail")]
    ["company" := RefTo("AuthenticatedUserCompany")]

  function UserSchema(description: string): Json {
    Obj(ObjectOf(USER_FIELDS).fields["description" := Str(description)])
  }

  function ObservedSchema(name: string, description: string): Json {
    if name == "ChargebackSearchPaging" then ObjectOf(PAGING_FIELDS)
    else if name == "ChargebackSearchResponse" then ObjectOf(SEARCH_FIELDS)
    else if name == "AuthenticatedUserIdentification" then ObjectOf(IDENTIFICATION_FIELDS)
    else if name == "AuthenticatedUserPhone" then ObjectOf(PHONE_FIELDS)
    else if name == "AuthenticatedUserThumbnail" then ObjectOf(THUMBNAIL_FIELDS)
    else if name == "AuthenticatedUserCompany" then ObjectOf(COMPANY_FIELDS)
    else UserSchema(description)
  }

  function ObservedSchemas(description: string): Schemas {
    map name | name in ShippedTables.OBSERVED_NAMES :: ObservedSchema(name, description)
  }

  lemma {:induction false} TypedHasNoRefs(kind: string)
    ensures Refs(Typed(kind)) == {}
  {
    RefsOfMapping(Typed(kind).fields, {});
  }

  lemma {:induction false} TextsHaveNoRefs(names: set<string>)
    requires forall name :: name in names ==> |name| != 4 || name[0] != '$'
    ensures Refs(Obj(Texts(names))) == {}
  {
    assert |"$ref"| == 4 && "$ref"[0] == '$';
    TypedHasNoRefs("string");
    RefsOfMapping(Texts(names), {});
  }

  lemma {:induction false} ListRefs(items: Json)
    ensures Refs(ListOf(items)) <= Refs(items)
  {
    RefsOfMapping(ListOf(items).fields, Refs(items));
  }

  lemma {:induction false} ObjectRefs(properties: map<string, Json>)
    ensures Refs(ObjectOf(properties)) <= Refs(Obj(properties))
  {
    RefsOfMapping(ObjectOf(properties).fields, Refs(Obj(properties)));
  }

  lemma {:induction false} PagingHasNoRefs()
    ensures Refs(ObjectOf(PAGING_FIELDS)) == {}
  {
    ObjectRefs(PAGING_FIELDS);
    TypedHasNoRefs("integer");
    RefsOfMapping(PAGING_FIELDS, {});
  }

  lemma {:induction false} SearchRefs()
    ensures Refs(ObjectOf(SEARCH_FIELDS)) <= {"ChargebackSearchPaging"}
  {
    ObjectRefs(SEARCH_FIELDS);
    RefsOfRef("ChargebackSearchPaging");
    RefsOfMapping(FREE_OBJECT.fields, {});
    ListRefs(FREE_OBJECT);
    RefsOfMapping(SEARCH_FIELDS, {"ChargebackSearchPaging"});
  }

  lemma IdentificationHasNoRefs()
    ensures Refs(ObjectOf(IDENTIFICATION_FIELDS)) == {}
  {
    ObjectRefs(IDENTIFICATION_FIELDS);
    assert "type"[0] == 't' && |"number"| == 6;
    TextsHaveNoRefs({"type", "number"});
  }

  lemma PhoneHasNoRefs()
    ensures Refs(ObjectOf(PHONE_FIELDS)) == {}
  {
    ObjectRefs(PHONE_FIELDS);
    TextsHaveNoRefs({"area_code", "number", "extension"});
    TypedHasNoRefs("boolean");
    RefsOfUpdate(Texts({"area_code", "number", "extension"}), "verified", Typed("boolean"));
  }

  lemma ThumbnailHasNoRefs()
    ensures Refs(ObjectOf(THUMBNAIL_FIELDS)) == {}
  {
    ObjectRefs(THUMBNAIL_FIELDS);
    TextsHaveNoRefs({"picture_id", "picture_url"});
  }

  lemma CompanyHasNoRefs()
    ensures Refs(ObjectOf(COMPANY_FIELDS)) == {}
  {
    ObjectRefs(COMPANY_FIELDS);
    TextsHaveNoRefs({
      "brand_name", "corporate_name", "identification", "soft_descriptor", "city_tax_id", "state_tax_id",
          "cust_type_id"});
  }

  lemma AccountHasNoRefs()
    ensures Refs(Obj(ACCOUNT_FIELDS)) == {}
  {
    TextsHaveNoRefs({
      "nickname", "first_name", "last_name", "country_id", "site_id", "email", "secure_email", "user_type",
      "permalink", "seller_experience"});
  }

  const USER_PARTS := {
    "AuthenticatedUserIdentification", "AuthenticatedUserPhone", "AuthenticatedUserThumbnail",
        "AuthenticatedUserCompany"}

  lemma {:induction false} PlainUserRefs()
    ensures Refs(Obj(PLAIN_USER_FIELDS)) == {}
  {
    AccountHasNoRefs();
    TypedHasNoRefs("integer");
    TypedHasNoRefs("string");
    ListRefs(Typed("string"));
    RefsOfMapping(DATE_TIME.fields, {});
    var one := ACCOUNT_FIELDS["id" := Typed("integer")];
    var two := one["registration_date" := DATE_TIME];
    var three := two["tags" := ListOf(Typed("string"))];
    assert "tags"[0] == 't';
    RefsOfUpdate(ACCOUNT_FIELDS, "id", Typed("integer"));
    RefsOfUpdate(one, "registration_date", DATE_TIME);
    RefsOfUpdate(two, "tags", ListOf(Typed("string")));
    RefsOfUpdate(three, "points", Typed("integer"));
  }

  lemma {:induction false} RefAdded(fields: map<string, Json>, key: string, name: string, names: set<string>)
    requires |key| != 4 && Refs(Obj(fields)) <= names && name in names
    ensures Refs(Obj(fields[key := RefTo(name)])) <= names
  {
    assert |"$ref"| == 4;
    RefsOfRef(name);
    RefsOfUpdate(fields, key, RefTo(name));
  }

  lemma {:induction false} UserRefs()
    ensures Refs(Obj(USER_FIELDS)) <= USER_PARTS
  {
    PlainUserRefs();
    var one := PLAIN_USER_FIELDS["identification" := RefTo("AuthenticatedUserIdentification")];
    var two := one["phone" := RefTo("AuthenticatedUserPhone")];
    var three := two["thumbnail" := RefTo("AuthenticatedUserThumbnail")];
    RefAdded(PLAIN_USER_FIELDS, "identification", "AuthenticatedUserIdentification", USER_PARTS);
    RefAdded(one, "phone", "AuthenticatedUserPhone", USER_PARTS);
    RefAdded(two, "thumbnail", "AuthenticatedUserThumbnail", USER_PARTS);
    RefAdded(three, "company", "AuthenticatedUserCompany", USER_PARTS);
  }

  lemma {:induction false} UserSchemaRefs(description: string)
    ensures Refs(UserSchema(description)) <= USER_PARTS
  {
    UserRefs();
    ObjectRefs(USER_FIELDS);
    RefsOfUpdate(ObjectOf(USER_FIELDS).fields, "description", Str(description));
  }

  const PARTS := USER_PARTS + {"ChargebackSearchPaging"}

  /** The observed schemas refer to each other only. */
  lemma {:induction false} ObservedRefs(name: string, description: string)
    ensures Refs(ObservedSchema(name, description)) <= PARTS
  {
    if name == "ChargebackSearchPaging" {
      PagingHasNoRefs();
    } else if name == "ChargebackSearchResponse" {
      SearchRefs();
    } else if name == "AuthenticatedUserIdentification" {
      IdentificationHasNoRefs();
    } else if name == "AuthenticatedUserPhone" {
      PhoneHasNoRefs();
    } else if name == "AuthenticatedUserThumbnail" {
      ThumbnailHasNoRefs();
    } else if name == "AuthenticatedUserCompany" {
      CompanyHasNoRefs();
    } else {
      UserSchemaRefs(description);
    }
  }

  // ----- The added operations -----

  function Entry(i: nat, operationId: string, summary: string, source: string): AddedOperation
    requires i < |ShippedTables.ADDED_ROUTES|
  {
    var route := ShippedTables.ADDED_ROUTES[i];
    AddedOperation(route.verb, route.path, operationId, summary, "", source, [], [], route.verb == "post", None,
                   "2026-10-09")
  }

  /** The entries of the table, without their prose. */
  const ADDED_OPERATIONS := [
    Entry(0, "getAuthenticatedUser", "Get the authenticated user", "resources/user.py:get")
      .(response := Some("AuthenticatedUser")),
    Entry(1, "searchAdvancedPayments", "Search advanced payments", "resources/advanced_payment.py:search")
      .(query := ["limit", "offset"]),
    Entry(2, "listDisbursementRefunds", "List the refunds of an advanced payment",
          "resources/disbursement_refund.py:list_all"),
    Entry(3, "createDisbursementRefunds", "Refund an advanced payment", "resources/disbursement_refund.py:create_all"),
    Entry(4, "createDisbursementRefund", "Refund one disbursement of an advanced payment",
          "resources/disbursement_refund.py:create"),
    Entry(5, "updateAdvancedPaymentReleaseDate", "Update the release date of a disbursement",
          "resources/advanced_payment.py:update_release_date"),
    Entry(6, "searchChargebacks", "Search chargebacks", "resources/chargeback.py:search")
      .(requiredQuery := ["payment_id"], response := Some("ChargebackSearchResponse"), observedOn := "2026-10-10")]

  ghost predicate IsObserved(schemas: Schemas) {
    exists description :: schemas == ObservedSchemas(description)
  }

  /** The entry, rendered with some description. */
  ghost predicate IsRendered(operation: Json, entry: AddedOperation) {
    exists description :: operation == Operation(entry.(description := description))
  }

  lemma {:induction false} RenderedRefs(operation: Json, entry: AddedOperation)
    requires IsRendered(operation, entry)
    ensures Refs(operation) == ResponseNames(entry)
  {
    var description :| operation == Operation(entry.(description := description));
    OperationRefs(entry.(description := description));
  }

  lemma {:induction false} RenderedResponses(operation: Json, entry: AddedOperation)
    requires IsRendered(operation, entry)
    ensures operation.Obj? && "responses" in operation.fields
    ensures Refs(operation.fields["responses"]) == ResponseNames(entry)
  {
    var description :| operation == Operation(entry.(description := description));
    ResponsesRefs(entry.(description := description));
  }

  lemma {:induction false} RenderedIsPlain(operation: Json, entry: AddedOperation)
    requires IsRendered(operation, entry)
    ensures operation.Has("description") ==> Refs(operation.fields["description"]) == {}
  {
    var description :| operation == Operation(entry.(description := description));
    DescriptionIsKept(entry.(description := description));
  }

  /** What the shipped tables add to a document, whatever its prose. */
  ghost predicate AddsWhatIsShipped(t: Tables) {
    && IsObserved(t.observed)
    && |t.added| == |ADDED_OPERATIONS|
    && forall i :: 0 <= i < |t.added| ==> IsRendered(t.added[i].operation, ADDED_OPERATIONS[i])
  }

  lemma AddedResponses(i: nat)
    requires i < |ADDED_OPERATIONS|
    ensures ResponseNames(ADDED_OPERATIONS[i]) <= ShippedTables.OBSERVED_NAMES
    ensures ResponseNames(ADDED_OPERATIONS[0]) == {"AuthenticatedUser"}
  {
  }

  lemma PartsAreObserved()
    ensures PARTS <= ShippedTables.OBSERVED_NAMES
  {
  }

  lemma {:induction false} ObservedAreClosed(description: string)
    ensures forall n :: n in ObservedSchemas(description) ==>
              Refs(ObservedSchemas(description)[n]) <= ObservedSchemas(description).Keys
  {
    PartsAreObserved();
    forall n | n in ObservedSchemas(description) ensures Refs(ObservedSchemas(description)[n]) <= PARTS {
      ObservedRefs(n, description);
    }
    assert ObservedSchemas(description).Keys == ShippedTables.OBSERVED_NAMES;
  }

  lemma {:induction false} ObservedReferToObserved(observed: Schemas)
    requires IsObserved(observed)
    ensures observed.Keys == ShippedTables.OBSERVED_NAMES
    ensures forall n :: n in observed ==> Refs(observed[n]) <= observed.Keys
  {
    var description :| observed == ObservedSchemas(description);
    ObservedAreClosed(description);
  }

  lemma {:induction false} AddedRefersToObserved(t: Tables, i: nat)
    requires AddsWhatIsShipped(t) && i < |t.added|
    ensures Refs(t.added[i].operation) <= ShippedTables.OBSERVED_NAMES
  {
    RenderedRefs(t.added[i].operation, ADDED_OPERATIONS[i]);
    AddedResponses(i);
  }

  /** Everything the overlay adds refers to observed schemas only. */
  lemma {:induction false} AdditionsAreClosed(t: Tables)
    requires AddsWhatIsShipped(t)
    ensures AdditionsClosed(t)
  {
    ObservedReferToObserved(t.observed);
    forall i | 0 <= i < |t.added| ensures Refs(t.added[i].operation) <= t.observed.Keys {
      AddedRefersToObserved(t, i);
    }
    ClosedEntryByEntry(t);
  }

  function AddedEntries(routes: seq<Route>, entries: seq<AddedOperation>): (r: seq<Addition>)
    requires |routes| == |entries|
    ensures |r| == |routes| && forall i :: 0 <= i < |r| ==> r[i] == Addition(routes[i], Operation(entries[i]))
  {
    seq(|routes|, i requires 0 <= i < |routes| => Addition(routes[i], Operation(entries[i])))
  }

  function UnroutedEntries(routes: seq<Route>): (r: seq<Unrouted>)
    ensures |r| == |routes| && forall i :: 0 <= i < |r| ==> r[i] == Unrouted(routes[i], ShippedTables.NoteOn(""))
  {
    seq(|routes|, i requires 0 <= i < |routes| => Unrouted(routes[i], ShippedTables.NoteOn("")))
  }

  /** The shipped tables around the added operations, without the prose of the notes. */
  function TablesWith(added: seq<Addition>, vouched: set<(string, string)>, render: Json -> string): Tables {
    Tables(
      ShippedTables.PATH_CORRECTIONS, ShippedTables.DEAD_OPERATIONS, ShippedTables.DEPRECATED_OPERATIONS,
      ShippedTables.LIFTED_ORDER_ENUMS, ObservedSchemas(""), added,
      vouched, UnroutedEntries(ShippedTables.UNROUTED_ROUTES),
      ShippedTables.UNVERIFIED_NOTE, ShippedTables.UNVERIFIED_NOTE[2..], ShippedTables.UNROUTED_MARK, render)
  }

  lemma {:induction false} TablesAreShipped(added: seq<Addition>, vouched: set<(string, string)>,
                                            render: Json -> string)
    requires |added| == |ShippedTables.ADDED_ROUTES|
    requires forall i :: 0 <= i < |added| ==> added[i].route == ShippedTables.ADDED_ROUTES[i]
    ensures ShippedTables.IsMercadoPago(TablesWith(added, vouched, render))
  {
    var t := TablesWith(added, vouched, render);
    assert t.observed.Keys == ShippedTables.OBSERVED_NAMES;
    forall i | 0 <= i < |t.unrouted| ensures exists evidence :: t.unrouted[i].note == ShippedTables.NoteOn(evidence) {
      assert t.unrouted[i].note == ShippedTables.NoteOn("");
    }
  }

  lemma {:induction false} RenderedAsIs(entry: AddedOperation)
    ensures IsRendered(Operation(entry), entry)
  {
    assert entry.(description := entry.description) == entry;
  }

  lemma {:induction false} AdditionsAreShipped(added: seq<Addition>, vouched: set<(string, string)>,
                                               render: Json -> string)
    requires |added| == |ADDED_OPERATIONS|
    requires forall i :: 0 <= i < |added| ==> added[i].operation == Operation(ADDED_OPERATIONS[i])
    ensures AddsWhatIsShipped(TablesWith(added, vouched, render))
  {
    assert IsObserved(ObservedSchemas(""));
    forall i | 0 <= i < |added| ensures IsRendered(added[i].operation, ADDED_OPERATIONS[i]) {
      RenderedAsIs(ADDED_OPERATIONS[i]);
    }
  }

  ghost predicate IsShipped(t: Tables) {
    ShippedTables.IsMercadoPago(t) && AddsWhatIsShipped(t)
  }

  lemma {:induction false} EntriesAreShipped(added: seq<Addition>, vouched: set<(string, string)>,
                                             render: Json -> string)
    requires |added| == |ShippedTables.ADDED_ROUTES| && |added| == |ADDED_OPERATIONS|
    requires forall i :: 0 <= i < |added| ==>
      added[i] == Addition(ShippedTables.ADDED_ROUTES[i], Operation(ADDED_OPERATIONS[i]))
    ensures IsShipped(TablesWith(added, vouched, render))
  {
    TablesAreShipped(added, vouched, render);
    AdditionsAreShipped(added, vouched, render);
  }

  lemma EveryRouteIsRendered()
    ensures |ShippedTables.ADDED_ROUTES| == |ADDED_OPERATIONS|
  {
  }

  /** There are such tables, whatever vouches for an operation. */
  lemma {:induction false} ShippedTablesExist(vouched: set<(string, string)>, render: Json -> string)
    ensures exists t :: IsShipped(t) && t.vouched == vouched
  {
    EveryRouteIsRendered();
    var added := AddedEntries(ShippedTables.ADDED_ROUTES, ADDED_OPERATIONS);
    EntriesAreShipped(added, vouched, render);
  }
}
