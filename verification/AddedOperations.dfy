/** Rendering an operation the document omits as an OpenAPI operation object. */
module AddedOperations {
  import opened Json
  import opened Reachability
  import PathTemplates

  const OFFICIAL_SDK_VERSION := "3.5.0"

  const FREE_OBJECT := Obj(map["type" := Str("object"), "additionalProperties" := Bool(true)])

  datatype AddedOperation = AddedOperation(
    verb: string, path: string, operationId: string, summary: string, description: string, source: string,
    query: seq<string>, requiredQuery: seq<string>, hasBody: bool, response: Option<string>, observedOn: string)

  function Typed(kind: string): Json {
    Obj(map["type" := Str(kind)])
  }

  function Parameter(name: string, location: string, required: bool, kind: string): Json {
    Obj(map["name" := Str(name), "in" := Str(location), "required" := Bool(required), "schema" := Typed(kind)])
  }

  function ParametersOf(names: seq<string>, location: string, required: bool, kind: string): (r: seq<Json>)
    ensures |r| == |names| && forall i :: 0 <= i < |r| ==> r[i] == Parameter(names[i], location, required, kind)
  {
    seq(|names|, i requires 0 <= i < |names| => Parameter(names[i], location, required, kind))
  }

  function Parameters(a: AddedOperation): seq<Json> {
    ParametersOf(PathTemplates.Placeholders(a.path), "path", true, "string")
    + ParametersOf(a.requiredQuery, "query", true, "string")
    + ParametersOf(a.query, "query", false, "integer")
  }

  function ContentOf(schema: Json): Json {
    Obj(map["application/json" := Obj(map["schema" := schema])])
  }

  /** The one response of an operation that answers `schema`. */
  function Answering(description: string, schema: Json): Json {
    Obj(map["200" := Obj(map["description" := Str(description), "content" := ContentOf(schema)])])
  }

  function ResponsesOf(a: AddedOperation): Json {
    match a.response
    case Some(name) => Answering("The provider's response, as observed on " + a.observedOn + ".", RefTo(name))
    case None => Answering("The provider's response, unmodelled.", FREE_OBJECT)
  }

  function RequestBody(): Json {
    Obj(map["required" := Bool(true), "content" := ContentOf(FREE_OBJECT)])
  }

  function DescriptionOf(a: AddedOperation): string {
    a.description + "\n\n" + "Declared by `scripts/mercadopago_overlay.py` from mercadopago " +
    OFFICIAL_SDK_VERSION + " `" + a.source + "`."
  }

  function Header(a: AddedOperation): (header: map<string, Json>)
    ensures "$ref" !in header && forall k :: k in header ==> header[k].Str?
  {
    map["operationId" := Str(a.operationId), "summary" := Str(a.summary), "description" := Str(DescriptionOf(a))]
  }

  function Operation(a: AddedOperation): Json {
    var operation := Header(a)["parameters" := Arr(Parameters(a))]["responses" := ResponsesOf(a)];
    Obj(if a.hasBody then operation["requestBody" := RequestBody()] else operation)
  }

  /** The three loops over the names of parameters. */
  method RenderParameters(a: AddedOperation) returns (parameters: seq<Json>)
    ensures parameters == Parameters(a)
  {
    parameters := [];
    var names := PathTemplates.PathParameters(a.path);
    for i := 0 to |names|
      invariant parameters == ParametersOf(names[..i], "path", true, "string")
    {
      parameters := parameters + [Parameter(names[i], "path", true, "string")];
    }
    assert names[..|names|] == names;
    ghost var fromPath := parameters;
    for i := 0 to |a.requiredQuery|
      invariant parameters == fromPath + ParametersOf(a.requiredQuery[..i], "query", true, "string")
    {
      parameters := parameters + [Parameter(a.requiredQuery[i], "query", true, "string")];
    }
    assert a.requiredQuery[..|a.requiredQuery|] == a.requiredQuery;
    ghost var required := parameters;
    for i := 0 to |a.query|
      invariant parameters == required + ParametersOf(a.query[..i], "query", false, "integer")
    {
      parameters := parameters + [Parameter(a.query[i], "query", false, "integer")];
    }
    assert a.query[..|a.query|] == a.query;
  }

  /** `_operation`. */
  method Render(a: AddedOperation) returns (operation: Json)
    ensures operation == Operation(a)
  {
    var response, description := FREE_OBJECT, "The provider's response, unmodelled.";
    if a.response.Some? {
      response := RefTo(a.response.value);
      description := "The provider's response, as observed on " + a.observedOn + ".";
    }
    var parameters := RenderParameters(a);
    var fields := Header(a)["parameters" := Arr(parameters)]["responses" := Answering(description, response)];
    if a.hasBody {
      fields := fields["requestBody" := RequestBody()];
    }
    operation := Obj(fields);
  }

  // ----- What a rendered operation declares -----

  /** An entry of `parameters` with these four keys and no other. */
  ghost predicate Declares(parameter: Json, name: string, location: string, required: bool, kind: string) {
    && parameter.Obj? && parameter.fields.Keys == {"name", "in", "required", "schema"}
    && parameter.fields["name"] == Str(name) && parameter.fields["in"] == Str(location)
    && parameter.fields["required"] == Bool(required)
    && parameter.fields["schema"] == Obj(map["type" := Str(kind)])
  }

  lemma {:induction false} ParameterDeclares(name: string, location: string, required: bool, kind: string)
    ensures Declares(Parameter(name, location, required, kind), name, location, required, kind)
  {
    assert "name"[0] == 'n' && "in"[0] == 'i' && "required"[0] == 'r' && "schema"[0] == 's';
  }

  ghost predicate AllDeclare(parameters: seq<Json>, names: seq<string>, location: string, required: bool,
                             kind: string)
  {
    && |parameters| == |names|
    && forall i :: 0 <= i < |names| ==> Declares(parameters[i], names[i], location, required, kind)
  }

  lemma {:induction false} ParametersDeclare(names: seq<string>, location: string, required: bool, kind: string)
    ensures AllDeclare(ParametersOf(names, location, required, kind), names, location, required, kind)
  {
    forall i | 0 <= i < |names| ensures Declares(Parameter(names[i], location, required, kind), names[i], location,
        required, kind) {
      ParameterDeclares(names[i], location, required, kind);
    }
  }

  /** The parameters of a rendered operation, in order: each placeholder of the path, required
      and in the path; each required query name, required and in the query; and each other
      query name, not required. */
  lemma {:induction false} ParametersAreExact(a: AddedOperation)
    returns (inPath: seq<Json>, required: seq<Json>, optional: seq<Json>)
    ensures "parameters" in Operation(a).fields
    ensures Operation(a).fields["parameters"] == Arr(inPath + required + optional)
    ensures AllDeclare(inPath, PathTemplates.Placeholders(a.path), "path", true, "string")
    ensures AllDeclare(required, a.requiredQuery, "query", true, "string")
    ensures AllDeclare(optional, a.query, "query", false, "integer")
  {
    ParametersAreRendered(a);
    inPath := ParametersOf(PathTemplates.Placeholders(a.path), "path", true, "string");
    required := ParametersOf(a.requiredQuery, "query", true, "string");
    optional := ParametersOf(a.query, "query", false, "integer");
    ParametersDeclare(PathTemplates.Placeholders(a.path), "path", true, "string");
    ParametersDeclare(a.requiredQuery, "query", true, "string");
    ParametersDeclare(a.query, "query", false, "integer");
  }

  lemma ParametersAreRendered(a: AddedOperation)
    ensures "parameters" in Operation(a).fields && Operation(a).fields["parameters"] == Arr(Parameters(a))
  {
    assert "parameters"[0] == 'p' && "responses"[0] == 'r' && "requestBody"[0] == 'r';
  }

  /** For a template written out from its pieces, those are its names. */
  lemma {:induction false} PathParametersAreNames(a: AddedOperation, pieces: seq<PathTemplates.Piece>)
    requires PathTemplates.WellFormed(pieces) && a.path == PathTemplates.Render(pieces)
    ensures PathTemplates.Placeholders(a.path) == PathTemplates.Names(pieces)
  {
    PathTemplates.TemplateParts(pieces);
  }

  /** A body is declared exactly when the entry has one, and is required. */
  lemma {:induction false} BodyIsDeclaredExactly(a: AddedOperation)
    ensures var fields := Operation(a).fields;
      && ("requestBody" in fields <==> a.hasBody)
      && (a.hasBody ==> fields["requestBody"].Has("required") &&
                        fields["requestBody"].fields["required"] == Bool(true))
  {
    assert "parameters"[0] == 'p' && |"responses"| == 9 && "requestBody"[0] == 'r' && "operationId"[0] == 'o';
    assert |"summary"| == 7 && "description"[0] == 'd' && |"requestBody"| == 11;
    assert "requestBody" !in Header(a);
  }

  lemma {:induction false} HeaderIsKept(a: AddedOperation, key: string)
    requires key in Header(a) && key !in {"parameters", "responses", "requestBody"}
    ensures key in Operation(a).fields && Operation(a).fields[key] == Header(a)[key]
  {
  }

  /** The operation keeps the identifier and the summary of its entry, and says what the entry
      says before where it comes from. */
  lemma {:induction false} HeadingsAreKept(a: AddedOperation)
    ensures Operation(a).Get("operationId") == Some(Str(a.operationId))
    ensures Operation(a).Get("summary") == Some(Str(a.summary))
  {
    assert |"parameters"| == 10 && |"responses"| == 9 && |"requestBody"| == 11 && |"summary"| == 7;
    assert "operationId"[0] == 'o' && "requestBody"[0] == 'r';
    HeaderIsKept(a, "operationId");
    HeaderIsKept(a, "summary");
  }

  lemma {:induction false} DescriptionIsKept(a: AddedOperation)
    ensures Operation(a).Has("description") && Operation(a).fields["description"].Str?
    ensures a.description <= Operation(a).fields["description"].s
  {
    assert |"parameters"| == 10 && |"responses"| == 9 && "description"[0] == 'd' && "requestBody"[0] == 'r';
    HeaderIsKept(a, "description");
  }

  lemma {:induction false} ResponsesAreRendered(a: AddedOperation)
    ensures Operation(a).Get("responses") == Some(ResponsesOf(a))
  {
    assert |"parameters"| == 10 && |"responses"| == 9 && |"requestBody"| == 11;
  }

  /** The one response carries the observed schema by reference, or any object. */
  ghost predicate Answers(response: Json, schema: Json) {
    && response.Has("content") && response.fields["content"].Has("application/json")
    && response.fields["content"].fields["application/json"] == Obj(map["schema" := schema])
  }

  lemma {:induction false} AnswerIsExact(description: string, schema: Json)
    ensures Answering(description, schema).fields.Keys == {"200"}
    ensures Answers(Answering(description, schema).fields["200"], schema)
  {
  }

  lemma {:induction false} ResponseIsExact(a: AddedOperation)
    ensures Operation(a).Has("responses") && Operation(a).fields["responses"].Obj?
    ensures Operation(a).fields["responses"].fields.Keys == {"200"}
    ensures Answers(Operation(a).fields["responses"].fields["200"],
                    match a.response
                    case Some(name) => Obj(map["$ref" := Str("#/components/schemas/" + name)])
                    case None => Obj(map["type" := Str("object"), "additionalProperties" := Bool(true)]))
  {
    ResponsesAreRendered(a);
    match a.response
    case Some(name) =>
      AnswerIsExact("The provider's response, as observed on " + a.observedOn + ".", RefTo(name));
    case None =>
      AnswerIsExact("The provider's response, unmodelled.", FREE_OBJECT);
  }

  // ----- What a rendered operation refers to -----

  lemma {:induction false} RefsOfAnswer(description: string, schema: Json)
    ensures Refs(Answering(description, schema)) == Refs(schema)
  {
    var content := ContentOf(schema).fields;
    var body := content["application/json"].fields;
    var answer := Answering(description, schema).fields["200"].fields;
    RefsOfPart(body, "schema");
    RefsOfPart(content, "application/json");
    RefsOfPart(answer, "content");
    RefsOfPart(Answering(description, schema).fields, "200");
    RefsOfMapping(body, Refs(schema));
    RefsOfMapping(content, Refs(schema));
    RefsOfMapping(answer, Refs(schema));
    RefsOfMapping(Answering(description, schema).fields, Refs(schema));
  }

  lemma {:induction false} NoRefsInParameters(a: AddedOperation)
    ensures Refs(Arr(Parameters(a))) == {}
  {
    forall i | 0 <= i < |Parameters(a)| ensures Refs(Parameters(a)[i]) == {} {
      var fields := Parameters(a)[i].fields;
      RefsOfMapping(fields["schema"].fields, {});
      RefsOfMapping(fields, {});
    }
  }

  lemma {:induction false} BodyHasNoRefs()
    ensures Refs(RequestBody()) == {}
  {
    var content := ContentOf(FREE_OBJECT).fields;
    RefsOfMapping(FREE_OBJECT.fields, {});
    RefsOfMapping(content["application/json"].fields, {});
    RefsOfMapping(content, {});
    RefsOfMapping(RequestBody().fields, {});
  }

  function ResponseNames(a: AddedOperation): set<string> {
    if a.response.Some? then {a.response.value} else {}
  }

  lemma {:induction false} ResponsesRefs(a: AddedOperation)
    ensures Refs(ResponsesOf(a)) == ResponseNames(a)
  {
    match a.response
    case Some(name) =>
      RefsOfRef(name);
      RefsOfAnswer("The provider's response, as observed on " + a.observedOn + ".", RefTo(name));
    case None =>
      RefsOfMapping(FREE_OBJECT.fields, {});
      RefsOfAnswer("The provider's response, unmodelled.", FREE_OBJECT);
  }

  /** An operation refers to the schema of its observed response, and to nothing when none
      was observed. */
  lemma {:induction false} OperationRefs(a: AddedOperation)
    ensures Refs(Operation(a)) == ResponseNames(a)
  {
    var described := Header(a)["parameters" := Arr(Parameters(a))];
    var answered := described["responses" := ResponsesOf(a)];
    RefsOfMapping(Header(a), {});
    NoRefsInParameters(a);
    RefsOfUpdate(Header(a), "parameters", Arr(Parameters(a)));
    ResponsesRefs(a);
    RefsOfUpdate(described, "responses", ResponsesOf(a));
    BodyHasNoRefs();
    RefsOfUpdate(answered, "requestBody", RequestBody());
    RefsOfPart(Operation(a).fields, "responses");
  }
}
