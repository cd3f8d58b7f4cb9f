/** Building the Swagger 2.0 document (swaggerization.go): the API header
    becomes the document's info, operations are grouped into one path item per
    path with one slot per HTTP method, definitions become named schemas and
    tags are copied. The `go-openapi/spec` types are local records here. */
module Swagger {
  import opened Strings
  import opened Wrappers
  import opened Api
  import opened Operations
  import opened Tags
  import opened Definitions

  /** A `spec.Schema`: its title, which the response conversion clears, and
      everything else, which the model does not interpret. */
  datatype Schema = Schema(title: string, rest: string)

  /** The helpers the conversion calls and whose code is not part of this model:
      `IsPrimitive` (is the Go type primitive, and its Swagger type),
      `MemberIntermediate.Schema`, the `Schema` of a response's type,
      `DefinitionIntermediate.SwaggerName` and `DefinitionIntermediate.Schema`. */
  datatype Helpers = Helpers(
    isPrimitive: string -> (bool, string),
    memberSchema: MemberType -> Schema,
    typeSchema: ResponseType -> Schema,
    swaggerName: Definition -> string,
    definitionSchema: Definition -> Schema)

  // ---- swaggerizeApi ----

  datatype Info = Info(description: string, title: string, version: string)

  datatype SwaggerDoc = SwaggerDoc(basePath: string, info: Info, swagger: string)

  /** `swaggerizeApi`: the version marker is always "2.0"; the sub-APIs are not carried over. */
  function SwaggerizeApi(intermediate: ApiIntermediate): (r: SwaggerDoc)
    ensures r.swagger == "2.0"
  {
    SwaggerDoc(intermediate.basePath, Info(intermediate.apiDescription, intermediate.apiTitle, intermediate.apiVersion), "2.0")
  }

  /** Reading the header fields back from a document. */
  function ApiOfDoc(doc: SwaggerDoc): ApiIntermediate {
    ApiIntermediate(doc.info.version, doc.info.title, doc.info.description, doc.basePath, [])
  }

  /** The document keeps every scalar header field: only the sub-APIs are lost. */
  lemma SwaggerizeApiKeepsFields(intermediate: ApiIntermediate)
    ensures ApiOfDoc(SwaggerizeApi(intermediate)) == intermediate.(subApis := [])
  {
  }

  // ---- one operation ----

  datatype SwaggerParameter = SwaggerParameter(
    name: string,
    location: string,
    required: bool,
    description: string,
    schema: Option<Schema>,
    typ: string)

  datatype SwaggerResponse = SwaggerResponse(description: string, schema: Schema)

  datatype SwaggerOperation = SwaggerOperation(
    summary: string,
    description: string,
    consumes: seq<string>,
    produces: seq<string>,
    parameters: seq<SwaggerParameter>,
    responses: Responses)

  /** `spec.Responses`: the default response, which status code 0 stands for,
      and one response per other status code. */
  datatype Responses = Responses(defaultResponse: Option<SwaggerResponse>, byCode: map<int, SwaggerResponse>)

  const NoResponses := Responses(None, map[])

  /** The response a status code selects: the default one for code 0. */
  function Lookup(rs: Responses, code: int): Option<SwaggerResponse> {
    if code == 0 then rs.defaultResponse
    else if code in rs.byCode then Some(rs.byCode[code])
    else None
  }

  /** `Operation.RespondsWith` of `go-openapi/spec`: code 0 sets the default
      response and any other code sets that code's entry; nothing else changes. */
  function RespondsWith(rs: Responses, code: int, o: SwaggerResponse): (r: Responses)
    ensures Lookup(r, code) == Some(o)
    ensures forall c :: c != code ==> Lookup(r, c) == Lookup(rs, c)
    ensures r.byCode.Keys == if code == 0 then rs.byCode.Keys else rs.byCode.Keys + {code}
    ensures r.defaultResponse.Some? <==> rs.defaultResponse.Some? || code == 0
  {
    if code == 0 then rs.(defaultResponse := Some(o))
    else rs.(byCode := rs.byCode[code := o])
  }

  /** A parameter in the body carries its type's schema; any other
      parameter carries the Swagger type `IsPrimitive` names and no schema. */
  function ParameterObject(p: ParameterIntermediate, h: Helpers): (r: SwaggerParameter)
    ensures r.name == p.typ.jsonName && r.location == p.location
    ensures r.required == p.required && r.description == p.description
    ensures r.schema.Some? <==> p.location == "body"
    ensures p.location == "body" ==> r.schema.value == h.memberSchema(p.typ)
    ensures p.location != "body" ==> r.typ == h.isPrimitive(p.typ.typeName).1
  {
    if p.location == "body" then
      SwaggerParameter(p.typ.jsonName, p.location, p.required, p.description, Some(h.memberSchema(p.typ)), "")
    else
      SwaggerParameter(p.typ.jsonName, p.location, p.required, p.description, None, h.isPrimitive(p.typ.typeName).1)
  }

  /** `ResponseIntermediate.Schema`: the type's schema with its title cleared. */
  function ResponseObject(r: ResponseIntermediate, h: Helpers): (o: SwaggerResponse)
    ensures o.description == r.description
    ensures o.schema.title == "" && o.schema.rest == h.typeSchema(r.typ).rest
  {
    SwaggerResponse(r.description, h.typeSchema(r.typ).(title := ""))
  }

  /** Where `Operation.AddParam` puts a parameter: at the entry with the same
      name and location, or after the last entry when there is none. */
  function ParamIndex(list: seq<SwaggerParameter>, name: string, location: string): (i: nat)
    ensures i <= |list|
    ensures i < |list| ==> list[i].name == name && list[i].location == location
    ensures forall j :: 0 <= j < i ==> !(list[j].name == name && list[j].location == location)
  {
    if list == [] then 0
    else if list[0].name == name && list[0].location == location then 0
    else 1 + ParamIndex(list[1..], name, location)
  }

  /** `Operation.AddParam` of `go-openapi/spec`: a parameter replaces the one with
      the same name and location, or is appended. */
  function AddParam(list: seq<SwaggerParameter>, p: SwaggerParameter): (r: seq<SwaggerParameter>)
    ensures p in r
    ensures var i := ParamIndex(list, p.name, p.location);
      if i < |list| then r == list[i := p] else r == list + [p]
  {
    var i := ParamIndex(list, p.name, p.location);
    if i < |list| then
      var r := list[i := p];
      assert r[i] == p;
      r
    else list + [p]
  }

  predicate SameSlot(a: SwaggerParameter, b: SwaggerParameter) {
    a.name == b.name && a.location == b.location
  }

  /** No two parameters share a name and a location. */
  predicate UniqueParams(list: seq<SwaggerParameter>) {
    forall i, j :: 0 <= i < j < |list| ==> !SameSlot(list[i], list[j])
  }

  lemma AddParamUnique(list: seq<SwaggerParameter>, p: SwaggerParameter)
    requires UniqueParams(list)
    ensures UniqueParams(AddParam(list, p))
  {
    var i := ParamIndex(list, p.name, p.location);
    var r := AddParam(list, p);
    if i == |list| {
      forall a, b | 0 <= a < b < |r| ensures !SameSlot(r[a], r[b]) {
        if b == |list| {
          assert r[b] == p && r[a] == list[a];
        }
      }
    }
  }

  function ParamList(ps: seq<ParameterIntermediate>, h: Helpers): seq<SwaggerParameter> {
    if ps == [] then []
    else AddParam(ParamList(ps[..|ps| - 1], h), ParameterObject(ps[|ps| - 1], h))
  }

  /** The converted parameters never share a name and a location, and the one
      converted last is among them. */
  lemma {:induction false} ParamListUnique(ps: seq<ParameterIntermediate>, h: Helpers)
    ensures UniqueParams(ParamList(ps, h))
    ensures ps != [] ==> ParameterObject(ps[|ps| - 1], h) in ParamList(ps, h)
  {
    if ps != [] {
      ParamListUnique(ps[..|ps| - 1], h);
      AddParamUnique(ParamList(ps[..|ps| - 1], h), ParameterObject(ps[|ps| - 1], h));
    }
  }

  /** `Operation.RespondsWith` for every response in turn: a later response for
      the same status code replaces an earlier one. */
  function ResponseMap(rs: seq<ResponseIntermediate>, h: Helpers): Responses {
    if rs == [] then NoResponses
    else RespondsWith(ResponseMap(rs[..|rs| - 1], h), rs[|rs| - 1].statusCode, ResponseObject(rs[|rs| - 1], h))
  }

  /** There is one keyed response per nonzero status code that occurs. */
  lemma {:induction false} ResponseMapCodes(rs: seq<ResponseIntermediate>, h: Helpers)
    ensures ResponseMap(rs, h).byCode.Keys == set k | 0 <= k < |rs| && rs[k].statusCode != 0 :: rs[k].statusCode
  {
    if rs != [] {
      var init := rs[..|rs| - 1];
      var last := rs[|rs| - 1].statusCode;
      ResponseMapCodes(init, h);
      assert (set k | 0 <= k < |rs| && rs[k].statusCode != 0 :: rs[k].statusCode) ==
        (set k | 0 <= k < |init| && init[k].statusCode != 0 :: init[k].statusCode) + (if last == 0 then {} else {last}) by {
        forall k | 0 <= k < |rs| && rs[k].statusCode != 0
          ensures rs[k].statusCode in (set k | 0 <= k < |init| && init[k].statusCode != 0 :: init[k].statusCode) + (if last == 0 then {} else {last})
        {
          if k < |init| {
            assert init[k] == rs[k];
          }
        }
        forall k | 0 <= k < |init| && init[k].statusCode != 0
          ensures init[k].statusCode in (set k | 0 <= k < |rs| && rs[k].statusCode != 0 :: rs[k].statusCode)
        {
          assert init[k] == rs[k];
        }
      }
    }
  }

  /** There is a default response exactly when status code 0 occurs. */
  lemma {:induction false} ResponseMapDefault(rs: seq<ResponseIntermediate>, h: Helpers)
    ensures ResponseMap(rs, h).defaultResponse.Some? <==> exists k :: 0 <= k < |rs| && rs[k].statusCode == 0
  {
    if rs != [] {
      var init := rs[..|rs| - 1];
      ResponseMapDefault(init, h);
      if exists k :: 0 <= k < |init| && init[k].statusCode == 0 {
        var k :| 0 <= k < |init| && init[k].statusCode == 0;
        assert rs[k] == init[k];
      }
      if exists k :: 0 <= k < |rs| && rs[k].statusCode == 0 {
        var k :| 0 <= k < |rs| && rs[k].statusCode == 0;
        if k < |init| {
          assert init[k] == rs[k];
        }
      }
    }
  }

  /** A status code, 0 included, selects the response last given for it. */
  lemma {:induction false} ResponseMapLastWins(rs: seq<ResponseIntermediate>, h: Helpers, k: nat)
    requires k < |rs|
    requires forall j :: k < j < |rs| ==> rs[j].statusCode != rs[k].statusCode
    ensures Lookup(ResponseMap(rs, h), rs[k].statusCode) == Some(ResponseObject(rs[k], h))
  {
    if k < |rs| - 1 {
      var init := rs[..|rs| - 1];
      ResponseMapLastWins(init, h, k);
    }
  }

  /** The operation object of one intermediate: what it consumes and what it
      produces are both its accepted media types. */
  function OperationObject(op: OperationIntermediate, h: Helpers): (r: SwaggerOperation)
    ensures r.consumes == op.accepts && r.produces == op.accepts
    ensures r.summary == op.summary && r.description == op.description
  {
    SwaggerOperation(op.summary, op.description, op.accepts, op.accepts,
      ParamList(op.parameters, h), ResponseMap(op.responses, h))
  }

  // ---- path items ----

  datatype HttpMethod = Put | Get | Post | Delete | Options | Head | Patch

  /** The lower-case text of each method. */
  function MethodName(m: HttpMethod): string {
    match m
    case Put => "put"
    case Get => "get"
    case Post => "post"
    case Delete => "delete"
    case Options => "options"
    case Head => "head"
    case Patch => "patch"
  }

  /** The slot a method text selects, whatever its case. */
  function MethodOf(text: string): (r: Option<HttpMethod>)
    ensures r.Some? <==> ToLower(text) in {"put", "get", "post", "delete", "options", "head", "patch"}
    ensures r.Some? ==> MethodName(r.value) == ToLower(text)
  {
    var t := ToLower(text);
    if t == "put" then Some(Put)
    else if t == "get" then Some(Get)
    else if t == "post" then Some(Post)
    else if t == "delete" then Some(Delete)
    else if t == "options" then Some(Options)
    else if t == "head" then Some(Head)
    else if t == "patch" then Some(Patch)
    else None
  }

  /** Every method's own text selects its slot. */
  lemma MethodOfName(m: HttpMethod)
    ensures MethodOf(MethodName(m)) == Some(m)
  {
    var t := MethodName(m);
    assert forall i :: 0 <= i < |t| ==> 'a' <= t[i] <= 'z';
    assert ToLower(t) == t;
  }

  datatype PathItem = PathItem(
    put: Option<SwaggerOperation>,
    get: Option<SwaggerOperation>,
    post: Option<SwaggerOperation>,
    delete: Option<SwaggerOperation>,
    options: Option<SwaggerOperation>,
    head: Option<SwaggerOperation>,
    patch: Option<SwaggerOperation>)

  const EmptyPathItem := PathItem(None, None, None, None, None, None, None)

  function Slot(item: PathItem, m: HttpMethod): Option<SwaggerOperation> {
    match m
    case Put => item.put
    case Get => item.get
    case Post => item.post
    case Delete => item.delete
    case Options => item.options
    case Head => item.head
    case Patch => item.patch
  }

  /** Filling one slot leaves the other six as they were. */
  function WithSlot(item: PathItem, m: HttpMethod, o: SwaggerOperation): (r: PathItem)
    ensures Slot(r, m) == Some(o)
    ensures forall n :: n != m ==> Slot(r, n) == Slot(item, n)
  {
    match m
    case Put => item.(put := Some(o))
    case Get => item.(get := Some(o))
    case Post => item.(post := Some(o))
    case Delete => item.(delete := Some(o))
    case Options => item.(options := Some(o))
    case Head => item.(head := Some(o))
    case Patch => item.(patch := Some(o))
  }

  /** The `switch` on the method: an unknown method changes no slot. */
  function PlaceOperation(item: PathItem, methodText: string, o: SwaggerOperation): PathItem {
    match MethodOf(methodText)
    case Some(m) => WithSlot(item, m, o)
    case None => item
  }

  function ItemAt(items: map<string, PathItem>, path: string): PathItem {
    if path in items then items[path] else EmptyPathItem
  }

  /** The path items after grouping `ops`, one after the other. */
  function PathsOf(ops: seq<OperationIntermediate>, h: Helpers): map<string, PathItem> {
    if ops == [] then map[]
    else
      var items := PathsOf(ops[..|ops| - 1], h);
      var op := ops[|ops| - 1];
      items[op.path := PlaceOperation(ItemAt(items, op.path), op.httpMethod, OperationObject(op, h))]
  }

  /** One path item per distinct path, whatever the methods. */
  lemma {:induction false} PathsKeys(ops: seq<OperationIntermediate>, h: Helpers)
    ensures PathsOf(ops, h).Keys == set k | 0 <= k < |ops| :: ops[k].path
  {
    if ops != [] {
      var init := ops[..|ops| - 1];
      PathsKeys(init, h);
      assert (set k | 0 <= k < |ops| :: ops[k].path) ==
        (set k | 0 <= k < |init| :: init[k].path) + {ops[|ops| - 1].path} by {
        forall k | 0 <= k < |ops|
          ensures ops[k].path in (set k | 0 <= k < |init| :: init[k].path) + {ops[|ops| - 1].path}
        {
          if k < |init| {
            assert init[k] == ops[k];
          }
        }
        forall k | 0 <= k < |init|
          ensures init[k].path in (set k | 0 <= k < |ops| :: ops[k].path)
        {
          assert init[k] == ops[k];
        }
      }
    }
  }

  predicate Fills(op: OperationIntermediate, path: string, m: HttpMethod) {
    op.path == path && MethodOf(op.httpMethod) == Some(m)
  }

  /** A slot holds the operation last given for its path and method. */
  lemma {:induction false} SlotLastWins(ops: seq<OperationIntermediate>, h: Helpers, k: nat, m: HttpMethod)
    requires k < |ops| && MethodOf(ops[k].httpMethod) == Some(m)
    requires forall j :: k < j < |ops| ==> !Fills(ops[j], ops[k].path, m)
    ensures ops[k].path in PathsOf(ops, h)
    ensures Slot(PathsOf(ops, h)[ops[k].path], m) == Some(OperationObject(ops[k], h))
  {
    if k < |ops| - 1 {
      var init := ops[..|ops| - 1];
      SlotLastWins(init, h, k, m);
    }
  }

  /** A slot no operation fills stays empty. */
  lemma {:induction false} SlotEmpty(ops: seq<OperationIntermediate>, h: Helpers, path: string, m: HttpMethod)
    requires forall j :: 0 <= j < |ops| ==> !Fills(ops[j], path, m)
    ensures Slot(ItemAt(PathsOf(ops, h), path), m) == None
  {
    if ops != [] {
      var init := ops[..|ops| - 1];
      SlotEmpty(init, h, path, m);
    }
  }

  /** An operation with an unknown method still registers its path and leaves
      every slot as it was. */
  lemma UnknownMethod(ops: seq<OperationIntermediate>, op: OperationIntermediate, h: Helpers)
    requires MethodOf(op.httpMethod) == None
    ensures PathsOf(ops + [op], h) == PathsOf(ops, h)[op.path := ItemAt(PathsOf(ops, h), op.path)]
  {
    assert (ops + [op])[..|ops|] == ops;
  }

  // ---- the methods ----

  method BuildParameters(ps: seq<ParameterIntermediate>, h: Helpers) returns (list: seq<SwaggerParameter>)
    ensures list == ParamList(ps, h)
  {
    list := [];
    for k := 0 to |ps|
      invariant list == ParamList(ps[..k], h)
    {
      assert ps[..k + 1][..k] == ps[..k];
      var p := ps[k];
      var parameter: SwaggerParameter;
      if p.location == "body" {
        parameter := SwaggerParameter(p.typ.jsonName, p.location, p.required, p.description, Some(h.memberSchema(p.typ)), "");
      } else {
        var prim := h.isPrimitive(p.typ.typeName);
        parameter := SwaggerParameter(p.typ.jsonName, p.location, p.required, p.description, None, prim.1);
      }
      list := AddParam(list, parameter);
    }
    assert ps[..|ps|] == ps;
  }

  method BuildResponses(rs: seq<ResponseIntermediate>, h: Helpers) returns (responses: Responses)
    ensures responses == ResponseMap(rs, h)
  {
    responses := NoResponses;
    for k := 0 to |rs|
      invariant responses == ResponseMap(rs[..k], h)
    {
      assert rs[..k + 1][..k] == rs[..k];
      var schema := h.typeSchema(rs[k].typ);
      schema := schema.(title := "");
      var response := SwaggerResponse(rs[k].description, schema);
      responses := RespondsWith(responses, rs[k].statusCode, response);
    }
    assert rs[..|rs|] == rs;
  }

  /** The `switch` on the lowercased method. */
  method PlaceMethod(item0: PathItem, methodText: string, o: SwaggerOperation) returns (item: PathItem)
    ensures item == PlaceOperation(item0, methodText, o)
  {
    item := item0;
    var verb := ToLower(methodText);
    if verb == "put" {
      item := item.(put := Some(o));
    } else if verb == "get" {
      item := item.(get := Some(o));
    } else if verb == "post" {
      item := item.(post := Some(o));
    } else if verb == "delete" {
      item := item.(delete := Some(o));
    } else if verb == "options" {
      item := item.(options := Some(o));
    } else if verb == "head" {
      item := item.(head := Some(o));
    } else if verb == "patch" {
      item := item.(patch := Some(o));
    }
  }

  /** `swaggerizeOperations`. */
  method SwaggerizeOperations(intermediates: seq<OperationIntermediate>, h: Helpers)
    returns (pathItems: map<string, PathItem>)
    ensures pathItems == PathsOf(intermediates, h)
  {
    pathItems := map[];
    for k := 0 to |intermediates|
      invariant pathItems == PathsOf(intermediates[..k], h)
    {
      assert intermediates[..k + 1][..k] == intermediates[..k];
      var op := intermediates[k];
      var pathItem := if op.path in pathItems then pathItems[op.path] else EmptyPathItem;
      var responses := BuildResponses(op.responses, h);
      var parameters := BuildParameters(op.parameters, h);
      var operationObject := SwaggerOperation(op.summary, op.description, op.accepts, op.accepts, parameters, responses);
      pathItem := PlaceMethod(pathItem, op.httpMethod, operationObject);
      pathItems := pathItems[op.path := pathItem];
    }
    assert intermediates[..|intermediates|] == intermediates;
  }

  // ---- swaggerizeDefinitions ----

  /** `swaggerizeDefinitions`. The store is ranged over in no fixed order, so
      when two definitions share a Swagger name either one's schema may end up
      under it; the result has exactly one key per distinct Swagger name. */
  method SwaggerizeDefinitions(store: DefinitionStore, h: Helpers) returns (schemas: map<string, Schema>)
    ensures schemas.Keys == set key | key in store.definitions :: h.swaggerName(store.definitions[key])
    ensures forall name :: name in schemas ==>
      exists key :: key in store.definitions && h.swaggerName(store.definitions[key]) == name &&
        schemas[name] == h.definitionSchema(store.definitions[key])
  {
    var definitions := store.definitions;
    schemas := map[];
    var remaining := definitions.Keys;
    while remaining != {}
      invariant remaining <= definitions.Keys
      invariant schemas.Keys == set key | key in definitions.Keys - remaining :: h.swaggerName(definitions[key])
      invariant forall name :: name in schemas ==>
        exists key :: key in definitions.Keys - remaining && h.swaggerName(definitions[key]) == name &&
          schemas[name] == h.definitionSchema(definitions[key])
      decreases |remaining|
    {
      var key :| key in remaining;
      var definition := definitions[key];
      var swaggerName := h.swaggerName(definition);
      schemas := schemas[swaggerName := h.definitionSchema(definition)];
      remaining := remaining - {key};
    }
  }

  /** Without name collisions every definition's schema is found under its name. */
  lemma DefinitionsWithoutCollision(definitions: map<string, Definition>, schemas: map<string, Schema>, h: Helpers, key: string)
    requires key in definitions
    requires forall a, b :: a in definitions && b in definitions && a != b ==>
      h.swaggerName(definitions[a]) != h.swaggerName(definitions[b])
    requires forall name :: name in schemas ==>
      exists k :: k in definitions && h.swaggerName(definitions[k]) == name &&
        schemas[name] == h.definitionSchema(definitions[k])
    requires h.swaggerName(definitions[key]) in schemas
    ensures schemas[h.swaggerName(definitions[key])] == h.definitionSchema(definitions[key])
  {
    var name := h.swaggerName(definitions[key]);
    var k :| k in definitions && h.swaggerName(definitions[k]) == name && schemas[name] == h.definitionSchema(definitions[k]);
    assert k == key;
  }

  // ---- swaggerizeTags ----

  datatype SwaggerTag = SwaggerTag(name: string, description: string)

  /** `swaggerizeTags`: one tag per intermediate, in order, with its name and description. */
  method SwaggerizeTags(intermediates: seq<TagIntermediate>) returns (tags: seq<SwaggerTag>)
    ensures |tags| == |intermediates|
    ensures forall k :: 0 <= k < |tags| ==>
      tags[k] == SwaggerTag(intermediates[k].name, intermediates[k].description)
  {
    tags := [];
    for k := 0 to |intermediates|
      invariant |tags| == k
      invariant forall j :: 0 <= j < k ==> tags[j] == SwaggerTag(intermediates[j].name, intermediates[j].description)
    {
      var tag := SwaggerTag(intermediates[k].name, intermediates[k].description);
      tags := tags + [tag];
    }
  }
}
